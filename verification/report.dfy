/**
 * The expenses report page: the date-range filter over the loaded
 * expenses, the summary figures, the per-area, per-payment-method and
 * per-month sums, and the orders the tables are shown in.
 *
 * Stored expense dates have the form "YYYY-MM-DD HH:mm:ss" (the expenses
 * page normalises them to it before saving), so formatting one with
 * 'YYYY-MM-DD' or 'YYYY-MM' keeps its first 10 or 7 characters.
 */
module ExpensesReport {
  import opened Text
  import opened Entities
  import opened Sorting
  import Search

  // ---------------------------------------------------------------------------
  // Date keys

  /** The stored date formatted as 'YYYY-MM-DD'. */
  function DayKey(date: string): (k: string)
    ensures |date| >= 10 ==> |k| == 10 && k == date[..10]
  {
    if |date| >= 10 then date[..10] else date
  }

  /** The stored date formatted as 'YYYY-MM'. */
  function MonthKey(date: string): (k: string)
    ensures |date| >= 7 ==> |k| == 7 && k == date[..7]
  {
    if |date| >= 7 then date[..7] else date
  }

  /** The month key is the start of the day key. */
  lemma MonthOfDay(date: string)
    requires |date| >= 10
    ensures MonthKey(date) == DayKey(date)[..7]
  {
  }

  // ---------------------------------------------------------------------------
  // Date-range filter

  /** `start <= day && day <= end` under JavaScript string order. */
  predicate InRange(e: BusinessExpense, start: string, end: string) {
    LexLe(start, DayKey(e.date)) && LexLe(DayKey(e.date), end)
  }

  /** The expenses whose day lies in the range, in list order. */
  function FilterByDate(xs: seq<BusinessExpense>, start: string, end: string): (r: seq<BusinessExpense>)
    ensures |r| <= |xs|
    ensures forall e :: e in r <==> e in xs && InRange(e, start, end)
    ensures Search.Subsequence(r, xs)
  {
    if |xs| == 0 then []
    else
      var rest := FilterByDate(xs[1..], start, end);
      assert forall e :: e in xs <==> e == xs[0] || e in xs[1..];
      if InRange(xs[0], start, end) then [xs[0]] + rest else rest
  }

  /** An expense in range is kept as often as it occurs; one out of range not at all. */
  lemma {:induction false} FilterByDateCounts(xs: seq<BusinessExpense>, start: string, end: string)
    ensures var r := FilterByDate(xs, start, end);
      forall e :: e in xs ==> multiset(r)[e] == if InRange(e, start, end) then multiset(xs)[e] else 0
    decreases |xs|
  {
    if |xs| > 0 {
      var tail := xs[1..];
      var rest := FilterByDate(tail, start, end);
      var r := FilterByDate(xs, start, end);
      FilterByDateCounts(tail, start, end);
      assert xs == [xs[0]] + tail;
      assert r == if InRange(xs[0], start, end) then [xs[0]] + rest else rest;
      forall e | e in xs
        ensures multiset(r)[e] == if InRange(e, start, end) then multiset(xs)[e] else 0
      {
        var here := if e == xs[0] then 1 else 0;
        assert multiset(xs)[e] == here + multiset(tail)[e];
        if e !in tail {
          assert e !in rest;
        }
        assert multiset(rest)[e] == if InRange(e, start, end) then multiset(tail)[e] else 0;
        if InRange(xs[0], start, end) {
          assert multiset(r)[e] == here + multiset(rest)[e];
        }
      }
    }
  }

  /** Both ends of the range are inclusive. */
  lemma RangeIsInclusive(xs: seq<BusinessExpense>, e: BusinessExpense, start: string, end: string)
    requires e in xs && LexLe(start, end)
    requires DayKey(e.date) == start || DayKey(e.date) == end
    ensures e in FilterByDate(xs, start, end)
  {
    LexLeReflexive(start);
    LexLeReflexive(end);
  }

  /** A range whose end comes before its start keeps nothing. */
  lemma ReversedRangeIsEmpty(xs: seq<BusinessExpense>, start: string, end: string)
    requires LexLt(end, start)
    ensures FilterByDate(xs, start, end) == []
  {
    if FilterByDate(xs, start, end) != [] {
      var e := FilterByDate(xs, start, end)[0];
      assert e in FilterByDate(xs, start, end);
      LexLeTransitive(start, DayKey(e.date), end);
      LexLeAntisymmetric(start, end);
    }
  }

  // ---------------------------------------------------------------------------
  // Page state

  datatype Page = Page(expenses: seq<BusinessExpense>, startDate: string, endDate: string, filtered: seq<BusinessExpense>)

  datatype Input =
    | Loaded(data: seq<BusinessExpense>)
    | LoadFailed
    | SetStartDate(day: string)
    | SetEndDate(day: string)
    | ApplyFilter

  /** The effect that re-filters when the list or a date changes. */
  predicate RefilterGuard(p: Page) {
    |p.expenses| > 0 && p.startDate != "" && p.endDate != ""
  }

  function Refilter(p: Page): (r: Page)
    ensures r.expenses == p.expenses && r.startDate == p.startDate && r.endDate == p.endDate
    ensures RefilterGuard(p) ==> r.filtered == FilterByDate(p.expenses, p.startDate, p.endDate)
    ensures RefilterGuard(p) ==> forall e :: e in r.filtered <==> e in p.expenses && InRange(e, p.startDate, p.endDate)
    ensures !RefilterGuard(p) ==> r.filtered == p.filtered
  {
    if RefilterGuard(p) then p.(filtered := FilterByDate(p.expenses, p.startDate, p.endDate)) else p
  }

  /** One input; a failed load leaves the lists alone (the page shows an error instead). */
  function Step(p: Page, i: Input): (r: Page)
    ensures i.SetStartDate? ==> r.startDate == i.day && r.endDate == p.endDate
    ensures i.SetEndDate? ==> r.endDate == i.day && r.startDate == p.startDate
    ensures i.LoadFailed? ==> r == p
    ensures i.ApplyFilter? ==> r.filtered == FilterByDate(p.expenses, p.startDate, p.endDate)
    ensures i.ApplyFilter? ==> forall e :: e in r.filtered <==> e in p.expenses && InRange(e, p.startDate, p.endDate)
  {
    match i
    case Loaded(data) => Refilter(p.(expenses := data))
    case LoadFailed => p
    case SetStartDate(day) => Refilter(p.(startDate := day))
    case SetEndDate(day) => Refilter(p.(endDate := day))
    case ApplyFilter => p.(filtered := FilterByDate(p.expenses, p.startDate, p.endDate))
  }

  /** The filtered list is up to date whenever the guard holds after an input. */
  lemma FilteredIsCurrent(p: Page, i: Input)
    requires !i.LoadFailed?
    ensures var r := Step(p, i);
      RefilterGuard(r) ==> r.filtered == FilterByDate(r.expenses, r.startDate, r.endDate)
  {
  }

  /** Clearing a date keeps the list filtered with the old range. */
  lemma ClearedDateKeepsList(p: Page)
    ensures Step(p, SetEndDate("")).filtered == p.filtered
    ensures Step(p, SetStartDate("")).filtered == p.filtered
  {
  }

  /** The Apply button filters even without an end date, and then nothing with a day is kept. */
  lemma ApplyWithoutEndDate(p: Page)
    requires p.endDate == ""
    requires forall e :: e in p.expenses ==> DayKey(e.date) != ""
    ensures Step(p, ApplyFilter).filtered == []
  {
    forall e | e in p.expenses ensures !InRange(e, p.startDate, p.endDate) {
      assert !LexLe(DayKey(e.date), "");
    }
    FilterKeepsNone(p.expenses, p.startDate, p.endDate);
  }

  /** When no expense is in range the filtered list is empty. */
  lemma {:induction false} FilterKeepsNone(xs: seq<BusinessExpense>, start: string, end: string)
    requires forall e :: e in xs ==> !InRange(e, start, end)
    ensures FilterByDate(xs, start, end) == []
    decreases |xs|
  {
    if |xs| > 0 {
      assert xs[0] in xs;
      assert forall e :: e in xs[1..] ==> e in xs;
      FilterKeepsNone(xs[1..], start, end);
    }
  }

  // ---------------------------------------------------------------------------
  // Sums

  /** The amounts added up in list order. */
  function Total(xs: seq<BusinessExpense>): int {
    if |xs| == 0 then 0 else Total(xs[..|xs| - 1]) + xs[|xs| - 1].totalAmount
  }

  datatype Grouping = ByArea | ByMethod | ByMonth

  function KeyOf(g: Grouping, e: BusinessExpense): string {
    match g
    case ByArea => e.specificArea
    case ByMethod => e.paymentMethod
    case ByMonth => MonthKey(e.date)
  }

  /** The amounts of the expenses whose key is `k`. */
  function TotalFor(xs: seq<BusinessExpense>, g: Grouping, k: string): int {
    if |xs| == 0 then 0
    else TotalFor(xs[..|xs| - 1], g, k) + (if KeyOf(g, xs[|xs| - 1]) == k then xs[|xs| - 1].totalAmount else 0)
  }

  /** One row of a grouped table. */
  datatype Entry = Entry(key: string, amount: int)

  predicate DistinctKeys(es: seq<Entry>) {
    forall i, j :: 0 <= i < j < |es| ==> es[i].key != es[j].key
  }

  function KeySet(es: seq<Entry>): set<string> {
    set i | 0 <= i < |es| :: es[i].key
  }

  /** `acc[k] || 0`: the amount stored under `k`, or 0. */
  function Lookup(es: seq<Entry>, k: string): int {
    if |es| == 0 then 0 else if es[0].key == k then es[0].amount else Lookup(es[1..], k)
  }

  function EntriesTotal(es: seq<Entry>): int {
    if |es| == 0 then 0 else es[0].amount + EntriesTotal(es[1..])
  }

  /** `acc[k] = (acc[k] || 0) + a`: a new key goes last, an existing key keeps its place. */
  function Add(es: seq<Entry>, k: string, a: int): (r: seq<Entry>)
    ensures KeySet(r) == KeySet(es) + {k}
    ensures DistinctKeys(es) ==> DistinctKeys(r)
    ensures forall j :: Lookup(r, j) == Lookup(es, j) + (if j == k then a else 0)
    ensures EntriesTotal(r) == EntriesTotal(es) + a
  {
    if |es| == 0 then
      var r := [Entry(k, a)];
      assert r[0].key == k && KeySet(es) == {};
      assert KeySet(r) == {k};
      r
    else if es[0].key == k then
      var r := [Entry(k, es[0].amount + a)] + es[1..];
      assert forall i :: 0 <= i < |r| ==> r[i].key == es[i].key;
      SameKeys(es, r);
      r
    else
      var rest := Add(es[1..], k, a);
      ConsFacts(es, k, rest);
      [es[0]] + rest
  }

  /** Tables whose rows have the same keys position by position. */
  lemma SameKeys(es: seq<Entry>, r: seq<Entry>)
    requires |es| == |r| && forall i :: 0 <= i < |r| ==> r[i].key == es[i].key
    ensures KeySet(r) == KeySet(es)
    ensures DistinctKeys(es) ==> DistinctKeys(r)
  {
    forall x | x in KeySet(r) ensures x in KeySet(es) {
      var i :| 0 <= i < |r| && r[i].key == x;
      assert es[i].key == x;
    }
    forall x | x in KeySet(es) ensures x in KeySet(r) {
      var i :| 0 <= i < |es| && es[i].key == x;
      assert r[i].key == x;
    }
  }

  /** The keys of a table are its first key and the keys of its tail. */
  lemma KeySetCons(es: seq<Entry>)
    requires |es| > 0
    ensures KeySet(es) == {es[0].key} + KeySet(es[1..])
  {
    forall x | x in KeySet(es) ensures x in {es[0].key} + KeySet(es[1..]) {
      var i :| 0 <= i < |es| && es[i].key == x;
      if i > 0 { assert es[1..][i - 1].key == x; }
    }
    forall x | x in KeySet(es[1..]) ensures x in KeySet(es) {
      var i :| 0 <= i < |es[1..]| && es[1..][i].key == x;
      assert es[i + 1].key == x;
    }
    assert es[0].key in KeySet(es);
  }

  /** The key set and distinctness of a table, from those of its tail. */
  lemma ConsFacts(es: seq<Entry>, k: string, rest: seq<Entry>)
    requires |es| > 0 && es[0].key != k
    requires KeySet(rest) == KeySet(es[1..]) + {k}
    requires DistinctKeys(es[1..]) ==> DistinctKeys(rest)
    ensures KeySet([es[0]] + rest) == KeySet(es) + {k}
    ensures DistinctKeys(es) ==> DistinctKeys([es[0]] + rest)
  {
    KeySetCons(es);
    var r := [es[0]] + rest;
    KeySetCons(r);
    assert r[1..] == rest;
    if DistinctKeys(es) {
      assert DistinctKeys(es[1..]) by {
        forall i, j | 0 <= i < j < |es[1..]| ensures es[1..][i].key != es[1..][j].key {
          assert es[1..][i] == es[i + 1] && es[1..][j] == es[j + 1];
        }
      }
      forall j | 0 < j < |r| ensures r[0].key != r[j].key {
        assert r[j] == rest[j - 1];
        assert r[j].key in KeySet(rest);
        if r[j].key != k {
          var i :| 0 <= i < |es[1..]| && es[1..][i].key == r[j].key;
          assert es[i + 1].key == r[j].key;
        }
      }
      forall i, j | 0 < i < j < |r| ensures r[i].key != r[j].key {
        assert r[i] == rest[i - 1] && r[j] == rest[j - 1];
      }
    }
  }

  /** `xs.reduce((acc, e) => { acc[key(e)] = (acc[key(e)] || 0) + e.totalAmount; ... }, {})`. */
  function GroupSums(xs: seq<BusinessExpense>, g: Grouping): (r: seq<Entry>)
    ensures DistinctKeys(r)
    ensures KeySet(r) == set e | e in xs :: KeyOf(g, e)
    ensures forall k :: Lookup(r, k) == TotalFor(xs, g, k)
    ensures EntriesTotal(r) == Total(xs)
  {
    if |xs| == 0 then []
    else
      var init := xs[..|xs| - 1];
      var last := xs[|xs| - 1];
      assert xs == init + [last];
      var prev := GroupSums(init, g);
      KeysOfSnoc(init, last, g);
      Add(prev, KeyOf(g, last), last.totalAmount)
  }

  lemma KeysOfSnoc(init: seq<BusinessExpense>, last: BusinessExpense, g: Grouping)
    ensures (set e | e in init + [last] :: KeyOf(g, e)) == (set e | e in init :: KeyOf(g, e)) + {KeyOf(g, last)}
  {
    var xs := init + [last];
    var keys := set e | e in xs :: KeyOf(g, e);
    var before := set e | e in init :: KeyOf(g, e);
    forall x | x in keys ensures x in before + {KeyOf(g, last)} {
      var e :| e in xs && KeyOf(g, e) == x;
      if e != last { assert e in init; }
    }
  }

  /** Every row of a grouped table holds the sum of its key's amounts. */
  lemma GroupRowsAreSums(xs: seq<BusinessExpense>, g: Grouping)
    ensures var es := GroupSums(xs, g);
      forall i :: 0 <= i < |es| ==> es[i].amount == TotalFor(xs, g, es[i].key)
  {
    var es := GroupSums(xs, g);
    forall i | 0 <= i < |es| ensures es[i].amount == TotalFor(xs, g, es[i].key) {
      LookupFindsRow(es, i);
    }
  }

  /** With distinct keys the lookup of a row's key finds that row. */
  lemma {:induction false} LookupFindsRow(es: seq<Entry>, i: int)
    requires DistinctKeys(es) && 0 <= i < |es|
    ensures Lookup(es, es[i].key) == es[i].amount
    decreases |es|
  {
    if i > 0 {
      assert es[0].key != es[i].key;
      assert DistinctKeys(es[1..]) by {
        forall a, b | 0 <= a < b < |es[1..]| ensures es[1..][a].key != es[1..][b].key {
          assert es[1..][a] == es[a + 1] && es[1..][b] == es[b + 1];
        }
      }
      LookupFindsRow(es[1..], i - 1);
    }
  }

  // ---------------------------------------------------------------------------
  // Summary

  datatype Summary = Summary(
    totalExpenses: int,
    totalCount: nat,
    averageExpense: real,
    expensesByArea: seq<Entry>,
    expensesByPaymentMethod: seq<Entry>,
    expensesByMonth: seq<Entry>)

  /** `a.month.localeCompare(b.month)` for month keys. */
  function MonthOrder(a: Entry, b: Entry): int {
    if a.key == b.key then 0 else if LexLe(a.key, b.key) then -1 else 1
  }

  lemma MonthOrderConsistent()
    ensures Consistent(MonthOrder)
  {
    forall a: Entry, b: Entry ensures MonthOrder(a, b) <= 0 || MonthOrder(b, a) <= 0 {
      LexLeTotal(a.key, b.key);
    }
    forall a: Entry, b: Entry, c: Entry | MonthOrder(a, b) <= 0 && MonthOrder(b, c) <= 0
      ensures MonthOrder(a, c) <= 0
    {
      if a.key != b.key && b.key != c.key {
        LexLeTransitive(a.key, b.key, c.key);
      }
    }
  }

  /** `total / count`, or 0 for an empty list. */
  function Average(total: int, count: nat): (avg: real)
    ensures count == 0 ==> avg == 0.0
    ensures count > 0 ==> avg * (count as real) == total as real
  {
    if count > 0 then total as real / count as real else 0.0
  }

  /** The per-month table: one row per month, earliest month first. */
  function MonthTable(filtered: seq<BusinessExpense>): (r: seq<Entry>)
    ensures multiset(r) == multiset(GroupSums(filtered, ByMonth))
    ensures forall i, j :: 0 <= i < j < |r| ==> LexLt(r[i].key, r[j].key)
  {
    var months := GroupSums(filtered, ByMonth);
    var sorted := Sort(months, MonthOrder);
    MonthOrderConsistent();
    SortSorted(months, MonthOrder);
    SortedDistinctIsStrict(months, sorted);
    sorted
  }

  function Summarize(filtered: seq<BusinessExpense>): (s: Summary)
    ensures s.totalCount == |filtered|
    ensures s.totalCount == 0 ==> s.totalExpenses == 0 && s.averageExpense == 0.0
    ensures s.averageExpense == Average(s.totalExpenses, s.totalCount)
    ensures EntriesTotal(s.expensesByArea) == s.totalExpenses
    ensures EntriesTotal(s.expensesByPaymentMethod) == s.totalExpenses
    ensures multiset(s.expensesByMonth) == multiset(GroupSums(filtered, ByMonth))
    ensures forall i, j :: 0 <= i < j < |s.expensesByMonth| ==> LexLt(s.expensesByMonth[i].key, s.expensesByMonth[j].key)
  {
    var total := Total(filtered);
    var count := |filtered|;
    var avg := Average(total, count);
    var areas := GroupSums(filtered, ByArea);
    assert EntriesTotal(areas) == total;
    var methods := GroupSums(filtered, ByMethod);
    assert EntriesTotal(methods) == total;
    var months := MonthTable(filtered);
    Summary(total, count, avg, areas, methods, months)
  }

  /** A month table sorted by key whose keys are distinct is strictly ascending. */
  lemma SortedDistinctIsStrict(months: seq<Entry>, sorted: seq<Entry>)
    requires DistinctKeys(months) && multiset(sorted) == multiset(months)
    requires Sorted(sorted, MonthOrder)
    ensures forall i, j :: 0 <= i < j < |sorted| ==> LexLt(sorted[i].key, sorted[j].key)
  {
    forall i, j | 0 <= i < j < |sorted| ensures LexLt(sorted[i].key, sorted[j].key) {
      assert MonthOrder(sorted[i], sorted[j]) <= 0;
      if sorted[i].key == sorted[j].key {
        PermutationKeepsDistinct(months, sorted, i, j);
      }
    }
  }

  /** A permutation of a table with distinct keys has distinct keys. */
  lemma PermutationKeepsDistinct(months: seq<Entry>, sorted: seq<Entry>, i: int, j: int)
    requires DistinctKeys(months) && multiset(sorted) == multiset(months)
    requires 0 <= i < j < |sorted|
    ensures sorted[i].key != sorted[j].key
  {
    if sorted[i].key == sorted[j].key {
      assert sorted[i] in multiset(months) && sorted[j] in multiset(months);
      var a :| 0 <= a < |months| && months[a] == sorted[i];
      var b :| 0 <= b < |months| && months[b] == sorted[j];
      if a == b {
        // The same entry twice in `sorted` needs it twice in `months`.
        assert sorted[i] == sorted[j];
        var pair := multiset{sorted[i], sorted[j]};
        assert pair <= multiset(sorted) by {
          assert sorted == sorted[..i] + [sorted[i]] + sorted[i + 1..j] + [sorted[j]] + sorted[j + 1..];
        }
        MultiplicityInDistinct(months, a);
        assert false;
      }
    }
  }

  /** An entry of a table with distinct keys occurs in it once. */
  lemma {:induction false} MultiplicityInDistinct(es: seq<Entry>, a: int)
    requires DistinctKeys(es) && 0 <= a < |es|
    ensures multiset(es)[es[a]] == 1
    decreases |es|
  {
    assert es == [es[0]] + es[1..];
    assert DistinctKeys(es[1..]) by {
      forall x, y | 0 <= x < y < |es[1..]| ensures es[1..][x].key != es[1..][y].key {
        assert es[1..][x] == es[x + 1] && es[1..][y] == es[y + 1];
      }
    }
    if a == 0 {
      assert multiset(es[1..])[es[0]] == 0;
    } else {
      MultiplicityInDistinct(es[1..], a - 1);
      assert es[0] != es[a];
    }
  }

  // ---------------------------------------------------------------------------
  // Display orders

  /** `(a, b) => b.amount - a.amount`: larger amounts first. */
  function ByAmountDescending(a: Entry, b: Entry): int {
    b.amount - a.amount
  }

  /**
   * Stands in for `(a, b) => dayjs(b.date).valueOf() - dayjs(a.date).valueOf()`
   * by comparing the date texts: later dates first. On the dates the expenses
   * page stores the two orders agree (`PageForms.StoredDatesSortByCalendar`).
   */
  function ByDateDescending(a: BusinessExpense, b: BusinessExpense): int {
    if a.date == b.date then 0 else if LexLe(b.date, a.date) then -1 else 1
  }

  lemma ByDateDescendingConsistent()
    ensures Consistent(ByDateDescending)
  {
    forall a: BusinessExpense, b: BusinessExpense ensures ByDateDescending(a, b) <= 0 || ByDateDescending(b, a) <= 0 {
      LexLeTotal(a.date, b.date);
    }
    forall a: BusinessExpense, b: BusinessExpense, c: BusinessExpense | ByDateDescending(a, b) <= 0 && ByDateDescending(b, c) <= 0
      ensures ByDateDescending(a, c) <= 0
    {
      if a.date != b.date && b.date != c.date {
        LexLeTransitive(c.date, b.date, a.date);
      }
    }
  }

  /** The area or payment-method table as shown: the same rows, larger amounts first. */
  function AmountTable(es: seq<Entry>): (r: seq<Entry>)
    ensures multiset(r) == multiset(es)
    ensures forall i, j :: 0 <= i < j < |r| ==> r[i].amount >= r[j].amount
  {
    var r := Sort(es, ByAmountDescending);
    SortSorted(es, ByAmountDescending);
    r
  }

  /** The detail list as shown: the same expenses, later dates first. */
  function DetailList(filtered: seq<BusinessExpense>): (r: seq<BusinessExpense>)
    ensures multiset(r) == multiset(filtered)
    ensures forall i, j :: 0 <= i < j < |r| ==> LexLe(r[j].date, r[i].date)
  {
    var r := Sort(filtered, ByDateDescending);
    ByDateDescendingConsistent();
    SortSorted(filtered, ByDateDescending);
    forall i, j | 0 <= i < j < |r| ensures LexLe(r[j].date, r[i].date) {
      assert ByDateDescending(r[i], r[j]) <= 0;
      if r[i].date == r[j].date {
        LexLeReflexive(r[i].date);
      }
    }
    r
  }
}
