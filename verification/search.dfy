/**
 * The client-side search and pagination every data hook performs after
 * fetching a whole collection: keep the records with a selected field that
 * contains the lower-cased term, then cut out one page with `Array.slice`.
 */
module Search {
  import opened Text

  // ---------------------------------------------------------------------------
  // Matching

  /** A searchable field of a record: its key in the field selector and its text. */
  datatype Field = Field(key: string, text: string)

  /** The selector value that searches every field. */
  const AllFields := "all"

  /** Field `key` takes part in a search restricted to `field`. */
  predicate Selected(field: string, key: string) {
    field == AllFields || field == key
  }

  /** Some selected field contains the term, both sides lower-cased. */
  ghost predicate Matches(fields: seq<Field>, field: string, term: string) {
    exists i :: 0 <= i < |fields| && Selected(field, fields[i].key) &&
      Contains(Lower(fields[i].text), Lower(term))
  }

  /** The `||` chain of one filter callback, against an already lower-cased term. */
  function AnyFieldMatches(fields: seq<Field>, field: string, lowerTerm: string): (b: bool)
    requires lowerTerm == Lower(lowerTerm)
    ensures b <==> Matches(fields, field, lowerTerm)
  {
    LowerIdempotent(lowerTerm);
    if |fields| == 0 then false
    else
      var here := Selected(field, fields[0].key) && Includes(Lower(fields[0].text), lowerTerm);
      var rest := AnyFieldMatches(fields[1..], field, lowerTerm);
      assert rest <==> Matches(fields[1..], field, lowerTerm);
      assert Matches(fields[1..], field, lowerTerm) ==> Matches(fields, field, lowerTerm) by {
        if Matches(fields[1..], field, lowerTerm) {
          var i :| 0 <= i < |fields[1..]| && Selected(field, fields[1..][i].key) &&
            Contains(Lower(fields[1..][i].text), Lower(lowerTerm));
          assert fields[i + 1] == fields[1..][i];
        }
      }
      assert Matches(fields, field, lowerTerm) ==> here || Matches(fields[1..], field, lowerTerm) by {
        if Matches(fields, field, lowerTerm) {
          var i :| 0 <= i < |fields| && Selected(field, fields[i].key) &&
            Contains(Lower(fields[i].text), Lower(lowerTerm));
          if i > 0 {
            assert fields[1..][i - 1] == fields[i];
          }
        }
      }
      here || rest
  }

  /** No two fields share a key. */
  predicate DistinctKeys(fields: seq<Field>) {
    forall i, j :: 0 <= i < j < |fields| ==> fields[i].key != fields[j].key
  }

  /** The key of some field. */
  predicate HasKey(fields: seq<Field>, key: string) {
    exists i :: 0 <= i < |fields| && fields[i].key == key
  }

  /**
   * Naming one field restricts the search to that field alone: the record
   * matches exactly when that field's text contains the term.
   */
  lemma NamedFieldSearch(fields: seq<Field>, j: int, term: string)
    requires 0 <= j < |fields|
    requires DistinctKeys(fields)
    requires fields[j].key != AllFields
    ensures Matches(fields, fields[j].key, term) <==> Contains(Lower(fields[j].text), Lower(term))
  {
    if Matches(fields, fields[j].key, term) {
      var i :| 0 <= i < |fields| && Selected(fields[j].key, fields[i].key) &&
        Contains(Lower(fields[i].text), Lower(term));
      assert i == j;
    }
  }

  /** A selector other than "all" that is no field's key selects nothing. */
  lemma UnknownFieldSelectsNothing(fields: seq<Field>, field: string)
    requires field != AllFields
    requires !HasKey(fields, field)
    ensures NoneSelected(fields, field)
  {
  }

  // ---------------------------------------------------------------------------
  // Filtering

  /** `a` is `b` with some elements left out, the rest in their original order. */
  ghost predicate Subsequence<T>(a: seq<T>, b: seq<T>)
    decreases |b|
  {
    if |a| == 0 then true
    else if |b| == 0 then false
    else (a[0] == b[0] && Subsequence(a[1..], b[1..])) || Subsequence(a, b[1..])
  }

  lemma {:induction false} SubsequenceReflexive<T>(a: seq<T>)
    ensures Subsequence(a, a)
    decreases |a|
  {
    if |a| > 0 {
      SubsequenceReflexive(a[1..]);
    }
  }

  /** The records of `xs` whose fields match, in their original order. */
  function KeepMatching<T>(xs: seq<T>, fieldsOf: T -> seq<Field>, field: string, lowerTerm: string): (r: seq<T>)
    requires lowerTerm == Lower(lowerTerm)
    ensures |r| <= |xs|
    ensures Subsequence(r, xs)
    ensures forall i :: 0 <= i < |r| ==> Matches(fieldsOf(r[i]), field, lowerTerm)
    ensures forall i :: 0 <= i < |xs| && Matches(fieldsOf(xs[i]), field, lowerTerm) ==> xs[i] in r
    ensures forall x :: x in r ==> x in xs
    ensures forall x :: x in xs ==> multiset(r)[x] == if Matches(fieldsOf(x), field, lowerTerm) then multiset(xs)[x] else 0
  {
    if |xs| == 0 then []
    else
      var rest := KeepMatching(xs[1..], fieldsOf, field, lowerTerm);
      assert forall i :: 1 <= i < |xs| ==> xs[i] == xs[1..][i - 1];
      assert xs == [xs[0]] + xs[1..];
      assert multiset(xs) == multiset{xs[0]} + multiset(xs[1..]);
      if AnyFieldMatches(fieldsOf(xs[0]), field, lowerTerm) then
        var r := [xs[0]] + rest;
        assert r[1..] == rest;
        assert multiset(r) == multiset{xs[0]} + multiset(rest);
        r
      else
        rest
  }

  /**
   * The hooks' filter step: no filtering for an empty term, otherwise the
   * records with a selected field containing the term, case-insensitively.
   */
  function Filter<T>(xs: seq<T>, fieldsOf: T -> seq<Field>, field: string, term: string): (r: seq<T>)
    ensures term == "" ==> r == xs
    ensures |r| <= |xs|
    ensures Subsequence(r, xs)
    ensures term != "" ==> forall i :: 0 <= i < |r| ==> Matches(fieldsOf(r[i]), field, term)
    ensures term != "" ==> forall i :: 0 <= i < |xs| && Matches(fieldsOf(xs[i]), field, term) ==> xs[i] in r
    ensures forall x :: x in r ==> x in xs
    ensures term != "" ==> forall x :: x in xs ==> multiset(r)[x] == if Matches(fieldsOf(x), field, term) then multiset(xs)[x] else 0
  {
    if term == "" then
      SubsequenceReflexive(xs);
      xs
    else
      LowerIdempotent(term);
      KeepMatching(xs, fieldsOf, field, Lower(term))
  }

  /** A record is kept exactly when it matches (for a non-empty term). */
  lemma FilterKeepsExactlyMatches<T>(xs: seq<T>, fieldsOf: T -> seq<Field>, field: string, term: string, x: T)
    requires term != ""
    requires x in xs
    ensures x in Filter(xs, fieldsOf, field, term) <==> Matches(fieldsOf(x), field, term)
  {
    var r := Filter(xs, fieldsOf, field, term);
    if x in r {
      var i :| 0 <= i < |r| && r[i] == x;
    }
  }

  /** The selector names none of the fields. */
  predicate NoneSelected(fields: seq<Field>, field: string) {
    forall i :: 0 <= i < |fields| ==> !Selected(field, fields[i].key)
  }

  /** A selector that names no field of any record finds nothing. */
  lemma UnselectedFieldFindsNothing<T>(xs: seq<T>, fieldsOf: T -> seq<Field>, field: string, term: string)
    requires term != ""
    requires forall i :: 0 <= i < |xs| ==> NoneSelected(fieldsOf(xs[i]), field)
    ensures Filter(xs, fieldsOf, field, term) == []
  {
    LowerIdempotent(term);
    NothingKept(xs, fieldsOf, field, Lower(term));
  }

  lemma {:induction false} NothingKept<T>(xs: seq<T>, fieldsOf: T -> seq<Field>, field: string, lowerTerm: string)
    requires lowerTerm == Lower(lowerTerm)
    requires forall i :: 0 <= i < |xs| ==> NoneSelected(fieldsOf(xs[i]), field)
    ensures KeepMatching(xs, fieldsOf, field, lowerTerm) == []
    decreases |xs|
  {
    if |xs| > 0 {
      assert forall i :: 0 <= i < |xs[1..]| ==> xs[1..][i] == xs[i + 1];
      NothingKept(xs[1..], fieldsOf, field, lowerTerm);
      assert NoneSelected(fieldsOf(xs[0]), field);
    }
  }

  // ---------------------------------------------------------------------------
  // Pagination

  /** How `Array.prototype.slice` resolves an index: negative counts from the end. */
  function RelativeIndex(k: int, len: nat): (r: nat)
    ensures r <= len
    ensures 0 <= k <= len ==> r == k
    ensures k > len ==> r == len
    ensures k < 0 ==> r == if len + k < 0 then 0 else len + k
  {
    if k < 0 then (if len + k < 0 then 0 else len + k)
    else if k > len then len
    else k
  }

  /**
   * Resolving never widens a gap between two indices. It need not keep their
   * order: with five elements, -1 resolves to 4 but 0 stays 0.
   */
  lemma RelativeIndexGap(a: int, b: int, len: nat)
    requires a <= b
    ensures RelativeIndex(b, len) - RelativeIndex(a, len) <= b - a
    ensures 0 <= a || b < 0 ==> RelativeIndex(a, len) <= RelativeIndex(b, len)
  {
  }

  /** `xs.slice(start, end)`: the elements between the two resolved indices. */
  function Slice<T>(xs: seq<T>, start: int, end: int): (r: seq<T>)
    ensures var from := RelativeIndex(start, |xs|);
      from + |r| <= |xs| && r == xs[from..from + |r|]
    ensures start <= end ==> |r| <= end - start
    ensures 0 <= end <= start || end <= start < 0 ==> |r| == 0
    ensures 0 <= start <= end ==> r == xs[Min(start, |xs|)..Min(end, |xs|)]
  {
    var from := RelativeIndex(start, |xs|);
    var to := RelativeIndex(end, |xs|);
    if start <= end then
      RelativeIndexGap(start, end, |xs|);
      if from <= to then xs[from..to] else []
    else
      RelativeIndexGap(end, start, |xs|);
      if from <= to then xs[from..to] else []
  }

  /** `Math.ceil(n / d)` for a positive divisor. */
  function CeilDiv(n: nat, d: int): (q: nat)
    requires d > 0
    ensures q * d >= n
    ensures n > 0 ==> (q - 1) * d < n
    ensures n == 0 ==> q == 0
  {
    (n + d - 1) / d
  }

  /** What a data hook returns. */
  datatype Page<T> = Page(data: seq<T>, total: nat, page: int, limit: int, totalPages: nat)

  function Min(a: int, b: int): int {
    if a <= b then a else b
  }

  /** `(page - 1) * limit`, the index a page starts at. */
  function Offset(page: int, limit: int): (k: int)
    requires limit > 0
    ensures page >= 1 ==> k >= 0
    ensures page <= 0 ==> k + limit <= 0
  {
    if page >= 1 then
      assert (page - 1) * limit >= 0 by { MulNonNegative(page - 1, limit); }
      (page - 1) * limit
    else
      assert (1 - page) * limit >= limit by { MulMonotone(1 - page, limit); }
      (page - 1) * limit
  }

  lemma MulNonNegative(a: nat, b: nat)
    ensures a * b >= 0
  {
  }

  lemma MulMonotone(a: int, b: nat)
    requires a >= 1
    ensures a * b >= b
  {
    assert a * b == (a - 1) * b + b;
    MulNonNegative(a - 1, b);
  }

  /** Consecutive pages start `limit` apart. */
  lemma OffsetStep(page: int, limit: int)
    requires limit > 0
    ensures Offset(page + 1, limit) == Offset(page, limit) + limit
  {
    assert page * limit == (page - 1) * limit + limit;
  }

  /**
   * Manual pagination: the window `[(page-1)*limit, (page-1)*limit+limit)`
   * of the filtered list cut with `slice`, its length, the echoed page and
   * limit, and the page count `ceil(total/limit)`.
   */
  function Paginate<T>(xs: seq<T>, page: int, limit: int): (p: Page<T>)
    requires limit > 0
    ensures |p.data| <= limit
    ensures var from := RelativeIndex(Offset(page, limit), |xs|);
      from + |p.data| <= |xs| && p.data == xs[from..from + |p.data|]
    ensures page >= 1 ==> p.data == xs[Min(Offset(page, limit), |xs|)..Min(Offset(page + 1, limit), |xs|)]
    ensures p.total == |xs| && p.page == page && p.limit == limit
    ensures p.totalPages * limit >= p.total
    ensures p.total > 0 ==> (p.totalPages - 1) * limit < p.total
    ensures p.total == 0 ==> p.totalPages == 0
  {
    var startIndex := Offset(page, limit);
    var endIndex := startIndex + limit;
    OffsetStep(page, limit);
    Page(Slice(xs, startIndex, endIndex), |xs|, page, limit, CeilDiv(|xs|, limit))
  }

  /** Pages 1..n laid end to end. */
  function PagesUpTo<T>(xs: seq<T>, limit: int, n: nat): seq<T>
    requires limit > 0
  {
    if n == 0 then [] else PagesUpTo(xs, limit, n - 1) + Paginate(xs, n, limit).data
  }

  lemma {:induction false} PagesUpToPrefix<T>(xs: seq<T>, limit: int, n: nat)
    requires limit > 0
    ensures PagesUpTo(xs, limit, n) == xs[..Min(Offset(n + 1, limit), |xs|)]
  {
    if n > 0 {
      PagesUpToPrefix(xs, limit, n - 1);
      var a := Min(Offset(n, limit), |xs|);
      var b := Min(Offset(n + 1, limit), |xs|);
      assert xs[..a] + xs[a..b] == xs[..b];
    }
  }

  /** Reading every page in turn gives back the whole (filtered) list. */
  lemma PagesReassemble<T>(xs: seq<T>, limit: int)
    requires limit > 0
    ensures PagesUpTo(xs, limit, Paginate(xs, 1, limit).totalPages) == xs
  {
    var n := Paginate(xs, 1, limit).totalPages;
    PagesUpToPrefix(xs, limit, n);
    assert Offset(n + 1, limit) == n * limit;
    assert xs[..|xs|] == xs;
  }
}
