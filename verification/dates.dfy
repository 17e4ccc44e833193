/**
 * The dayjs formats the dashboard writes dates in: "YYYY-MM-DD HH:mm:ss"
 * for stored expenses, "YYYY-MM-DD" for contract dates and the report's
 * day filter, "YYYY-MM" for the report's month groups. Every field is a
 * zero-padded decimal of fixed width, so for dates that fit the widths,
 * JavaScript string order on the rendered text is chronological order.
 */
module Dates {
  import opened Text

  /** A date and time of day as dayjs reports its fields (months count from 1). */
  datatype DateTime = DateTime(year: nat, month: nat, day: nat, hour: nat, minute: nat, second: nat)

  /** Field ranges of a date dayjs accepts, with years of at most four digits. */
  predicate Valid(d: DateTime) {
    d.year <= 9999 && 1 <= d.month <= 12 && 1 <= d.day <= 31 && d.hour < 24 && d.minute < 60 && d.second < 60
  }

  /** What a date picker yields and dayjs calls a valid date. */
  type ValidDateTime = d: DateTime | Valid(d) witness DateTime(2000, 1, 1, 0, 0, 0)

  /** A dayjs object: a valid date, or the invalid date that parsing garbage gives. */
  datatype Day = Invalid | At(date: ValidDateTime)

  // ---------------------------------------------------------------------------
  // Digit strings and their values

  function Pow10(w: nat): (p: nat)
    ensures p >= 1
  {
    if w == 0 then 1 else 10 * Pow10(w - 1)
  }

  lemma {:induction false} Pow10Monotone(a: nat, b: nat)
    requires a <= b
    ensures Pow10(a) <= Pow10(b)
    decreases b
  {
    if a < b {
      Pow10Monotone(a, b - 1);
    }
  }

  /** A digit string of length `n` reads as less than 10^n. */
  lemma {:induction false} ValueBound(s: string)
    requires AllDigits(s)
    ensures DecimalValue(s) < Pow10(|s|)
    decreases |s|
  {
    if |s| > 0 {
      var init := s[..|s| - 1];
      assert AllDigits(init);
      ValueBound(init);
      assert DecimalValue(s) == DecimalValue(init) * 10 + DigitValue(s[|s| - 1]);
      assert DecimalValue(init) * 10 <= (Pow10(|s| - 1) - 1) * 10;
    }
  }

  /** Reading a digit string from the front: its first digit is worth 10^(n-1). */
  lemma {:induction false} ValueFront(s: string)
    requires AllDigits(s) && |s| >= 1
    ensures AllDigits(s[1..])
    ensures DecimalValue(s) == DigitValue(s[0]) * Pow10(|s| - 1) + DecimalValue(s[1..])
    decreases |s|
  {
    var tail := s[1..];
    assert AllDigits(tail) by {
      forall i | 0 <= i < |tail| ensures IsDigit(tail[i]) {
        assert tail[i] == s[i + 1];
      }
    }
    if |s| == 1 {
      assert tail == [];
    } else {
      var init := s[..|s| - 1];
      assert AllDigits(init) by {
        forall i | 0 <= i < |init| ensures IsDigit(init[i]) {
          assert init[i] == s[i];
        }
      }
      ValueFront(init);
      var last := DigitValue(s[|s| - 1]);
      assert init[0] == s[0];
      assert init[1..] == tail[..|tail| - 1];
      assert tail[|tail| - 1] == s[|s| - 1];
      assert DecimalValue(s) == DecimalValue(init) * 10 + last;
      assert DecimalValue(tail) == DecimalValue(init[1..]) * 10 + last;
      ShiftDigit(DigitValue(s[0]), Pow10(|s| - 2), DecimalValue(init[1..]), last);
    }
  }

  /** Appending a digit to `d * p + v` multiplies both parts by ten. */
  lemma ShiftDigit(d: nat, p: nat, v: nat, last: nat)
    ensures (d * p + v) * 10 + last == d * (10 * p) + (v * 10 + last)
  {
  }

  lemma MulLeft(a: nat, b: nat, p: nat)
    requires a <= b
    ensures a * p <= b * p
  {
  }

  /** When the first digits differ they decide the numeric order. */
  lemma FirstDigitDecides(a: string, b: string)
    requires AllDigits(a) && AllDigits(b) && |a| == |b| && |a| > 0
    requires DigitValue(a[0]) < DigitValue(b[0])
    ensures DecimalValue(a) < DecimalValue(b)
  {
    ValueFront(a);
    ValueFront(b);
    ValueBound(a[1..]);
    Dominates(DigitValue(a[0]), DecimalValue(a[1..]), DigitValue(b[0]), DecimalValue(b[1..]), Pow10(|a| - 1));
  }

  /** A larger leading digit outweighs any tail. */
  lemma Dominates(da: nat, va: nat, db: nat, vb: nat, p: nat)
    requires da < db && va < p
    ensures da * p + va < db * p + vb
  {
    MulLeft(da + 1, db, p);
    assert (da + 1) * p == da * p + p;
  }

  /** For digit strings of equal length, string order is numeric order. */
  lemma {:induction false} DigitOrder(a: string, b: string)
    requires AllDigits(a) && AllDigits(b) && |a| == |b|
    ensures LexLe(a, b) <==> DecimalValue(a) <= DecimalValue(b)
    decreases |a|
  {
    if |a| > 0 {
      if a[0] == b[0] {
        ValueFront(a);
        ValueFront(b);
        DigitOrder(a[1..], b[1..]);
      } else if DigitValue(a[0]) < DigitValue(b[0]) {
        FirstDigitDecides(a, b);
      } else {
        assert DigitChar(DigitValue(a[0])) == a[0] && DigitChar(DigitValue(b[0])) == b[0];
        FirstDigitDecides(b, a);
      }
    }
  }

  // ---------------------------------------------------------------------------
  // Zero-padded fields

  /** `String(n).padStart(w, '0')`, as dayjs renders a field. */
  function Pad(n: nat, w: nat): string {
    PadStart(NatToDecimal(n), w, '0')
  }

  /** A padded field is all digits and reads back as the number. */
  lemma PadDigits(n: nat, w: nat)
    ensures AllDigits(Pad(n, w))
    ensures DecimalValue(Pad(n, w)) == n
  {
    var s := NatToDecimal(n);
    DecimalRoundTrip(n);
    if |s| < w {
      ZerosPrefixValue(w - |s|, s);
    }
  }

  /** The decimal rendering of `n` is as long as its magnitude needs. */
  lemma {:induction false} DecimalLength(n: nat)
    ensures n < Pow10(|NatToDecimal(n)|)
    ensures |NatToDecimal(n)| > 1 ==> Pow10(|NatToDecimal(n)| - 1) <= n
    decreases n
  {
    if n >= 10 {
      DecimalLength(n / 10);
    }
  }

  /** A number below 10^w fills exactly `w` characters once padded. */
  lemma PadLength(n: nat, w: nat)
    requires w >= 1 && n < Pow10(w)
    ensures |Pad(n, w)| == w
  {
    var len := |NatToDecimal(n)|;
    DecimalLength(n);
    if len > w {
      Pow10Monotone(w, len - 1);
    }
  }

  /** Equal-width padded fields are equal exactly when the numbers are. */
  lemma PadInjective(a: nat, b: nat, w: nat)
    requires Pad(a, w) == Pad(b, w)
    ensures a == b
  {
    PadDigits(a, w);
    PadDigits(b, w);
  }

  // ---------------------------------------------------------------------------
  // Layouts

  /** One field of a format: its width and the text that follows it. */
  datatype Slot = Slot(width: nat, after: string)

  const FullLayout: seq<Slot> := [Slot(4, "-"), Slot(2, "-"), Slot(2, " "), Slot(2, ":"), Slot(2, ":"), Slot(2, "")]
  const DayLayout: seq<Slot> := [Slot(4, "-"), Slot(2, "-"), Slot(2, "")]
  const MonthLayout: seq<Slot> := [Slot(4, "-"), Slot(2, "")]

  /** Each number fits its field's width. */
  predicate Fits(ns: seq<nat>, layout: seq<Slot>) {
    |ns| == |layout| && forall i :: 0 <= i < |ns| ==> layout[i].width >= 1 && ns[i] < Pow10(layout[i].width)
  }

  function Render(ns: seq<nat>, layout: seq<Slot>): string
    requires |ns| == |layout|
  {
    if |ns| == 0 then "" else Pad(ns[0], layout[0].width) + layout[0].after + Render(ns[1..], layout[1..])
  }

  /** Lexicographic order on equally long lists of numbers. */
  predicate FieldsLe(a: seq<nat>, b: seq<nat>)
    requires |a| == |b|
  {
    |a| == 0 || a[0] < b[0] || (a[0] == b[0] && FieldsLe(a[1..], b[1..]))
  }

  /** Comparing two strings that start with equally long parts. */
  lemma {:induction false} LexLeConcat(a: string, c: string, b: string, d: string)
    requires |a| == |b|
    ensures LexLe(a + c, b + d) == if a == b then LexLe(c, d) else LexLe(a, b)
    decreases |a|
  {
    if |a| > 0 {
      assert (a + c)[0] == a[0] && (b + d)[0] == b[0];
      assert (a + c)[1..] == a[1..] + c && (b + d)[1..] == b[1..] + d;
      LexLeConcat(a[1..], c, b[1..], d);
      if a[0] == b[0] && a[1..] == b[1..] {
        assert a == [a[0]] + a[1..] && b == [b[0]] + b[1..];
      }
    } else {
      assert a + c == c && b + d == d;
    }
  }

  /** Rendered layouts compare as their fields do. */
  lemma {:induction false} RenderOrder(a: seq<nat>, b: seq<nat>, layout: seq<Slot>)
    requires Fits(a, layout) && Fits(b, layout)
    ensures LexLe(Render(a, layout), Render(b, layout)) <==> FieldsLe(a, b)
    decreases |a|
  {
    if |a| > 0 {
      var w := layout[0].width;
      var sep := layout[0].after;
      PadLength(a[0], w);
      PadLength(b[0], w);
      PadDigits(a[0], w);
      PadDigits(b[0], w);
      var pa := Pad(a[0], w);
      var pb := Pad(b[0], w);
      assert Fits(a[1..], layout[1..]) by {
        forall i | 0 <= i < |a[1..]| ensures layout[1..][i].width >= 1 && a[1..][i] < Pow10(layout[1..][i].width) {
          assert a[1..][i] == a[i + 1] && layout[1..][i] == layout[i + 1];
        }
      }
      assert Fits(b[1..], layout[1..]) by {
        forall i | 0 <= i < |b[1..]| ensures layout[1..][i].width >= 1 && b[1..][i] < Pow10(layout[1..][i].width) {
          assert b[1..][i] == b[i + 1] && layout[1..][i] == layout[i + 1];
        }
      }
      RenderOrder(a[1..], b[1..], layout[1..]);
      var ra := Render(a[1..], layout[1..]);
      var rb := Render(b[1..], layout[1..]);
      assert Render(a, layout) == (pa + sep) + ra;
      assert Render(b, layout) == (pb + sep) + rb;
      LexLeConcat(pa + sep, ra, pb + sep, rb);
      LexLeConcat(pa, sep, pb, sep);
      DigitOrder(pa, pb);
      if pa + sep == pb + sep {
        assert pa == (pa + sep)[..w] == (pb + sep)[..w] == pb;
        PadInjective(a[0], b[0], w);
      } else if a[0] == b[0] {
        assert false;
      }
    }
  }

  // ---------------------------------------------------------------------------
  // The formats

  function Fields(d: DateTime): seq<nat> {
    [d.year, d.month, d.day, d.hour, d.minute, d.second]
  }

  lemma ValidFits(d: DateTime)
    requires Valid(d)
    ensures Fits(Fields(d), FullLayout)
    ensures Fits(Fields(d)[..3], DayLayout)
    ensures Fits(Fields(d)[..2], MonthLayout)
  {
    assert Pow10(2) == 100 && Pow10(4) == 10000;
  }

  /** `format('YYYY-MM-DD HH:mm:ss')`. */
  function Format(d: DateTime): string {
    Render(Fields(d), FullLayout)
  }

  /** `format('YYYY-MM-DD')`. */
  function FormatDay(d: DateTime): string {
    Render(Fields(d)[..3], DayLayout)
  }

  /** `format('YYYY-MM')`. */
  function FormatMonth(d: DateTime): string {
    Render(Fields(d)[..2], MonthLayout)
  }

  /** Rendering distributes over concatenated field lists. */
  lemma {:induction false} RenderAppend(xs: seq<nat>, ys: seq<nat>, ls: seq<Slot>, ms: seq<Slot>)
    requires |xs| == |ls| && |ys| == |ms|
    ensures Render(xs + ys, ls + ms) == Render(xs, ls) + Render(ys, ms)
    decreases |xs|
  {
    if |xs| == 0 {
      assert xs + ys == ys && ls + ms == ms;
    } else {
      assert (xs + ys)[1..] == xs[1..] + ys && (ls + ms)[1..] == ls[1..] + ms;
      assert (xs + ys)[0] == xs[0] && (ls + ms)[0] == ls[0];
      RenderAppend(xs[1..], ys, ls[1..], ms);
    }
  }

  /** Rendering peels off the first field. */
  lemma RenderCons(n: nat, ns: seq<nat>, l: Slot, ls: seq<Slot>)
    requires |ns| == |ls|
    ensures Render([n] + ns, [l] + ls) == Pad(n, l.width) + l.after + Render(ns, ls)
  {
    assert ([n] + ns)[1..] == ns && ([l] + ls)[1..] == ls;
  }

  lemma RenderOne(a: nat, s: Slot)
    ensures Render([a], [s]) == Pad(a, s.width) + s.after
  {
    assert [a] == [a] + [] && [s] == [s] + [];
    RenderCons(a, [], s, []);
    assert Render([], []) == [];
    EmptyRight(Pad(a, s.width) + s.after);
  }

  /** Two fields and their separators. */
  lemma RenderTwo(a: nat, b: nat, s: Slot, t: Slot)
    ensures Render([a, b], [s, t]) == Pad(a, s.width) + s.after + Pad(b, t.width) + t.after
  {
    assert [a, b] == [a] + [b] && [s, t] == [s] + [t];
    RenderCons(a, [b], s, [t]);
    RenderOne(b, t);
    Regroup(Pad(a, s.width) + s.after, Pad(b, t.width), t.after);
  }

  /** Three fields and their separators. */
  lemma RenderThree(a: nat, b: nat, c: nat, s: Slot, t: Slot, u: Slot)
    ensures Render([a, b, c], [s, t, u]) == Pad(a, s.width) + s.after + Pad(b, t.width) + t.after + Pad(c, u.width) + u.after
  {
    assert [a, b, c] == [a] + [b, c] && [s, t, u] == [s] + [t, u];
    RenderCons(a, [b, c], s, [t, u]);
    RenderTwo(b, c, t, u);
    var head := Pad(a, s.width) + s.after;
    var mid := Pad(b, t.width) + t.after + Pad(c, u.width);
    Regroup(head, mid, u.after);
    Regroup(head, Pad(b, t.width) + t.after, Pad(c, u.width));
    Regroup(head, Pad(b, t.width), t.after);
  }

  lemma EmptyRight(a: string)
    ensures a + "" == a
  {
  }

  lemma Regroup(a: string, b: string, c: string)
    ensures a + (b + c) == a + b + c
  {
  }

  /** "HH:mm:ss". */
  function TimePart(d: DateTime): string {
    Pad(d.hour, 2) + ":" + Pad(d.minute, 2) + ":" + Pad(d.second, 2)
  }

  lemma DayUnfold(d: DateTime)
    ensures FormatDay(d) == Pad(d.year, 4) + "-" + Pad(d.month, 2) + "-" + Pad(d.day, 2)
  {
    assert Fields(d)[..3] == [d.year, d.month, d.day];
    RenderThree(d.year, d.month, d.day, Slot(4, "-"), Slot(2, "-"), Slot(2, ""));
  }

  lemma MonthUnfold(d: DateTime)
    ensures FormatMonth(d) == Pad(d.year, 4) + "-" + Pad(d.month, 2)
  {
    assert Fields(d)[..2] == [d.year, d.month];
    RenderTwo(d.year, d.month, Slot(4, "-"), Slot(2, ""));
  }

  lemma FullUnfold(d: DateTime)
    ensures Format(d) == FormatDay(d) + " " + TimePart(d)
  {
    var day := [d.year, d.month, d.day];
    var time := [d.hour, d.minute, d.second];
    var dl := [Slot(4, "-"), Slot(2, "-"), Slot(2, " ")];
    var tl := [Slot(2, ":"), Slot(2, ":"), Slot(2, "")];
    assert Fields(d) == day + time && FullLayout == dl + tl;
    RenderAppend(day, time, dl, tl);
    var r1 := Render(day, dl);
    var r2 := Render(time, tl);
    assert Format(d) == r1 + r2;
    RenderThree(d.year, d.month, d.day, Slot(4, "-"), Slot(2, "-"), Slot(2, " "));
    DayUnfold(d);
    assert r1 == FormatDay(d) + " ";
    RenderThree(d.hour, d.minute, d.second, Slot(2, ":"), Slot(2, ":"), Slot(2, ""));
    var t := TimePart(d);
    assert r2 == t + "";
    assert t + "" == t;
  }

  /** The widths of a valid date's fields. */
  lemma FieldWidths(d: DateTime)
    requires Valid(d)
    ensures |Pad(d.year, 4)| == 4 && |Pad(d.month, 2)| == 2 && |Pad(d.day, 2)| == 2
    ensures |TimePart(d)| == 8
  {
    assert Pow10(2) == 100 && Pow10(4) == 10000;
    PadLength(d.year, 4);
    PadLength(d.month, 2);
    PadLength(d.day, 2);
    PadLength(d.hour, 2);
    PadLength(d.minute, 2);
    PadLength(d.second, 2);
  }

  /** The full rendering is 19 characters long and starts with the day and the month. */
  lemma FormatShape(d: DateTime)
    requires Valid(d)
    ensures |Format(d)| == 19 && |FormatDay(d)| == 10 && |FormatMonth(d)| == 7
    ensures Format(d)[..10] == FormatDay(d)
    ensures Format(d)[..7] == FormatMonth(d)
  {
    DayShape(d);
    FullUnfold(d);
    FieldWidths(d);
    var day := FormatDay(d);
    PrefixOfConcat(day, " ", TimePart(d));
    PrefixOfPrefix(Format(d), day, 7);
  }

  lemma PrefixOfPrefix(s: string, t: string, k: nat)
    requires |t| <= |s| && s[..|t|] == t && k <= |t|
    ensures s[..k] == t[..k]
  {
    assert forall i :: 0 <= i < k ==> s[i] == s[..|t|][i];
  }

  /** The day rendering is ten characters and extends the month rendering. */
  lemma DayShape(d: DateTime)
    requires Valid(d)
    ensures |FormatDay(d)| == 10 && |FormatMonth(d)| == 7
    ensures FormatDay(d)[..7] == FormatMonth(d)
  {
    FieldWidths(d);
    DayUnfold(d);
    MonthUnfold(d);
    var month := FormatMonth(d);
    var tail := "-" + Pad(d.day, 2);
    assert FormatDay(d) == month + "-" + Pad(d.day, 2);
    PrefixOfConcat(month, "-", Pad(d.day, 2));
  }

  lemma PrefixOfConcat(a: string, b: string, c: string)
    ensures |a + b + c| == |a| + |b| + |c|
    ensures (a + b + c)[..|a|] == a
  {
    assert (a + b + c)[..|a|] == (a + b)[..|a|];
  }

  /** Later-or-equal timestamps render as later-or-equal strings, and back. */
  lemma FormatOrder(a: DateTime, b: DateTime)
    requires Valid(a) && Valid(b)
    ensures LexLe(Format(a), Format(b)) <==> FieldsLe(Fields(a), Fields(b))
  {
    ValidFits(a);
    ValidFits(b);
    RenderOrder(Fields(a), Fields(b), FullLayout);
  }

  /** The same for days. */
  lemma FormatDayOrder(a: DateTime, b: DateTime)
    requires Valid(a) && Valid(b)
    ensures LexLe(FormatDay(a), FormatDay(b)) <==> FieldsLe(Fields(a)[..3], Fields(b)[..3])
  {
    ValidFits(a);
    ValidFits(b);
    RenderOrder(Fields(a)[..3], Fields(b)[..3], DayLayout);
  }

  /** Two timestamps render alike only when they are the same. */
  lemma FormatInjective(a: DateTime, b: DateTime)
    requires Valid(a) && Valid(b) && Format(a) == Format(b)
    ensures a == b
  {
    LexLeReflexive(Format(a));
    FormatOrder(a, b);
    FormatOrder(b, a);
    FieldsLeAntisymmetric(Fields(a), Fields(b));
    assert Fields(a)[0] == Fields(b)[0] && Fields(a)[5] == Fields(b)[5];
  }

  lemma {:induction false} FieldsLeAntisymmetric(a: seq<nat>, b: seq<nat>)
    requires |a| == |b| && FieldsLe(a, b) && FieldsLe(b, a)
    ensures a == b
    decreases |a|
  {
    if |a| > 0 {
      FieldsLeAntisymmetric(a[1..], b[1..]);
      assert a == [a[0]] + a[1..] && b == [b[0]] + b[1..];
    }
  }

  // ---------------------------------------------------------------------------
  // The ISO test of the contracts page

  /** `/^\d{4}-\d{2}-\d{2}/.test(s)`. */
  predicate IsoPrefix(s: string) {
    |s| >= 10 &&
    IsDigit(s[0]) && IsDigit(s[1]) && IsDigit(s[2]) && IsDigit(s[3]) && s[4] == '-' &&
    IsDigit(s[5]) && IsDigit(s[6]) && s[7] == '-' && IsDigit(s[8]) && IsDigit(s[9])
  }

  /** Every rendered day and timestamp passes the test. */
  lemma RenderedDatesAreIso(d: DateTime)
    requires Valid(d)
    ensures IsoPrefix(FormatDay(d)) && IsoPrefix(Format(d))
  {
    FieldWidths(d);
    PadDigits(d.year, 4);
    PadDigits(d.month, 2);
    PadDigits(d.day, 2);
    DayUnfold(d);
    IsoOfParts(Pad(d.year, 4), Pad(d.month, 2), Pad(d.day, 2));
    FullUnfold(d);
    IsoExtends(FormatDay(d), " ");
    IsoExtends(FormatDay(d) + " ", TimePart(d));
  }

  lemma IsoOfParts(y: string, m: string, d: string)
    requires |y| == 4 && |m| == 2 && |d| == 2
    requires AllDigits(y) && AllDigits(m) && AllDigits(d)
    ensures IsoPrefix(y + "-" + m + "-" + d)
  {
    var s := y + "-" + m + "-" + d;
    assert s[0] == y[0] && s[1] == y[1] && s[2] == y[2] && s[3] == y[3] && s[4] == '-';
    assert s[5] == m[0] && s[6] == m[1] && s[7] == '-' && s[8] == d[0] && s[9] == d[1];
  }

  lemma IsoExtends(a: string, b: string)
    requires IsoPrefix(a)
    ensures IsoPrefix(a + b)
  {
    assert forall i :: 0 <= i < |a| ==> (a + b)[i] == a[i];
  }
}
