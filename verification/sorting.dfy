/**
 * `Array.prototype.sort` with a comparator, as the report page uses it.
 * A comparator answers a number; a result `<= 0` lets its first argument
 * come first. The sort modelled here is insertion sort: an element is
 * placed before the first later-sorted element it may precede.
 */
module Sorting {

  /** The comparator orders its arguments as a total preorder. */
  ghost predicate Consistent<T(!new)>(cmp: (T, T) -> int) {
    && (forall a: T, b: T :: cmp(a, b) <= 0 || cmp(b, a) <= 0)
    && (forall a: T, b: T, c: T {:trigger cmp(a, b), cmp(b, c)} :: cmp(a, b) <= 0 && cmp(b, c) <= 0 ==> cmp(a, c) <= 0)
  }

  /** Every element may precede every later one. */
  ghost predicate Sorted<T>(xs: seq<T>, cmp: (T, T) -> int) {
    forall i, j :: 0 <= i < j < |xs| ==> cmp(xs[i], xs[j]) <= 0
  }

  /** `x` placed into `ys` before the first element it may precede. */
  function Insert<T>(x: T, ys: seq<T>, cmp: (T, T) -> int): (r: seq<T>)
    ensures |r| == |ys| + 1
    ensures multiset(r) == multiset(ys) + multiset{x}
  {
    if |ys| == 0 then [x]
    else if cmp(x, ys[0]) <= 0 then [x] + ys
    else
      assert ys == [ys[0]] + ys[1..];
      [ys[0]] + Insert(x, ys[1..], cmp)
  }

  /** An element that may precede every element of a sorted list can head it. */
  lemma PrependSorted<T>(y: T, tail: seq<T>, cmp: (T, T) -> int)
    requires Sorted(tail, cmp)
    requires forall z :: z in tail ==> cmp(y, z) <= 0
    ensures Sorted([y] + tail, cmp)
  {
    var r := [y] + tail;
    forall i, j | 0 <= i < j < |r| ensures cmp(r[i], r[j]) <= 0 {
      assert r[j] == tail[j - 1];
      if i > 0 {
        assert r[i] == tail[i - 1];
      } else {
        assert r[j] in tail;
      }
    }
  }

  /** The first element of a sorted list may precede all the others. */
  lemma HeadFirst<T>(ys: seq<T>, cmp: (T, T) -> int)
    requires Sorted(ys, cmp) && |ys| > 0
    ensures forall z :: z in ys[1..] ==> cmp(ys[0], z) <= 0
  {
    forall z | z in ys[1..] ensures cmp(ys[0], z) <= 0 {
      var k :| 0 <= k < |ys[1..]| && ys[1..][k] == z;
      assert ys[k + 1] == z;
    }
  }

  lemma {:induction false} InsertSorted<T(!new)>(x: T, ys: seq<T>, cmp: (T, T) -> int)
    requires Consistent(cmp) && Sorted(ys, cmp)
    ensures Sorted(Insert(x, ys, cmp), cmp)
    decreases |ys|
  {
    if |ys| > 0 {
      HeadFirst(ys, cmp);
      assert ys == [ys[0]] + ys[1..];
      if cmp(x, ys[0]) <= 0 {
        forall z | z in ys ensures cmp(x, z) <= 0 {
          if z != ys[0] {
            assert z in ys[1..];
          }
        }
        PrependSorted(x, ys, cmp);
      } else {
        var tail := Insert(x, ys[1..], cmp);
        InsertSorted(x, ys[1..], cmp);
        forall z | z in tail ensures cmp(ys[0], z) <= 0 {
          assert z in multiset(tail);
          if z != x {
            assert z in multiset(ys[1..]);
          }
        }
        assert Sorted(ys[1..], cmp) by {
          forall i, j | 0 <= i < j < |ys[1..]| ensures cmp(ys[1..][i], ys[1..][j]) <= 0 {
            assert ys[1..][i] == ys[i + 1] && ys[1..][j] == ys[j + 1];
          }
        }
        PrependSorted(ys[0], tail, cmp);
      }
    }
  }

  /** Insertion sort: each element is inserted into the sorted rest of the list. */
  function Sort<T>(xs: seq<T>, cmp: (T, T) -> int): (r: seq<T>)
    ensures |r| == |xs|
    ensures multiset(r) == multiset(xs)
  {
    if |xs| == 0 then []
    else
      assert xs == [xs[0]] + xs[1..];
      Insert(xs[0], Sort(xs[1..], cmp), cmp)
  }

  /** With a consistent comparator the result is sorted. */
  lemma {:induction false} SortSorted<T(!new)>(xs: seq<T>, cmp: (T, T) -> int)
    requires Consistent(cmp)
    ensures Sorted(Sort(xs, cmp), cmp)
    decreases |xs|
  {
    if |xs| > 0 {
      SortSorted(xs[1..], cmp);
      InsertSorted(xs[0], Sort(xs[1..], cmp), cmp);
    }
  }
}
