/**
 * A stable insertion sort over sequences, parameterised by a "comes no later
 * than" relation. Stable sorting is what JavaScript's `Array.prototype.sort`
 * and pandas' multi-column `sort_values` do, and the top-k selection is
 * phrased as a prefix of a descending sort.
 */
module Sorting {

  ghost predicate Total<T(!new)>(le: (T, T) -> bool) {
    forall a, b :: le(a, b) || le(b, a)
  }

  ghost predicate Transitive<T(!new)>(le: (T, T) -> bool) {
    forall a, b, c :: le(a, b) && le(b, c) ==> le(a, c)
  }

  /** The relations a sort can order by: every pair comparable, and chains compose. */
  ghost predicate TotalPreorder<T(!new)>(le: (T, T) -> bool) {
    Total(le) && Transitive(le)
  }

  ghost predicate Sorted<T>(s: seq<T>, le: (T, T) -> bool) {
    forall i, j :: 0 <= i < j < |s| ==> le(s[i], s[j])
  }

  /** Places `x` before the first element it may precede. */
  function Insert<T(!new)>(x: T, s: seq<T>, le: (T, T) -> bool): (r: seq<T>)
    ensures multiset(r) == multiset(s) + multiset{x}
    ensures TotalPreorder(le) && Sorted(s, le) ==> Sorted(r, le)
  {
    if s == [] || le(x, s[0]) then
      var r := [x] + s;
      assert TotalPreorder(le) && Sorted(s, le) ==> Sorted(r, le) by {
        if TotalPreorder(le) && Sorted(s, le) && s != [] {
          forall i, j | 0 <= i < j < |r| ensures le(r[i], r[j]) {
            if i == 0 && j > 1 {
              assert le(s[0], s[j - 1]);
            }
          }
        }
      }
      r
    else
      var tail := Insert(x, s[1..], le);
      var r := [s[0]] + tail;
      assert s == [s[0]] + s[1..];
      assert TotalPreorder(le) && Sorted(s, le) ==> Sorted(r, le) by {
        if TotalPreorder(le) && Sorted(s, le) {
          assert le(s[0], x);
          forall j | 0 <= j < |tail| ensures le(s[0], tail[j]) {
            assert tail[j] in multiset(tail);
            if tail[j] != x {
              assert tail[j] in multiset(s[1..]);
              var m :| 0 <= m < |s[1..]| && s[1..][m] == tail[j];
              assert le(s[0], s[m + 1]);
            }
          }
          assert Sorted(tail, le);
        }
      }
      r
  }

  /** Stable insertion sort: the result is a permutation of `s`, ordered by `le`. */
  function Sort<T(!new)>(s: seq<T>, le: (T, T) -> bool): (r: seq<T>)
    ensures multiset(r) == multiset(s)
    ensures |r| == |s|
    ensures TotalPreorder(le) ==> Sorted(r, le)
  {
    if s == [] then []
    else
      assert s == [s[0]] + s[1..];
      Insert(s[0], Sort(s[1..], le), le)
  }

  /** A sorted permutation of a sequence under an antisymmetric order is unique. */
  lemma {:induction false} SortedPermutationUnique<T(!new)>(a: seq<T>, b: seq<T>, le: (T, T) -> bool)
    requires TotalPreorder(le)
    requires forall x, y :: le(x, y) && le(y, x) ==> x == y
    requires multiset(a) == multiset(b)
    requires Sorted(a, le) && Sorted(b, le)
    ensures a == b
  {
    if a != [] {
      assert a[0] in multiset(b);
      assert b[0] in multiset(a);
      var i :| 0 <= i < |b| && b[i] == a[0];
      var j :| 0 <= j < |a| && a[j] == b[0];
      assert le(a[0], a[j]);
      assert le(b[0], b[i]);
      assert a[0] == b[0];
      assert a == [a[0]] + a[1..];
      assert b == [b[0]] + b[1..];
      assert multiset(a) == multiset{a[0]} + multiset(a[1..]);
      assert multiset(b) == multiset{b[0]} + multiset(b[1..]);
      assert multiset(a[1..]) == multiset(a) - multiset{a[0]};
      assert multiset(b[1..]) == multiset(b) - multiset{b[0]};
      SortedTail(a, le);
      SortedTail(b, le);
      SortedPermutationUnique(a[1..], b[1..], le);
    } else {
      assert |b| == |multiset(b)| == 0;
    }
  }

  lemma SortedTail<T>(s: seq<T>, le: (T, T) -> bool)
    requires Sorted(s, le) && s != []
    ensures Sorted(s[1..], le)
  {
    forall i, j | 0 <= i < j < |s[1..]| ensures le(s[1..][i], s[1..][j]) {
      assert s[1..][i] == s[i + 1] && s[1..][j] == s[j + 1];
    }
  }
}
