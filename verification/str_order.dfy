/**
 * Python's ordering of `str` values: lexicographic by code point, a proper
 * prefix sorting first. `sorted()` on file names and pandas' ascending sort on
 * an object column of strings both use it.
 */
module StrOrder {
  import Sorting

  /** `a <= b` on Python strings. */
  predicate StrLe(a: string, b: string)
    decreases |a|
  {
    |a| == 0 || (|b| > 0 && (a[0] < b[0] || (a[0] == b[0] && StrLe(a[1..], b[1..]))))
  }

  /** `a < b` on Python strings. */
  predicate StrLt(a: string, b: string) {
    StrLe(a, b) && a != b
  }

  lemma {:induction false} StrLeTotal(a: string, b: string)
    ensures StrLe(a, b) || StrLe(b, a)
    decreases |a|
  {
    if |a| > 0 && |b| > 0 && a[0] == b[0] {
      StrLeTotal(a[1..], b[1..]);
    }
  }

  lemma {:induction false} StrLeTrans(a: string, b: string, c: string)
    requires StrLe(a, b) && StrLe(b, c)
    ensures StrLe(a, c)
    decreases |a|
  {
    if |a| > 0 && a[0] == b[0] && b[0] == c[0] {
      StrLeTrans(a[1..], b[1..], c[1..]);
    }
  }

  lemma {:induction false} StrLeAntisym(a: string, b: string)
    requires StrLe(a, b) && StrLe(b, a)
    ensures a == b
    decreases |a|
  {
    if |a| > 0 {
      StrLeAntisym(a[1..], b[1..]);
      assert a == [a[0]] + a[1..] && b == [b[0]] + b[1..];
    }
  }

  /** Python's string order is a total order. */
  lemma StrLeTotalOrder()
    ensures Sorting.TotalPreorder(StrLe)
    ensures forall a, b :: StrLe(a, b) && StrLe(b, a) ==> a == b
  {
    forall a, b ensures StrLe(a, b) || StrLe(b, a) {
      StrLeTotal(a, b);
    }
    forall a, b, c | StrLe(a, b) && StrLe(b, c) ensures StrLe(a, c) {
      StrLeTrans(a, b, c);
    }
    forall a, b | StrLe(a, b) && StrLe(b, a) ensures a == b {
      StrLeAntisym(a, b);
    }
  }
}
