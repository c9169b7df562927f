/** Small shared vocabulary: optional values, sequences without repetition, 64-bit bounds. */
module Base {
  datatype Option<+T> = None | Some(value: T)

  // The number of values of Go's uint64, and the bounds of int64.
  const TWO_TO_THE_64: int := 0x1_0000_0000_0000_0000
  const TWO_TO_THE_63: int := 0x8000_0000_0000_0000

  type Byte = b: int | 0 <= b < 256
  type Word = w: int | 0 <= w < TWO_TO_THE_64

  /** Two's-complement wrap-around of 64-bit integers. */
  function Wrap(x: int): int {
    (x + TWO_TO_THE_63) % TWO_TO_THE_64 - TWO_TO_THE_63
  }

  predicate Distinct<T(==)>(s: seq<T>) {
    forall i, j :: 0 <= i < j < |s| ==> s[i] != s[j]
  }

  /** The elements of a sequence, as a set. */
  function Elements<T>(s: seq<T>): set<T> {
    set x | x in s
  }

  lemma {:induction false} DistinctLength<T>(s: seq<T>)
    requires Distinct(s)
    ensures |Elements(s)| == |s|
  {
    if s == [] {
    } else {
      var last := |s| - 1;
      DistinctLength(s[..last]);
      assert s == s[..last] + [s[last]];
      assert Elements(s) == Elements(s[..last]) + {s[last]};
    }
  }

  lemma {:induction false} SetOfNatsBelow(s: set<nat>, n: nat)
    requires forall x :: x in s ==> x < n
    ensures |s| <= n
  {
    if n == 0 {
      assert s == {};
    } else {
      SetOfNatsBelow(s - {n - 1}, n - 1);
      if n - 1 in s {
        assert |s| == |s - {n - 1}| + 1;
      } else {
        assert s == s - {n - 1};
      }
    }
  }

  /** Distinct numbers below n that leave out i number at most n - 1. */
  lemma {:induction false} DistinctMissingOne(s: seq<nat>, n: nat, i: nat)
    requires Distinct(s) && i < n && i !in s
    requires forall x :: x in s ==> x < n
    ensures |s| < n
  {
    DistinctLength(s);
    var all := Elements(s) + {i};
    SetOfNatsBelow(all, n);
    assert |all| == |Elements(s)| + 1;
  }
}
