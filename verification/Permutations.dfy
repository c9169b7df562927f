/** Rearrangements of sequences: equal multisets. */
module Permutations {
  import opened Base

  function WithoutAt<T>(b: seq<T>, j: nat): seq<T>
    requires j < |b|
  {
    b[..j] + b[j + 1..]
  }

  lemma SplitAt<T>(b: seq<T>, j: nat)
    requires j < |b|
    ensures b == b[..j] + [b[j]] + b[j + 1..]
  {
  }

  lemma MultisetWithoutAt<T>(b: seq<T>, j: nat)
    requires j < |b|
    ensures multiset(b) == multiset(WithoutAt(b, j)) + multiset{b[j]}
    ensures multiset(WithoutAt(b, j)) == multiset(b) - multiset{b[j]}
  {
    SplitAt(b, j);
  }

  /** The last element of a sequence, found and taken out of a rearrangement of it. */
  lemma TakeLastOut<T>(a: seq<T>, b: seq<T>) returns (j: nat)
    requires a != [] && multiset(a) == multiset(b)
    ensures j < |b| && b[j] == a[|a| - 1]
    ensures multiset(a[..|a| - 1]) == multiset(WithoutAt(b, j))
  {
    var n := |a| - 1;
    assert a[n] in multiset(b);
    j :| 0 <= j < |b| && b[j] == a[n];
    MultisetWithoutAt(a, n);
    MultisetWithoutAt(b, j);
    assert WithoutAt(a, n) == a[..n];
  }

  lemma MiddleOut<T>(p: seq<T>, q: seq<T>, r: seq<T>)
    ensures multiset(p + q + r) == multiset(p + r) + multiset(q)
  {
  }

  /** Equal elements of a and b have equal images in fa and fb. */
  predicate ImagesAgree<T(==), U(==)>(a: seq<T>, fa: seq<U>, b: seq<T>, fb: seq<U>) {
    && |fa| == |a| && |fb| == |b|
    && forall i, j :: 0 <= i < |a| && 0 <= j < |b| && a[i] == b[j] ==> fa[i] == fb[j]
  }

  lemma ImagesAgreeWithout<T, U>(a: seq<T>, fa: seq<U>, b: seq<T>, fb: seq<U>, i: nat, j: nat)
    requires ImagesAgree(a, fa, b, fb) && i < |a| && j < |b|
    ensures ImagesAgree(WithoutAt(a, i), WithoutAt(fa, i), WithoutAt(b, j), WithoutAt(fb, j))
  {
    var a1, fa1, b1, fb1 := WithoutAt(a, i), WithoutAt(fa, i), WithoutAt(b, j), WithoutAt(fb, j);
    forall k, l | 0 <= k < |a1| && 0 <= l < |b1| && a1[k] == b1[l] ensures fa1[k] == fb1[l] {
      var k0, l0 := if k < i then k else k + 1, if l < j then l else l + 1;
      assert a[k0] == a1[k] && b[l0] == b1[l];
      assert fa[k0] == fa1[k] && fb[l0] == fb1[l];
    }
  }

  /** The images of a rearrangement are a rearrangement of the images. */
  lemma {:induction false} ImagesPermuted<T, U>(a: seq<T>, fa: seq<U>, b: seq<T>, fb: seq<U>)
    requires ImagesAgree(a, fa, b, fb) && multiset(a) == multiset(b)
    ensures multiset(fa) == multiset(fb)
  {
    if a == [] {
      assert |b| == |multiset(b)| == |multiset(a)|;
    } else {
      var n := |a| - 1;
      var j := TakeLastOut(a, b);
      ImagesAgreeWithout(a, fa, b, fb, n, j);
      assert WithoutAt(a, n) == a[..n];
      ImagesPermuted(WithoutAt(a, n), WithoutAt(fa, n), WithoutAt(b, j), WithoutAt(fb, j));
      MultisetWithoutAt(fa, n);
      MultisetWithoutAt(fb, j);
      assert fa[n] == fb[j];
    }
  }

  lemma {:induction false} CountInDistinct<T>(a: seq<T>, x: T)
    requires Distinct(a)
    ensures multiset(a)[x] == if x in a then 1 else 0
  {
    if a != [] {
      var n := |a| - 1;
      assert a == a[..n] + [a[n]];
      CountInDistinct(a[..n], x);
    }
  }

  /** Sequences without repetition and with the same members are rearrangements of each other. */
  lemma SameMembers<T>(a: seq<T>, b: seq<T>)
    requires Distinct(a) && Distinct(b) && forall x :: x in a <==> x in b
    ensures multiset(a) == multiset(b)
  {
    forall x ensures multiset(a)[x] == multiset(b)[x] {
      CountInDistinct(a, x);
      CountInDistinct(b, x);
    }
  }
}
