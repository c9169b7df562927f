/** Keeping the first element of each key, as several loops of the updater do with a `seen` map. */
module Dedup {

  function KeysOf<T(==)>(xs: seq<T>, key: T -> string): set<string> {
    set x | x in xs :: key(x)
  }

  function KeepFirst<T(==)>(xs: seq<T>, key: T -> string): seq<T> {
    if xs == [] then []
    else
      var init := KeepFirst(xs[..|xs| - 1], key);
      if key(xs[|xs| - 1]) in KeysOf(init, key) then init else init + [xs[|xs| - 1]]
  }

  predicate DistinctBy<T>(xs: seq<T>, key: T -> string) {
    forall i, j :: 0 <= i < j < |xs| ==> key(xs[i]) != key(xs[j])
  }

  /** The loop with its `seen` map. */
  method Deduplicate<T(==)>(xs: seq<T>, key: T -> string) returns (out: seq<T>)
    ensures out == KeepFirst(xs, key)
  {
    out := [];
    var seen := {};
    var i := 0;
    while i < |xs|
      invariant 0 <= i <= |xs| && out == KeepFirst(xs[..i], key) && seen == KeysOf(out, key)
    {
      assert xs[..i + 1][..i] == xs[..i];
      if key(xs[i]) !in seen {
        seen := seen + {key(xs[i])};
        out := out + [xs[i]];
      }
      i := i + 1;
    }
    assert xs[..i] == xs;
  }

  lemma KeepFirstAppended<T>(xs: seq<T>, x: T, key: T -> string)
    ensures KeepFirst(xs + [x], key)
         == if key(x) in KeysOf(KeepFirst(xs, key), key) then KeepFirst(xs, key) else KeepFirst(xs, key) + [x]
  {
    assert (xs + [x])[..|xs|] == xs;
  }

  lemma KeysOfAppended<T>(xs: seq<T>, x: T, key: T -> string)
    ensures KeysOf(xs + [x], key) == KeysOf(xs, key) + {key(x)}
  {
    assert forall y :: y in xs + [x] <==> y in xs || y == x;
  }

  /** The result has one element per key, keys of the input and no others. */
  lemma {:induction false} KeepFirstKeys<T>(xs: seq<T>, key: T -> string)
    ensures DistinctBy(KeepFirst(xs, key), key)
    ensures KeysOf(KeepFirst(xs, key), key) == KeysOf(xs, key)
  {
    if xs != [] {
      var n := |xs| - 1;
      KeepFirstKeys(xs[..n], key);
      assert xs == xs[..n] + [xs[n]];
      var init := KeepFirst(xs[..n], key);
      KeysOfAppended(xs[..n], xs[n], key);
      KeysOfAppended(init, xs[n], key);
      forall i | 0 <= i < |init| ensures key(init[i]) in KeysOf(init, key) {
        assert init[i] in init;
      }
    }
  }

  /** No element before position p has its key. */
  predicate FirstOfItsKey<T>(xs: seq<T>, key: T -> string, p: nat)
    requires p < |xs|
  {
    forall q :: 0 <= q < p ==> key(xs[q]) != key(xs[p])
  }

  lemma FirstOfItsKeyIff<T>(xs: seq<T>, key: T -> string, p: nat)
    requires p < |xs|
    ensures FirstOfItsKey(xs, key, p) <==> key(xs[p]) !in KeysOf(xs[..p], key)
  {
    if !FirstOfItsKey(xs, key, p) {
      var q :| 0 <= q < p && key(xs[q]) == key(xs[p]);
      assert xs[..p][q] in xs[..p];
    }
    if key(xs[p]) in KeysOf(xs[..p], key) {
      var x :| x in xs[..p] && key(x) == key(xs[p]);
      var q :| 0 <= q < p && xs[..p][q] == x;
      assert key(xs[q]) == key(xs[p]);
    }
  }

  /** The positions kept: in order, those whose element is the first of its key. */
  function Kept<T(==)>(xs: seq<T>, key: T -> string, n: nat): seq<nat>
    requires n <= |xs|
  {
    if n == 0 then []
    else if FirstOfItsKey(xs, key, n - 1) then Kept(xs, key, n - 1) + [n - 1]
    else Kept(xs, key, n - 1)
  }

  lemma {:induction false} KeepFirstPositions<T>(xs: seq<T>, key: T -> string, n: nat)
    requires n <= |xs|
    ensures var kept, out := Kept(xs, key, n), KeepFirst(xs[..n], key);
            |kept| == |out| && forall i :: 0 <= i < |kept| ==> kept[i] < n && out[i] == xs[kept[i]]
  {
    if n > 0 {
      KeepFirstPositions(xs, key, n - 1);
      KeepFirstKeys(xs[..n - 1], key);
      FirstOfItsKeyIff(xs, key, n - 1);
      assert xs[..n][..n - 1] == xs[..n - 1];
    }
  }

  lemma {:induction false} KeptFirst<T>(xs: seq<T>, key: T -> string, n: nat, i: nat)
    requires n <= |xs| && i < |Kept(xs, key, n)|
    ensures Kept(xs, key, n)[i] < n && FirstOfItsKey(xs, key, Kept(xs, key, n)[i])
  {
    if i < |Kept(xs, key, n - 1)| {
      KeptFirst(xs, key, n - 1, i);
    }
  }

  lemma {:induction false} KeptAscends<T>(xs: seq<T>, key: T -> string, n: nat)
    requires n <= |xs|
    ensures forall i, j :: 0 <= i < j < |Kept(xs, key, n)| ==> Kept(xs, key, n)[i] < Kept(xs, key, n)[j]
  {
    if n > 0 {
      KeptAscends(xs, key, n - 1);
      var init := Kept(xs, key, n - 1);
      forall i | 0 <= i < |init| ensures init[i] < n - 1 {
        KeptFirst(xs, key, n - 1, i);
      }
    }
  }

  lemma {:induction false} KeepFirstOfDistinct<T>(xs: seq<T>, key: T -> string)
    requires DistinctBy(xs, key)
    ensures KeepFirst(xs, key) == xs
  {
    if xs != [] {
      var n := |xs| - 1;
      KeepFirstOfDistinct(xs[..n], key);
      FirstOfItsKeyIff(xs, key, n);
      assert xs == xs[..n] + [xs[n]];
    }
  }

  lemma KeepFirstIdempotent<T>(xs: seq<T>, key: T -> string)
    ensures KeepFirst(KeepFirst(xs, key), key) == KeepFirst(xs, key)
  {
    KeepFirstKeys(xs, key);
    KeepFirstOfDistinct(KeepFirst(xs, key), key);
  }

  /** Deduplicating in stages is deduplicating once. */
  lemma {:induction false} KeepFirstStaged<T>(a: seq<T>, b: seq<T>, key: T -> string)
    ensures KeepFirst(KeepFirst(a, key) + b, key) == KeepFirst(a + b, key)
  {
    if b == [] {
      assert KeepFirst(a, key) + b == KeepFirst(a, key) && a + b == a;
      KeepFirstIdempotent(a, key);
    } else {
      var n := |b| - 1;
      KeepFirstStaged(a, b[..n], key);
      assert KeepFirst(a, key) + b == (KeepFirst(a, key) + b[..n]) + [b[n]];
      assert a + b == (a + b[..n]) + [b[n]];
      KeepFirstAppended(KeepFirst(a, key) + b[..n], b[n], key);
      KeepFirstAppended(a + b[..n], b[n], key);
    }
  }
}
