/** Go's map[string]int used for counting: an absent key counts zero. */
module Counters {
  import opened Base

  type Counter = map<string, nat>

  function CountOf(c: Counter, k: string): nat {
    if k in c then c[k] else 0
  }

  /** c[k] += v */
  function Add(c: Counter, k: string, v: nat): Counter {
    c[k := CountOf(c, k) + v]
  }

  /** One increment for every element. */
  function Tally(ks: seq<string>): Counter {
    if ks == [] then map[] else Add(Tally(ks[..|ks| - 1]), ks[|ks| - 1], 1)
  }

  lemma TallyNext(ks: seq<string>, k: string)
    ensures Tally(ks + [k]) == Add(Tally(ks), k, 1)
  {
    assert (ks + [k])[..|ks|] == ks;
  }

  /** A tally holds how often each element occurs, and no other key. */
  lemma {:induction false} TallyCounts(ks: seq<string>)
    ensures Tally(ks).Keys == Elements(ks)
    ensures forall k :: k in ks ==> Tally(ks)[k] == multiset(ks)[k]
  {
    if ks != [] {
      var n := |ks| - 1;
      TallyCounts(ks[..n]);
      assert ks == ks[..n] + [ks[n]];
      assert Elements(ks) == Elements(ks[..n]) + {ks[n]};
    }
  }

  lemma TallyOfPermutation(a: seq<string>, b: seq<string>)
    requires multiset(a) == multiset(b)
    ensures Tally(a) == Tally(b)
  {
    TallyCounts(a);
    TallyCounts(b);
    forall k ensures k in a <==> k in b {
      assert k in a <==> k in multiset(a);
      assert k in b <==> k in multiset(b);
    }
    assert Tally(a).Keys == Tally(b).Keys;
  }

  // --- totals -----------------------------------------------------------------------------------------

  ghost function Total(c: Counter): nat
    decreases |c.Keys|
  {
    if c.Keys == {} then 0
    else
      var k :| k in c.Keys;
      assert (c - {k}).Keys == c.Keys - {k};
      c[k] + Total(c - {k})
  }

  /** The total does not depend on the order keys are taken out in. */
  lemma {:induction false} TotalWithout(c: Counter, k: string)
    requires k in c
    ensures Total(c) == c[k] + Total(c - {k})
    decreases |c.Keys|
  {
    var j :| j in c.Keys && Total(c) == c[j] + Total(c - {j});
    if j != k {
      assert (c - {j}).Keys == c.Keys - {j} && (c - {k}).Keys == c.Keys - {k};
      TotalWithout(c - {j}, k);
      TotalWithout(c - {k}, j);
      assert c - {j} - {k} == c - {k} - {j};
    }
  }

  lemma TotalAdd(c: Counter, k: string, v: nat)
    ensures Total(Add(c, k, v)) == Total(c) + v
  {
    var d := Add(c, k, v);
    TotalWithout(d, k);
    if k in c {
      TotalWithout(c, k);
      assert d - {k} == c - {k};
    } else {
      assert d - {k} == c;
    }
  }

  lemma {:induction false} TotalTally(ks: seq<string>)
    ensures Total(Tally(ks)) == |ks|
  {
    if ks != [] {
      var n := |ks| - 1;
      TotalTally(ks[..n]);
      TotalAdd(Tally(ks[..n]), ks[n], 1);
    }
  }

  // --- merging ------------------------------------------------------------------------------------------

  /** The merge of counters: every key of one of them, with the sum of its counts. */
  function SumAt(mm: seq<Counter>, k: string): nat {
    if mm == [] then 0 else SumAt(mm[..|mm| - 1], k) + CountOf(mm[|mm| - 1], k)
  }

  function AllKeys(mm: seq<Counter>): set<string> {
    set i, k | 0 <= i < |mm| && k in mm[i] :: k
  }

  ghost function TotalOfAll(mm: seq<Counter>): nat {
    if mm == [] then 0 else TotalOfAll(mm[..|mm| - 1]) + Total(mm[|mm| - 1])
  }

  predicate IsMerge(out: Counter, mm: seq<Counter>) {
    out.Keys == AllKeys(mm) && forall k :: k in out ==> out[k] == SumAt(mm, k)
  }

  /** The state of the inner loop: `todo` are the keys of m not yet added to before. */
  predicate PartlyAdded(out: Counter, before: Counter, m: Counter, todo: set<string>) {
    && todo <= m.Keys && out.Keys == before.Keys + (m.Keys - todo)
    && forall k :: k in out ==> out[k] == CountOf(before, k) + (if k in m && k !in todo then m[k] else 0)
  }

  lemma AddOne(out: Counter, before: Counter, m: Counter, todo: set<string>, k: string)
    requires PartlyAdded(out, before, m, todo) && k in todo
    ensures PartlyAdded(Add(out, k, m[k]), before, m, todo - {k})
  {
    assert CountOf(out, k) == CountOf(before, k);
  }

  lemma MergeOneMore(out: Counter, before: Counter, mm: seq<Counter>, i: nat)
    requires i < |mm| && IsMerge(before, mm[..i]) && PartlyAdded(out, before, mm[i], {})
    ensures IsMerge(out, mm[..i + 1])
  {
    var a, b := mm[..i], mm[..i + 1];
    assert b[..i] == a && b[i] == mm[i];
    assert AllKeys(b) == AllKeys(a) + mm[i].Keys by {
      forall k | k in AllKeys(b) ensures k in AllKeys(a) || k in mm[i] {
        var j :| 0 <= j < |b| && k in b[j];
        assert j < i ==> a[j] == b[j];
      }
      forall k | k in AllKeys(a) ensures k in AllKeys(b) {
        var j :| 0 <= j < |a| && k in a[j];
        assert b[j] == a[j];
      }
      forall k | k in mm[i] ensures k in AllKeys(b) {
        assert k in b[i];
      }
    }
    forall k | k in out ensures out[k] == SumAt(b, k) {
      AbsentSumsToZero(a, k);
    }
  }

  lemma {:induction false} AbsentSumsToZero(mm: seq<Counter>, k: string)
    ensures k !in AllKeys(mm) ==> SumAt(mm, k) == 0
  {
    if mm != [] {
      AbsentSumsToZero(mm[..|mm| - 1], k);
      assert forall i :: 0 <= i < |mm| - 1 ==> mm[..|mm| - 1][i] == mm[i];
    }
  }

  /** Adds one counter to another, key by key, in whatever order the map yields its keys. */
  method AddAll(before: Counter, m: Counter) returns (out: Counter)
    ensures PartlyAdded(out, before, m, {})
    ensures Total(out) == Total(before) + Total(m)
  {
    out := before;
    ghost var left := m;
    var todo := m.Keys;
    while todo != {}
      invariant PartlyAdded(out, before, m, todo)
      invariant left.Keys == todo && (forall k :: k in left ==> left[k] == m[k])
      invariant Total(out) + Total(left) == Total(before) + Total(m)
      decreases |todo|
    {
      var k :| k in todo;
      AddOne(out, before, m, todo, k);
      TotalAdd(out, k, m[k]);
      TotalWithout(left, k);
      out := Add(out, k, m[k]);
      left := left - {k};
      todo := todo - {k};
    }
  }

  /** Merges counters; no count is lost. */
  method MergeSkipped(mm: seq<Counter>) returns (out: Counter)
    ensures IsMerge(out, mm)
    ensures Total(out) == TotalOfAll(mm)
  {
    out := map[];
    var i := 0;
    while i < |mm|
      invariant 0 <= i <= |mm| && IsMerge(out, mm[..i]) && Total(out) == TotalOfAll(mm[..i])
    {
      ghost var before := out;
      out := AddAll(out, mm[i]);
      MergeOneMore(out, before, mm, i);
      assert mm[..i + 1][..i] == mm[..i];
      i := i + 1;
    }
    assert mm[..i] == mm;
  }
}
