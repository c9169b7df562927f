/** The pool of upstream proxies: entries, the key index, round-robin selection and backoff. */
module ProxyPool {
  import opened Base
  import opened GoText

  // Times and durations are nanosecond counts; the zero time.Time is None.
  datatype Entry = Entry(
    id: string, addr: string, username: string, password: string,
    latency: int, lastCheckedAt: Option<int>,
    failures: int, disabledUntil: Option<int>)
  {
    function Key(): string {
      if !Blank(id) then id
      else if !Blank(username) then addr + "|" + username
      else addr
    }
  }

  /** What Next asks: strictly after disabledUntil. */
  predicate Selectable(e: Entry, now: int) {
    e.disabledUntil.None? || now > e.disabledUntil.value
  }

  /** What Get, Active and Stats ask: not before disabledUntil. */
  predicate Enabled(e: Entry, now: int) {
    e.disabledUntil.None? || now >= e.disabledUntil.value
  }

  function Keys(es: seq<Entry>): (ks: seq<string>)
    ensures |ks| == |es| && forall i :: 0 <= i < |es| ==> ks[i] == es[i].Key()
  {
    seq(|es|, i requires 0 <= i < |es| => es[i].Key())
  }

  predicate DistinctKeys(es: seq<Entry>) {
    forall i, j :: 0 <= i < j < |es| ==> es[i].Key() != es[j].Key()
  }

  /** Linear scan for the last entry with the key; -1 when there is none. */
  function LastIndex(es: seq<Entry>, key: string): (i: int)
    ensures -1 <= i < |es|
    ensures i >= 0 ==> es[i].Key() == key
    ensures forall j :: i < j < |es| ==> es[j].Key() != key
  {
    if es == [] then -1
    else if es[|es| - 1].Key() == key then |es| - 1
    else LastIndex(es[..|es| - 1], key)
  }

  /** The enabled entries, in pool order. */
  function ActiveOf(es: seq<Entry>, now: int): seq<Entry> {
    if es == [] then []
    else
      var init := ActiveOf(es[..|es| - 1], now);
      if Enabled(es[|es| - 1], now) then init + [es[|es| - 1]] else init
  }

  /** The i-th position probed from start, cyclically. */
  function Cyclic(start: nat, i: nat, n: nat): (r: nat)
    requires n > 0
    ensures r < n
  {
    (start + i) % n
  }

  /** Index of the first selectable entry among the probes i, i + 1, ... after start; -1 if none. */
  function Probe(es: seq<Entry>, now: int, start: nat, i: nat): (r: int)
    requires es != [] && i <= |es|
    ensures -1 <= r < |es| && (r >= 0 ==> Selectable(es[r], now))
    decreases |es| - i
  {
    if i == |es| then -1
    else if Selectable(es[Cyclic(start, i, |es|)], now) then Cyclic(start, i, |es|)
    else Probe(es, now, start, i + 1)
  }

  /** The random strategy: |es| draws, the first that hits a selectable entry. */
  function RandomProbe(es: seq<Entry>, now: int, draws: nat -> nat, i: nat): (r: int)
    requires es != [] && i <= |es|
    ensures -1 <= r < |es| && (r >= 0 ==> Selectable(es[r], now))
    decreases |es| - i
  {
    if i == |es| then -1
    else if Selectable(es[draws(i) % |es|], now) then draws(i) % |es|
    else RandomProbe(es, now, draws, i + 1)
  }

  datatype Strategy = RoundRobin | Random(draws: nat -> nat)

  datatype State = State(entries: seq<Entry>, rr: nat)

  /** atomic.AddUint64(&rr, 1) */
  function Bump(rr: nat): (r: nat)
    ensures r < TWO_TO_THE_64
  {
    (rr + 1) % TWO_TO_THE_64
  }

  /** The pool after Next, and the index of the entry it returns (-1 for none). */
  function NextOf(s: State, strategy: Strategy, now: int): (r: (State, int))
    ensures r.0.entries == s.entries
    ensures -1 <= r.1 < |s.entries| && (r.1 >= 0 ==> Selectable(s.entries[r.1], now))
  {
    if s.entries == [] then (s, -1)
    else match strategy
      case Random(draws) => (s, RandomProbe(s.entries, now, draws, 0))
      case RoundRobin =>
        var rr := Bump(s.rr);
        (s.(rr := rr), Probe(s.entries, now, rr % |s.entries|, 0))
  }

  function GetOf(s: State, key: string, now: int): (i: int)
    ensures -1 <= i < |s.entries|
  {
    var i := LastIndex(s.entries, key);
    if i >= 0 && Enabled(s.entries[i], now) then i else -1
  }

  function Recovered(e: Entry): Entry {
    e.(failures := 0, disabledUntil := None)
  }

  /** The backoff loop from iteration i on. */
  function Doubling(backoff: int, i: int, failures: int, max: int): int
    decreases failures - i
  {
    if i >= failures then backoff
    else
      var doubled := Wrap(backoff * 2);
      if doubled >= max then max else Doubling(doubled, i + 1, failures, max)
  }

  function BackoffOf(failures: int, base: int, max: int): int {
    Doubling(base, 1, failures, max)
  }

  function Failed(e: Entry, now: int, base: int, max: int): Entry {
    e.(failures := e.failures + 1, disabledUntil := Some(now + BackoffOf(e.failures + 1, base, max)))
  }

  function MarkSuccessOf(s: State, key: string): State {
    var i := LastIndex(s.entries, key);
    if i < 0 then s else s.(entries := s.entries[i := Recovered(s.entries[i])])
  }

  function MarkFailureOf(s: State, key: string, now: int, base: int, max: int): State {
    var i := LastIndex(s.entries, key);
    if i < 0 then s else s.(entries := s.entries[i := Failed(s.entries[i], now, base, max)])
  }

  /** Everything other goroutines can do to a pool; each is atomic under the pool's mutex. */
  datatype Op =
    | Update(entries: seq<Entry>)
    | Next(strategy: Strategy, now: int)
    | MarkSuccess(key: string)
    | MarkFailure(failedKey: string, failedAt: int, base: int, max: int)

  function Apply(s: State, op: Op): State {
    match op
    case Update(es) => State(es, 0)
    case Next(strategy, now) => NextOf(s, strategy, now).0
    case MarkSuccess(k) => MarkSuccessOf(s, k)
    case MarkFailure(k, at, base, max) => MarkFailureOf(s, k, at, base, max)
  }

  function ApplyAll(s: State, ops: seq<Op>): State {
    if ops == [] then s else Apply(ApplyAll(s, ops[..|ops| - 1]), ops[|ops| - 1])
  }

  datatype Statistics = Statistics(total: nat, disabled: nat, lastChecked: Option<int>, hasAnyActive: bool)

  class Pool {
    var entries: array<Entry>
    var index: map<string, nat>
    var rr: nat
    var updating: bool

    /** The index refines the linear scan: a key maps to its last position. */
    ghost predicate Valid()
      reads this, entries
    {
      && rr < TWO_TO_THE_64
      && (forall k :: k in index ==> LastIndex(entries[..], k) == index[k])
      && (forall k :: LastIndex(entries[..], k) >= 0 ==> k in index)
    }

    ghost function Value(): State
      reads this, entries
    {
      State(entries[..], rr)
    }

    constructor ()
      ensures Valid() && fresh(entries) && Value() == State([], 0) && !updating
    {
      entries := new Entry[0];
      index := map[];
      rr := 0;
      updating := false;
    }

    method UpdatingCAS() returns (entered: bool)
      modifies this`updating
      ensures entered == !old(updating) && updating
    {
      entered := !updating;
      updating := true;
    }

    method UpdatingClear()
      modifies this`updating
      ensures !updating
    {
      updating := false;
    }

    /** The pool takes over the caller's slice; failure history and position start afresh. */
    method Update(es: array<Entry>)
      modifies this`entries, this`index, this`rr
      ensures Valid() && entries == es
      ensures Value() == Apply(old(Value()), Op.Update(es[..]))
    {
      entries := es;
      index := map[];
      var i := 0;
      while i < es.Length
        invariant 0 <= i <= es.Length && entries == es
        invariant forall k :: k in index ==> LastIndex(es[..i], k) == index[k]
        invariant forall k :: LastIndex(es[..i], k) >= 0 ==> k in index
      {
        assert es[..i + 1][..i] == es[..i];
        index := index[es[i].Key() := i];
        i := i + 1;
      }
      assert es[..i] == es[..];
      rr := 0;
    }

    method Next(strategy: Strategy, now: int) returns (e: Option<Entry>)
      requires Valid()
      modifies this`rr
      ensures Valid()
      ensures Value() == NextOf(old(Value()), strategy, now).0
      ensures var i := NextOf(old(Value()), strategy, now).1; e == if i >= 0 then Some(entries[i]) else None
    {
      if entries.Length == 0 {
        return None;
      }
      match strategy {
        case Random(draws) =>
          e := DrawRandomly(draws, now);
        case RoundRobin =>
          rr := (rr + 1) % TWO_TO_THE_64;
          e := ProbeFrom(rr % entries.Length, now);
      }
    }

    method DrawRandomly(draws: nat -> nat, now: int) returns (e: Option<Entry>)
      requires entries.Length > 0
      ensures var i := RandomProbe(entries[..], now, draws, 0); e == if i >= 0 then Some(entries[i]) else None
    {
      var i := 0;
      while i < entries.Length
        invariant 0 <= i <= entries.Length
        invariant RandomProbe(entries[..], now, draws, 0) == RandomProbe(entries[..], now, draws, i)
      {
        var candidate := entries[draws(i) % entries.Length];
        if Selectable(candidate, now) {
          return Some(candidate);
        }
        i := i + 1;
      }
      return None;
    }

    method ProbeFrom(start: nat, now: int) returns (e: Option<Entry>)
      requires entries.Length > 0
      ensures var i := Probe(entries[..], now, start, 0); e == if i >= 0 then Some(entries[i]) else None
    {
      var i := 0;
      while i < entries.Length
        invariant 0 <= i <= entries.Length
        invariant Probe(entries[..], now, start, 0) == Probe(entries[..], now, start, i)
      {
        var candidate := entries[(start + i) % entries.Length];
        if Selectable(candidate, now) {
          return Some(candidate);
        }
        i := i + 1;
      }
      return None;
    }

    method Get(key: string, now: int) returns (e: Option<Entry>)
      requires Valid()
      ensures var i := GetOf(Value(), key, now); e == if i >= 0 then Some(entries[i]) else None
    {
      if key !in index {
        return None;
      }
      var found := entries[index[key]];
      if !Enabled(found, now) {
        return None;
      }
      return Some(found);
    }

    method Active(now: int) returns (out: seq<Entry>)
      ensures out == ActiveOf(entries[..], now)
    {
      out := [];
      var i := 0;
      while i < entries.Length
        invariant 0 <= i <= entries.Length
        invariant out == ActiveOf(entries[..i], now)
      {
        assert entries[..i + 1][..i] == entries[..i];
        if Enabled(entries[i], now) {
          out := out + [entries[i]];
        }
        i := i + 1;
      }
      assert entries[..i] == entries[..];
    }

    method MarkSuccess(key: string)
      requires Valid()
      modifies entries
      ensures Valid() && Value() == MarkSuccessOf(old(Value()), key)
    {
      if key !in index {
        return;
      }
      ghost var was := entries[..];
      var i := index[key];
      entries[i] := Recovered(entries[i]);
      assert entries[..] == was[i := Recovered(was[i])];
      KeysKeepIndex(was, entries[..]);
    }

    method Backoff(failures: int, base: int, max: int) returns (backoff: int)
      ensures backoff == BackoffOf(failures, base, max)
    {
      backoff := base;
      var i := 1;
      while i < failures
        invariant Doubling(base, 1, failures, max) == Doubling(backoff, i, failures, max)
        decreases failures - i
      {
        backoff := Wrap(backoff * 2);
        if backoff >= max {
          return max;
        }
        i := i + 1;
      }
    }

    method MarkFailure(key: string, now: int, base: int, max: int)
      requires Valid()
      modifies entries
      ensures Valid() && Value() == MarkFailureOf(old(Value()), key, now, base, max)
    {
      if key !in index {
        return;
      }
      ghost var was := entries[..];
      var i := index[key];
      var failures := entries[i].failures + 1;
      var backoff := Backoff(failures, base, max);
      entries[i] := entries[i].(failures := failures, disabledUntil := Some(now + backoff));
      assert entries[..] == was[i := Failed(was[i], now, base, max)];
      KeysKeepIndex(was, entries[..]);
    }

    method Stats(now: int) returns (r: Statistics)
      ensures r.total == entries.Length
      ensures r.disabled + |ActiveOf(entries[..], now)| == r.total
      ensures r.hasAnyActive <==> exists i :: 0 <= i < entries.Length && Enabled(entries[i], now)
      ensures r.lastChecked.None? <==> forall i :: 0 <= i < entries.Length ==> entries[i].lastCheckedAt.None?
      ensures r.lastChecked.Some? ==> exists i :: 0 <= i < entries.Length && entries[i].lastCheckedAt == r.lastChecked
      ensures forall i :: 0 <= i < entries.Length && entries[i].lastCheckedAt.Some?
                ==> entries[i].lastCheckedAt.value <= r.lastChecked.value
    {
      var disabled, active, last := 0, 0, None;
      var i := 0;
      while i < entries.Length
        invariant 0 <= i <= entries.Length
        invariant disabled + active == i && active == |ActiveOf(entries[..i], now)|
        invariant active > 0 <==> exists j :: 0 <= j < i && Enabled(entries[j], now)
        invariant last.None? <==> forall j :: 0 <= j < i ==> entries[j].lastCheckedAt.None?
        invariant last.Some? ==> exists j :: 0 <= j < i && entries[j].lastCheckedAt == last
        invariant forall j :: 0 <= j < i && entries[j].lastCheckedAt.Some? ==> entries[j].lastCheckedAt.value <= last.value
      {
        assert entries[..i + 1][..i] == entries[..i];
        var checked := entries[i].lastCheckedAt;
        if checked.Some? && (last.None? || checked.value > last.value) {
          last := checked;
        }
        if !Enabled(entries[i], now) {
          disabled := disabled + 1;
        } else {
          active := active + 1;
        }
        i := i + 1;
      }
      assert entries[..i] == entries[..];
      r := Statistics(entries.Length, disabled, last, active > 0);
    }

    method Do(op: Op)
      requires Valid()
      modifies this`entries, this`index, this`rr, entries
      ensures Valid() && (entries == old(entries) || fresh(entries))
      ensures Value() == Apply(old(Value()), op)
    {
      match op {
        case Update(es) =>
          var slice := new Entry[|es|](j requires 0 <= j < |es| => es[j]);
          assert slice[..] == es;
          Update(slice);
        case Next(strategy, now) =>
          var _ := Next(strategy, now);
        case MarkSuccess(k) =>
          MarkSuccess(k);
        case MarkFailure(k, at, base, max) =>
          MarkFailure(k, at, base, max);
      }
    }

    /** Replays what other goroutines did between two steps of a request. */
    method Replay(ops: seq<Op>)
      requires Valid()
      modifies this`entries, this`index, this`rr, entries
      ensures Valid() && (entries == old(entries) || fresh(entries))
      ensures Value() == ApplyAll(old(Value()), ops)
    {
      var i := 0;
      while i < |ops|
        invariant 0 <= i <= |ops|
        invariant Valid() && (entries == old(entries) || fresh(entries))
        invariant Value() == ApplyAll(old(Value()), ops[..i])
      {
        assert ops[..i + 1][..i] == ops[..i];
        Do(ops[i]);
        i := i + 1;
      }
      assert ops[..i] == ops;
    }
  }

  /** LastIndex depends on the keys alone. */
  lemma {:induction false} LastIndexByKeys(a: seq<Entry>, b: seq<Entry>, key: string)
    requires Keys(a) == Keys(b)
    ensures LastIndex(a, key) == LastIndex(b, key)
  {
    if a != [] {
      var n := |a| - 1;
      assert |Keys(a)| == |Keys(b)| && a[n].Key() == Keys(a)[n] == Keys(b)[n] == b[n].Key();
      assert Keys(a[..n]) == Keys(a)[..n] == Keys(b)[..n] == Keys(b[..n]);
      LastIndexByKeys(a[..n], b[..n], key);
    }
  }

  /** Where keys stay in place, distinct keys stay distinct. */
  lemma SameKeysDistinct(a: seq<Entry>, b: seq<Entry>)
    requires Keys(a) == Keys(b) && DistinctKeys(a)
    ensures DistinctKeys(b)
  {
    forall i, j | 0 <= i < j < |b| ensures b[i].Key() != b[j].Key() {
      assert |Keys(a)| == |Keys(b)|;
      assert Keys(a)[i] == a[i].Key() && Keys(a)[j] == a[j].Key();
      assert Keys(b)[i] == b[i].Key() && Keys(b)[j] == b[j].Key();
    }
  }

  /** Replacing entries by others with the same keys leaves the index right. */
  lemma KeysKeepIndex(a: seq<Entry>, b: seq<Entry>)
    requires |a| == |b| && forall i :: 0 <= i < |a| ==> a[i].Key() == b[i].Key()
    ensures Keys(a) == Keys(b)
    ensures forall k :: LastIndex(a, k) == LastIndex(b, k)
  {
    forall k ensures LastIndex(a, k) == LastIndex(b, k) {
      LastIndexByKeys(a, b, k);
    }
  }
}
