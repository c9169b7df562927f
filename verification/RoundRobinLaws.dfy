/** Round-robin selection over whole runs: when Next fails, who is served, and how often. */
module RoundRobinLaws {
  import opened Base
  import opened ModLaws
  import opened ProxyPool

  /** Every operation but Update keeps the number of entries and all their keys. */
  lemma ApplyKeepsKeys(s: State, op: Op)
    requires !op.Update?
    ensures |Apply(s, op).entries| == |s.entries|
    ensures Keys(Apply(s, op).entries) == Keys(s.entries)
  {
  }

  predicate NoUpdate(ops: seq<Op>) {
    forall t :: 0 <= t < |ops| ==> !ops[t].Update?
  }

  lemma {:induction false} ApplyAllKeepsKeys(s: State, ops: seq<Op>)
    requires NoUpdate(ops)
    ensures |ApplyAll(s, ops).entries| == |s.entries|
    ensures Keys(ApplyAll(s, ops).entries) == Keys(s.entries)
  {
    if ops != [] {
      var n := |ops| - 1;
      ApplyAllKeepsKeys(s, ops[..n]);
      ApplyKeepsKeys(ApplyAll(s, ops[..n]), ops[n]);
    }
  }

  /** What Next(RoundRobin) returns: the first selectable entry, cyclically; d counts the misses. */
  lemma {:induction false} ProbeIsFirst(es: seq<Entry>, now: int, start: nat, i: nat) returns (d: nat)
    requires es != [] && i <= |es|
    ensures i <= d <= |es|
    ensures forall c :: i <= c < d ==> !Selectable(es[Cyclic(start, c, |es|)], now)
    ensures Probe(es, now, start, i) == if d < |es| then Cyclic(start, d, |es|) else -1
    decreases |es| - i
  {
    if i < |es| && !Selectable(es[Cyclic(start, i, |es|)], now) {
      d := ProbeIsFirst(es, now, start, i + 1);
    } else {
      d := i;
    }
  }

  /** From any start, every position is probed: the probe number that reaches position j. */
  lemma EveryPositionProbed(n: nat, start: nat, j: nat) returns (d: nat)
    requires j < n
    ensures d < n && Cyclic(start, d, n) == j
  {
    d := (j - start) % n;
    assert start + d == j + (-((j - start) / n)) * n;
    RemainderShift(j, -((j - start) / n), n);
    RemainderUnique(j, 0, n, j);
  }

  /** A round-robin Next advances the counter and probes from it. */
  lemma NextIsProbe(s: State, now: int)
    requires s.entries != []
    ensures NextOf(s, RoundRobin, now).0 == s.(rr := Bump(s.rr))
    ensures NextOf(s, RoundRobin, now).1 == Probe(s.entries, now, Bump(s.rr) % |s.entries|, 0)
  {
  }

  /** Next(RoundRobin) fails exactly when no entry is selectable. */
  lemma NextFailsIffNoneSelectable(s: State, now: int)
    ensures NextOf(s, RoundRobin, now).1 < 0
       <==> forall j :: 0 <= j < |s.entries| ==> !Selectable(s.entries[j], now)
  {
    if s.entries != [] {
      var n, start := |s.entries|, Bump(s.rr) % |s.entries|;
      NextIsProbe(s, now);
      var d := ProbeIsFirst(s.entries, now, start, 0);
      if d == n {
        forall j | 0 <= j < n ensures !Selectable(s.entries[j], now) {
          var c := EveryPositionProbed(n, start, j);
        }
      }
    }
  }

  // --- runs ---------------------------------------------------------------------------------

  /** The results of the Next calls in a run, in order. */
  function Picks(s: State, ops: seq<Op>): seq<int> {
    if ops == [] then []
    else
      var n := |ops| - 1;
      var before := Picks(s, ops[..n]);
      if ops[n].Next? then before + [NextOf(ApplyAll(s, ops[..n]), ops[n].strategy, ops[n].now).1] else before
  }

  /** Between Updates, with round-robin Next calls; MarkSuccess and MarkFailure are arbitrary. */
  predicate RoundRobinRun(ops: seq<Op>) {
    NoUpdate(ops) && forall t :: 0 <= t < |ops| && ops[t].Next? ==> ops[t].strategy.RoundRobin?
  }

  predicate SelectableAtNexts(s: State, ops: seq<Op>, j: nat) {
    forall t :: 0 <= t < |ops| && ops[t].Next? ==>
      var es := ApplyAll(s, ops[..t]).entries;
      j < |es| && Selectable(es[j], ops[t].now)
  }

  /** The counter after k more Next calls. */
  function Advance(rr: nat, k: nat): nat {
    if k == 0 then rr else Bump(Advance(rr, k - 1))
  }

  lemma {:induction false} AdvanceWraps(rr: nat, k: nat)
    requires rr < TWO_TO_THE_64
    ensures Advance(rr, k) == (rr + k) % TWO_TO_THE_64
  {
    if k > 0 {
      AdvanceWraps(rr, k - 1);
    }
  }

  /** Where the c-th Next call after counter value rr starts probing among n entries. */
  function StartOf(rr: nat, c: nat, n: nat): (r: nat)
    requires n > 0
    ensures r < n
  {
    Advance(rr, c) % n
  }

  lemma StartBeforeWrap(rr: nat, c: nat, n: nat)
    requires n > 0 && rr + c < TWO_TO_THE_64
    ensures StartOf(rr, c, n) == (rr + c) % n
  {
    assert Advance(rr, c) == rr + c by {
      AdvanceWraps(rr, c);
    }
  }

  lemma StartAfterWrap(rr: nat, c: nat, n: nat)
    requires n > 0 && rr < TWO_TO_THE_64 <= rr + c < TWO_TO_THE_64 + TWO_TO_THE_64
    ensures StartOf(rr, c, n) == (rr + c - TWO_TO_THE_64) % n
  {
    assert Advance(rr, c) == rr + c - TWO_TO_THE_64 by {
      AdvanceWraps(rr, c);
    }
  }

  lemma {:induction false} CounterAfter(s: State, ops: seq<Op>)
    requires RoundRobinRun(ops) && s.entries != []
    ensures ApplyAll(s, ops).rr == Advance(s.rr, |Picks(s, ops)|)
  {
    if ops != [] {
      var n := |ops| - 1;
      CounterAfter(s, ops[..n]);
      ApplyAllKeepsKeys(s, ops[..n]);
      if ops[n].Next? {
        NextIsProbe(ApplyAll(s, ops[..n]), ops[n].now);
      }
    }
  }

  lemma SelectablePrefix(s: State, ops: seq<Op>, j: nat, n: nat)
    requires SelectableAtNexts(s, ops, j) && n <= |ops|
    ensures SelectableAtNexts(s, ops[..n], j)
  {
    forall t | 0 <= t < n && ops[t].Next?
      ensures var es := ApplyAll(s, ops[..n][..t]).entries; j < |es| && Selectable(es[j], ops[t].now)
    {
      assert ops[..n][..t] == ops[..t];
    }
  }

  /** A call whose start is a selectable entry returns that entry. */
  lemma NextServesStart(s: State, now: int, j: nat)
    requires j < |s.entries| && Selectable(s.entries[j], now)
    requires Bump(s.rr) % |s.entries| == j
    ensures NextOf(s, RoundRobin, now).1 == j
  {
    NextIsProbe(s, now);
    RemainderUnique(j, 0, |s.entries|, j);
  }

  lemma BumpAfter(s: State, ops: seq<Op>)
    requires RoundRobinRun(ops) && s.entries != [] && s.rr < TWO_TO_THE_64
    ensures Bump(ApplyAll(s, ops).rr) % |s.entries| == StartOf(s.rr, |Picks(s, ops)| + 1, |s.entries|)
  {
    CounterAfter(s, ops);
  }

  /** A run that ends with a Next call: what that call returns. */
  lemma LastNextServes(s: State, ops: seq<Op>, n: nat, j: nat)
    requires RoundRobinRun(ops) && s.entries != [] && s.rr < TWO_TO_THE_64
    requires j < |s.entries| && SelectableAtNexts(s, ops, j) && n < |ops| && ops[n].Next?
    requires StartOf(s.rr, |Picks(s, ops[..n])| + 1, |s.entries|) == j
    ensures NextOf(ApplyAll(s, ops[..n]), RoundRobin, ops[n].now).1 == j
  {
    BumpAfter(s, ops[..n]);
    ApplyAllKeepsKeys(s, ops[..n]);
    NextServesStart(ApplyAll(s, ops[..n]), ops[n].now, j);
  }

  /** The c-th Next call returns j when it starts at j and j is selectable. */
  lemma {:induction false} ServedWhenReached(s: State, ops: seq<Op>, j: nat, c: nat)
    requires RoundRobinRun(ops) && s.entries != [] && s.rr < TWO_TO_THE_64
    requires j < |s.entries| && SelectableAtNexts(s, ops, j)
    requires 1 <= c <= |Picks(s, ops)| && StartOf(s.rr, c, |s.entries|) == j
    ensures Picks(s, ops)[c - 1] == j
  {
    var n := |ops| - 1;
    if ops[n].Next? && c == |Picks(s, ops)| {
      LastNextServes(s, ops, n, j);
    } else {
      SelectablePrefix(s, ops, j, n);
      ServedWhenReached(s, ops[..n], j, c);
    }
  }

  /** The counter value rr leaves room for n calls, or wrapping around does no harm. */
  predicate WrapHarmless(rr: nat, n: nat)
    requires n > 0
  {
    rr + n < TWO_TO_THE_64 || rr == TWO_TO_THE_64 - 1 || TWO_TO_THE_64 % n == 0
  }

  /** Within n calls the start visits position j: the call number that does. */
  lemma StartsCover(rr: nat, n: nat, j: nat) returns (c: nat)
    requires 0 < n <= TWO_TO_THE_64 && rr < TWO_TO_THE_64 && j < n && WrapHarmless(rr, n)
    ensures 1 <= c <= n && StartOf(rr, c, n) == j
  {
    if rr == TWO_TO_THE_64 - 1 {
      c := j + 1;
      StartAfterWrap(rr, c, n);
      RemainderUnique(j, 0, n, j);
    } else {
      var d := EveryPositionProbed(n, rr + 1, j);
      c := d + 1;
      if rr + c < TWO_TO_THE_64 {
        StartBeforeWrap(rr, c, n);
      } else {
        StartAfterWrap(rr, c, n);
        DivisorForgotten(rr + c - TWO_TO_THE_64, TWO_TO_THE_64, n);
      }
    }
  }

  /**
   * No starvation: an entry that is selectable at each of n consecutive Next calls is returned by
   * one of them, whatever MarkSuccess and MarkFailure calls come in between.
   */
  lemma NoStarvation(s: State, ops: seq<Op>, j: nat)
    requires RoundRobinRun(ops) && s.rr < TWO_TO_THE_64
    requires j < |s.entries| <= TWO_TO_THE_64 && SelectableAtNexts(s, ops, j)
    requires |Picks(s, ops)| >= |s.entries| && WrapHarmless(s.rr, |s.entries|)
    ensures exists c :: 0 <= c < |s.entries| && Picks(s, ops)[c] == j
  {
    var c := StartsCover(s.rr, |s.entries|, j);
    ServedWhenReached(s, ops, j, c);
  }

  /** The position that n calls across the wrap-around of the counter skip. */
  function SkippedByWrap(rr: nat, n: nat): int
    requires n > 0
  {
    var beforeWrap := TWO_TO_THE_64 - 1 - rr;
    var rest := TWO_TO_THE_64 % n;
    if rest < beforeWrap then n - 1 - (beforeWrap - rest) else n - 1
  }

  lemma WrapSkips(rr: nat, n: nat, c: nat)
    requires 0 < n <= TWO_TO_THE_64 && rr < TWO_TO_THE_64 && !WrapHarmless(rr, n) && 1 <= c <= n
    ensures 0 <= SkippedByWrap(rr, n) < n
    ensures StartOf(rr, c, n) != SkippedByWrap(rr, n)
  {
    var m := TWO_TO_THE_64;
    var q, rest, beforeWrap := m / n, m % n, m - 1 - rr;
    assert m == q * n + rest;
    if rr + c >= m {
      StartAfterWrap(rr, c, n);
      RemainderUnique(rr + c - m, 0, n, rr + c - m);
    } else {
      var t := m - (rr + c);
      StartBeforeWrap(rr, c, n);
      if rest >= t {
        RemainderUnique(m - t, q, n, rest - t);
      } else {
        assert m - t == (q - 1) * n + (rest - t + n);
        RemainderUnique(m - t, q - 1, n, rest - t + n);
      }
    }
  }

  predicate AllSelectableAtNexts(s: State, ops: seq<Op>) {
    forall j :: 0 <= j < |s.entries| ==> SelectableAtNexts(s, ops, j)
  }

  /** With every entry selectable, the c-th call returns exactly the entry it starts at. */
  lemma PicksAreStarts(s: State, ops: seq<Op>, c: nat)
    requires RoundRobinRun(ops) && s.entries != [] && s.rr < TWO_TO_THE_64
    requires AllSelectableAtNexts(s, ops) && 1 <= c <= |Picks(s, ops)|
    ensures Picks(s, ops)[c - 1] == StartOf(s.rr, c, |s.entries|)
  {
    ServedWhenReached(s, ops, StartOf(s.rr, c, |s.entries|), c);
  }

  /**
   * Exactly when n calls serve all n entries, all of them selectable throughout: iff the 64-bit
   * counter does not wrap around inside the window, wraps right at its start, or n divides 2^64.
   */
  lemma ServesAllIff(s: State, ops: seq<Op>)
    requires RoundRobinRun(ops) && s.rr < TWO_TO_THE_64 && 0 < |s.entries| <= TWO_TO_THE_64
    requires AllSelectableAtNexts(s, ops) && |Picks(s, ops)| == |s.entries|
    ensures (forall j :: 0 <= j < |s.entries| ==> j in Picks(s, ops)) <==> WrapHarmless(s.rr, |s.entries|)
  {
    var n := |s.entries|;
    if WrapHarmless(s.rr, n) {
      forall j | 0 <= j < n ensures j in Picks(s, ops) {
        NoStarvation(s, ops, j);
      }
    } else {
      var j := SkippedByWrap(s.rr, n);
      forall i | 0 <= i < n ensures Picks(s, ops)[i] != j {
        PicksAreStarts(s, ops, i + 1);
        WrapSkips(s.rr, n, i + 1);
      }
      WrapSkips(s.rr, n, 1);
      assert j !in Picks(s, ops);
    }
  }

  // --- fairness -----------------------------------------------------------------------------

  function Occurrences(picks: seq<int>, j: int): nat {
    if picks == [] then 0
    else Occurrences(picks[..|picks| - 1], j) + (if picks[|picks| - 1] == j then 1 else 0)
  }

  /** How many calls pass before j's turn comes. */
  function Distance(rr: nat, n: nat, j: nat): (d: nat)
    requires n > 0
    ensures d < n
  {
    (j - rr - 1) % n
  }

  function Turns(m: nat, d: nat, n: nat): nat
    requires n > 0
  {
    if m <= d then 0 else 1 + (m - 1 - d) / n
  }

  /** Shifting j by t lands on j again exactly when t is a multiple of n. */
  lemma ReturnsToItself(n: nat, j: nat, t: int)
    requires j < n
    ensures (j + t) % n == j <==> t % n == 0
  {
    var q, r := t / n, t % n;
    assert j + t == q * n + (j + r);
    if j + r < n {
      RemainderUnique(j + t, q, n, j + r);
    } else {
      assert j + t == (q + 1) * n + (j + r - n);
      RemainderUnique(j + t, q + 1, n, j + r - n);
    }
  }

  lemma DistanceReaches(rr: nat, n: nat, j: nat, m: nat)
    requires n > 0
    ensures (rr + (m + 1)) % n == (j + (m - Distance(rr, n, j))) % n
  {
    var k := (j - rr - 1) / n;
    assert rr + (m + 1) == (j + (m - Distance(rr, n, j))) + (-k) * n;
    RemainderShift(j + (m - Distance(rr, n, j)), -k, n);
  }

  /** Call m + 1 starts at j exactly when a multiple of n calls separates it from j's first turn. */
  lemma TurnComes(rr: nat, n: nat, j: nat, m: nat)
    requires j < n && rr + m + 1 < TWO_TO_THE_64
    ensures var d := Distance(rr, n, j);
            StartOf(rr, m + 1, n) == j <==> m >= d && (m - d) % n == 0
  {
    var d := Distance(rr, n, j);
    StartBeforeWrap(rr, m + 1, n);
    DistanceReaches(rr, n, j, m);
    ReturnsToItself(n, j, m - d);
    if m < d {
      RemainderUnique(m - d, -1, n, m - d + n);
    }
  }

  lemma TurnsStep(m: nat, d: nat, n: nat)
    requires d < n
    ensures Turns(m + 1, d, n) == Turns(m, d, n) + (if m >= d && (m - d) % n == 0 then 1 else 0)
  {
    if m > d {
      var q, r := (m - 1 - d) / n, (m - 1 - d) % n;
      if r == n - 1 {
        assert m - d == (q + 1) * n + 0;
        RemainderUnique(m - d, q + 1, n, 0);
      } else {
        RemainderUnique(m - d, q, n, r + 1);
      }
    } else if m == d {
      RemainderUnique(0, 0, n, 0);
    }
  }

  lemma {:induction false} OccurrencesAreTurns(picks: seq<int>, rr: nat, n: nat, j: nat)
    requires j < n && rr + |picks| < TWO_TO_THE_64
    requires forall i :: 0 <= i < |picks| ==> picks[i] == StartOf(rr, i + 1, n)
    ensures Occurrences(picks, j) == Turns(|picks|, Distance(rr, n, j), n)
  {
    if picks != [] {
      var m := |picks| - 1;
      OccurrencesAreTurns(picks[..m], rr, n, j);
      TurnComes(rr, n, j, m);
      TurnsStep(m, Distance(rr, n, j), n);
    }
  }

  lemma RoundedUp(m: nat, n: nat)
    requires n > 0
    ensures (m + n - 1) / n == if m % n == 0 then m / n else m / n + 1
  {
    var q, r := m / n, m % n;
    if r == 0 {
      assert m + n - 1 == q * n + (n - 1);
      RemainderUnique(m + n - 1, q, n, n - 1);
    } else {
      assert m + n - 1 == (q + 1) * n + (r - 1);
      RemainderUnique(m + n - 1, q + 1, n, r - 1);
    }
  }

  lemma TurnsBetween(m: nat, d: nat, n: nat)
    requires d < n
    ensures m / n <= Turns(m, d, n) <= (m + n - 1) / n
  {
    var q, r := m / n, m % n;
    RoundedUp(m, n);
    if m <= d {
      RemainderUnique(m, 0, n, m);
    } else if r >= 1 + d {
      RemainderUnique(m - 1 - d, q, n, r - 1 - d);
    } else {
      assert m - 1 - d == (q - 1) * n + (r - 1 - d + n);
      RemainderUnique(m - 1 - d, q - 1, n, r - 1 - d + n);
    }
  }

  /**
   * Fairness: while all n entries stay selectable and the counter does not wrap around, m calls
   * return each entry m/n times, rounded down or up.
   */
  lemma Fairness(s: State, ops: seq<Op>, j: nat)
    requires RoundRobinRun(ops) && j < |s.entries| && AllSelectableAtNexts(s, ops)
    requires s.rr + |Picks(s, ops)| < TWO_TO_THE_64
    ensures var m, n := |Picks(s, ops)|, |s.entries|;
            m / n <= Occurrences(Picks(s, ops), j) <= (m + n - 1) / n
  {
    var picks, n := Picks(s, ops), |s.entries|;
    forall i | 0 <= i < |picks| ensures picks[i] == StartOf(s.rr, i + 1, n) {
      PicksAreStarts(s, ops, i + 1);
    }
    OccurrencesAreTurns(picks, s.rr, n, j);
    TurnsBetween(|picks|, Distance(s.rr, n, j), n);
  }
}
