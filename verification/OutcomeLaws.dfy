/** What a request leaves behind: what its verdict says of its attempts, and what each marks in the pool. */
module OutcomeLaws {
  import opened Base
  import opened ProxyPool
  import opened RoundRobinLaws
  import opened BackoffLaws
  import opened PoolLaws
  import opened Failover
  import opened FailoverLaws

  // --- the marks of one attempt ------------------------------------------------------------------------------

  /** after is met with the entry of this key marked good or bad, and nothing else changed. */
  predicate Marked(met: State, after: State, key: string, good: bool, at: int, base: int, max: int) {
    && Keys(after.entries) == Keys(met.entries) && after.rr == met.rr
    && (forall j :: 0 <= j < |met.entries| && j != LastIndex(met.entries, key) ==> after.entries[j] == met.entries[j])
    && var i := LastIndex(met.entries, key);
       i >= 0 ==>
         if good then after.entries[i] == met.entries[i].(failures := 0, disabledUntil := None)
         else after.entries[i] == met.entries[i].(failures := met.entries[i].failures + 1,
                                                  disabledUntil := Some(at + BackoffOf(met.entries[i].failures + 1, base, max)))
  }

  lemma MarkMarks(met: State, key: string, good: bool, at: int, base: int, max: int)
    ensures Marked(met, Apply(met, if good then MarkSuccess(key) else MarkFailure(key, at, base, max)), key, good, at, base, max)
  {
    var op := if good then MarkSuccess(key) else MarkFailure(key, at, base, max);
    ApplyKeepsKeys(met, op);
    forall j | 0 <= j < |met.entries| && j != LastIndex(met.entries, key) ensures Apply(met, op).entries[j] == met.entries[j] {
      MarksTouchOne(met, op, j);
    }
    if LastIndex(met.entries, key) >= 0 {
      OpOnEntry(met, op, key);
    }
  }

  lemma SettleMarks(s: State, r: Request, w: World, e: Entry, at: int)
    ensures Marked(ApplyAll(s, w.during), Settle(s, r, w, e, at), e.Key(), w.dialOk, at, r.sel.baseBackoff, r.sel.maxBackoff)
  {
    MarkMarks(ApplyAll(s, w.during), e.Key(), w.dialOk, at, r.sel.baseBackoff, r.sel.maxBackoff);
  }

  /**
   * An attempt that picks an upstream marks it, as it then is in the pool, by how the dial went: good, or
   * failed as of the pick. It marks no other, and an attempt that picks nothing marks nothing.
   */
  lemma AttemptMarksItsPick(s: State, r: Request, w: World, tried: set<string>)
    ensures var chosen := Choose(ApplyAll(s, w.before), r, w, tried);
            var (after, choice) := Attempt(s, r, w, tried);
            if choice.None? then after == chosen.0
            else Marked(ApplyAll(chosen.0, w.during), after, choice.value.Key(), w.dialOk, w.now, r.sel.baseBackoff, r.sel.maxBackoff)
  {
    var chosen := Choose(ApplyAll(s, w.before), r, w, tried);
    if chosen.1.Some? {
      SettleMarks(chosen.0, r, w, chosen.1.value, w.now);
    }
  }

  /** The SOCKS5 loop marks likewise, failures as of a later clock reading. */
  lemma DialMarksItsPick(s: State, r: Request, w: World)
    ensures var next := NextOf(ApplyAll(s, w.before), if r.sel.random then Random(w.draws) else RoundRobin, w.now);
            var (after, choice) := DialAttempt(s, r, w);
            if next.1 < 0 then after == next.0 && choice.None?
            else
              && choice == Some(next.0.entries[next.1])
              && Marked(ApplyAll(next.0, w.during), after, choice.value.Key(), w.dialOk, w.failedAt, r.sel.baseBackoff, r.sel.maxBackoff)
  {
    var next := NextOf(ApplyAll(s, w.before), StrategyOf(r.sel, w), w.now);
    if next.1 >= 0 {
      SettleMarks(next.0, r, w, next.0.entries[next.1], w.failedAt);
    }
  }

  /** A request that is neither sticky nor forced is served by the configured strategy. */
  lemma PlainPicksByStrategy(s: State, r: Request, w: World, tried: set<string>)
    requires Plain(r)
    ensures var met := ApplyAll(s, w.before);
            var next := NextOf(met, if r.sel.random then Random(w.draws) else RoundRobin, w.now);
            Choose(met, r, w, tried) == (next.0, if next.1 >= 0 then Some(met.entries[next.1]) else None)
  {
  }

  // --- success -------------------------------------------------------------------------------------------------

  /** The upstream is in good standing, if it is still there. */
  predicate InGoodStanding(s: State, key: string) {
    var i := LastIndex(s.entries, key);
    i >= 0 ==> s.entries[i].failures == 0 && s.entries[i].disabledUntil.None?
  }

  lemma MarkedGood(met: State, after: State, key: string, at: int, base: int, max: int)
    requires Marked(met, after, key, true, at, base, max)
    ensures InGoodStanding(after, key)
  {
    LastIndexByKeys(after.entries, met.entries, key);
  }

  /** A request that gets through leaves its upstream without failures and enabled. */
  lemma {:induction false} SuccessClears(s: State, r: Request, k: nat, tried: set<string>)
    requires Attempts(s, r, k, tried).verdict.Established?
    ensures InGoodStanding(Attempts(s, r, k, tried).pool, Attempts(s, r, k, tried).verdict.via.Key())
    decreases r.sel.retries - k
  {
    if k > r.sel.retries {
      NoAttemptsLeft(s, r, k, tried);
    } else {
      AttemptsStep(s, r, k, tried);
      AttemptMarksItsPick(s, r, r.worlds(k), tried);
      var (after, choice) := Attempt(s, r, r.worlds(k), tried);
      if choice.Some? && r.worlds(k).dialOk {
        var w := r.worlds(k);
        MarkedGood(ApplyAll(Choose(ApplyAll(s, w.before), r, w, tried).0, w.during), after, choice.value.Key(),
                   w.now, r.sel.baseBackoff, r.sel.maxBackoff);
      } else if choice.Some? && r.retryable {
        SuccessClears(after, r, k + 1, Remember(r, tried, choice.value));
      }
    }
  }

  lemma {:induction false} DialSuccessClears(s: State, r: Request, k: nat)
    requires DialAttempts(s, r, k).verdict.Established?
    ensures InGoodStanding(DialAttempts(s, r, k).pool, DialAttempts(s, r, k).verdict.via.Key())
    decreases r.sel.retries - k
  {
    if k > r.sel.retries {
      NoAttemptsLeft(s, r, k, {});
    } else {
      DialAttemptsStep(s, r, k);
      DialMarksItsPick(s, r, r.worlds(k));
      var (after, choice) := DialAttempt(s, r, r.worlds(k));
      if choice.Some? && r.worlds(k).dialOk {
        var w := r.worlds(k);
        MarkedGood(ApplyAll(NextOf(ApplyAll(s, w.before), StrategyOf(r.sel, w), w.now).0, w.during), after, choice.value.Key(),
                   w.failedAt, r.sel.baseBackoff, r.sel.maxBackoff);
      } else if choice.Some? {
        DialSuccessClears(after, r, k + 1);
      }
    }
  }

  // --- verdicts ------------------------------------------------------------------------------------------------

  /**
   * Of the picks from attempt k on all failed but the last of an established request; allowed says how
   * many there may be. A request is given up only when all of those have failed.
   */
  predicate Tells(o: Outcome, r: Request, k: nat, allowed: nat) {
    var n := |o.picks|;
    var failed := if o.verdict.Established? then n - 1 else n;
    && n <= allowed
    && (forall l: nat :: k <= l < k + failed ==> !r.worlds(l).dialOk)
    && (o.verdict.Established? ==> n > 0 && o.picks[n - 1] == o.verdict.via && r.worlds(k + n - 1).dialOk)
    && (o.verdict.GaveUp? <==> n == allowed && failed == n)
  }

  lemma TellsBehind(e: Entry, rest: Outcome, r: Request, k: nat, allowed: nat)
    requires Tells(rest, r, k + 1, allowed) && !r.worlds(k).dialOk
    ensures Tells(Behind([e], rest), r, k, allowed + 1)
  {
    assert |Behind([e], rest).picks| == 1 + |rest.picks|;
  }

  lemma TellsNothing(s: State, r: Request, k: nat)
    ensures Tells(Outcome([], s, GaveUp), r, k, 0)
  {
  }

  lemma TellsOne(e: Entry, s: State, r: Request, k: nat, allowed: nat)
    requires allowed >= 1
    ensures r.worlds(k).dialOk ==> Tells(Outcome([e], s, Established(e)), r, k, allowed)
    ensures !r.worlds(k).dialOk && allowed == 1 ==> Tells(Outcome([e], s, GaveUp), r, k, allowed)
  {
  }

  /** How many attempts a request may make from number k on. */
  function Allowed(r: Request, k: nat): nat {
    if k > r.sel.retries then 0 else if r.retryable then r.sel.retries + 1 - k else 1
  }

  /** Attempt k and what follows it. */
  lemma VerdictStep(s: State, r: Request, k: nat, tried: set<string>) returns (more: bool, after: State, e: Option<Entry>, next: set<string>)
    requires k <= r.sel.retries
    ensures var o := Attempts(s, r, k, tried);
            if more then e.Some? && !r.worlds(k).dialOk && o == Behind([e.value], Attempts(after, r, k + 1, next))
                         && Allowed(r, k) == Allowed(r, k + 1) + 1
            else Tells(o, r, k, Allowed(r, k)) && (o.verdict.UnknownUpstream? ==> r.Forced()) && (o.verdict.NoneAvailable? ==> !r.Forced())
  {
    AttemptsStep(s, r, k, tried);
    after, e := Attempt(s, r, r.worlds(k), tried).0, Attempt(s, r, r.worlds(k), tried).1;
    more := e.Some? && !r.worlds(k).dialOk && r.retryable;
    next := if more then Remember(r, tried, e.value) else {};
    if e.Some? {
      TellsOne(e.value, after, r, k, Allowed(r, k));
    }
  }

  /**
   * The verdict tells how the attempts went: established through the last pick, whose dial was the first
   * to get through; given up exactly when every attempt allowed has failed; otherwise all picks failed and
   * there was no upstream to pick next, or not the one that was named.
   */
  lemma {:induction false} VerdictTells(s: State, r: Request, k: nat, tried: set<string>)
    ensures var o := Attempts(s, r, k, tried);
            Tells(o, r, k, Allowed(r, k)) && (o.verdict.UnknownUpstream? ==> r.Forced()) && (o.verdict.NoneAvailable? ==> !r.Forced())
    decreases r.sel.retries - k
  {
    if k > r.sel.retries {
      NoAttemptsLeft(s, r, k, tried);
      TellsNothing(s, r, k);
    } else {
      var more, after, e, next := VerdictStep(s, r, k, tried);
      if more {
        VerdictTells(after, r, k + 1, next);
        TellsBehind(e.value, Attempts(after, r, k + 1, next), r, k, Allowed(r, k + 1));
      }
    }
  }

  /** The SOCKS5 loop retries every failure. */
  function DialAllowed(r: Request, k: nat): nat {
    if k > r.sel.retries then 0 else r.sel.retries + 1 - k
  }

  lemma DialVerdictStep(s: State, r: Request, k: nat) returns (more: bool, after: State, e: Option<Entry>)
    requires k <= r.sel.retries
    ensures var o := DialAttempts(s, r, k);
            if more then e.Some? && !r.worlds(k).dialOk && o == Behind([e.value], DialAttempts(after, r, k + 1))
                         && DialAllowed(r, k) == DialAllowed(r, k + 1) + 1
            else Tells(o, r, k, DialAllowed(r, k)) && !o.verdict.UnknownUpstream?
  {
    DialAttemptsStep(s, r, k);
    after, e := DialAttempt(s, r, r.worlds(k)).0, DialAttempt(s, r, r.worlds(k)).1;
    more := e.Some? && !r.worlds(k).dialOk;
    if e.Some? {
      TellsOne(e.value, after, r, k, DialAllowed(r, k));
    }
  }

  lemma DialVerdictEnd(s: State, r: Request, k: nat)
    requires k > r.sel.retries
    ensures var o := DialAttempts(s, r, k); Tells(o, r, k, DialAllowed(r, k)) && !o.verdict.UnknownUpstream?
  {
    NoAttemptsLeft(s, r, k, {});
    TellsNothing(s, r, k);
  }

  /** The verdict of the SOCKS5 loop tells the same. */
  lemma {:induction false} DialVerdictTells(s: State, r: Request, k: nat)
    ensures var o := DialAttempts(s, r, k); Tells(o, r, k, DialAllowed(r, k)) && !o.verdict.UnknownUpstream?
    decreases r.sel.retries - k
  {
    if k > r.sel.retries {
      DialVerdictEnd(s, r, k);
    } else {
      var more, after, e := DialVerdictStep(s, r, k);
      if more {
        DialVerdictTells(after, r, k + 1);
        TellsBehind(e.value, DialAttempts(after, r, k + 1), r, k, DialAllowed(r, k + 1));
      }
    }
  }
}
