/** The retry loops of the HTTP and SOCKS5 front ends. */
module Failover {
  import opened Base
  import opened GoText
  import opened ProxyPool
  import opened Rendezvous

  datatype Selection = Selection(random: bool, retries: int, baseBackoff: int, maxBackoff: int, sticky: bool)
  datatype Policy = Policy(sessionKey: string, forceSticky: Option<bool>, soft: bool, forceKey: string)

  /**
   * What attempt number k meets: pool operations of other goroutines before the pick and during the
   * dial, the clock at the pick and at the failure, random draws, and whether the dial succeeds. To the
   * forwarding loop "dial" is a call of the HTTP client, whatever connection that uses (see KeepAlive).
   */
  datatype World = World(before: seq<Op>, now: int, draws: nat -> nat, during: seq<Op>, dialOk: bool, failedAt: int)

  datatype Request = Request(sel: Selection, pol: Policy, retryable: bool, worlds: nat -> World) {
    predicate Forced() {
      !Blank(pol.forceKey)
    }

    predicate Sticky() {
      !Blank(pol.sessionKey) && if pol.forceSticky.Some? then pol.forceSticky.value else sel.sticky
    }

    /** Failed keys are remembered and excluded. */
    predicate Remembers() {
      Sticky() && pol.soft && !Forced()
    }
  }

  datatype Verdict = Established(via: Entry) | UnknownUpstream | NoneAvailable | GaveUp

  datatype Outcome = Outcome(picks: seq<Entry>, pool: State, verdict: Verdict)

  function StrategyOf(sel: Selection, w: World): Strategy {
    if sel.random then Random(w.draws) else RoundRobin
  }

  function At(es: seq<Entry>, i: int): Option<Entry>
    requires -1 <= i < |es|
  {
    if i >= 0 then Some(es[i]) else None
  }

  /** The sticky pick among the active entries. */
  function StickyChoice(s: State, session: string, now: int, exclude: set<string>): Option<Entry> {
    var candidates := ActiveOf(s.entries, now);
    At(candidates, Winner(Keys(candidates), HrwOf(session), exclude))
  }

  /** The upstream an attempt goes through, and the pool after the pick. */
  function Choose(s: State, r: Request, w: World, attempted: set<string>): (State, Option<Entry>) {
    if r.Forced() then (s, At(s.entries, GetOf(s, r.pol.forceKey, w.now)))
    else if r.Sticky() then (s, StickyChoice(s, r.pol.sessionKey, w.now, if r.pol.soft then attempted else {}))
    else
      var (next, i) := NextOf(s, StrategyOf(r.sel, w), w.now);
      (next, At(s.entries, i))
  }

  function Remember(r: Request, attempted: set<string>, e: Entry): set<string> {
    if r.Remembers() then attempted + {e.Key()} else attempted
  }

  /** The pool after the dial through e, which marks the entry. */
  function Settle(s: State, r: Request, w: World, e: Entry, failedAt: int): State {
    var met := ApplyAll(s, w.during);
    if w.dialOk then MarkSuccessOf(met, e.Key())
    else MarkFailureOf(met, e.Key(), failedAt, r.sel.baseBackoff, r.sel.maxBackoff)
  }

  /** One whole attempt of the HTTP loops: the pool afterwards and the upstream tried, if any. */
  function Attempt(s: State, r: Request, w: World, attempted: set<string>): (State, Option<Entry>) {
    var (chosen, choice) := Choose(ApplyAll(s, w.before), r, w, attempted);
    (if choice.None? then chosen else Settle(chosen, r, w, choice.value, w.now), choice)
  }

  /** The attempts of a request from number k on. */
  function Attempts(s: State, r: Request, k: nat, attempted: set<string>): Outcome
    decreases r.sel.retries - k
  {
    if k > r.sel.retries then Outcome([], s, GaveUp)
    else
      var (after, choice) := Attempt(s, r, r.worlds(k), attempted);
      match choice
      case None => Outcome([], after, if r.Forced() then UnknownUpstream else NoneAvailable)
      case Some(e) =>
        if r.worlds(k).dialOk then Outcome([e], after, Established(e))
        else if !r.retryable then Outcome([e], after, GaveUp)
        else Behind([e], Attempts(after, r, k + 1, Remember(r, attempted, e)))
  }

  /** One attempt of the SOCKS5 loop: Next only, and the failure is stamped with a later clock. */
  function DialAttempt(s: State, r: Request, w: World): (State, Option<Entry>) {
    var (next, i) := NextOf(ApplyAll(s, w.before), StrategyOf(r.sel, w), w.now);
    if i < 0 then (next, None) else (Settle(next, r, w, next.entries[i], w.failedAt), Some(next.entries[i]))
  }

  function DialAttempts(s: State, r: Request, k: nat): Outcome
    decreases r.sel.retries - k
  {
    if k > r.sel.retries then Outcome([], s, GaveUp)
    else
      var (after, choice) := DialAttempt(s, r, r.worlds(k));
      match choice
      case None => Outcome([], after, NoneAvailable)
      case Some(e) =>
        if r.worlds(k).dialOk then Outcome([e], after, Established(e))
        else Behind([e], DialAttempts(after, r, k + 1))
  }

  /** What remains of a request after some picks, put behind those picks. */
  function Behind(picks: seq<Entry>, rest: Outcome): Outcome {
    rest.(picks := picks + rest.picks)
  }

  /** The outcome of attempt k in terms of what follows it. */
  lemma AttemptsStep(s: State, r: Request, k: nat, attempted: set<string>)
    requires k <= r.sel.retries
    ensures var (after, choice) := Attempt(s, r, r.worlds(k), attempted);
            Attempts(s, r, k, attempted) ==
              if choice.None? then Outcome([], after, if r.Forced() then UnknownUpstream else NoneAvailable)
              else if r.worlds(k).dialOk then Outcome([choice.value], after, Established(choice.value))
              else if !r.retryable then Outcome([choice.value], after, GaveUp)
              else Behind([choice.value], Attempts(after, r, k + 1, Remember(r, attempted, choice.value)))
  {
  }

  lemma DialAttemptsStep(s: State, r: Request, k: nat)
    requires k <= r.sel.retries
    ensures var (after, choice) := DialAttempt(s, r, r.worlds(k));
            DialAttempts(s, r, k) ==
              if choice.None? then Outcome([], after, NoneAvailable)
              else if r.worlds(k).dialOk then Outcome([choice.value], after, Established(choice.value))
              else Behind([choice.value], DialAttempts(after, r, k + 1))
  {
  }

  lemma BehindTwice(a: seq<Entry>, b: seq<Entry>, rest: Outcome)
    ensures Behind(a, Behind(b, rest)) == Behind(a + b, rest)
  {
    assert a + (b + rest.picks) == (a + b) + rest.picks;
  }

  /** One round of the HTTP loops, seen from the loop: what is known once attempt k is over. */
  lemma AttemptsRound(whole: Outcome, picks: seq<Entry>, s: State, r: Request, k: nat, attempted: set<string>,
                      after: State, choice: Option<Entry>)
    requires k <= r.sel.retries && whole == Behind(picks, Attempts(s, r, k, attempted))
    requires (after, choice) == Attempt(s, r, r.worlds(k), attempted)
    ensures choice.None? ==> whole == Outcome(picks, after, if r.Forced() then UnknownUpstream else NoneAvailable)
    ensures choice.Some? && r.worlds(k).dialOk ==> whole == Outcome(picks + [choice.value], after, Established(choice.value))
    ensures choice.Some? && !r.worlds(k).dialOk && !r.retryable ==> whole == Outcome(picks + [choice.value], after, GaveUp)
    ensures choice.Some? && !r.worlds(k).dialOk && r.retryable ==>
              whole == Behind(picks + [choice.value], Attempts(after, r, k + 1, Remember(r, attempted, choice.value)))
  {
    AttemptsStep(s, r, k, attempted);
    if choice.Some? && !r.worlds(k).dialOk && r.retryable {
      BehindTwice(picks, [choice.value], Attempts(after, r, k + 1, Remember(r, attempted, choice.value)));
    }
  }

  lemma DialRound(whole: Outcome, picks: seq<Entry>, s: State, r: Request, k: nat, after: State, choice: Option<Entry>)
    requires k <= r.sel.retries && whole == Behind(picks, DialAttempts(s, r, k))
    requires (after, choice) == DialAttempt(s, r, r.worlds(k))
    ensures choice.None? ==> whole == Outcome(picks, after, NoneAvailable)
    ensures choice.Some? && r.worlds(k).dialOk ==> whole == Outcome(picks + [choice.value], after, Established(choice.value))
    ensures choice.Some? && !r.worlds(k).dialOk ==> whole == Behind(picks + [choice.value], DialAttempts(after, r, k + 1))
  {
    DialAttemptsStep(s, r, k);
    if choice.Some? && !r.worlds(k).dialOk {
      BehindTwice(picks, [choice.value], DialAttempts(after, r, k + 1));
    }
  }

  /** Past the last attempt nothing is added. */
  lemma NoAttemptsLeft(s: State, r: Request, k: nat, attempted: set<string>)
    requires k > r.sel.retries
    ensures Attempts(s, r, k, attempted) == DialAttempts(s, r, k) == Outcome([], s, GaveUp)
  {
  }

  lemma BehindNothing(o: Outcome)
    ensures Behind([], o) == o
  {
    assert [] + o.picks == o.picks;
  }

  // --- the loops --------------------------------------------------------------------------------

  method PickUpstream(p: Pool, r: Request, w: World, attempted: set<string>) returns (choice: Option<Entry>)
    requires p.Valid()
    modifies p`rr
    ensures p.Valid()
    ensures (p.Value(), choice) == Choose(old(p.Value()), r, w, attempted)
  {
    if r.Forced() {
      choice := p.Get(r.pol.forceKey, w.now);
    } else if r.Sticky() {
      var candidates := p.Active(w.now);
      choice := PickRendezvous(candidates, r.pol.sessionKey, if r.pol.soft then Some(attempted) else None);
    } else {
      choice := p.Next(StrategyOf(r.sel, w), w.now);
    }
  }

  /** Dialing through e while other goroutines use the pool, then marking the entry. */
  method DialThrough(p: Pool, r: Request, w: World, e: Entry, failedAt: int)
    requires p.Valid()
    modifies p`entries, p`index, p`rr, p.entries
    ensures p.Valid() && (p.entries == old(p.entries) || fresh(p.entries))
    ensures p.Value() == Settle(old(p.Value()), r, w, e, failedAt)
  {
    p.Replay(w.during);
    if w.dialOk {
      p.MarkSuccess(e.Key());
    } else {
      p.MarkFailure(e.Key(), failedAt, r.sel.baseBackoff, r.sel.maxBackoff);
    }
  }

  method TryUpstream(p: Pool, r: Request, w: World, attempted: set<string>) returns (choice: Option<Entry>)
    requires p.Valid()
    modifies p`entries, p`index, p`rr, p.entries
    ensures p.Valid() && (p.entries == old(p.entries) || fresh(p.entries))
    ensures (p.Value(), choice) == Attempt(old(p.Value()), r, w, attempted)
  {
    p.Replay(w.before);
    choice := PickUpstream(p, r, w, attempted);
    if choice.Some? {
      DialThrough(p, r, w, choice.value, w.now);
    }
  }

  /** The CONNECT loop: every failed dial is retried. */
  method HandleConnect(p: Pool, r: Request) returns (picks: seq<Entry>, verdict: Verdict)
    requires p.Valid() && r.retryable
    modifies p`entries, p`index, p`rr, p.entries
    ensures p.Valid()
    ensures Outcome(picks, p.Value(), verdict) == Attempts(old(p.Value()), r, 0, {})
  {
    picks := [];
    var attempted := {};
    var k := 0;
    ghost var whole := Attempts(p.Value(), r, 0, {});
    BehindNothing(whole);
    while k <= r.sel.retries
      invariant p.Valid() && (p.entries == old(p.entries) || fresh(p.entries))
      invariant whole == Behind(picks, Attempts(p.Value(), r, k, attempted))
      decreases r.sel.retries - k
    {
      ghost var before := p.Value();
      var choice := TryUpstream(p, r, r.worlds(k), attempted);
      AttemptsRound(whole, picks, before, r, k, attempted, p.Value(), choice);
      if choice.None? {
        return picks, if r.Forced() then UnknownUpstream else NoneAvailable;
      }
      var e := choice.value;
      if !r.worlds(k).dialOk {
        if r.Sticky() && r.pol.soft && !r.Forced() {
          attempted := attempted + {e.Key()};
        }
        picks := picks + [e];
        k := k + 1;
        continue;
      }
      return picks + [e], Established(e);
    }
    NoAttemptsLeft(p.Value(), r, k, attempted);
    verdict := GaveUp;
  }

  /** The forwarding loop: only retryable requests go on, and the last failure answers at once. */
  method HandleForward(p: Pool, r: Request) returns (picks: seq<Entry>, verdict: Verdict)
    requires p.Valid()
    modifies p`entries, p`index, p`rr, p.entries
    ensures p.Valid()
    ensures Outcome(picks, p.Value(), verdict) == Attempts(old(p.Value()), r, 0, {})
  {
    picks := [];
    var attempted := {};
    var k := 0;
    ghost var whole := Attempts(p.Value(), r, 0, {});
    BehindNothing(whole);
    while k <= r.sel.retries
      invariant p.Valid() && (p.entries == old(p.entries) || fresh(p.entries))
      invariant whole == Behind(picks, Attempts(p.Value(), r, k, attempted))
      decreases r.sel.retries - k
    {
      ghost var before := p.Value();
      var choice := TryUpstream(p, r, r.worlds(k), attempted);
      AttemptsRound(whole, picks, before, r, k, attempted, p.Value(), choice);
      if choice.None? {
        return picks, if r.Forced() then UnknownUpstream else NoneAvailable;
      }
      var e := choice.value;
      if !r.worlds(k).dialOk {
        if r.Sticky() && r.pol.soft && !r.Forced() {
          attempted := attempted + {e.Key()};
        }
        picks := picks + [e];
        if r.retryable && k < r.sel.retries {
          k := k + 1;
          continue;
        }
        return picks, GaveUp;
      }
      return picks + [e], Established(e);
    }
    NoAttemptsLeft(p.Value(), r, k, attempted);
    verdict := GaveUp;
  }

  method TryNext(p: Pool, r: Request, w: World) returns (choice: Option<Entry>)
    requires p.Valid()
    modifies p`entries, p`index, p`rr, p.entries
    ensures p.Valid() && (p.entries == old(p.entries) || fresh(p.entries))
    ensures (p.Value(), choice) == DialAttempt(old(p.Value()), r, w)
  {
    p.Replay(w.before);
    choice := p.Next(StrategyOf(r.sel, w), w.now);
    if choice.Some? {
      DialThrough(p, r, w, choice.value, w.failedAt);
    }
  }

  method Dial(p: Pool, r: Request) returns (picks: seq<Entry>, verdict: Verdict)
    requires p.Valid()
    modifies p`entries, p`index, p`rr, p.entries
    ensures p.Valid()
    ensures Outcome(picks, p.Value(), verdict) == DialAttempts(old(p.Value()), r, 0)
  {
    picks := [];
    var k := 0;
    ghost var whole := DialAttempts(p.Value(), r, 0);
    BehindNothing(whole);
    while k <= r.sel.retries
      invariant p.Valid() && (p.entries == old(p.entries) || fresh(p.entries))
      invariant whole == Behind(picks, DialAttempts(p.Value(), r, k))
      decreases r.sel.retries - k
    {
      ghost var before := p.Value();
      var choice := TryNext(p, r, r.worlds(k));
      DialRound(whole, picks, before, r, k, p.Value(), choice);
      if choice.None? {
        return picks, NoneAvailable;
      }
      var e := choice.value;
      if !r.worlds(k).dialOk {
        picks := picks + [e];
        k := k + 1;
        continue;
      }
      return picks + [e], Established(e);
    }
    NoAttemptsLeft(p.Value(), r, k, {});
    verdict := GaveUp;
  }
}
