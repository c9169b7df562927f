/** Retry loops against the clock: what the backoff of a failed upstream does to later attempts. */
module FailoverClockLaws {
  import opened Base
  import opened ProxyPool
  import opened RoundRobinLaws
  import opened BackoffLaws
  import opened Rendezvous
  import opened Failover
  import opened FailoverLaws

  /** The same request under hard failover. */
  function Hard(r: Request): Request {
    r.(pol := r.pol.(soft := false))
  }

  lemma {:induction false} ExclusionUnused(keys: seq<string>, score: Scorer, exclude: set<string>)
    requires forall i :: 0 <= i < |keys| ==> keys[i] !in exclude
    ensures Winner(keys, score, exclude) == Winner(keys, score, {})
  {
    if keys != [] {
      ExclusionUnused(keys[..|keys| - 1], score, exclude);
    }
  }

  predicate NoneActive(es: seq<Entry>, now: int, tried: set<string>) {
    forall i :: 0 <= i < |ActiveKeys(es, now)| ==> ActiveKeys(es, now)[i] !in tried
  }

  /** Through attempt k and all later ones, no key tried before is active again. */
  predicate TriedStayDisabled(s: State, r: Request, k: nat, tried: set<string>)
    decreases r.sel.retries - k
  {
    k <= r.sel.retries ==>
      var w := r.worlds(k);
      && NoneActive(ApplyAll(s, w.before).entries, w.now, tried)
      && var (after, choice) := Attempt(s, r, w, tried);
         choice.Some? && !w.dialOk && r.retryable ==>
           TriedStayDisabled(after, r, k + 1, tried + {choice.value.Key()})
  }

  lemma SoftAttemptIsHard(s: State, r: Request, w: World, tried: set<string>)
    requires r.Remembers() && NoneActive(ApplyAll(s, w.before).entries, w.now, tried)
    ensures Attempt(s, r, w, tried) == Attempt(s, Hard(r), w, {})
  {
    ExclusionUnused(ActiveKeys(ApplyAll(s, w.before).entries, w.now), HrwOf(r.pol.sessionKey), tried);
  }

  /**
   * Soft and hard failover are the same request, pick by pick, with the same pool afterwards and the
   * same verdict, as long as no upstream that failed earlier in the request is active again.
   */
  lemma {:induction false} SoftIsHard(s: State, r: Request, k: nat, tried: set<string>)
    requires r.Remembers() && TriedStayDisabled(s, r, k, tried)
    ensures Attempts(s, r, k, tried) == Attempts(s, Hard(r), k, {})
    decreases r.sel.retries - k
  {
    if k <= r.sel.retries {
      var w := r.worlds(k);
      SoftAttemptIsHard(s, r, w, tried);
      AttemptsStep(s, r, k, tried);
      AttemptsStep(s, Hard(r), k, {});
      var (after, choice) := Attempt(s, r, w, tried);
      if choice.Some? && !w.dialOk && r.retryable {
        SoftIsHard(after, r, k + 1, tried + {choice.value.Key()});
      }
    }
  }

  // --- retries within the backoff -----------------------------------------------------------------------

  /** Operations of other goroutines that leave the pool's list and the marks of these keys alone. */
  predicate Spares(ops: seq<Op>, tried: set<string>) {
    forall t :: 0 <= t < |ops| ==>
      && !ops[t].Update?
      && (ops[t].MarkSuccess? ==> ops[t].key !in tried)
      && (ops[t].MarkFailure? ==> ops[t].failedKey !in tried)
  }

  /**
   * Through attempt k and all later ones, other goroutines may use the pool and mark entries, but do not
   * update it or mark what this request has already tried.
   */
  predicate Spared(s: State, r: Request, k: nat, tried: set<string>)
    decreases r.sel.retries - k
  {
    k <= r.sel.retries ==>
      var w := r.worlds(k);
      var (after, choice) := Attempt(s, r, w, tried);
      && Spares(w.before, tried) && Spares(w.during, tried)
      && (choice.Some? && !w.dialOk && r.retryable ==> Spared(after, r, k + 1, tried + {choice.value.Key()}))
  }

  /** Settings whose backoffs stay within 64 bits. */
  predicate Sane(r: Request) {
    Representable(r.sel.baseBackoff, r.sel.maxBackoff)
  }

  /** What every failure is worth at least. */
  function Shortest(r: Request): int {
    Min(r.sel.baseBackoff, r.sel.maxBackoff)
  }

  /** From attempt k on, each clock reading comes at least `slack` before the deadline. */
  predicate ReadBefore(r: Request, k: nat, slack: int, deadline: int) {
    forall l: nat :: k <= l <= r.sel.retries ==> r.worlds(l).now + slack <= deadline
  }

  /** From attempt k on, the key is disabled until at least `slack` after each clock reading. */
  predicate KeyDown(es: seq<Entry>, key: string, r: Request, k: nat, slack: int) {
    var i := LastIndex(es, key);
    i >= 0 && es[i].disabledUntil.Some? && ReadBefore(r, k, slack, es[i].disabledUntil.value)
  }

  predicate Down(es: seq<Entry>, tried: set<string>, r: Request, k: nat, slack: int) {
    forall key :: key in tried ==> KeyDown(es, key, r, k, slack)
  }

  lemma SparedKeyStaysDown(s: State, op: Op, key: string, r: Request, k: nat, slack: int)
    requires !op.Update? && (op.MarkSuccess? ==> op.key != key) && (op.MarkFailure? ==> op.failedKey != key)
    requires KeyDown(s.entries, key, r, k, slack)
    ensures KeyDown(Apply(s, op).entries, key, r, k, slack)
  {
    OpOnEntry(s, op, key);
  }

  lemma FailedKeyGoesDown(s: State, key: string, at: int, r: Request, k: nat, slack: int)
    requires Sane(r) && LastIndex(s.entries, key) >= 0
    requires ReadBefore(r, k + 1, slack, at + Shortest(r))
    ensures KeyDown(Apply(s, MarkFailure(key, at, r.sel.baseBackoff, r.sel.maxBackoff)).entries, key, r, k + 1, slack)
  {
    var op := MarkFailure(key, at, r.sel.baseBackoff, r.sel.maxBackoff);
    OpOnEntry(s, op, key);
    BackoffAtLeastShortest(s.entries[LastIndex(s.entries, key)].failures + 1, r.sel.baseBackoff, r.sel.maxBackoff);
  }

  lemma OthersStayDown(s: State, op: Op, r: Request, k: nat, tried: set<string>, slack: int)
    requires op.MarkFailure? && Down(s.entries, tried, r, k, slack)
    ensures Down(Apply(s, op).entries, tried - {op.failedKey}, r, k, slack)
  {
    forall other | other in tried && other != op.failedKey ensures KeyDown(Apply(s, op).entries, other, r, k, slack) {
      SparedKeyStaysDown(s, op, other, r, k, slack);
    }
  }

  lemma FailureKeepsDown(s: State, key: string, at: int, r: Request, k: nat, tried: set<string>, slack: int)
    returns (after: State)
    requires Sane(r) && LastIndex(s.entries, key) >= 0 && Down(s.entries, tried, r, k, slack)
    requires ReadBefore(r, k + 1, slack, at + Shortest(r))
    ensures after == MarkFailureOf(s, key, at, r.sel.baseBackoff, r.sel.maxBackoff)
    ensures Keys(after.entries) == Keys(s.entries) && Down(after.entries, tried + {key}, r, k + 1, slack)
  {
    var op := MarkFailure(key, at, r.sel.baseBackoff, r.sel.maxBackoff);
    after := Apply(s, op);
    ApplyKeepsKeys(s, op);
    OthersStayDown(s, op, r, k, tried, slack);
    FailedKeyGoesDown(s, key, at, r, k, slack);
    JoinsTheDown(after.entries, key, r, k, tried, slack);
  }

  lemma JoinsTheDown(es: seq<Entry>, key: string, r: Request, k: nat, tried: set<string>, slack: int)
    requires Down(es, tried - {key}, r, k, slack) && KeyDown(es, key, r, k + 1, slack)
    ensures Down(es, tried + {key}, r, k + 1, slack)
  {
    forall other | other in tried && other != key ensures KeyDown(es, other, r, k + 1, slack) {
      assert other in tried - {key};
    }
  }

  /** An active key belongs to an enabled entry. */
  lemma {:induction false} ActiveKeyEnabled(es: seq<Entry>, now: int, i: nat) returns (p: nat)
    requires i < |ActiveOf(es, now)|
    ensures p < |es| && es[p] == ActiveOf(es, now)[i] && Enabled(es[p], now)
  {
    var n := |es| - 1;
    if Enabled(es[n], now) && i == |ActiveOf(es, now)| - 1 {
      p := n;
    } else {
      p := ActiveKeyEnabled(es[..n], now, i);
    }
  }

  lemma DownMeansInactive(es: seq<Entry>, tried: set<string>, r: Request, k: nat)
    requires DistinctKeys(es) && k <= r.sel.retries && Down(es, tried, r, k, 1)
    ensures NoneActive(es, r.worlds(k).now, tried)
  {
    var now := r.worlds(k).now;
    forall i | 0 <= i < |ActiveKeys(es, now)| ensures ActiveKeys(es, now)[i] !in tried {
      var p := ActiveKeyEnabled(es, now, i);
      IndexIsBijection(es, p);
    }
  }

  /** Sparing operations keep what is down down, and every entry in its place. */
  lemma {:induction false} SparingKeepsDown(s: State, ops: seq<Op>, r: Request, k: nat, tried: set<string>, slack: int)
    requires Spares(ops, tried) && DistinctKeys(s.entries) && Down(s.entries, tried, r, k, slack)
    ensures var t := ApplyAll(s, ops);
            Keys(t.entries) == Keys(s.entries) && DistinctKeys(t.entries) && Down(t.entries, tried, r, k, slack)
  {
    if ops != [] {
      var n := |ops| - 1;
      SparingKeepsDown(s, ops[..n], r, k, tried, slack);
      var before := ApplyAll(s, ops[..n]);
      ApplyKeepsKeys(before, ops[n]);
      SameKeysDistinct(before.entries, Apply(before, ops[n]).entries);
      forall key | key in tried ensures KeyDown(Apply(before, ops[n]).entries, key, r, k, slack) {
        SparedKeyStaysDown(before, ops[n], key, r, k, slack);
      }
    }
  }

  /** The failed dial through an entry of the pool adds its key to those that are down. */
  lemma FailedDialKeepsDown(s: State, w: World, e: Entry, at: int, r: Request, k: nat, tried: set<string>, slack: int)
    returns (after: State)
    requires Sane(r) && DistinctKeys(s.entries) && Down(s.entries, tried, r, k, slack)
    requires LastIndex(s.entries, e.Key()) >= 0 && Spares(w.during, tried) && !w.dialOk
    requires ReadBefore(r, k + 1, slack, at + Shortest(r))
    ensures after == Settle(s, r, w, e, at)
    ensures DistinctKeys(after.entries) && Down(after.entries, tried + {e.Key()}, r, k + 1, slack)
  {
    var met := ApplyAll(s, w.during);
    SparingKeepsDown(s, w.during, r, k, tried, slack);
    LastIndexByKeys(met.entries, s.entries, e.Key());
    after := FailureKeepsDown(met, e.Key(), at, r, k, tried, slack);
    SameKeysDistinct(met.entries, after.entries);
  }

  /** A sticky attempt while all tried keys are down: what a failure leaves behind. */
  lemma SparedAttempt(s: State, r: Request, k: nat, tried: set<string>)
    requires r.Remembers() && Sane(r) && k <= r.sel.retries
    requires Spares(r.worlds(k).before, tried) && Spares(r.worlds(k).during, tried)
    requires DistinctKeys(s.entries) && Down(s.entries, tried, r, k, 1)
    requires ReadBefore(r, k + 1, 1, r.worlds(k).now + Shortest(r))
    ensures NoneActive(ApplyAll(s, r.worlds(k).before).entries, r.worlds(k).now, tried)
    ensures var (after, choice) := Attempt(s, r, r.worlds(k), tried);
            choice.Some? && !r.worlds(k).dialOk ==>
              DistinctKeys(after.entries) && Down(after.entries, tried + {choice.value.Key()}, r, k + 1, 1)
  {
    var w := r.worlds(k);
    var met := ApplyAll(s, w.before);
    SparingKeepsDown(s, w.before, r, k, tried, 1);
    DownMeansInactive(met.entries, tried, r, k);
    StickyAttempt(s, r, w, tried);
    var choice := Attempt(s, r, w, tried).1;
    if choice.Some? && !w.dialOk {
      var p := ActiveKeyEnabled(met.entries, w.now, Winner(ActiveKeys(met.entries, w.now), HrwOf(r.pol.sessionKey), tried));
      IndexIsBijection(met.entries, p);
      var after := FailedDialKeepsDown(met, w, choice.value, w.now, r, k, tried, 1);
    }
  }

  /** Every clock reading falls within the shortest backoff of every earlier one. */
  predicate ClocksWithinBackoff(r: Request) {
    forall j: nat :: j <= r.sel.retries ==> ReadBefore(r, j + 1, 1, r.worlds(j).now + Shortest(r))
  }

  lemma {:induction false} SparedStaysDisabled(s: State, r: Request, k: nat, tried: set<string>)
    requires r.Remembers() && Sane(r) && ClocksWithinBackoff(r) && Spared(s, r, k, tried)
    requires DistinctKeys(s.entries) && Down(s.entries, tried, r, k, 1)
    ensures TriedStayDisabled(s, r, k, tried)
    decreases r.sel.retries - k
  {
    if k <= r.sel.retries {
      SparedAttempt(s, r, k, tried);
      var (after, choice) := Attempt(s, r, r.worlds(k), tried);
      if choice.Some? && !r.worlds(k).dialOk && r.retryable {
        SparedStaysDisabled(after, r, k + 1, tried + {choice.value.Key()});
      }
    }
  }

  /**
   * The two failover modes do not differ for a request whose retries all come within the shortest backoff,
   * as long as nobody updates the pool or marks what it has tried: hard failover does not stay on the
   * top upstream, because the failure mark takes it out of the active set, and it never picks an
   * upstream twice either.
   */
  lemma HardEqualsSoftWithinBackoff(s: State, r: Request)
    requires r.Remembers() && Sane(r) && ClocksWithinBackoff(r) && DistinctKeys(s.entries) && Spared(s, r, 0, {})
    ensures Attempts(s, Hard(r), 0, {}) == Attempts(s, r, 0, {})
    ensures DistinctKeys(Attempts(s, Hard(r), 0, {}).picks)
  {
    SparedStaysDisabled(s, r, 0, {});
    SoftIsHard(s, r, 0, {});
    SoftNeverRepeats(s, r, 0, {});
  }

  // --- picking the same upstream again --------------------------------------------------------------------

  /** The sticky pick is the pool's entry for its key. */
  lemma StickyChoiceIndexed(s: State, session: string, now: int)
    requires DistinctKeys(s.entries) && StickyChoice(s, session, now, {}).Some?
    ensures var e := StickyChoice(s, session, now, {}).value;
            var p := LastIndex(s.entries, e.Key());
            p >= 0 && s.entries[p] == e && Enabled(e, now)
  {
    var p := ActiveKeyEnabled(s.entries, now, Winner(ActiveKeys(s.entries, now), HrwOf(session), {}));
    IndexIsBijection(s.entries, p);
  }

  /** With the same eligibility everywhere, the pick has the same key. */
  lemma SameEligibilitySamePick(a: State, at: int, b: State, bt: int, session: string)
    requires SameEligibility(a.entries, at, b.entries, bt, {})
    ensures var x, y := StickyChoice(a, session, at, {}), StickyChoice(b, session, bt, {});
            (x.Some? <==> y.Some?) && (x.Some? ==> x.value.Key() == y.value.Key())
  {
    SameEligibilitySameCandidates(a.entries, at, b.entries, bt, {});
    WinnerKeyWithout(ActiveKeys(a.entries, at), HrwOf(session), {});
    WinnerKeyWithout(ActiveKeys(b.entries, bt), HrwOf(session), {});
  }

  lemma EligibleAgain(a: seq<Entry>, at: int, b: seq<Entry>, bt: int, p: nat)
    requires p < |a| && DistinctKeys(a) && SameEligibility(a, at, b, bt, {a[p].Key()})
    requires Enabled(a[p], at) <==> Enabled(b[p], bt)
    ensures SameEligibility(a, at, b, bt, {})
  {
    forall i | 0 <= i < |a| ensures Enabled(a[i], at) <==> Enabled(b[i], bt) {
      assert i == p || a[i].Key() != a[p].Key();
    }
  }

  /** An entry that is eligible as at the first pick, like all others, is picked again. */
  lemma EligibleIsPicked(s: State, after: State, e: Entry, p: nat, session: string, now: int, later: int)
    requires StickyChoice(s, session, now, {}) == Some(e) && DistinctKeys(after.entries)
    requires p < |s.entries| == |after.entries| && s.entries[p] == e && after.entries[p].Key() == e.Key()
    requires Enabled(e, now) && Enabled(after.entries[p], later)
    requires SameEligibility(after.entries, later, s.entries, now, {e.Key()})
    ensures var next := StickyChoice(after, session, later, {}); next.Some? && next.value.Key() == e.Key()
  {
    EligibleAgain(after.entries, later, s.entries, now, p);
    SameEligibilitySamePick(after, later, s, now, session);
  }

  lemma DisabledIsNotPicked(after: State, p: nat, session: string, later: int)
    requires DistinctKeys(after.entries) && p < |after.entries| && !Enabled(after.entries[p], later)
    ensures var next := StickyChoice(after, session, later, {}); next.Some? ==> next.value.Key() != after.entries[p].Key()
  {
    if StickyChoice(after, session, later, {}).Some? {
      StickyChoiceIndexed(after, session, later);
      IndexIsBijection(after.entries, p);
    }
  }

  // --- what a failure leaves of a key ----------------------------------------------------------------------------------

  /** Attempt k goes to the forced entry if that is enabled, and to no other in any case. */
  lemma ForcedAttempt(s: State, r: Request, k: nat)
    requires r.Forced() && r.retryable && k <= r.sel.retries
    ensures var met := ApplyAll(s, r.worlds(k).before);
            var i, o := GetOf(met, r.pol.forceKey, r.worlds(k).now), Attempts(s, r, k, {});
            && (i < 0 ==> o == Outcome([], met, UnknownUpstream))
            && (i >= 0 ==> o.picks != [] && o.picks[0] == met.entries[i] && met.entries[i].Key() == r.pol.forceKey)
  {
    AttemptsStep(s, r, k, {});
  }

  /** The pool as the failure of attempt k meets it. */
  function AtFailure(s: State, w: World): State {
    ApplyAll(ApplyAll(s, w.before), w.during)
  }

  lemma ForcedFailure(s: State, r: Request, k: nat) returns (first: Entry, after: State)
    requires r.Forced() && r.retryable && k <= r.sel.retries
    requires GetOf(ApplyAll(s, r.worlds(k).before), r.pol.forceKey, r.worlds(k).now) >= 0 && !r.worlds(k).dialOk
    ensures after == MarkFailureOf(AtFailure(s, r.worlds(k)), r.pol.forceKey, r.worlds(k).now, r.sel.baseBackoff, r.sel.maxBackoff)
    ensures first.Key() == r.pol.forceKey && Attempts(s, r, k, {}) == Behind([first], Attempts(after, r, k + 1, {}))
  {
    var w := r.worlds(k);
    AttemptsStep(s, r, k, {});
    first := Attempt(s, r, w, {}).1.value;
    after := Attempt(s, r, w, {}).0;
  }

  /** Whether a key can be had, before and after operations that spare it. */
  lemma {:induction false} SparingKeepsEntry(s: State, ops: seq<Op>, key: string)
    requires Spares(ops, {key})
    ensures var i, t := LastIndex(s.entries, key), ApplyAll(s, ops);
            LastIndex(t.entries, key) == i && (i >= 0 ==> t.entries[i] == s.entries[i])
  {
    if ops != [] {
      var n := |ops| - 1;
      SparingKeepsEntry(s, ops[..n], key);
      var before := ApplyAll(s, ops[..n]);
      ApplyKeepsKeys(before, ops[n]);
      LastIndexByKeys(before.entries, Apply(before, ops[n]).entries, key);
      if LastIndex(before.entries, key) >= 0 {
        OpOnEntry(before, ops[n], key);
      }
    }
  }

  predicate Reachable(s: State, key: string, now: int) {
    var i := LastIndex(s.entries, key);
    i >= 0 && Enabled(s.entries[i], now)
  }

  /** The end of the backoff that the failure of a key at this time starts; None without such an entry. */
  function BackoffEnd(s: State, key: string, at: int, base: int, max: int): Option<int> {
    var i := LastIndex(s.entries, key);
    if i < 0 then None else Some(at + BackoffOf(s.entries[i].failures + 1, base, max))
  }

  predicate Over(end: Option<int>, now: int) {
    end.Some? && now >= end.value
  }

  /** A failed key can be had again exactly when it is still there and its backoff is over. */
  lemma ReachableAfterFailure(s: State, key: string, at: int, base: int, max: int, now: int)
    ensures Reachable(MarkFailureOf(s, key, at, base, max), key, now) <==> Over(BackoffEnd(s, key, at, base, max), now)
  {
    if LastIndex(s.entries, key) >= 0 {
      OpOnEntry(s, MarkFailure(key, at, base, max), key);
    }
  }

  // --- when a request stays on the upstream that failed --------------------------------------------------------------------

  predicate StaysHard(r: Request) {
    r.Sticky() && !r.Forced() && !r.pol.soft
  }

  /** A hard attempt that fails and the one after it, over the pools they meet. */
  lemma HardAttempts(s: State, r: Request, k: nat, tried: set<string>) returns (e: Entry, met: State)
    requires StaysHard(r) && r.retryable && k + 1 <= r.sel.retries && !r.worlds(k).dialOk
    requires StickyChoice(ApplyAll(s, r.worlds(k).before), r.pol.sessionKey, r.worlds(k).now, {}).Some?
    ensures Some(e) == StickyChoice(ApplyAll(s, r.worlds(k).before), r.pol.sessionKey, r.worlds(k).now, {})
    ensures met == AfterFailure(s, r, k, e.Key())
    ensures var picks := Attempts(s, r, k, tried).picks;
            var next := StickyChoice(met, r.pol.sessionKey, r.worlds(k + 1).now, {});
            && picks != [] && picks[0] == e
            && (|picks| >= 2 <==> next.Some?) && (next.Some? ==> picks[1] == next.value)
  {
    var (after, choice) := Attempt(s, r, r.worlds(k), tried);
    StickyAttempt(s, r, r.worlds(k), tried);
    AttemptsStep(s, r, k, tried);
    e := choice.value;
    met := ApplyAll(after, r.worlds(k + 1).before);
    StickyAttempt(after, r, r.worlds(k + 1), tried);
    AttemptsStep(after, r, k + 1, tried);
  }

  /** The pool as attempt k + 1 meets it, attempt k having failed through the entry of this key. */
  function AfterFailure(s: State, r: Request, k: nat, key: string): State {
    ApplyAll(MarkFailureOf(AtFailure(s, r.worlds(k)), key, r.worlds(k).now, r.sel.baseBackoff, r.sel.maxBackoff),
             r.worlds(k + 1).before)
  }

  /** The end of the backoff that the failure of attempt k starts. */
  function FailureEnd(s: State, r: Request, k: nat, key: string): Option<int> {
    BackoffEnd(AtFailure(s, r.worlds(k)), key, r.worlds(k).now, r.sel.baseBackoff, r.sel.maxBackoff)
  }

  lemma ReachableNextIff(s: State, r: Request, k: nat, key: string)
    requires Spares(r.worlds(k + 1).before, {key})
    ensures Reachable(AfterFailure(s, r, k, key), key, r.worlds(k + 1).now) <==> Over(FailureEnd(s, r, k, key), r.worlds(k + 1).now)
  {
    var failed := MarkFailureOf(AtFailure(s, r.worlds(k)), key, r.worlds(k).now, r.sel.baseBackoff, r.sel.maxBackoff);
    SparingKeepsEntry(failed, r.worlds(k + 1).before, key);
    ReachableAfterFailure(AtFailure(s, r.worlds(k)), key, r.worlds(k).now, r.sel.baseBackoff, r.sel.maxBackoff,
                          r.worlds(k + 1).now);
  }

  /** Where all other entries are as eligible as at the first pick, that pick is repeated iff it can be had. */
  lemma PickedAgainIff(s: State, e: Entry, session: string, now: int, after: State, later: int)
    requires DistinctKeys(s.entries) && StickyChoice(s, session, now, {}) == Some(e)
    requires SameEligibility(after.entries, later, s.entries, now, {e.Key()})
    ensures var next := StickyChoice(after, session, later, {});
            next.Some? && next.value.Key() == e.Key() <==> Reachable(after, e.Key(), later)
  {
    StickyChoiceIndexed(s, session, now);
    var p := LastIndex(s.entries, e.Key());
    KeysKeepIndex(s.entries, after.entries);
    SameKeysDistinct(s.entries, after.entries);
    if Enabled(after.entries[p], later) {
      EligibleIsPicked(s, after, e, p, session, now, later);
    } else {
      DisabledIsNotPicked(after, p, session, later);
    }
  }

  /**
   * Hard failover stays on the upstream that just failed exactly when the next attempt comes no earlier
   * than the end of its backoff. Others may do anything before and during the failed attempt and, up to
   * the next, anything but update the pool or mark this key, as long as the other entries are then in
   * place and as eligible as they were.
   */
  lemma HardStaysIffBackoffOver(s: State, r: Request, k: nat, tried: set<string>)
    requires StaysHard(r) && r.retryable && k + 1 <= r.sel.retries && !r.worlds(k).dialOk
    requires DistinctKeys(ApplyAll(s, r.worlds(k).before).entries)
    requires var top := StickyChoice(ApplyAll(s, r.worlds(k).before), r.pol.sessionKey, r.worlds(k).now, {});
             && top.Some? && Spares(r.worlds(k + 1).before, {top.value.Key()})
             && SameEligibility(AfterFailure(s, r, k, top.value.Key()).entries, r.worlds(k + 1).now,
                                ApplyAll(s, r.worlds(k).before).entries, r.worlds(k).now, {top.value.Key()})
    ensures var picks := Attempts(s, r, k, tried).picks;
            && picks != []
            && ((|picks| >= 2 && picks[1].Key() == picks[0].Key()) <==> Over(FailureEnd(s, r, k, picks[0].Key()), r.worlds(k + 1).now))
  {
    var e, met := HardAttempts(s, r, k, tried);
    ReachableNextIff(s, r, k, e.Key());
    PickedAgainIff(ApplyAll(s, r.worlds(k).before), e, r.pol.sessionKey, r.worlds(k).now, met, r.worlds(k + 1).now);
  }

  /**
   * A forced upstream that fails is tried again exactly when it is still in the pool and the next
   * attempt comes no earlier than the end of its backoff; otherwise the request ends as "unknown
   * upstream". Others may do anything up to the failure, and after it anything but update the pool or
   * mark this key.
   */
  lemma ForcedRetryIffBackoffOver(s: State, r: Request, k: nat)
    requires r.Forced() && r.retryable && k + 1 <= r.sel.retries && Spares(r.worlds(k + 1).before, {r.pol.forceKey})
    requires GetOf(ApplyAll(s, r.worlds(k).before), r.pol.forceKey, r.worlds(k).now) >= 0 && !r.worlds(k).dialOk
    ensures var o := Attempts(s, r, k, {});
            && o.picks != [] && o.picks[0].Key() == r.pol.forceKey
            && if Over(FailureEnd(s, r, k, r.pol.forceKey), r.worlds(k + 1).now)
               then |o.picks| >= 2 && o.picks[1].Key() == r.pol.forceKey
               else |o.picks| == 1 && o.verdict == UnknownUpstream
  {
    var first, after := ForcedFailure(s, r, k);
    ReachableNextIff(s, r, k, r.pol.forceKey);
    ForcedAttempt(after, r, k + 1);
  }

  // --- the SOCKS5 loop -------------------------------------------------------------------------------------

  predicate NoneSelectable(es: seq<Entry>, now: int, tried: set<string>) {
    forall i :: 0 <= i < |es| && es[i].Key() in tried ==> !Selectable(es[i], now)
  }

  /** At each Next of attempt k and all later ones, no key dialled before can be selected. */
  predicate TriedUnselectable(s: State, r: Request, k: nat, tried: set<string>)
    decreases r.sel.retries - k
  {
    k <= r.sel.retries ==>
      var w := r.worlds(k);
      && NoneSelectable(ApplyAll(s, w.before).entries, w.now, tried)
      && var (after, choice) := DialAttempt(s, r, w);
         choice.Some? && !w.dialOk ==> TriedUnselectable(after, r, k + 1, tried + {choice.value.Key()})
  }

  /** What Next returns is selectable, so it is not among keys of which none is. */
  lemma DialPicksUntried(s: State, r: Request, w: World, tried: set<string>)
    requires NoneSelectable(ApplyAll(s, w.before).entries, w.now, tried)
    ensures var choice := DialAttempt(s, r, w).1; choice.Some? ==> choice.value.Key() !in tried
  {
    var met := ApplyAll(s, w.before);
    var i := NextOf(met, StrategyOf(r.sel, w), w.now).1;
    assert i >= 0 ==> Selectable(met.entries[i], w.now);
  }

  /** One step of the loop, and what is left to do afterwards. */
  lemma DialStep(s: State, r: Request, k: nat, tried: set<string>) returns (more: bool, after: State, e: Option<Entry>)
    requires k <= r.sel.retries && TriedUnselectable(s, r, k, tried)
    ensures more ==> e.Some? && e.value.Key() !in tried && TriedUnselectable(after, r, k + 1, tried + {e.value.Key()})
    ensures var o := DialAttempts(s, r, k);
            if more then o == Behind([e.value], DialAttempts(after, r, k + 1)) else Untried(o.picks, tried)
  {
    DialPicksUntried(s, r, r.worlds(k), tried);
    DialAttemptsStep(s, r, k);
    after, e := DialAttempt(s, r, r.worlds(k)).0, DialAttempt(s, r, r.worlds(k)).1;
    more := e.Some? && !r.worlds(k).dialOk;
    if e.Some? && !more {
      UntriedCons(e.value, [], tried);
      assert DialAttempts(s, r, k).picks == [e.value] + [];
    }
  }

  /**
   * The SOCKS5 loop never dials an upstream twice as long as no upstream that failed earlier in the
   * request can be selected again, whatever other goroutines do to the pool, Update included.
   */
  lemma {:induction false} DialNeverRepeats(s: State, r: Request, k: nat, tried: set<string>)
    requires TriedUnselectable(s, r, k, tried)
    ensures Untried(DialAttempts(s, r, k).picks, tried)
    decreases r.sel.retries - k
  {
    if k > r.sel.retries {
      NoAttemptsLeft(s, r, k, tried);
    } else {
      var more, after, e := DialStep(s, r, k, tried);
      if more {
        DialNeverRepeats(after, r, k + 1, tried + {e.value.Key()});
        UntriedBehind(e.value, DialAttempts(after, r, k + 1), tried);
      }
    }
  }

  /** Every clock reading falls within the shortest backoff of every earlier failure stamp, boundary included. */
  predicate DialsWithinBackoff(r: Request) {
    forall j: nat :: j <= r.sel.retries ==> ReadBefore(r, j + 1, 0, r.worlds(j).failedAt + Shortest(r))
  }

  /** As Spared, for the SOCKS5 loop. */
  predicate DialSpared(s: State, r: Request, k: nat, tried: set<string>)
    decreases r.sel.retries - k
  {
    k <= r.sel.retries ==>
      var w := r.worlds(k);
      var (after, choice) := DialAttempt(s, r, w);
      && Spares(w.before, tried) && Spares(w.during, tried)
      && (choice.Some? && !w.dialOk ==> DialSpared(after, r, k + 1, tried + {choice.value.Key()}))
  }

  lemma DownMeansUnselectable(es: seq<Entry>, tried: set<string>, r: Request, k: nat)
    requires DistinctKeys(es) && k <= r.sel.retries && Down(es, tried, r, k, 0)
    ensures NoneSelectable(es, r.worlds(k).now, tried)
  {
    forall i | 0 <= i < |es| && es[i].Key() in tried ensures !Selectable(es[i], r.worlds(k).now) {
      IndexIsBijection(es, i);
      assert KeyDown(es, es[i].Key(), r, k, 0);
    }
  }

  lemma SparedDialAttempt(s: State, r: Request, k: nat, tried: set<string>)
    requires Sane(r) && DialsWithinBackoff(r) && k <= r.sel.retries
    requires Spares(r.worlds(k).before, tried) && Spares(r.worlds(k).during, tried)
    requires DistinctKeys(s.entries) && Down(s.entries, tried, r, k, 0)
    ensures NoneSelectable(ApplyAll(s, r.worlds(k).before).entries, r.worlds(k).now, tried)
    ensures var (after, choice) := DialAttempt(s, r, r.worlds(k));
            choice.Some? && !r.worlds(k).dialOk ==>
              DistinctKeys(after.entries) && Down(after.entries, tried + {choice.value.Key()}, r, k + 1, 0)
  {
    var w := r.worlds(k);
    var met := ApplyAll(s, w.before);
    SparingKeepsDown(s, w.before, r, k, tried, 0);
    DownMeansUnselectable(met.entries, tried, r, k);
    var (next, i) := NextOf(met, StrategyOf(r.sel, w), w.now);
    if i >= 0 && !w.dialOk {
      IndexIsBijection(met.entries, i);
      var after := FailedDialKeepsDown(next, w, next.entries[i], w.failedAt, r, k, tried, 0);
    }
  }

  /** Within the backoff of its own failures, no request can select what it has tried. */
  lemma {:induction false} SparedStaysUnselectable(s: State, r: Request, k: nat, tried: set<string>)
    requires Sane(r) && DialsWithinBackoff(r) && DialSpared(s, r, k, tried)
    requires DistinctKeys(s.entries) && Down(s.entries, tried, r, k, 0)
    ensures TriedUnselectable(s, r, k, tried)
    decreases r.sel.retries - k
  {
    if k <= r.sel.retries {
      SparedDialAttempt(s, r, k, tried);
      var (after, choice) := DialAttempt(s, r, r.worlds(k));
      if choice.Some? && !r.worlds(k).dialOk {
        SparedStaysUnselectable(after, r, k + 1, tried + {choice.value.Key()});
      }
    }
  }

  /** So the loop dials no upstream twice while its retries come within the shortest backoff. */
  lemma DialNeverRepeatsWithinBackoff(s: State, r: Request)
    requires Sane(r) && DialsWithinBackoff(r) && DistinctKeys(s.entries) && DialSpared(s, r, 0, {})
    ensures DistinctKeys(DialAttempts(s, r, 0).picks)
  {
    SparedStaysUnselectable(s, r, 0, {});
    DialNeverRepeats(s, r, 0, {});
  }

  // --- the HTTP loops without stickiness -----------------------------------------------------------------------

  /** The HTTP loops stamp a failure with the clock reading of the pick. */
  function OneClock(r: Request): Request {
    r.(worlds := (k: nat) => r.worlds(k).(failedAt := r.worlds(k).now))
  }

  lemma PlainAttemptIsDial(s: State, r: Request, k: nat, attempted: set<string>)
    requires Plain(r)
    ensures Attempt(s, r, r.worlds(k), attempted) == DialAttempt(s, OneClock(r), OneClock(r).worlds(k))
  {
  }

  /** A retryable request that is neither sticky nor forced runs as through the SOCKS5 loop, on one clock. */
  lemma {:induction false} PlainIsDial(s: State, r: Request, k: nat, attempted: set<string>)
    requires Plain(r) && r.retryable
    ensures Attempts(s, r, k, attempted) == DialAttempts(s, OneClock(r), k)
    decreases r.sel.retries - k
  {
    if k > r.sel.retries {
      NoAttemptsLeft(s, r, k, attempted);
      NoAttemptsLeft(s, OneClock(r), k, attempted);
    } else {
      AttemptsStep(s, r, k, attempted);
      DialAttemptsStep(s, OneClock(r), k);
      PlainAttemptIsDial(s, r, k, attempted);
      var (after, choice) := Attempt(s, r, r.worlds(k), attempted);
      if choice.Some? && !r.worlds(k).dialOk {
        PlainIsDial(after, r, k + 1, Remember(r, attempted, choice.value));
      }
    }
  }

  lemma FewPicksUntried(o: Outcome)
    requires |o.picks| <= 1
    ensures Untried(o.picks, {})
  {
  }

  /**
   * Nor do the HTTP loops pick an upstream twice for such a request while what failed earlier in it
   * cannot be selected again, whatever other goroutines do.
   */
  lemma PlainNeverRepeats(s: State, r: Request)
    requires Plain(r) && TriedUnselectable(s, OneClock(r), 0, {})
    ensures Untried(Attempts(s, r, 0, {}).picks, {})
  {
    if r.retryable {
      PlainIsDial(s, r, 0, {});
      DialNeverRepeats(s, OneClock(r), 0, {});
    } else {
      NotRetriedPicksOnce(s, r);
      FewPicksUntried(Attempts(s, r, 0, {}));
    }
  }

  lemma PlainNeverRepeatsWithinBackoff(s: State, r: Request)
    requires Plain(r) && Sane(r) && DialsWithinBackoff(OneClock(r))
    requires DistinctKeys(s.entries) && DialSpared(s, OneClock(r), 0, {})
    ensures DistinctKeys(Attempts(s, r, 0, {}).picks)
  {
    SparedStaysUnselectable(s, OneClock(r), 0, {});
    PlainNeverRepeats(s, r);
  }
}
