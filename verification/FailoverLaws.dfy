/** What the retry loops guarantee over whole requests. */
module FailoverLaws {
  import opened Base
  import opened ProxyPool
  import opened Rendezvous
  import opened Failover

  /** Pairwise different upstreams, none of them tried before. */
  predicate Untried(picks: seq<Entry>, tried: set<string>) {
    DistinctKeys(picks) && forall i :: 0 <= i < |picks| ==> picks[i].Key() !in tried
  }

  lemma UntriedCons(e: Entry, picks: seq<Entry>, tried: set<string>)
    requires e.Key() !in tried && Untried(picks, tried + {e.Key()})
    ensures Untried([e] + picks, tried)
  {
    var all := [e] + picks;
    forall i, j | 0 <= i < j < |all| ensures all[i].Key() != all[j].Key() {
      assert all[j] == picks[j - 1];
    }
  }

  lemma UntriedBehind(e: Entry, rest: Outcome, tried: set<string>)
    requires e.Key() !in tried && Untried(rest.picks, tried + {e.Key()})
    ensures Untried(Behind([e], rest).picks, tried)
  {
    UntriedCons(e, rest.picks, tried);
  }

  function Excluding(r: Request, attempted: set<string>): set<string> {
    if r.pol.soft then attempted else {}
  }

  /** A sticky attempt picks the winner among the active entries. */
  lemma StickyAttempt(s: State, r: Request, w: World, attempted: set<string>)
    requires r.Sticky() && !r.Forced()
    ensures Attempt(s, r, w, attempted).1
         == StickyChoice(ApplyAll(s, w.before), r.pol.sessionKey, w.now, Excluding(r, attempted))
    ensures var e := Attempt(s, r, w, attempted).1;
            e.Some? && r.pol.soft ==> e.value.Key() !in attempted
  {
  }

  /** A request that may not be retried makes at most one attempt. */
  lemma NotRetriedPicksOnce(s: State, r: Request)
    requires !r.retryable
    ensures |Attempts(s, r, 0, {}).picks| <= 1
  {
    if r.sel.retries < 0 {
      NoAttemptsLeft(s, r, 0, {});
    } else {
      AttemptsStep(s, r, 0, {});
    }
  }

  /** A request makes at most one attempt more than there are retries. */
  lemma {:induction false} AttemptsBounded(s: State, r: Request, k: nat, attempted: set<string>)
    ensures |Attempts(s, r, k, attempted).picks| <= if k <= r.sel.retries then r.sel.retries + 1 - k else 0
    decreases r.sel.retries - k
  {
    if k > r.sel.retries {
      NoAttemptsLeft(s, r, k, attempted);
    } else {
      AttemptsStep(s, r, k, attempted);
      var (after, choice) := Attempt(s, r, r.worlds(k), attempted);
      if choice.Some? && !r.worlds(k).dialOk && r.retryable {
        AttemptsBounded(after, r, k + 1, Remember(r, attempted, choice.value));
      }
    }
  }

  /** A forced request picks the upstream it names and no other, whatever happens to the pool. */
  lemma {:induction false} ForcedPicksOnlyNamed(s: State, r: Request, k: nat, attempted: set<string>)
    requires r.Forced()
    ensures forall i :: 0 <= i < |Attempts(s, r, k, attempted).picks| ==> Attempts(s, r, k, attempted).picks[i].Key() == r.pol.forceKey
    decreases r.sel.retries - k
  {
    if k > r.sel.retries {
      NoAttemptsLeft(s, r, k, attempted);
    } else {
      AttemptsStep(s, r, k, attempted);
      var (after, choice) := Attempt(s, r, r.worlds(k), attempted);
      if choice.Some? && !r.worlds(k).dialOk && r.retryable {
        ForcedPicksOnlyNamed(after, r, k + 1, Remember(r, attempted, choice.value));
      }
    }
  }

  predicate Plain(r: Request) {
    !r.Forced() && !r.Sticky()
  }

  /** A request that is neither forced nor sticky goes the same way whoever sends it. */
  lemma {:induction false} PlainIgnoresPolicy(s: State, r: Request, pol: Policy, k: nat, attempted: set<string>)
    requires Plain(r) && Plain(r.(pol := pol))
    ensures Attempts(s, r, k, attempted) == Attempts(s, r.(pol := pol), k, attempted)
    decreases r.sel.retries - k
  {
    var q := r.(pol := pol);
    if k > r.sel.retries {
      NoAttemptsLeft(s, r, k, attempted);
      NoAttemptsLeft(s, q, k, attempted);
    } else {
      AttemptsStep(s, r, k, attempted);
      AttemptsStep(s, q, k, attempted);
      var (after, choice) := Attempt(s, r, r.worlds(k), attempted);
      if choice.Some? && !r.worlds(k).dialOk && r.retryable {
        PlainIgnoresPolicy(after, r, pol, k + 1, attempted);
      }
    }
  }

  // --- soft failover never repeats ----------------------------------------------------------------

  /**
   * Soft failover never picks a key twice and makes at most retries + 1 attempts, whatever other
   * goroutines do to the pool between and during the attempts, Update included.
   */
  lemma {:induction false} SoftNeverRepeats(s: State, r: Request, k: nat, attempted: set<string>)
    requires r.Remembers()
    ensures var picks := Attempts(s, r, k, attempted).picks;
            && Untried(picks, attempted)
            && (picks != [] ==> |picks| <= r.sel.retries + 1 - k)
    decreases r.sel.retries - k
  {
    if k <= r.sel.retries {
      var w := r.worlds(k);
      StickyAttempt(s, r, w, attempted);
      AttemptsStep(s, r, k, attempted);
      var (after, choice) := Attempt(s, r, w, attempted);
      if choice.Some? && !w.dialOk && r.retryable {
        SoftNeverRepeats(after, r, k + 1, attempted + {choice.value.Key()});
        UntriedCons(choice.value, Attempts(after, r, k + 1, attempted + {choice.value.Key()}).picks, attempted);
      }
    }
  }

  // --- soft failover walks down the ranking ---------------------------------------------------------

  function Without(keys: seq<string>, exclude: set<string>): seq<string> {
    if keys == [] then []
    else
      var init := Without(keys[..|keys| - 1], exclude);
      if keys[|keys| - 1] in exclude then init else init + [keys[|keys| - 1]]
  }

  function WinnerKey(keys: seq<string>, score: Scorer, exclude: set<string>): Option<string> {
    var w := Winner(keys, score, exclude);
    if w >= 0 then Some(keys[w]) else None
  }

  /** Excluding candidates is the same as not having them. */
  lemma {:induction false} WinnerKeyWithout(keys: seq<string>, score: Scorer, exclude: set<string>)
    ensures WinnerKey(keys, score, exclude) == WinnerKey(Without(keys, exclude), score, {})
  {
    if keys != [] {
      var n := |keys| - 1;
      WinnerKeyWithout(keys[..n], score, exclude);
      if keys[n] !in exclude {
        var kept := Without(keys, exclude);
        assert kept[..|kept| - 1] == Without(keys[..n], exclude);
      }
    }
  }

  /** Entry by entry the same key, and the same eligibility unless the key was already tried. */
  predicate SameEligibility(a: seq<Entry>, at: int, b: seq<Entry>, bt: int, attempted: set<string>) {
    |a| == |b| && forall i :: 0 <= i < |a| ==>
      a[i].Key() == b[i].Key() && (a[i].Key() !in attempted ==> (Enabled(a[i], at) <==> Enabled(b[i], bt)))
  }

  function ActiveKeys(es: seq<Entry>, now: int): seq<string> {
    Keys(ActiveOf(es, now))
  }

  lemma {:induction false} ActiveKeysStep(es: seq<Entry>, now: int)
    requires es != []
    ensures var n := |es| - 1;
            ActiveKeys(es, now)
              == if Enabled(es[n], now) then ActiveKeys(es[..n], now) + [es[n].Key()] else ActiveKeys(es[..n], now)
  {
  }

  lemma {:induction false} SameEligibilitySameCandidates(a: seq<Entry>, at: int, b: seq<Entry>, bt: int, attempted: set<string>)
    requires SameEligibility(a, at, b, bt, attempted)
    ensures Without(ActiveKeys(a, at), attempted) == Without(ActiveKeys(b, bt), attempted)
  {
    if a != [] {
      var n := |a| - 1;
      SameEligibilitySameCandidates(a[..n], at, b[..n], bt, attempted);
      ActiveKeysStep(a, at);
      ActiveKeysStep(b, bt);
      WithoutAppended(ActiveKeys(a[..n], at), a[n].Key(), attempted);
      WithoutAppended(ActiveKeys(b[..n], bt), b[n].Key(), attempted);
    }
  }

  lemma WithoutAppended(keys: seq<string>, k: string, exclude: set<string>)
    ensures Without(keys + [k], exclude) == if k in exclude then Without(keys, exclude) else Without(keys, exclude) + [k]
  {
    assert (keys + [k])[..|keys|] == keys;
  }

  lemma {:induction false} ActiveKeysDistinct(es: seq<Entry>, now: int)
    requires DistinctKeys(es)
    ensures Distinct(ActiveKeys(es, now))
    ensures forall k :: k in ActiveKeys(es, now) ==> exists i :: 0 <= i < |es| && es[i].Key() == k
  {
    if es != [] {
      var n := |es| - 1;
      ActiveKeysDistinct(es[..n], now);
      ActiveKeysStep(es, now);
      forall i | 0 <= i < n ensures es[..n][i].Key() != es[n].Key() {
        assert es[i].Key() != es[n].Key();
      }
      assert es[n].Key() !in ActiveKeys(es[..n], now);
    }
  }

  /**
   * Through attempt k and all later ones, every entry keeps its place and key, and an entry not yet
   * tried stays as eligible as it was among `base` at time t0.
   */
  predicate Steady(s: State, r: Request, k: nat, attempted: set<string>, base: seq<Entry>, t0: int)
    decreases r.sel.retries - k
  {
    k <= r.sel.retries ==>
      var w := r.worlds(k);
      && SameEligibility(ApplyAll(s, w.before).entries, w.now, base, t0, attempted)
      && var (after, choice) := Attempt(s, r, w, attempted);
         choice.Some? && !w.dialOk && r.retryable ==>
           Steady(after, r, k + 1, Remember(r, attempted, choice.value), base, t0)
  }

  /** The key an attempt picks when the candidates are those of `base` at t0. */
  lemma SteadyPick(s: State, r: Request, k: nat, attempted: set<string>, base: seq<Entry>, t0: int)
    requires r.Remembers() && k <= r.sel.retries && Steady(s, r, k, attempted, base, t0)
    ensures var choice := Attempt(s, r, r.worlds(k), attempted).1;
            WinnerKey(ActiveKeys(base, t0), HrwOf(r.pol.sessionKey), attempted)
              == if choice.Some? then Some(choice.value.Key()) else None
  {
    var w := r.worlds(k);
    var es := ApplyAll(s, w.before).entries;
    StickyAttempt(s, r, w, attempted);
    SameEligibilitySameCandidates(es, w.now, base, t0, attempted);
    WinnerKeyWithout(ActiveKeys(es, w.now), HrwOf(r.pol.sessionKey), attempted);
    WinnerKeyWithout(ActiveKeys(base, t0), HrwOf(r.pol.sessionKey), attempted);
  }

  lemma TopKeysGrow(keys: seq<string>, order: seq<nat>, k: nat)
    requires k < |order| && Within(order, |keys|)
    ensures TopKeys(keys, order, k + 1) == TopKeys(keys, order, k) + {keys[order[k]]}
  {
  }

  /** Attempt k, with the first k of the ranking tried before, picks the next of the ranking. */
  lemma RankedPick(s: State, r: Request, k: nat, base: seq<Entry>, t0: int)
    requires r.Remembers() && k <= r.sel.retries && DistinctKeys(base)
    requires var keys := ActiveKeys(base, t0);
             k <= |keys| && Steady(s, r, k, TopKeys(keys, Ranking(keys, HrwOf(r.pol.sessionKey)), k), base, t0)
    ensures var keys := ActiveKeys(base, t0);
            var order := Ranking(keys, HrwOf(r.pol.sessionKey));
            var choice := Attempt(s, r, r.worlds(k), TopKeys(keys, order, k)).1;
            && (choice.Some? <==> k < |keys|)
            && (choice.Some? ==>
                  && choice.value.Key() == keys[order[k]]
                  && Remember(r, TopKeys(keys, order, k), choice.value) == TopKeys(keys, order, k + 1))
  {
    var keys := ActiveKeys(base, t0);
    var order := Ranking(keys, HrwOf(r.pol.sessionKey));
    ActiveKeysDistinct(base, t0);
    PickAfterTop(keys, HrwOf(r.pol.sessionKey), k);
    SteadyPick(s, r, k, TopKeys(keys, order, k), base, t0);
    if k < |keys| {
      TopKeysGrow(keys, order, k);
    }
  }

  /** The candidates in descending preference. */
  function InOrder(keys: seq<string>, order: seq<nat>): (names: seq<string>)
    requires Within(order, |keys|)
    ensures |names| == |order| && forall i :: 0 <= i < |order| ==> names[i] == keys[order[i]]
  {
    seq(|order|, i requires 0 <= i < |order| => keys[order[i]])
  }

  /** The picks are the names from number k on, without a gap, and upstreams run out only after the last name. */
  predicate Walks(o: Outcome, names: seq<string>, k: nat) {
    && k + |o.picks| <= |names| && Keys(o.picks) == names[k..k + |o.picks|]
    && (o.verdict.NoneAvailable? ==> k + |o.picks| == |names|)
  }

  lemma WalksBehind(e: Entry, rest: Outcome, names: seq<string>, k: nat)
    requires k < |names| && e.Key() == names[k] && Walks(rest, names, k + 1)
    ensures Walks(Behind([e], rest), names, k)
  {
    assert Keys([e] + rest.picks) == [names[k]] + Keys(rest.picks);
    assert names[k..k + 1 + |rest.picks|] == [names[k]] + names[k + 1..k + 1 + |rest.picks|];
  }

  lemma WalksAtEnd(o: Outcome, names: seq<string>, k: nat)
    requires k <= |names| && o.picks == [] && (o.verdict.NoneAvailable? ==> k == |names|)
    ensures Walks(o, names, k)
  {
    assert Keys(o.picks) == [] == names[k..k];
  }

  lemma WalksLast(o: Outcome, e: Entry, names: seq<string>, k: nat)
    requires k < |names| && e.Key() == names[k] && o.picks == [e] && !o.verdict.NoneAvailable?
    ensures Walks(o, names, k)
  {
    assert Keys(o.picks) == [names[k]] == names[k..k + 1];
  }

  lemma SteadyNext(s: State, r: Request, k: nat, attempted: set<string>, base: seq<Entry>, t0: int)
    requires k <= r.sel.retries && Steady(s, r, k, attempted, base, t0)
    ensures var (after, choice) := Attempt(s, r, r.worlds(k), attempted);
            choice.Some? && !r.worlds(k).dialOk && r.retryable ==>
              Steady(after, r, k + 1, Remember(r, attempted, choice.value), base, t0)
  {
  }

  /** The candidates at t0 and their ranking, for a request that remembers what it tried. */
  predicate Ranked(r: Request, base: seq<Entry>, t0: int, keys: seq<string>, order: seq<nat>) {
    r.Remembers() && DistinctKeys(base) && keys == ActiveKeys(base, t0) && order == Ranking(keys, HrwOf(r.pol.sessionKey))
  }

  /** One step down the ranking, and what is left to do afterwards. */
  lemma WalkStep(s: State, r: Request, k: nat, base: seq<Entry>, t0: int, keys: seq<string>, order: seq<nat>)
    returns (more: bool, after: State, e: Option<Entry>)
    requires Ranked(r, base, t0, keys, order) && k <= r.sel.retries
    requires k <= |keys| && Steady(s, r, k, TopKeys(keys, order, k), base, t0)
    ensures more ==> k < |keys| && e.Some? && e.value.Key() == InOrder(keys, order)[k]
    ensures more ==> Steady(after, r, k + 1, TopKeys(keys, order, k + 1), base, t0)
    ensures var o := Attempts(s, r, k, TopKeys(keys, order, k));
            if more then o == Behind([e.value], Attempts(after, r, k + 1, TopKeys(keys, order, k + 1)))
            else Walks(o, InOrder(keys, order), k)
  {
    var tried, names := TopKeys(keys, order, k), InOrder(keys, order);
    RankedPick(s, r, k, base, t0);
    AttemptsStep(s, r, k, tried);
    SteadyNext(s, r, k, tried, base, t0);
    after, e := Attempt(s, r, r.worlds(k), tried).0, Attempt(s, r, r.worlds(k), tried).1;
    more := e.Some? && !r.worlds(k).dialOk && r.retryable;
    if e.None? {
      WalksAtEnd(Attempts(s, r, k, tried), names, k);
    } else if !more {
      WalksLast(Attempts(s, r, k, tried), e.value, names, k);
    }
  }

  /**
   * Soft failover enumerates the ranking: with distinct keys and steady eligibility, attempt number
   * k picks candidate number k in descending score (ties by list position), and it runs out of
   * upstreams only after the last candidate.
   */
  lemma {:induction false} SoftWalksRanking(s: State, r: Request, k: nat, base: seq<Entry>, t0: int,
                                            keys: seq<string>, order: seq<nat>)
    requires Ranked(r, base, t0, keys, order)
    requires k <= |keys| && Steady(s, r, k, TopKeys(keys, order, k), base, t0)
    ensures Walks(Attempts(s, r, k, TopKeys(keys, order, k)), InOrder(keys, order), k)
    decreases r.sel.retries - k
  {
    if k > r.sel.retries {
      NoAttemptsLeft(s, r, k, TopKeys(keys, order, k));
      WalksAtEnd(Attempts(s, r, k, TopKeys(keys, order, k)), InOrder(keys, order), k);
    } else {
      var more, after, e := WalkStep(s, r, k, base, t0, keys, order);
      if more {
        SoftWalksRanking(after, r, k + 1, base, t0, keys, order);
        WalksBehind(e.value, Attempts(after, r, k + 1, TopKeys(keys, order, k + 1)), InOrder(keys, order), k);
      }
    }
  }
}
