/** What a request's headers decide before its attempts begin: policy and whether it may be retried. */
module RequestPolicy {
  import opened Base
  import opened GoText
  import opened ProxyPool
  import opened Rendezvous
  import opened Failover
  import opened FailoverLaws

  /** Header values ("" where absent), with the user of basic authentication and the trace ID already parsed. */
  datatype Incoming = Incoming(
    upstream: string, sticky: string, failover: string, session: string,
    user: Option<string>, traceID: Option<string>, verb: string, hasBody: bool)

  datatype StickyConfig = StickyConfig(failover: string, headerOverride: Option<bool>)

  const TRUTHY := ["1", "true", "t", "yes", "y", "on", "enable", "enabled"]
  const FALSY := ["0", "false", "f", "no", "n", "off", "disable", "disabled"]

  function ParseBoolLike(v: string): Option<bool> {
    var t := TrimSpace(ToLower(v));
    if t in TRUTHY then Some(true) else if t in FALSY then Some(false) else None
  }

  /** The header if it may be used, else the authenticated user, else the trace. */
  function SessionKey(allowHeader: bool, r: Incoming): string {
    if allowHeader && !Blank(r.session) then TrimSpace(r.session)
    else if r.user.Some? && !Blank(r.user.value) then r.user.value
    else if r.traceID.Some? then r.traceID.value
    else ""
  }

  predicate MayOverride(cfg: StickyConfig) {
    cfg.headerOverride.None? || cfg.headerOverride.value
  }

  predicate IsMode(failover: string) {
    failover == "soft" || failover == "hard"
  }

  /** The policy of a request that may override the configuration; None is a bad request. */
  function OverriddenPolicy(cfg: StickyConfig, r: Incoming): Option<Policy> {
    if !Blank(r.sticky) && ParseBoolLike(TrimSpace(r.sticky)).None? then None
    else if !Blank(r.failover) && !IsMode(ToLower(TrimSpace(r.failover))) then None
    else Some(Policy(
      SessionKey(true, r),
      if Blank(r.sticky) then None else ParseBoolLike(TrimSpace(r.sticky)),
      if Blank(r.failover) then cfg.failover == "soft" else ToLower(TrimSpace(r.failover)) == "soft",
      if Blank(r.upstream) then "" else TrimSpace(r.upstream)))
  }

  function PolicyOf(cfg: StickyConfig, r: Incoming): Option<Policy> {
    if MayOverride(cfg) then OverriddenPolicy(cfg, r)
    else Some(Policy(SessionKey(false, r), None, cfg.failover == "soft", ""))
  }

  method StickyPolicyFromRequest(cfg: StickyConfig, r: Incoming) returns (p: Option<Policy>)
    ensures p == PolicyOf(cfg, r)
  {
    var failover, forceKey, forceSticky := cfg.failover, "", None;
    var headerOverride := cfg.headerOverride.None? || cfg.headerOverride.value;
    if headerOverride {
      if !Blank(r.upstream) {
        forceKey := TrimSpace(r.upstream);
      }
      if !Blank(r.sticky) {
        var b := ParseBoolLike(TrimSpace(r.sticky));
        if b.None? {
          return None;
        }
        forceSticky := b;
      }
      if !Blank(r.failover) {
        var v := ToLower(TrimSpace(r.failover));
        if v != "soft" && v != "hard" {
          return None;
        }
        failover := v;
      }
    }
    p := Some(Policy(SessionKey(headerOverride, r), forceSticky, failover == "soft", forceKey));
  }

  // --- spelling -------------------------------------------------------------------------------------------

  /** What is left of a header once blanks around it and capitals are taken away. */
  function Essence(v: string): string {
    ToLower(TrimSpace(v))
  }

  lemma BlankIffNoEssence(v: string)
    ensures Blank(v) <==> Essence(v) == ""
  {
    BlankIsTrimmedEmpty(v);
  }

  /** The switch word a header spells, read off its essence. */
  lemma SwitchByEssence(v: string)
    ensures ParseBoolLike(TrimSpace(v)) == if Essence(v) in TRUTHY then Some(true) else if Essence(v) in FALSY then Some(false) else None
  {
    LowerTrimmedStays(v);
    LowerTrim(TrimSpace(v));
    LowerTrim(v);
    LowerTrimmedStays(TrimSpace(v));
    TrimTwice(v);
  }

  lemma TrimTwice(v: string)
    ensures TrimSpace(ToLower(TrimSpace(v))) == Essence(v)
  {
    TrimmedEnds(v);
    TrimmedStays(Essence(v));
  }

  /** What a header decides by: upstream and session with no blanks around them, the switches in lower case too. */
  predicate SameEssence(r: Incoming, q: Incoming) {
    && TrimSpace(r.upstream) == TrimSpace(q.upstream) && TrimSpace(r.session) == TrimSpace(q.session)
    && Essence(r.sticky) == Essence(q.sticky) && Essence(r.failover) == Essence(q.failover)
    && r.user == q.user && r.traceID == q.traceID
  }

  lemma SameTrimmedSameBlank(v: string, w: string)
    requires TrimSpace(v) == TrimSpace(w)
    ensures Blank(v) <==> Blank(w)
  {
    BlankIsTrimmedEmpty(v);
    BlankIsTrimmedEmpty(w);
  }

  lemma SameEssenceSameSwitch(v: string, w: string)
    requires Essence(v) == Essence(w)
    ensures (Blank(v) <==> Blank(w)) && ParseBoolLike(TrimSpace(v)) == ParseBoolLike(TrimSpace(w))
  {
    BlankIffNoEssence(v);
    BlankIffNoEssence(w);
    SwitchByEssence(v);
    SwitchByEssence(w);
  }

  lemma SameEssenceSameSession(allowHeader: bool, r: Incoming, q: Incoming)
    requires SameEssence(r, q)
    ensures SessionKey(allowHeader, r) == SessionKey(allowHeader, q)
  {
    SameTrimmedSameBlank(r.session, q.session);
  }

  lemma SameEssenceSamePolicy(cfg: StickyConfig, r: Incoming, q: Incoming)
    requires SameEssence(r, q)
    ensures PolicyOf(cfg, r) == PolicyOf(cfg, q)
  {
    SameEssenceSameSession(MayOverride(cfg), r, q);
    if MayOverride(cfg) {
      SameTrimmedSameBlank(r.upstream, q.upstream);
      SameEssenceSameSwitch(r.sticky, q.sticky);
      SameEssenceSameSwitch(r.failover, q.failover);
      assert OverriddenPolicy(cfg, r) == OverriddenPolicy(cfg, q);
    }
  }

  function Around(a: string, v: string, b: string): string {
    a + v + b
  }

  /** w is v with blanks around it. */
  ghost predicate Padded(v: string, w: string) {
    exists a, b :: Blank(a) && Blank(b) && w == Around(a, v, b)
  }

  /** w is v with letters in another case and blanks around it. */
  ghost predicate Recased(v: string, w: string) {
    exists a, x, b :: Blank(a) && Blank(b) && ToLower(x) == ToLower(v) && w == Around(a, x, b)
  }

  lemma PaddedSameTrimmed(v: string, w: string)
    requires Padded(v, w)
    ensures TrimSpace(w) == TrimSpace(v)
  {
    var a, b :| Blank(a) && Blank(b) && w == Around(a, v, b);
    TrimPadded(a, v, b);
  }

  lemma RecasedSameEssence(v: string, w: string)
    requires Recased(v, w)
    ensures Essence(w) == Essence(v)
  {
    var a, x, b :| Blank(a) && Blank(b) && ToLower(x) == ToLower(v) && w == Around(a, x, b);
    TrimPadded(a, x, b);
    LowerTrim(x);
    LowerTrim(v);
  }

  /** Blanks around headers and capitals in switches never change the policy, nor whether there is one. */
  lemma SpellingIrrelevant(cfg: StickyConfig, r: Incoming, q: Incoming)
    requires Padded(r.upstream, q.upstream) && Padded(r.session, q.session)
    requires Recased(r.sticky, q.sticky) && Recased(r.failover, q.failover)
    requires r.user == q.user && r.traceID == q.traceID
    ensures PolicyOf(cfg, q) == PolicyOf(cfg, r)
  {
    PaddedSameTrimmed(r.upstream, q.upstream);
    PaddedSameTrimmed(r.session, q.session);
    RecasedSameEssence(r.sticky, q.sticky);
    RecasedSameEssence(r.failover, q.failover);
    SameEssenceSamePolicy(cfg, q, r);
  }

  /** The words that switch stickiness on, and those that switch it off. */
  predicate SaysOn(v: string) {
    var w := Essence(v);
    w == "1" || w == "true" || w == "t" || w == "yes" || w == "y" || w == "on" || w == "enable" || w == "enabled"
  }

  predicate SaysOff(v: string) {
    var w := Essence(v);
    w == "0" || w == "false" || w == "f" || w == "no" || w == "n" || w == "off" || w == "disable" || w == "disabled"
  }

  lemma SwitchSays(v: string)
    ensures ParseBoolLike(TrimSpace(v)) == if SaysOn(v) then Some(true) else if SaysOff(v) then Some(false) else None
  {
    SwitchByEssence(v);
    var w := Essence(v);
    assert w in TRUTHY <==> SaysOn(v) by {
      ListedOn(w);
    }
    assert w in FALSY <==> SaysOff(v) by {
      ListedOff(w);
    }
  }

  lemma ListedOn(w: string)
    ensures w in TRUTHY <==> w == "1" || w == "true" || w == "t" || w == "yes" || w == "y" || w == "on" || w == "enable" || w == "enabled"
  {
    assert TRUTHY[0] == "1" && TRUTHY[1] == "true" && TRUTHY[2] == "t" && TRUTHY[3] == "yes";
    assert TRUTHY[4] == "y" && TRUTHY[5] == "on" && TRUTHY[6] == "enable" && TRUTHY[7] == "enabled";
  }

  lemma ListedOff(w: string)
    ensures w in FALSY <==> w == "0" || w == "false" || w == "f" || w == "no" || w == "n" || w == "off" || w == "disable" || w == "disabled"
  {
    assert FALSY[0] == "0" && FALSY[1] == "false" && FALSY[2] == "f" && FALSY[3] == "no";
    assert FALSY[4] == "n" && FALSY[5] == "off" && FALSY[6] == "disable" && FALSY[7] == "disabled";
  }

  /** Overriding is allowed unless the configuration forbids it in so many words. */
  predicate HeadersCount(cfg: StickyConfig) {
    cfg.headerOverride != Some(false)
  }

  /** A request is turned away iff a switch it may use is filled in with a word that is none of its words. */
  lemma RejectedIff(cfg: StickyConfig, r: Incoming)
    ensures PolicyOf(cfg, r).None? <==>
              && HeadersCount(cfg)
              && ((!Blank(r.sticky) && !SaysOn(r.sticky) && !SaysOff(r.sticky))
                  || (!Blank(r.failover) && Essence(r.failover) != "soft" && Essence(r.failover) != "hard"))
  {
    BlankIffNoEssence(r.failover);
    SwitchSays(r.sticky);
  }

  /** What a policy says, switch by switch: a usable header that is filled in decides, else the configuration does. */
  lemma SwitchesDecide(cfg: StickyConfig, r: Incoming)
    requires PolicyOf(cfg, r).Some?
    ensures var p, usable := PolicyOf(cfg, r).value, HeadersCount(cfg);
            && p.forceKey == (if usable && !Blank(r.upstream) then TrimSpace(r.upstream) else "")
            && p.forceSticky == (if usable && !Blank(r.sticky) then Some(SaysOn(r.sticky)) else None)
            && p.soft == (if usable && !Blank(r.failover) then Essence(r.failover) == "soft" else cfg.failover == "soft")
  {
    BlankIffNoEssence(r.failover);
    SwitchSays(r.sticky);
  }

  /**
   * Whom a request counts as: the session it names, where it may name one; else the authenticated user, to
   * the letter; else the trace it belongs to; else nobody.
   */
  lemma SessionIs(cfg: StickyConfig, r: Incoming)
    requires PolicyOf(cfg, r).Some?
    ensures PolicyOf(cfg, r).value.sessionKey ==
              if HeadersCount(cfg) && !Blank(r.session) then TrimSpace(r.session)
              else if r.user.Some? && !Blank(r.user.value) then r.user.value
              else if r.traceID.Some? then r.traceID.value
              else ""
  {
  }

  /** The same in all headers but the session, the user and the trace. */
  predicate SameSwitches(r: Incoming, q: Incoming) {
    TrimSpace(r.upstream) == TrimSpace(q.upstream) && Essence(r.sticky) == Essence(q.sticky) && Essence(r.failover) == Essence(q.failover)
  }

  /**
   * Requests that name one session fare alike, whoever sends them and under whatever trace. Where sessions
   * may not be named, naming one changes nothing.
   */
  lemma SessionDecides(cfg: StickyConfig, sel: Selection, r: Incoming, q: Incoming, retryable: bool, worlds: nat -> World, s: State)
    requires SameSwitches(r, q)
    requires if HeadersCount(cfg) then !Blank(r.session) && TrimSpace(r.session) == TrimSpace(q.session)
             else r.user == q.user && r.traceID == q.traceID
    ensures PolicyOf(cfg, r) == PolicyOf(cfg, q)
    ensures PolicyOf(cfg, r).Some? ==>
              Attempts(s, Request(sel, PolicyOf(cfg, r).value, retryable, worlds), 0, {})
                == Attempts(s, Request(sel, PolicyOf(cfg, q).value, retryable, worlds), 0, {})
  {
    var aligned := q.(session := r.session, user := r.user, traceID := r.traceID);
    SameEssenceSamePolicy(cfg, r, aligned);
    if HeadersCount(cfg) {
      SameTrimmedSameBlank(r.session, q.session);
    }
    NamedAlike(cfg, q, aligned);
  }

  lemma NamedAlike(cfg: StickyConfig, q: Incoming, aligned: Incoming)
    requires aligned == q.(session := aligned.session, user := aligned.user, traceID := aligned.traceID)
    requires if HeadersCount(cfg) then !Blank(q.session) && !Blank(aligned.session) && TrimSpace(q.session) == TrimSpace(aligned.session)
             else q.user == aligned.user && q.traceID == aligned.traceID
    ensures PolicyOf(cfg, q) == PolicyOf(cfg, aligned)
  {
  }

  /** Blanks and capitals in practice. */
  lemma SwitchExamples()
    ensures SaysOn(" ON\t") && SaysOff("Off ") && !SaysOn("onn") && !SaysOff("onn")
  {
    assert TrimLeft(" ON\t") == "ON\t" && TrimRight("ON\t") == "ON";
    assert TrimLeft("Off ") == "Off " && TrimRight("Off ") == "Off" && TrimRight("onn") == "onn";
    assert Essence(" ON\t") == "on" && Essence("Off ") == "off" && Essence("onn") == "onn";
  }

  // --- what headers decide about the attempts ------------------------------------------------------------------

  predicate NamesUpstream(cfg: StickyConfig, r: Incoming) {
    MayOverride(cfg) && !Blank(r.upstream)
  }

  /** Somebody the proxy can tell from others. */
  predicate Recognised(cfg: StickyConfig, r: Incoming) {
    || (MayOverride(cfg) && !Blank(r.session))
    || (r.user.Some? && !Blank(r.user.value))
    || (r.traceID.Some? && !Blank(r.traceID.value))
  }

  predicate WantsSticky(cfg: StickyConfig, sel: Selection, r: Incoming) {
    if MayOverride(cfg) && !Blank(r.sticky) then Essence(r.sticky) in TRUTHY else sel.sticky
  }

  predicate WantsSoft(cfg: StickyConfig, r: Incoming) {
    if MayOverride(cfg) && !Blank(r.failover) then Essence(r.failover) == "soft" else cfg.failover == "soft"
  }

  lemma TrimmedNotBlank(v: string)
    ensures Blank(TrimSpace(v)) <==> Blank(v)
  {
    TrimmedEnds(v);
    BlankIsTrimmedEmpty(v);
    if TrimSpace(v) != "" {
      assert TrimSpace(v)[0] in TrimSpace(v);
    }
  }

  lemma RecognisedIff(cfg: StickyConfig, r: Incoming)
    ensures Recognised(cfg, r) <==> !Blank(SessionKey(MayOverride(cfg), r))
  {
    TrimmedNotBlank(r.session);
  }

  /** Which requests are forced, sticky, and remembering, by their headers and the configuration. */
  lemma KindOfRequest(cfg: StickyConfig, sel: Selection, r: Incoming, retryable: bool, worlds: nat -> World)
    requires PolicyOf(cfg, r).Some?
    ensures var req := Request(sel, PolicyOf(cfg, r).value, retryable, worlds);
            && (req.Forced() <==> NamesUpstream(cfg, r))
            && (req.Forced() ==> req.pol.forceKey == TrimSpace(r.upstream))
            && (req.Sticky() <==> Recognised(cfg, r) && WantsSticky(cfg, sel, r))
            && (req.Remembers() <==> Recognised(cfg, r) && WantsSticky(cfg, sel, r) && WantsSoft(cfg, r) && !NamesUpstream(cfg, r))
  {
    RecognisedIff(cfg, r);
    TrimmedNotBlank(r.upstream);
    SwitchByEssence(r.sticky);
    TruthyIsNotFalsy(Essence(r.sticky));
  }

  lemma TruthyIsNotFalsy(v: string)
    ensures !(v in TRUTHY && v in FALSY)
  {
  }

  /**
   * What headers decide about the picks: a request that names an upstream picks no other; that of a
   * recognised client who wants stickiness with soft failover picks no upstream twice. Both hold whatever
   * others do to the pool meanwhile.
   */
  lemma HeadersDecide(cfg: StickyConfig, sel: Selection, r: Incoming, retryable: bool, worlds: nat -> World, s: State)
    requires PolicyOf(cfg, r).Some?
    ensures var picks := Attempts(s, Request(sel, PolicyOf(cfg, r).value, retryable, worlds), 0, {}).picks;
            && (NamesUpstream(cfg, r) ==> forall i :: 0 <= i < |picks| ==> picks[i].Key() == TrimSpace(r.upstream))
            && (Recognised(cfg, r) && WantsSticky(cfg, sel, r) && WantsSoft(cfg, r) && !NamesUpstream(cfg, r) ==> DistinctKeys(picks))
  {
    var req := Request(sel, PolicyOf(cfg, r).value, retryable, worlds);
    KindOfRequest(cfg, sel, r, retryable, worlds);
    if req.Forced() {
      ForcedPicksOnlyNamed(s, req, 0, {});
    } else if req.Remembers() {
      SoftNeverRepeats(s, req, 0, {});
    }
  }

  /**
   * Where stickiness is not wanted and no upstream is named, who the client is makes no difference to
   * the picks, to the pool, or to the outcome.
   */
  lemma PlainIgnoresIdentity(cfg: StickyConfig, sel: Selection, r: Incoming, q: Incoming, retryable: bool, worlds: nat -> World, s: State)
    requires PolicyOf(cfg, r).Some? && !WantsSticky(cfg, sel, r) && !NamesUpstream(cfg, r)
    requires PolicyOf(cfg, q).Some? && !WantsSticky(cfg, sel, q) && !NamesUpstream(cfg, q)
    ensures Attempts(s, Request(sel, PolicyOf(cfg, r).value, retryable, worlds), 0, {})
         == Attempts(s, Request(sel, PolicyOf(cfg, q).value, retryable, worlds), 0, {})
  {
    KindOfRequest(cfg, sel, r, retryable, worlds);
    KindOfRequest(cfg, sel, q, retryable, worlds);
    PlainIgnoresPolicy(s, Request(sel, PolicyOf(cfg, r).value, retryable, worlds), PolicyOf(cfg, q).value, 0, {});
  }

  // --- retrying ------------------------------------------------------------------------------------------

  predicate SafeVerb(verb: string) {
    verb == "GET" || verb == "HEAD" || verb == "OPTIONS" || verb == "TRACE"
  }

  function IsRetryableRequest(r: Incoming, retryNonIdempotent: bool): (retryable: bool)
    ensures retryable <==> !r.hasBody && (r.verb in {"GET", "HEAD", "OPTIONS", "TRACE"} || retryNonIdempotent)
  {
    if retryNonIdempotent then !r.hasBody
    else if SafeVerb(r.verb) then !r.hasBody
    else false
  }

  /** The request the forwarding loop runs. */
  function Forwarded(sel: Selection, p: Policy, r: Incoming, retryNonIdempotent: bool, worlds: nat -> World): Request {
    Request(sel, p, IsRetryableRequest(r, retryNonIdempotent), worlds)
  }

  /** Some pool and some world make the forwarding loop turn to an upstream again after a failure. */
  ghost predicate CanTryAgain(sel: Selection, p: Policy, r: Incoming, retryNonIdempotent: bool) {
    exists s: State, worlds: nat -> World :: |Attempts(s, Forwarded(sel, p, r, retryNonIdempotent, worlds), 0, {}).picks| >= 2
  }

  /** An upstream that appears before attempt k, of a key its request may still pick then. */
  function Newcomer(p: Policy, k: nat): Entry {
    Entry(if !Blank(p.forceKey) then p.forceKey else if k == 0 then "a" else "b", "", "", "", 0, None, 0, None)
  }

  /** Before every attempt the pool is refilled with one newcomer, and no dial succeeds. */
  function Refilled(p: Policy): nat -> World {
    (k: nat) => World([Update([Newcomer(p, k)])], 0, (i: nat) => 0, [], false, 0)
  }

  lemma NewcomerKey(p: Policy, k: nat)
    ensures Newcomer(p, k).Key() == if !Blank(p.forceKey) then p.forceKey else if k == 0 then "a" else "b"
  {
    assert 'a' in "a" && 'b' in "b";
  }

  lemma OnlyEntryGot(s: State, e: Entry, now: int)
    requires s.entries == [e] && e.disabledUntil.None?
    ensures GetOf(s, e.Key(), now) == 0
  {
  }

  lemma OnlyCandidateChosen(s: State, e: Entry, session: string, now: int, exclude: set<string>)
    requires s.entries == [e] && e.disabledUntil.None? && e.Key() !in exclude
    ensures StickyChoice(s, session, now, exclude) == Some(e)
  {
    assert [e][..0] == [];
    assert ActiveOf([e], now) == [] + [e] == [e];
    WinnerBeatsAll(Keys([e]), HrwOf(session), exclude);
  }

  lemma OnlyEntryNext(s: State, e: Entry, strategy: Strategy, now: int)
    requires s.entries == [e] && e.disabledUntil.None?
    ensures NextOf(s, strategy, now).1 == 0
  {
  }

  lemma RefilledMet(s: State, w: World, e: Entry)
    requires w.before == [Update([e])]
    ensures ApplyAll(s, w.before) == State([e], 0)
  {
    assert w.before[..0] == [];
  }

  /** A pool of one enabled entry has that picked, if the request may pick it. */
  lemma NewcomerIsPicked(s: State, r: Request, w: World, tried: set<string>, e: Entry)
    requires w.before == [Update([e])] && e.disabledUntil.None?
    requires if r.Forced() then e.Key() == r.pol.forceKey else e.Key() !in tried
    ensures Attempt(s, r, w, tried).1 == Some(e)
  {
    RefilledMet(s, w, e);
    var met := ApplyAll(s, w.before);
    if r.Forced() {
      OnlyEntryGot(met, e, w.now);
    } else if r.Sticky() {
      OnlyCandidateChosen(met, e, r.pol.sessionKey, w.now, if r.pol.soft then tried else {});
    } else {
      OnlyEntryNext(met, e, StrategyOf(r.sel, w), w.now);
    }
  }

  lemma RefilledTriesAgain(sel: Selection, p: Policy, s: State)
    requires sel.retries >= 1
    ensures |Attempts(s, Request(sel, p, true, Refilled(p)), 0, {}).picks| >= 2
  {
    var r := Request(sel, p, true, Refilled(p));
    NewcomerKey(p, 0);
    NewcomerKey(p, 1);
    NewcomerIsPicked(s, r, r.worlds(0), {}, Newcomer(p, 0));
    AttemptsStep(s, r, 0, {});
    var after := Attempt(s, r, r.worlds(0), {}).0;
    var tried := Remember(r, {}, Newcomer(p, 0));
    assert "a" != "b";
    NewcomerIsPicked(after, r, r.worlds(1), tried, Newcomer(p, 1));
    AttemptsStep(after, r, 1, tried);
  }

  /**
   * A forwarded request can come to a second attempt exactly when it has no body, its verb is safe or
   * there is leave to repeat unsafe ones, and retries are configured; its policy makes no difference.
   */
  lemma RetriedIff(sel: Selection, p: Policy, r: Incoming, retryNonIdempotent: bool)
    ensures CanTryAgain(sel, p, r, retryNonIdempotent)
            <==> sel.retries >= 1 && !r.hasBody && (r.verb in {"GET", "HEAD", "OPTIONS", "TRACE"} || retryNonIdempotent)
  {
    if CanTryAgain(sel, p, r, retryNonIdempotent) {
      var s: State, worlds: nat -> World :| |Attempts(s, Forwarded(sel, p, r, retryNonIdempotent, worlds), 0, {}).picks| >= 2;
      var q := Forwarded(sel, p, r, retryNonIdempotent, worlds);
      AttemptsBounded(s, q, 0, {});
      if !q.retryable {
        NotRetriedPicksOnce(s, q);
      }
    }
    if sel.retries >= 1 && IsRetryableRequest(r, retryNonIdempotent) {
      RefilledTriesAgain(sel, p, State([], 0));
      assert Request(sel, p, true, Refilled(p)) == Forwarded(sel, p, r, retryNonIdempotent, Refilled(p));
    }
  }
}
