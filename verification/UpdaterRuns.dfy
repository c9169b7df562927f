/**
 * Updates running side by side: every caller of an update, the mutex of the xray manager, and what
 * requests, shutdown and dying processes do meanwhile. Every interleaving is a run of this machine.
 */
module UpdaterRuns {
  import opened Base
  import opened NodeSpec
  import opened XrayConfig
  import opened XrayConfigLaws
  import opened UpdateData
  import BackoffLaws
  import ProxyPool
  import RoundRobinLaws
  import XI = XrayInstance

  /** hash12 and digest stand for the hashes of a spec and of a configuration. */
  datatype Setup = Setup(xray: bool, fallback: bool, options: Options, hash12: string -> string, digest: Config -> string)

  datatype Phase =
    | Outside
    | Loading
    | Generating(specs: seq<Spec>)
    | AwaitingLock(g: Generated)
    | Ensuring(g: Generated, call: XI.Call<Config>)
    | Fetching(g: Generated)
    | LoadingAddresses
    | Checking(proxies: seq<string>)
    | Publishing(entries: seq<Entry>)
    | Leaving

  datatype State = State(updating: bool, phases: seq<Phase>, pool: ProxyPool.State, inst: XI.State<Config>, lock: Option<nat>)

  /** A failed load, generation, start or metrics request is a move with None, Err or ok == false. */
  datatype Move =
    | Enter(i: nat)
    | LoadSpecs(i: nat, raw: Option<seq<Spec>>)
    | Generate(i: nat, r: Result)
    | TakeLock(i: nat)
    | EnsureOn(i: nat, ok: bool)
    | FetchMetrics(i: nat, health: Option<map<string, Health>>, at: int)
    | LoadAddresses(i: nat, urls: Load<seq<string>>, sources: Load<seq<string>>)
    | CheckAll(i: nat, results: seq<Checked>, at: int)
    | Publish(i: nat)
    | Leave(i: nat)
    | OnPool(op: ProxyPool.Op)
    | StopXray
    | Crash(p: nat)

  function Initial(callers: nat): State {
    State(false, seq(callers, _ => Outside), ProxyPool.State([], 0), XI.Fresh(), None)
  }

  predicate Inside(p: Phase) {
    !p.Outside?
  }

  predicate At(s: State, i: nat) {
    i < |s.phases|
  }

  ghost predicate Enabled(setup: Setup, s: State, m: Move) {
    match m
    case Enter(i) => At(s, i) && s.phases[i].Outside?
    case LoadSpecs(i, raw) =>
      At(s, i) && s.phases[i].Loading? && (raw.Some? ==> AllIdentifiable(raw.value) && NodeIDs(raw.value))
    case Generate(i, r) =>
      && At(s, i) && s.phases[i].Generating? && AllIdentifiable(s.phases[i].specs)
      && Generates(s.phases[i].specs, setup.options, setup.hash12, setup.digest, r)
    case TakeLock(i) => At(s, i) && s.phases[i].AwaitingLock? && s.lock.None?
    case EnsureOn(i, _) => At(s, i) && s.phases[i].Ensuring? && !s.phases[i].call.at.Returned?
    case FetchMetrics(i, _, _) => At(s, i) && s.phases[i].Fetching?
    case LoadAddresses(i, _, _) => At(s, i) && s.phases[i].LoadingAddresses?
    case CheckAll(i, results, _) => At(s, i) && s.phases[i].Checking? && PossibleResults(s.phases[i].proxies, results)
    case Publish(i) => At(s, i) && s.phases[i].Publishing?
    case Leave(i) => At(s, i) && s.phases[i].Leaving?
    case OnPool(op) => !op.Update?
    case StopXray => s.lock.None?
    case Crash(_) => true
  }

  function FirstPhase(setup: Setup): Phase {
    if setup.xray then Loading else LoadingAddresses
  }

  /** Any failure on the xray side falls back to the plain list, if that is allowed. */
  function OnFailure(setup: Setup): Phase {
    if setup.fallback then LoadingAddresses else Leaving
  }

  function Goto(s: State, i: nat, p: Phase): State
    requires i < |s.phases|
  {
    s.(phases := s.phases[i := p])
  }

  /** Only a non-empty result replaces the pool. */
  function Published(pool: ProxyPool.State, entries: seq<Entry>): ProxyPool.State {
    if entries == [] then pool else ProxyPool.Apply(pool, ProxyPool.Op.Update(entries))
  }

  /** Where a caller goes after one more step of its call to Ensure; the mutex is released on return. */
  function AfterEnsureStep(setup: Setup, g: Generated, call: XI.Call<Config>): Phase {
    match call.at
    case Returned(ok) => if ok then Fetching(g) else OnFailure(setup)
    case _ => Ensuring(g, call)
  }

  function Step(setup: Setup, s: State, m: Move): State
    requires Enabled(setup, s, m)
  {
    match m
    case Enter(i) => if s.updating then s else Goto(s, i, FirstPhase(setup)).(updating := true)
    case LoadSpecs(i, raw) =>
      Goto(s, i, if raw.Some? then Generating(DeduplicateOf(raw.value, setup.hash12)) else OnFailure(setup))
    case Generate(i, r) => Goto(s, i, if r.Ok? then AwaitingLock(r.generated) else OnFailure(setup))
    case TakeLock(i) =>
      var g := s.phases[i].g;
      Goto(s, i, Ensuring(g, XI.Call(g.config, g.hash, XI.Deciding))).(lock := Some(i))
    case EnsureOn(i, ok) =>
      var (inst, call) := XI.EnsureStep(s.inst, s.phases[i].call, ok);
      Goto(s, i, AfterEnsureStep(setup, s.phases[i].g, call))
        .(inst := inst, lock := if call.at.Returned? then None else s.lock)
    case FetchMetrics(i, health, at) =>
      Goto(s, i, if health.Some? then Publishing(XrayEntries(s.phases[i].g.included, health.value, setup.options, at))
                 else OnFailure(setup))
    case LoadAddresses(i, urls, sources) =>
      var addrs := AddressesOf(urls, sources);
      Goto(s, i, if addrs.Some? then Checking(addrs.value) else Leaving)
    case CheckAll(i, results, at) => Goto(s, i, Publishing(LegacyEntries(results, at)))
    case Publish(i) => Goto(s, i, Leaving).(pool := Published(s.pool, s.phases[i].entries))
    case Leave(i) => Goto(s, i, Outside).(updating := false)
    case OnPool(op) => s.(pool := ProxyPool.Apply(s.pool, op))
    case StopXray => s.(inst := XI.StopOf(s.inst))
    case Crash(p) => s.(inst := XI.CrashOf(s.inst, p))
  }

  // --- the invariant ------------------------------------------------------------------------------------

  /** The flag is set exactly while a caller is inside, and at most one is. */
  predicate Exclusive(s: State) {
    && (forall i, j :: 0 <= i < |s.phases| && 0 <= j < |s.phases| && Inside(s.phases[i]) && Inside(s.phases[j]) ==> i == j)
    && (s.updating <==> exists i :: 0 <= i < |s.phases| && Inside(s.phases[i]))
  }

  /** The caller holding the mutex is the one in the middle of Ensure. */
  predicate Locked(s: State) {
    forall i :: 0 <= i < |s.phases| ==> (s.phases[i].Ensuring? <==> s.lock == Some(i))
  }

  ghost predicate Managed(s: State) {
    && XI.OnlyProc(s.inst)
    && (s.lock.None? ==> XI.Settled(s.inst))
    && (s.lock.Some? ==> s.lock.value < |s.phases| && s.phases[s.lock.value].Ensuring?
                         && !s.phases[s.lock.value].call.at.Returned?
                         && XI.Underway(s.inst, s.phases[s.lock.value].call))
  }

  /** Processes are started with a configuration and its own hash. */
  predicate Honest(setup: Setup, s: State) {
    forall p :: 0 <= p < |s.inst.started| ==> s.inst.started[p].hash == setup.digest(s.inst.started[p].config)
  }

  predicate UsableResult(setup: Setup, g: Generated) {
    UsableIDs(g.included) && g.hash == setup.digest(g.config)
  }

  /** What a caller carries from one step to the next. */
  predicate Carries(setup: Setup, p: Phase) {
    match p
    case Generating(specs) => Ready(specs, setup.hash12)
    case AwaitingLock(g) => UsableResult(setup, g)
    case Ensuring(g, call) => UsableResult(setup, g) && call.config == g.config && call.hash == g.hash
    case Fetching(g) => UsableResult(setup, g)
    case Checking(proxies) => Distinct(proxies) && proxies != []
    case Publishing(entries) => ProxyPool.DistinctKeys(entries)
    case _ => true
  }

  predicate AllCarry(setup: Setup, s: State) {
    forall i :: 0 <= i < |s.phases| ==> Carries(setup, s.phases[i])
  }

  ghost predicate Inv(setup: Setup, s: State) {
    && Exclusive(s) && Locked(s) && Managed(s) && Honest(setup, s) && AllCarry(setup, s)
    && ProxyPool.DistinctKeys(s.pool.entries)
  }

  // --- every step keeps it ------------------------------------------------------------------------------

  /** A caller inside moves on, inside and outside the mutex section alike. */
  lemma GotoKeepsExclusive(s: State, i: nat, p: Phase)
    requires Exclusive(s) && i < |s.phases| && Inside(s.phases[i]) && Inside(p)
    ensures Exclusive(Goto(s, i, p))
  {
    assert Inside(Goto(s, i, p).phases[i]);
  }

  lemma GotoKeepsInv(setup: Setup, s: State, i: nat, p: Phase)
    requires Inv(setup, s) && i < |s.phases| && Inside(s.phases[i]) && Inside(p)
    requires !s.phases[i].Ensuring? && !p.Ensuring? && Carries(setup, p)
    ensures Inv(setup, Goto(s, i, p))
  {
    GotoKeepsExclusive(s, i, p);
  }

  lemma EnterKeepsInv(setup: Setup, s: State, i: nat)
    requires Inv(setup, s) && Enabled(setup, s, Enter(i))
    ensures Inv(setup, Step(setup, s, Enter(i)))
  {
    if !s.updating {
      var t := Step(setup, s, Enter(i));
      forall j | 0 <= j < |t.phases| && j != i ensures !Inside(t.phases[j]) {
        assert !Inside(s.phases[j]);
      }
      assert Inside(t.phases[i]);
    }
  }

  lemma LeaveKeepsInv(setup: Setup, s: State, i: nat)
    requires Inv(setup, s) && Enabled(setup, s, Leave(i))
    ensures Inv(setup, Step(setup, s, Leave(i)))
  {
    var t := Step(setup, s, Leave(i));
    forall j | 0 <= j < |t.phases| ensures !Inside(t.phases[j]) {
      assert j != i ==> t.phases[j] == s.phases[j];
      assert Inside(s.phases[i]);
    }
  }

  lemma TakeLockKeepsInv(setup: Setup, s: State, i: nat)
    requires Inv(setup, s) && Enabled(setup, s, TakeLock(i))
    ensures Inv(setup, Step(setup, s, TakeLock(i)))
  {
    var g := s.phases[i].g;
    GotoKeepsExclusive(s, i, Ensuring(g, XI.Call(g.config, g.hash, XI.Deciding)));
  }

  lemma EnsureStepStaysHonest(setup: Setup, s: State, call: XI.Call<Config>, ok: bool)
    requires Honest(setup, s) && call.hash == setup.digest(call.config) && !call.at.Returned?
    ensures Honest(setup, s.(inst := XI.EnsureStep(s.inst, call, ok).0))
  {
  }

  lemma EnsureOnKeepsExclusive(setup: Setup, s: State, i: nat, ok: bool)
    requires Exclusive(s) && Locked(s) && Enabled(setup, s, EnsureOn(i, ok))
    ensures var t := Step(setup, s, EnsureOn(i, ok)); Exclusive(t) && Locked(t)
  {
    var next := XI.EnsureStep(s.inst, s.phases[i].call, ok).1;
    GotoKeepsExclusive(s, i, AfterEnsureStep(setup, s.phases[i].g, next));
    assert s.lock == Some(i);
  }

  lemma EnsureOnKeepsManaged(setup: Setup, s: State, i: nat, ok: bool)
    requires Locked(s) && Managed(s) && Enabled(setup, s, EnsureOn(i, ok))
    ensures Managed(Step(setup, s, EnsureOn(i, ok)))
  {
    assert s.lock == Some(i);
    XI.StepKeeps(s.inst, s.phases[i].call, ok);
  }

  lemma EnsureOnKeepsCarrying(setup: Setup, s: State, i: nat, ok: bool)
    requires AllCarry(setup, s) && Honest(setup, s) && Enabled(setup, s, EnsureOn(i, ok))
    ensures var t := Step(setup, s, EnsureOn(i, ok)); AllCarry(setup, t) && Honest(setup, t)
  {
    var call := s.phases[i].call;
    assert Carries(setup, s.phases[i]);
    EnsureStepStaysHonest(setup, s, call, ok);
    var next := XI.EnsureStep(s.inst, call, ok).1;
    assert next.config == call.config && next.hash == call.hash;
  }

  lemma EnsureOnKeepsInv(setup: Setup, s: State, i: nat, ok: bool)
    requires Inv(setup, s) && Enabled(setup, s, EnsureOn(i, ok))
    ensures Inv(setup, Step(setup, s, EnsureOn(i, ok)))
  {
    EnsureOnKeepsExclusive(setup, s, i, ok);
    EnsureOnKeepsManaged(setup, s, i, ok);
    EnsureOnKeepsCarrying(setup, s, i, ok);
  }

  lemma OutsidersKeepInv(setup: Setup, s: State, m: Move)
    requires Inv(setup, s) && Enabled(setup, s, m) && (m.OnPool? || m.StopXray? || m.Crash?)
    ensures Inv(setup, Step(setup, s, m))
  {
    match m
    case OnPool(op) => PoolOpKeepsKeys(s.pool, op);
    case StopXray => XI.StopKeeps(s.inst);
    case Crash(p) => XI.CrashKeeps(s.inst, p);
  }

  lemma PoolOpKeepsKeys(pool: ProxyPool.State, op: ProxyPool.Op)
    requires !op.Update? && ProxyPool.DistinctKeys(pool.entries)
    ensures ProxyPool.DistinctKeys(ProxyPool.Apply(pool, op).entries)
  {
    RoundRobinLaws.ApplyKeepsKeys(pool, op);
    ProxyPool.SameKeysDistinct(pool.entries, ProxyPool.Apply(pool, op).entries);
  }

  lemma PublishKeepsInv(setup: Setup, s: State, i: nat)
    requires Inv(setup, s) && Enabled(setup, s, Publish(i))
    ensures Inv(setup, Step(setup, s, Publish(i)))
  {
    GotoKeepsInv(setup, s, i, Leaving);
  }

  /** What the moves between two such phases hand on is fit to be carried. */
  lemma NextIsFit(setup: Setup, s: State, m: Move) returns (p: Phase)
    requires Inv(setup, s) && Enabled(setup, s, m)
    requires m.LoadSpecs? || m.Generate? || m.FetchMetrics? || m.LoadAddresses? || m.CheckAll?
    ensures Step(setup, s, m) == Goto(s, m.i, p) && Inside(p) && !p.Ensuring? && Carries(setup, p)
  {
    p := Step(setup, s, m).phases[m.i];
    assert Carries(setup, s.phases[m.i]);
    match m {
      case LoadSpecs(i, raw) =>
        if raw.Some? {
          DeduplicatedSpecsAreRoutable(raw.value, setup.hash12);
        }
      case Generate(i, r) =>
        if r.Ok? {
          GeneratedIsUsable(s.phases[i].specs, setup.options, setup.hash12, setup.digest, r.generated);
        }
      case FetchMetrics(i, health, at) =>
        if health.Some? {
          XrayEntriesKeys(s.phases[i].g.included, health.value, setup.options, at);
        }
      case LoadAddresses(i, urls, sources) =>
        if AddressesOf(urls, sources).Some? {
          LoadedAddressesDistinct(urls, sources);
        }
      case CheckAll(i, results, at) =>
        LegacyEntriesKeys(results, at);
    }
  }

  lemma StepKeepsInv(setup: Setup, s: State, m: Move)
    requires Inv(setup, s) && Enabled(setup, s, m)
    ensures Inv(setup, Step(setup, s, m))
  {
    match m
    case Enter(i) => EnterKeepsInv(setup, s, i);
    case TakeLock(i) => TakeLockKeepsInv(setup, s, i);
    case EnsureOn(i, ok) => EnsureOnKeepsInv(setup, s, i, ok);
    case Publish(i) => PublishKeepsInv(setup, s, i);
    case Leave(i) => LeaveKeepsInv(setup, s, i);
    case OnPool(_) => OutsidersKeepInv(setup, s, m);
    case StopXray => OutsidersKeepInv(setup, s, m);
    case Crash(_) => OutsidersKeepInv(setup, s, m);
    case _ =>
      var p := NextIsFit(setup, s, m);
      GotoKeepsInv(setup, s, m.i, p);
  }

  // --- runs -----------------------------------------------------------------------------------------------

  ghost predicate IsRun(setup: Setup, states: seq<State>, moves: seq<Move>) {
    && |states| == |moves| + 1 && states[0] == Initial(|states[0].phases|)
    && forall t :: 0 <= t < |moves| ==>
         Enabled(setup, states[t], moves[t]) && states[t + 1] == Step(setup, states[t], moves[t])
  }

  lemma {:induction false} RunInv(setup: Setup, states: seq<State>, moves: seq<Move>, t: nat)
    requires IsRun(setup, states, moves) && t <= |moves|
    ensures Inv(setup, states[t])
  {
    if t > 0 {
      RunInv(setup, states, moves, t - 1);
      StepKeepsInv(setup, states[t - 1], moves[t - 1]);
    }
  }

  /** At every moment of every run at most one caller is inside an update, and the flag says whether one is. */
  lemma AtMostOneUpdate(setup: Setup, states: seq<State>, moves: seq<Move>, t: nat, i: nat, j: nat)
    requires IsRun(setup, states, moves) && t <= |moves|
    requires i < |states[t].phases| && j < |states[t].phases|
    requires Inside(states[t].phases[i]) && Inside(states[t].phases[j])
    ensures i == j && states[t].updating
  {
    RunInv(setup, states, moves, t);
  }

  /** A step never empties the pool. */
  lemma StepKeepsPoolFilled(setup: Setup, s: State, m: Move)
    requires Enabled(setup, s, m) && s.pool.entries != []
    ensures Step(setup, s, m).pool.entries != []
  {
    if m.OnPool? {
      RoundRobinLaws.ApplyKeepsKeys(s.pool, m.op);
      assert |ProxyPool.Keys(s.pool.entries)| == |s.pool.entries|;
    }
  }

  /** Once the pool has entries it never becomes empty again, whatever fails. */
  lemma {:induction false} NeverEmptiedAgain(setup: Setup, states: seq<State>, moves: seq<Move>, t: nat, u: nat)
    requires IsRun(setup, states, moves) && t <= u <= |moves| && states[t].pool.entries != []
    ensures states[u].pool.entries != []
    decreases u
  {
    if u > t {
      NeverEmptiedAgain(setup, states, moves, t, u - 1);
      StepKeepsPoolFilled(setup, states[u - 1], moves[u - 1]);
    }
  }

  /** At every moment at most one xray process runs. */
  lemma AtMostOneProcess(setup: Setup, states: seq<State>, moves: seq<Move>, t: nat)
    requires IsRun(setup, states, moves) && t <= |moves|
    ensures |states[t].inst.live| <= 1
  {
    RunInv(setup, states, moves, t);
    XI.AtMostOneLive(states[t].inst);
  }

  /** While nobody is in Ensure, a remembered process was started with the configuration lastHash is the hash of. */
  lemma RememberedProcessMatchesHash(setup: Setup, states: seq<State>, moves: seq<Move>, t: nat)
    requires IsRun(setup, states, moves) && t <= |moves|
    requires states[t].lock.None? && states[t].inst.proc.Some?
    ensures var inst := states[t].inst;
            inst.proc.value < |inst.started| && setup.digest(inst.started[inst.proc.value].config) == inst.lastHash
  {
    RunInv(setup, states, moves, t);
  }

  /** In every reachable pool the index and the positions are in one-to-one correspondence. */
  lemma ReachableIndexIsBijection(setup: Setup, states: seq<State>, moves: seq<Move>, t: nat, k: nat)
    requires IsRun(setup, states, moves) && t <= |moves| && k < |states[t].pool.entries|
    ensures ProxyPool.DistinctKeys(states[t].pool.entries)
    ensures ProxyPool.LastIndex(states[t].pool.entries, states[t].pool.entries[k].Key()) == k
  {
    RunInv(setup, states, moves, t);
    BackoffLaws.IndexIsBijection(states[t].pool.entries, k);
  }

  // --- every update ends ------------------------------------------------------------------------------------

  /** A bound on the steps a caller can still take before it is outside again. */
  function Rank(p: Phase): nat {
    match p
    case Outside => 0
    case Loading => 13
    case Generating(_) => 12
    case AwaitingLock(_) => 11
    case Ensuring(_, call) => 5 + XI.StepsToReturn(call.at)
    case Fetching(_) => 5
    case LoadingAddresses => 4
    case Checking(_) => 3
    case Publishing(_) => 2
    case Leaving => 1
  }

  predicate MoveOf(m: Move, i: nat) {
    !m.OnPool? && !m.StopXray? && !m.Crash? && m.i == i
  }

  lemma EnsureOnLowersRank(setup: Setup, s: State, i: nat, ok: bool)
    requires Enabled(setup, s, EnsureOn(i, ok))
    ensures Rank(Step(setup, s, EnsureOn(i, ok)).phases[i]) < Rank(s.phases[i])
  {
  }

  lemma OwnStepLowersRank(setup: Setup, s: State, m: Move, i: nat)
    requires Enabled(setup, s, m) && i < |s.phases| && Inside(s.phases[i]) && MoveOf(m, i)
    ensures i < |Step(setup, s, m).phases| && Rank(Step(setup, s, m).phases[i]) < Rank(s.phases[i])
  {
    if m.EnsureOn? {
      EnsureOnLowersRank(setup, s, i, m.ok);
    }
  }

  lemma OthersLeavePhase(setup: Setup, s: State, m: Move, i: nat)
    requires Enabled(setup, s, m) && i < |s.phases| && !MoveOf(m, i)
    ensures i < |Step(setup, s, m).phases| && Step(setup, s, m).phases[i] == s.phases[i]
  {
  }

  /** A step of a caller inside brings it nearer to its end; steps of others leave it where it is. */
  lemma StepsLowerRank(setup: Setup, s: State, t: State, m: Move, i: nat)
    requires Enabled(setup, s, m) && t == Step(setup, s, m) && i < |s.phases| && Inside(s.phases[i])
    ensures i < |t.phases|
    ensures if MoveOf(m, i) then Rank(t.phases[i]) < Rank(s.phases[i]) else t.phases[i] == s.phases[i]
  {
    if MoveOf(m, i) {
      OwnStepLowersRank(setup, s, m, i);
    } else {
      OthersLeavePhase(setup, s, m, i);
    }
  }

  /** A caller inside is never blocked: no other caller can hold the mutex. */
  lemma InsideCanMove(setup: Setup, s: State, i: nat) returns (m: Move)
    requires Inv(setup, s) && i < |s.phases| && Inside(s.phases[i])
    ensures MoveOf(m, i) && Enabled(setup, s, m)
  {
    match s.phases[i]
    case Loading => m := LoadSpecs(i, None);
    case Generating(specs) =>
      var r := SomeResult(setup, specs);
      m := Generate(i, r);
    case AwaitingLock(_) =>
      NobodyHoldsLock(setup, s, i);
      m := TakeLock(i);
    case Ensuring(_, _) =>
      assert s.lock == Some(i);
      m := EnsureOn(i, true);
    case Fetching(_) => m := FetchMetrics(i, None, 0);
    case LoadingAddresses => m := LoadAddresses(i, Failed, Failed);
    case Checking(_) => m := CheckAll(i, [], 0);
    case Publishing(_) => m := Publish(i);
    case Leaving => m := Leave(i);
  }

  lemma NobodyHoldsLock(setup: Setup, s: State, i: nat)
    requires Inv(setup, s) && i < |s.phases| && Inside(s.phases[i]) && !s.phases[i].Ensuring?
    ensures s.lock.None?
  {
    if s.lock.Some? {
      assert Inside(s.phases[s.lock.value]);
    }
  }

  /** Generate always has a result. */
  lemma SomeResult(setup: Setup, specs: seq<Spec>) returns (r: Result)
    requires AllIdentifiable(specs)
    ensures Generates(specs, setup.options, setup.hash12, setup.digest, r)
  {
    r := AnyResult(specs, setup.options, setup.hash12, setup.digest);
  }

  /** Moves of caller i among the first moves from t to u. */
  function OwnMoves(moves: seq<Move>, t: nat, u: nat, i: nat): nat
    requires t <= u <= |moves|
  {
    if t == u then 0 else OwnMoves(moves, t, u - 1, i) + (if MoveOf(moves[u - 1], i) then 1 else 0)
  }

  lemma RunLowersRank(setup: Setup, states: seq<State>, moves: seq<Move>, u: nat, i: nat)
    requires IsRun(setup, states, moves) && u < |moves| && i < |states[u].phases| && Inside(states[u].phases[i])
    ensures i < |states[u + 1].phases|
    ensures Rank(states[u + 1].phases[i]) + (if MoveOf(moves[u], i) then 1 else 0) <= Rank(states[u].phases[i])
  {
    StepsLowerRank(setup, states[u], states[u + 1], moves[u], i);
  }

  function RankAt(states: seq<State>, i: nat): seq<nat> {
    seq(|states|, v requires 0 <= v < |states| => if i < |states[v].phases| then Rank(states[v].phases[i]) else 0)
  }

  /** What every own move lowers, and no other move raises, bounds the number of own moves. */
  lemma {:induction false} OwnMovesBounded(moves: seq<Move>, ranks: seq<nat>, t: nat, u: nat, i: nat)
    requires t <= u <= |moves| && |ranks| == |moves| + 1
    requires forall v :: t <= v < u ==> ranks[v + 1] + (if MoveOf(moves[v], i) then 1 else 0) <= ranks[v]
    ensures OwnMoves(moves, t, u, i) + ranks[u] <= ranks[t]
    decreases u
  {
    if u > t {
      OwnMovesBounded(moves, ranks, t, u - 1, i);
      assert ranks[u - 1 + 1] == ranks[u];
    }
  }

  /** An update takes at most thirteen steps of its caller, however many steps others take in between. */
  lemma UpdateTakesThirteenSteps(setup: Setup, states: seq<State>, moves: seq<Move>, t: nat, u: nat, i: nat)
    requires IsRun(setup, states, moves) && t <= u <= |moves|
    requires forall v :: t <= v <= u ==> i < |states[v].phases| && Inside(states[v].phases[i])
    ensures OwnMoves(moves, t, u, i) + Rank(states[u].phases[i]) <= Rank(states[t].phases[i]) <= 13
  {
    var ranks := RankAt(states, i);
    RankBounded(states[t].phases[i]);
    forall v | t <= v < u ensures ranks[v + 1] + (if MoveOf(moves[v], i) then 1 else 0) <= ranks[v] {
      RunLowersRank(setup, states, moves, v, i);
    }
    OwnMovesBounded(moves, ranks, t, u, i);
  }

  lemma RankBounded(p: Phase)
    ensures Rank(p) <= 13
  {
  }
}
