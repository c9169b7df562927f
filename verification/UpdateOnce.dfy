/** One update as the updater runs it, and its place among the interleaved updates. */
module UpdateOnce {
  import opened Base
  import opened NodeSpec
  import opened XrayConfig
  import opened XrayConfigLaws
  import opened UpdateData
  import opened UpdaterRuns
  import FanOut
  import ProxyPool
  import Sorting
  import XI = XrayInstance

  /** One round of health checks: which proxies answer, how soon, and how the goroutines' steps ended up. */
  datatype CheckRound = CheckRound(alive: seq<bool>, concurrency: nat, latency: nat -> int, final: FanOut.State)

  /** Everything the outside world decides during one update. */
  datatype Input = Input(
    sources: Load<Sourced>, urls: Load<seq<string>>,
    luck: XI.Luck, health: Option<map<string, Health>>,
    legacyURLs: Load<seq<string>>, legacySources: Load<seq<string>>, checks: seq<string> -> CheckRound,
    split: string -> Option<(string, int)>, at: int)

  /** What an update decides: entries to publish (None after a failure), and the state of the xray manager. */
  datatype Plan = Plan(entries: Option<seq<Entry>>, inst: XI.State<Config>)

  function JobOf(input: Input, proxies: seq<string>): FanOut.Job {
    FanOut.Job(proxies, input.checks(proxies).alive, input.checks(proxies).concurrency)
  }

  /** What the closed result channel yields. */
  function CheckedBy(input: Input, proxies: seq<string>): seq<Checked> {
    ResultsOf(JobOf(input, proxies), input.checks(proxies).final.drained, input.checks(proxies).latency)
  }

  /** The checks of the loaded proxies ran to their end, in whatever order the goroutines took their steps. */
  predicate ChecksFinished(input: Input) {
    var addrs := AddressesOf(input.legacyURLs, input.legacySources);
    addrs.Some? ==>
      var final := input.checks(addrs.value).final;
      FanOut.Inv(JobOf(input, addrs.value), final) && final.main.Finished?
  }

  /** The proxies that are there and answer. */
  function LiveProxies(input: Input): set<string>
    requires ChecksFinished(input)
  {
    var addrs := AddressesOf(input.legacyURLs, input.legacySources);
    if addrs.Some? then FanOut.LiveAddresses(JobOf(input, addrs.value)) else {}
  }

  lemma CheckedAreLive(input: Input, proxies: seq<string>)
    requires ChecksFinished(input) && AddressesOf(input.legacyURLs, input.legacySources) == Some(proxies)
    ensures PossibleResults(proxies, CheckedBy(input, proxies))
    ensures var es := LegacyEntries(CheckedBy(input, proxies), input.at);
            ProxyPool.DistinctKeys(es) && KeySet(es) == LiveProxies(input) && (es == [] <==> LiveProxies(input) == {})
  {
    var c := input.checks(proxies);
    FanOutEntries(JobOf(input, proxies), c.final, c.latency, input.at);
    var es := LegacyEntries(CheckedBy(input, proxies), input.at);
    if es != [] {
      assert es[0].Key() in KeySet(es);
    }
  }

  function LegacyPlan(inst: XI.State<Config>, input: Input): Plan {
    var addrs := AddressesOf(input.legacyURLs, input.legacySources);
    Plan(if addrs.Some? then Some(LegacyEntries(CheckedBy(input, addrs.value), input.at)) else None, inst)
  }

  function FailurePlan(setup: Setup, inst: XI.State<Config>, input: Input): Plan {
    if setup.fallback then LegacyPlan(inst, input) else Plan(None, inst)
  }

  /** The result of Generate on specs with distinct identifiers (GenerateForgetsOrder). */
  function GeneratedFrom(setup: Setup, specs: seq<Spec>): (r: Result)
    requires AllIdentifiable(specs)
    ensures Generates(specs, setup.options, setup.hash12, setup.digest, r)
  {
    var all := IdentifiedAll(specs, setup.hash12);
    var sorted := Sorting.Sort(Chosen(all), IDOf());
    Sorting.SortSorts(Chosen(all), IDOf());
    SortSupported(sorted, all);
    ResultOf(all, sorted, setup.options, setup.digest)
  }

  function XrayPlan(setup: Setup, inst: XI.State<Config>, input: Input): Plan
    requires WellSourced(input.sources)
  {
    var specs := UpstreamSpecs(input.sources, input.urls, input.split, setup.hash12);
    if specs.None? then FailurePlan(setup, inst, input)
    else
      LoadedSpecsReady(input.sources, input.urls, input.split, setup.hash12);
      var r := GeneratedFrom(setup, specs.value);
      if r.Err? then FailurePlan(setup, inst, input) else RunningPlan(setup, inst, r.generated, input)
  }

  /** From a generated configuration on. */
  function RunningPlan(setup: Setup, inst: XI.State<Config>, g: Generated, input: Input): Plan {
    var (up, ok) := XI.EnsureOf(inst, g.config, g.hash, input.luck);
    EnsuredPlan(setup, up, ok, g, input)
  }

  /** From the return of Ensure on. */
  function EnsuredPlan(setup: Setup, up: XI.State<Config>, ok: bool, g: Generated, input: Input): Plan {
    if !ok || input.health.None? then FailurePlan(setup, up, input)
    else Plan(Some(XrayEntries(g.included, input.health.value, setup.options, input.at)), up)
  }

  function PlanOf(setup: Setup, inst: XI.State<Config>, input: Input): Plan
    requires WellSourced(input.sources)
  {
    if setup.xray then XrayPlan(setup, inst, input) else LegacyPlan(inst, input)
  }

  function PoolAfter(pool: ProxyPool.State, plan: Plan): ProxyPool.State {
    if plan.entries.Some? then Published(pool, plan.entries.value) else pool
  }

  // --- what an update leaves in the pool ---------------------------------------------------------------------

  /** The pool holds exactly these keys, each once, and round robin starts over; with none it is as it was. */
  predicate Filled(before: ProxyPool.State, after: ProxyPool.State, keys: set<string>) {
    if keys == {} then after == before
    else KeySet(after.entries) == keys && ProxyPool.DistinctKeys(after.entries) && after.rr == 0
  }

  /** The generated configuration that is up and running with its health known, if it comes to that. */
  function UpAndRunning(setup: Setup, inst: XI.State<Config>, input: Input): (g: Option<Generated>)
    requires WellSourced(input.sources)
    ensures g.Some? ==> UsableIDs(g.value.included)
  {
    var specs := UpstreamSpecs(input.sources, input.urls, input.split, setup.hash12);
    if specs.None? then None
    else
      LoadedSpecsReady(input.sources, input.urls, input.split, setup.hash12);
      var r := GeneratedFrom(setup, specs.value);
      if r.Err? || !XI.EnsureOf(inst, r.generated.config, r.generated.hash, input.luck).1 || input.health.None? then None
      else
        GeneratedIsUsable(specs.value, setup.options, setup.hash12, setup.digest, r.generated);
        Some(r.generated)
  }

  lemma PublishedFills(pool: ProxyPool.State, es: seq<Entry>, keys: set<string>)
    requires KeySet(es) == keys && ProxyPool.DistinctKeys(es)
    ensures Filled(pool, Published(pool, es), keys)
  {
    if es != [] {
      assert es[0].Key() in KeySet(es);
    }
  }

  lemma LegacyFills(pool: ProxyPool.State, inst: XI.State<Config>, input: Input)
    requires ChecksFinished(input)
    ensures Filled(pool, PoolAfter(pool, LegacyPlan(inst, input)), LiveProxies(input))
  {
    var addrs := AddressesOf(input.legacyURLs, input.legacySources);
    if addrs.Some? {
      CheckedAreLive(input, addrs.value);
      PublishedFills(pool, LegacyEntries(CheckedBy(input, addrs.value), input.at), LiveProxies(input));
    }
  }

  lemma NodesFill(setup: Setup, pool: ProxyPool.State, up: XI.State<Config>, g: Generated, input: Input)
    requires UsableIDs(g.included) && input.health.Some?
    ensures Filled(pool, PoolAfter(pool, EnsuredPlan(setup, up, true, g, input)), AliveIncluded(g.included, input.health.value))
  {
    XrayEntriesKeys(g.included, input.health.value, setup.options, input.at);
    PublishedFills(pool, XrayEntries(g.included, input.health.value, setup.options, input.at),
                   AliveIncluded(g.included, input.health.value));
  }

  lemma FailureFills(setup: Setup, pool: ProxyPool.State, inst: XI.State<Config>, input: Input)
    requires ChecksFinished(input)
    ensures var after := PoolAfter(pool, FailurePlan(setup, inst, input));
            if setup.fallback then Filled(pool, after, LiveProxies(input)) else after == pool
  {
    if setup.fallback {
      LegacyFills(pool, inst, input);
    }
  }

  /**
   * What an update leaves in the pool. With xray up and running: exactly the included nodes it reports
   * alive. Without xray, or when it fails and falling back is allowed: exactly the proxies that answer.
   * When it fails and falling back is not allowed, or there is nothing to put in: the pool as it was.
   */
  lemma UpdateFills(setup: Setup, pool: ProxyPool.State, inst: XI.State<Config>, input: Input)
    requires WellSourced(input.sources) && ChecksFinished(input)
    ensures var after, running := PoolAfter(pool, PlanOf(setup, inst, input)), UpAndRunning(setup, inst, input);
            && (setup.xray && running.Some? ==>
                  Filled(pool, after, set id | id in running.value.included && id in input.health.value && input.health.value[id].alive))
            && (!setup.xray || (running.None? && setup.fallback) ==> Filled(pool, after, LiveProxies(input)))
            && (setup.xray && running.None? && !setup.fallback ==> after == pool)
  {
    if !setup.xray {
      LegacyFills(pool, inst, input);
    } else {
      XrayFills(setup, pool, inst, input);
    }
  }

  lemma RunningFills(setup: Setup, pool: ProxyPool.State, inst: XI.State<Config>, g: Generated, input: Input)
    requires UsableIDs(g.included) && ChecksFinished(input)
    ensures var after := PoolAfter(pool, RunningPlan(setup, inst, g, input));
            if XI.EnsureOf(inst, g.config, g.hash, input.luck).1 && input.health.Some?
            then Filled(pool, after, AliveIncluded(g.included, input.health.value))
            else if setup.fallback then Filled(pool, after, LiveProxies(input))
            else after == pool
  {
    var (up, ok) := XI.EnsureOf(inst, g.config, g.hash, input.luck);
    FailureFills(setup, pool, up, input);
    if ok && input.health.Some? {
      NodesFill(setup, pool, up, g, input);
    }
  }

  /** An update with xray fails before there is a configuration, or goes on from it. */
  lemma XrayDecides(setup: Setup, inst: XI.State<Config>, input: Input) returns (g: Option<Generated>)
    requires WellSourced(input.sources)
    ensures g.None? ==> XrayPlan(setup, inst, input) == FailurePlan(setup, inst, input) && UpAndRunning(setup, inst, input).None?
    ensures g.Some? ==> UsableIDs(g.value.included) && XrayPlan(setup, inst, input) == RunningPlan(setup, inst, g.value, input)
    ensures g.Some? ==>
              UpAndRunning(setup, inst, input)
              == if XI.EnsureOf(inst, g.value.config, g.value.hash, input.luck).1 && input.health.Some? then g else None
  {
    g := None;
    var specs := UpstreamSpecs(input.sources, input.urls, input.split, setup.hash12);
    if specs.Some? {
      LoadedSpecsReady(input.sources, input.urls, input.split, setup.hash12);
      var r := GeneratedFrom(setup, specs.value);
      if r.Ok? {
        GeneratedIsUsable(specs.value, setup.options, setup.hash12, setup.digest, r.generated);
        g := Some(r.generated);
      }
    }
  }

  lemma XrayFills(setup: Setup, pool: ProxyPool.State, inst: XI.State<Config>, input: Input)
    requires WellSourced(input.sources) && ChecksFinished(input)
    ensures var after, running := PoolAfter(pool, XrayPlan(setup, inst, input)), UpAndRunning(setup, inst, input);
            if running.Some? then Filled(pool, after, AliveIncluded(running.value.included, input.health.value))
            else if setup.fallback then Filled(pool, after, LiveProxies(input))
            else after == pool
  {
    var g := XrayDecides(setup, inst, input);
    if g.None? {
      FailureFills(setup, pool, inst, input);
    } else {
      RunningFills(setup, pool, inst, g.value, input);
    }
  }

  /**
   * When xray is up and running: every load and the generation succeeded, the metrics answered, and the
   * manager ended up with the process of this configuration, as before or newly started and ready.
   */
  lemma UpAndRunningIff(setup: Setup, inst: XI.State<Config>, input: Input, specs: seq<Spec>)
    requires WellSourced(input.sources) && AllIdentifiable(specs)
    requires UpstreamSpecs(input.sources, input.urls, input.split, setup.hash12) == Some(specs)
    ensures UpAndRunning(setup, inst, input).Some? <==>
              && Generable(specs, setup.options, setup.hash12) && input.health.Some?
              && (KnownHash(setup, inst, specs) || (input.luck.mkdir && input.luck.write && input.luck.start && input.luck.ready))
  {
    var r := GeneratedFrom(setup, specs);
    GenerateSucceedsIff(specs, setup.options, setup.hash12, setup.digest, r);
    if r.Ok? {
      XI.EnsureSucceedsIff(inst, r.generated.config, r.generated.hash, input.luck);
    }
  }

  /** The manager remembers a process for the very configuration that these specs give. */
  predicate KnownHash(setup: Setup, inst: XI.State<Config>, specs: seq<Spec>)
    requires AllIdentifiable(specs)
  {
    var r := GeneratedFrom(setup, specs);
    r.Ok? && inst.proc.Some? && inst.lastHash == r.generated.hash
  }

  // --- the updater as an object ---------------------------------------------------------------------------

  class Updater {
    const setup: Setup
    const pool: ProxyPool.Pool
    const xray: XI.Instance<Config>

    constructor (setup: Setup, pool: ProxyPool.Pool, xray: XI.Instance<Config>)
      ensures this.setup == setup && this.pool == pool && this.xray == xray
    {
      this.setup, this.pool, this.xray := setup, pool, xray;
    }

    /** Only a non-empty list replaces the pool. */
    method Replace(entries: seq<Entry>)
      requires pool.Valid()
      modifies pool`entries, pool`index, pool`rr
      ensures pool.Valid() && pool.Value() == Published(old(pool.Value()), entries)
    {
      if |entries| > 0 {
        var es := new Entry[|entries|](i requires 0 <= i < |entries| => entries[i]);
        assert es[..] == entries;
        pool.Update(es);
      }
    }

    /** Publishes exactly the proxies that answer; with none, or none loaded, the pool stays as it is. */
    method RunOnceLegacy(input: Input)
      requires pool.Valid() && ChecksFinished(input)
      modifies pool`entries, pool`index, pool`rr
      ensures pool.Valid()
      ensures pool.Value() == PoolAfter(old(pool.Value()), LegacyPlan(xray.Now(), input))
      ensures if LiveProxies(input) == {} then pool.Value() == old(pool.Value())
              else KeySet(pool.entries[..]) == LiveProxies(input) && ProxyPool.DistinctKeys(pool.entries[..])
    {
      var proxies := LoadSOCKS5Upstreams(input.legacyURLs, input.legacySources);
      if proxies.None? {
        return;
      }
      CheckedAreLive(input, proxies.value);
      var entries := DrainResults(CheckedBy(input, proxies.value), input.at);
      Replace(entries);
    }

    method FallBack(input: Input)
      requires pool.Valid() && ChecksFinished(input)
      modifies pool`entries, pool`index, pool`rr
      ensures pool.Valid()
      ensures pool.Value() == PoolAfter(old(pool.Value()), FailurePlan(setup, xray.Now(), input))
    {
      if setup.fallback {
        RunOnceLegacy(input);
      }
    }

    method RunOnceXray(input: Input)
      requires pool.Valid() && WellSourced(input.sources) && ChecksFinished(input)
      modifies pool`entries, pool`index, pool`rr, xray, xray.machine
      ensures pool.Valid()
      ensures var plan := XrayPlan(setup, old(xray.Now()), input);
              xray.Now() == plan.inst && pool.Value() == PoolAfter(old(pool.Value()), plan)
      ensures var running := UpAndRunning(setup, old(xray.Now()), input);
              if running.Some?
              then Filled(old(pool.Value()), pool.Value(),
                          set id | id in running.value.included && id in input.health.value && input.health.value[id].alive)
              else if setup.fallback then Filled(old(pool.Value()), pool.Value(), LiveProxies(input))
              else pool.Value() == old(pool.Value())
    {
      XrayFills(setup, pool.Value(), xray.Now(), input);
      var specs := LoadUpstreamSpecs(input.sources, input.urls, input.split, setup.hash12);
      if specs.None? {
        FallBack(input);
        return;
      }
      LoadedSpecsReady(input.sources, input.urls, input.split, setup.hash12);
      var r := XrayConfig.Generate(specs.value, setup.options, setup.hash12, setup.digest);
      GenerateForgetsOrder(specs.value, specs.value, setup.options, setup.hash12, setup.digest, r, GeneratedFrom(setup, specs.value));
      if r.Err? {
        FallBack(input);
        return;
      }
      RunGenerated(r.generated, input);
    }

    method RunGenerated(g: Generated, input: Input)
      requires pool.Valid() && ChecksFinished(input)
      modifies pool`entries, pool`index, pool`rr, xray, xray.machine
      ensures pool.Valid()
      ensures var plan := RunningPlan(setup, old(xray.Now()), g, input);
              xray.Now() == plan.inst && pool.Value() == PoolAfter(old(pool.Value()), plan)
    {
      var ok := xray.Ensure(g.config, g.hash, input.luck);
      if !ok {
        FallBack(input);
        return;
      }
      if input.health.None? {
        FallBack(input);
        return;
      }
      var entries := BuildXrayEntries(g.included, input.health.value, setup.options, input.at);
      Replace(entries);
    }

    /** A second caller changes nothing; the first leaves the flag as it found it. */
    method RunOnce(input: Input)
      requires pool.Valid() && WellSourced(input.sources) && ChecksFinished(input)
      modifies pool, xray, xray.machine
      ensures pool.Valid() && pool.updating == old(pool.updating)
      ensures old(pool.updating) ==> pool.Value() == old(pool.Value()) && xray.Now() == old(xray.Now())
      ensures !old(pool.updating) ==>
                var plan := PlanOf(setup, old(xray.Now()), input);
                xray.Now() == plan.inst && pool.Value() == PoolAfter(old(pool.Value()), plan)
    {
      var entered := pool.UpdatingCAS();
      if !entered {
        return;
      }
      if setup.xray {
        RunOnceXray(input);
      } else {
        RunOnceLegacy(input);
      }
      pool.UpdatingClear();
    }
  }

  // --- an undisturbed update is a run of the machine ------------------------------------------------------

  ghost predicate Reaches(setup: Setup, s: State, moves: seq<Move>, t: State)
    decreases |moves|
  {
    if moves == [] then s == t
    else Enabled(setup, s, moves[0]) && Reaches(setup, Step(setup, s, moves[0]), moves[1..], t)
  }

  lemma {:induction false} ReachesFurther(setup: Setup, s: State, a: seq<Move>, t: State, b: seq<Move>, u: State)
    requires Reaches(setup, s, a, t) && Reaches(setup, t, b, u)
    ensures Reaches(setup, s, a + b, u)
    decreases |a|
  {
    if a == [] {
      assert a + b == b;
    } else {
      ReachesFurther(setup, Step(setup, s, a[0]), a[1..], t, b, u);
      assert (a + b)[1..] == a[1..] + b;
    }
  }

  lemma ReachesOne(setup: Setup, s: State, m: Move)
    requires Enabled(setup, s, m)
    ensures Reaches(setup, s, [m], Step(setup, s, m))
  {
    assert [m][1..] == [];
  }

  /** One step after a path. */
  lemma ReachesThen(setup: Setup, s: State, a: seq<Move>, t: State, m: Move)
    requires Reaches(setup, s, a, t) && Enabled(setup, t, m)
    ensures Reaches(setup, s, a + [m], Step(setup, t, m))
  {
    ReachesOne(setup, t, m);
    ReachesFurther(setup, s, a, t, [m], Step(setup, t, m));
  }

  /** Caller i of s has entered and is at p; the others are where they were. */
  function During(s: State, i: nat, p: Phase, pool: ProxyPool.State, inst: XI.State<Config>, lock: Option<nat>): State
    requires i < |s.phases|
  {
    State(true, s.phases[i := p], pool, inst, lock)
  }

  lemma LegacyPath(setup: Setup, s: State, i: nat, inst: XI.State<Config>, input: Input) returns (moves: seq<Move>)
    requires i < |s.phases| && ChecksFinished(input)
    ensures Reaches(setup, During(s, i, LoadingAddresses, s.pool, inst, None), moves,
                    During(s, i, Leaving, PoolAfter(s.pool, LegacyPlan(inst, input)), inst, None))
  {
    var s0 := During(s, i, LoadingAddresses, s.pool, inst, None);
    var load := LoadAddresses(i, input.legacyURLs, input.legacySources);
    ReachesOne(setup, s0, load);
    moves := [load];
    var addrs := AddressesOf(input.legacyURLs, input.legacySources);
    if addrs.Some? {
      var results := CheckedBy(input, addrs.value);
      CheckedAreLive(input, addrs.value);
      var s1 := During(s, i, Checking(addrs.value), s.pool, inst, None);
      assert Step(setup, s0, load) == s1;
      ReachesThen(setup, s0, moves, s1, CheckAll(i, results, input.at));
      moves := moves + [CheckAll(i, results, input.at)];
      var s2 := During(s, i, Publishing(LegacyEntries(results, input.at)), s.pool, inst, None);
      assert Step(setup, s1, CheckAll(i, results, input.at)) == s2;
      PublishPath(setup, s, i, LegacyEntries(results, input.at), inst);
      ReachesThen(setup, s0, moves, s2, Publish(i));
      moves := moves + [Publish(i)];
    } else {
      assert Step(setup, s0, load) == During(s, i, Leaving, s.pool, inst, None);
    }
  }

  lemma PublishPath(setup: Setup, s: State, i: nat, entries: seq<Entry>, inst: XI.State<Config>)
    requires i < |s.phases|
    ensures Enabled(setup, During(s, i, Publishing(entries), s.pool, inst, None), Publish(i))
    ensures Step(setup, During(s, i, Publishing(entries), s.pool, inst, None), Publish(i))
         == During(s, i, Leaving, Published(s.pool, entries), inst, None)
  {
  }

  lemma FailurePath(setup: Setup, s: State, i: nat, inst: XI.State<Config>, input: Input) returns (moves: seq<Move>)
    requires i < |s.phases| && ChecksFinished(input)
    ensures Reaches(setup, During(s, i, OnFailure(setup), s.pool, inst, None), moves,
                    During(s, i, Leaving, PoolAfter(s.pool, FailurePlan(setup, inst, input)), inst, None))
  {
    if setup.fallback {
      moves := LegacyPath(setup, s, i, inst, input);
    } else {
      moves := [];
    }
  }

  /** The rest of a call to Ensure, step by step. */
  lemma {:induction false} EnsurePath(setup: Setup, s: State, i: nat, inst: XI.State<Config>, g: Generated, call: XI.Call<Config>,
                                      luck: XI.Luck) returns (moves: seq<Move>)
    requires i < |s.phases| && !call.at.Returned?
    ensures var (up, ok) := XI.Finish(inst, call, luck);
            Reaches(setup, During(s, i, Ensuring(g, call), s.pool, inst, Some(i)), moves,
                    During(s, i, if ok then Fetching(g) else OnFailure(setup), s.pool, up, None))
    decreases XI.StepsToReturn(call.at)
  {
    var ok := XI.OkAt(luck, call.at);
    var s0 := During(s, i, Ensuring(g, call), s.pool, inst, Some(i));
    var (next, after) := XI.EnsureStep(inst, call, ok);
    ReachesOne(setup, s0, EnsureOn(i, ok));
    EnsureStepDuring(setup, s, i, inst, g, call, ok);
    moves := [EnsureOn(i, ok)];
    if !after.at.Returned? {
      var rest := EnsurePath(setup, s, i, next, g, after, luck);
      var (up, done) := XI.Finish(next, after, luck);
      ReachesFurther(setup, s0, moves, Step(setup, s0, EnsureOn(i, ok)), rest,
                     During(s, i, if done then Fetching(g) else OnFailure(setup), s.pool, up, None));
      moves := moves + rest;
    }
  }

  lemma EnsureStepDuring(setup: Setup, s: State, i: nat, inst: XI.State<Config>, g: Generated, call: XI.Call<Config>, ok: bool)
    requires i < |s.phases| && !call.at.Returned?
    ensures var (next, after) := XI.EnsureStep(inst, call, ok);
            var s0 := During(s, i, Ensuring(g, call), s.pool, inst, Some(i));
            Enabled(setup, s0, EnsureOn(i, ok))
            && Step(setup, s0, EnsureOn(i, ok))
            == During(s, i, AfterEnsureStep(setup, g, after), s.pool, next, if after.at.Returned? then None else Some(i))
  {
    var s0 := During(s, i, Ensuring(g, call), s.pool, inst, Some(i));
    var (next, after) := XI.EnsureStep(inst, call, ok);
    assert s0.phases[i := AfterEnsureStep(setup, g, after)] == s.phases[i := AfterEnsureStep(setup, g, after)];
  }

  lemma EnsuredPath(setup: Setup, s: State, i: nat, up: XI.State<Config>, ok: bool, g: Generated, input: Input)
    returns (moves: seq<Move>)
    requires i < |s.phases| && ChecksFinished(input)
    ensures var plan := EnsuredPlan(setup, up, ok, g, input);
            Reaches(setup, During(s, i, if ok then Fetching(g) else OnFailure(setup), s.pool, up, None), moves,
                    During(s, i, Leaving, PoolAfter(s.pool, plan), up, None))
  {
    if !ok {
      moves := FailurePath(setup, s, i, up, input);
      return;
    }
    var s0 := During(s, i, Fetching(g), s.pool, up, None);
    var m := FetchMetrics(i, input.health, input.at);
    ReachesOne(setup, s0, m);
    if input.health.None? {
      var s1 := During(s, i, OnFailure(setup), s.pool, up, None);
      assert Step(setup, s0, m) == s1;
      var rest := FailurePath(setup, s, i, up, input);
      ReachesFurther(setup, s0, [m], s1, rest, During(s, i, Leaving, PoolAfter(s.pool, FailurePlan(setup, up, input)), up, None));
      moves := [m] + rest;
    } else {
      var entries := XrayEntries(g.included, input.health.value, setup.options, input.at);
      assert Step(setup, s0, m) == During(s, i, Publishing(entries), s.pool, up, None);
      PublishPath(setup, s, i, entries, up);
      ReachesThen(setup, s0, [m], Step(setup, s0, m), Publish(i));
      moves := [m] + [Publish(i)];
    }
  }

  lemma RunningPath(setup: Setup, s: State, i: nat, g: Generated, input: Input) returns (moves: seq<Move>)
    requires i < |s.phases| && ChecksFinished(input)
    ensures var plan := RunningPlan(setup, s.inst, g, input);
            Reaches(setup, During(s, i, AwaitingLock(g), s.pool, s.inst, None), moves,
                    During(s, i, Leaving, PoolAfter(s.pool, plan), plan.inst, None))
  {
    var call := XI.Call(g.config, g.hash, XI.Deciding);
    var s0 := During(s, i, AwaitingLock(g), s.pool, s.inst, None);
    var s1 := During(s, i, Ensuring(g, call), s.pool, s.inst, Some(i));
    assert Step(setup, s0, TakeLock(i)) == s1;
    ReachesOne(setup, s0, TakeLock(i));
    var ensuring := EnsurePath(setup, s, i, s.inst, g, call, input.luck);
    XI.StepsMakeEnsure(s.inst, g.config, g.hash, input.luck);
    var (up, ok) := XI.EnsureOf(s.inst, g.config, g.hash, input.luck);
    var s2 := During(s, i, if ok then Fetching(g) else OnFailure(setup), s.pool, up, None);
    ReachesFurther(setup, s0, [TakeLock(i)], s1, ensuring, s2);
    var rest := EnsuredPath(setup, s, i, up, ok, g, input);
    EnsuredKeepsInst(setup, up, ok, g, input);
    var plan := RunningPlan(setup, s.inst, g, input);
    ReachesFurther(setup, s0, [TakeLock(i)] + ensuring, s2, rest, During(s, i, Leaving, PoolAfter(s.pool, plan), up, None));
    moves := [TakeLock(i)] + ensuring + rest;
  }

  lemma EnsuredKeepsInst(setup: Setup, up: XI.State<Config>, ok: bool, g: Generated, input: Input)
    ensures EnsuredPlan(setup, up, ok, g, input).inst == up
  {
  }

  lemma LoadFailedPath(setup: Setup, s: State, i: nat, input: Input) returns (moves: seq<Move>)
    requires i < |s.phases| && ChecksFinished(input)
    ensures Reaches(setup, During(s, i, Loading, s.pool, s.inst, None), moves,
                    During(s, i, Leaving, PoolAfter(s.pool, FailurePlan(setup, s.inst, input)), s.inst, None))
  {
    var s0 := During(s, i, Loading, s.pool, s.inst, None);
    var failed := During(s, i, OnFailure(setup), s.pool, s.inst, None);
    ReachesOne(setup, s0, LoadSpecs(i, None));
    assert Step(setup, s0, LoadSpecs(i, None)) == failed;
    var rest := FailurePath(setup, s, i, s.inst, input);
    ReachesFurther(setup, s0, [LoadSpecs(i, None)], failed, rest,
                   During(s, i, Leaving, PoolAfter(s.pool, FailurePlan(setup, s.inst, input)), s.inst, None));
    moves := [LoadSpecs(i, None)] + rest;
  }

  lemma LoadedPath(setup: Setup, s: State, i: nat, raw: seq<Spec>, input: Input) returns (moves: seq<Move>)
    requires i < |s.phases| && ChecksFinished(input) && AllIdentifiable(raw) && NodeIDs(raw)
    requires AllIdentifiable(DeduplicateOf(raw, setup.hash12))
    ensures var r := GeneratedFrom(setup, DeduplicateOf(raw, setup.hash12));
            var plan := if r.Err? then FailurePlan(setup, s.inst, input) else RunningPlan(setup, s.inst, r.generated, input);
            Reaches(setup, During(s, i, Loading, s.pool, s.inst, None), moves,
                    During(s, i, Leaving, PoolAfter(s.pool, plan), plan.inst, None))
  {
    var specs := DeduplicateOf(raw, setup.hash12);
    var s0 := During(s, i, Loading, s.pool, s.inst, None);
    var s1 := During(s, i, Generating(specs), s.pool, s.inst, None);
    ReachesOne(setup, s0, LoadSpecs(i, Some(raw)));
    assert Step(setup, s0, LoadSpecs(i, Some(raw))) == s1;
    var rest := GeneratingPath(setup, s, i, specs, input);
    var r := GeneratedFrom(setup, specs);
    var plan := if r.Err? then FailurePlan(setup, s.inst, input) else RunningPlan(setup, s.inst, r.generated, input);
    ReachesFurther(setup, s0, [LoadSpecs(i, Some(raw))], s1, rest,
                   During(s, i, Leaving, PoolAfter(s.pool, plan), plan.inst, None));
    moves := [LoadSpecs(i, Some(raw))] + rest;
  }

  lemma XrayPath(setup: Setup, s: State, i: nat, input: Input) returns (moves: seq<Move>)
    requires i < |s.phases| && WellSourced(input.sources) && ChecksFinished(input)
    ensures var plan := XrayPlan(setup, s.inst, input);
            Reaches(setup, During(s, i, Loading, s.pool, s.inst, None), moves,
                    During(s, i, Leaving, PoolAfter(s.pool, plan), plan.inst, None))
  {
    var specs := UpstreamSpecs(input.sources, input.urls, input.split, setup.hash12);
    if specs.None? {
      FailureKeepsInst(setup, s.inst, input);
      moves := LoadFailedPath(setup, s, i, input);
    } else {
      LoadedSpecsReady(input.sources, input.urls, input.split, setup.hash12);
      FailureKeepsInst(setup, s.inst, input);
      moves := LoadedPath(setup, s, i, RawSpecs(input.sources, input.urls, input.split, setup.hash12), input);
    }
  }

  lemma FailureKeepsInst(setup: Setup, inst: XI.State<Config>, input: Input)
    ensures FailurePlan(setup, inst, input).inst == inst
  {
  }

  lemma GeneratingPath(setup: Setup, s: State, i: nat, specs: seq<Spec>, input: Input) returns (moves: seq<Move>)
    requires i < |s.phases| && AllIdentifiable(specs) && ChecksFinished(input)
    ensures var r := GeneratedFrom(setup, specs);
            var plan := if r.Err? then FailurePlan(setup, s.inst, input) else RunningPlan(setup, s.inst, r.generated, input);
            Reaches(setup, During(s, i, Generating(specs), s.pool, s.inst, None), moves,
                    During(s, i, Leaving, PoolAfter(s.pool, plan), plan.inst, None))
  {
    var s0 := During(s, i, Generating(specs), s.pool, s.inst, None);
    var r := GeneratedFrom(setup, specs);
    var m := Move.Generate(i, r);
    ReachesOne(setup, s0, m);
    var s1 := During(s, i, if r.Ok? then AwaitingLock(r.generated) else OnFailure(setup), s.pool, s.inst, None);
    assert Step(setup, s0, m) == s1;
    var rest: seq<Move>, plan: Plan;
    if r.Err? {
      rest := FailurePath(setup, s, i, s.inst, input);
      plan := FailurePlan(setup, s.inst, input);
    } else {
      rest := RunningPath(setup, s, i, r.generated, input);
      plan := RunningPlan(setup, s.inst, r.generated, input);
    }
    ReachesFurther(setup, s0, [m], s1, rest, During(s, i, Leaving, PoolAfter(s.pool, plan), plan.inst, None));
    moves := [m] + rest;
  }

  /**
   * What RunOnce does is what the machine does when one caller enters and leaves with nobody else
   * moving: the laws of all interleavings are laws of the method.
   */
  lemma UndisturbedUpdate(setup: Setup, s: State, i: nat, input: Input) returns (moves: seq<Move>)
    requires i < |s.phases| && s.phases[i].Outside? && !s.updating && s.lock.None?
    requires WellSourced(input.sources) && ChecksFinished(input)
    ensures var plan := PlanOf(setup, s.inst, input);
            Reaches(setup, s, moves, s.(pool := PoolAfter(s.pool, plan), inst := plan.inst))
  {
    var plan := PlanOf(setup, s.inst, input);
    var s0 := During(s, i, FirstPhase(setup), s.pool, s.inst, None);
    assert Step(setup, s, Enter(i)) == s0;
    ReachesOne(setup, s, Enter(i));
    var inner: seq<Move>;
    if setup.xray {
      inner := XrayPath(setup, s, i, input);
    } else {
      inner := LegacyPath(setup, s, i, s.inst, input);
    }
    var s1 := During(s, i, Leaving, PoolAfter(s.pool, plan), plan.inst, None);
    ReachesFurther(setup, s, [Enter(i)], s0, inner, s1);
    ReachesThen(setup, s, [Enter(i)] + inner, s1, Leave(i));
    assert Step(setup, s1, Leave(i)).phases == s.phases;
    moves := [Enter(i)] + inner + [Leave(i)];
  }
}
