/**
 * The health-check fan-out: one goroutine per proxy, a counting semaphore, a bounded result channel
 * and a wait group; the main goroutine spawns, waits, closes and drains. Every interleaving of the
 * goroutines' steps is a run of this machine.
 */
module FanOut {
  import opened Base
  import opened Dedup
  import opened Permutations

  // The outcome of each check is fixed by the outside world, not by the schedule.
  datatype Job = Job(proxies: seq<string>, alive: seq<bool>, concurrency: nat) {
    predicate Valid() {
      |alive| == |proxies| && concurrency > 0
    }
  }

  datatype Phase = Unspawned | Waiting | Checking | Sending | Releasing | Finishing | Done

  datatype Main = Spawning | Awaiting | Closing | Draining | Finished

  /** next is the worker to spawn; results and drained hold worker numbers, oldest first. */
  datatype State = State(main: Main, next: nat, phases: seq<Phase>, sem: nat, wg: nat,
                         results: seq<nat>, closed: bool, drained: seq<nat>)

  datatype Move =
    | Spawn | SpawnOver | WaitOver | CloseResults | Drain | DrainOver
    | Acquire(worker: nat) | Check(worker: nat) | Send(worker: nat) | Release(worker: nat) | Finish(worker: nat)

  function Initial(job: Job): State {
    State(Spawning, 0, seq(|job.proxies|, _ => Unspawned), 0, 0, [], false, [])
  }

  predicate At(s: State, i: nat, p: Phase) {
    i < |s.phases| && s.phases[i] == p
  }

  /** When a goroutine can take the step; a step that is not enabled blocks (or would panic). */
  predicate Enabled(job: Job, s: State, m: Move) {
    match m
    case Spawn => s.main.Spawning? && s.next < |s.phases|
    case SpawnOver => s.main.Spawning? && s.next == |s.phases|
    case WaitOver => s.main.Awaiting? && s.wg == 0
    case CloseResults => s.main.Closing? && !s.closed
    case Drain => s.main.Draining? && s.results != []
    case DrainOver => s.main.Draining? && s.results == [] && s.closed
    case Acquire(i) => At(s, i, Waiting) && s.sem < job.concurrency
    case Check(i) => At(s, i, Checking) && i < |job.alive|
    case Send(i) => At(s, i, Sending) && |s.results| < |job.proxies| && !s.closed
    case Release(i) => At(s, i, Releasing) && s.sem > 0
    case Finish(i) => At(s, i, Finishing) && s.wg > 0
  }

  function Step(job: Job, s: State, m: Move): State
    requires Enabled(job, s, m)
  {
    match m
    case Spawn => s.(next := s.next + 1, phases := s.phases[s.next := Waiting], wg := s.wg + 1)
    case SpawnOver => s.(main := Awaiting)
    case WaitOver => s.(main := Closing)
    case CloseResults => s.(main := Draining, closed := true)
    case Drain => s.(results := s.results[1..], drained := s.drained + [s.results[0]])
    case DrainOver => s.(main := Finished)
    case Acquire(i) => s.(phases := s.phases[i := Checking], sem := s.sem + 1)
    case Check(i) => s.(phases := s.phases[i := if job.alive[i] then Sending else Releasing])
    case Send(i) => s.(phases := s.phases[i := Releasing], results := s.results + [i])
    case Release(i) => s.(phases := s.phases[i := Finishing], sem := s.sem - 1)
    case Finish(i) => s.(phases := s.phases[i := Done], wg := s.wg - 1)
  }

  // --- sums over the workers ------------------------------------------------------------------------

  function Sum(phases: seq<Phase>, weight: Phase -> nat): nat {
    if phases == [] then 0 else Sum(phases[..|phases| - 1], weight) + weight(phases[|phases| - 1])
  }

  lemma {:induction false} SumUpdated(phases: seq<Phase>, weight: Phase -> nat, i: nat, p: Phase)
    requires i < |phases|
    ensures Sum(phases[i := p], weight) == Sum(phases, weight) - weight(phases[i]) + weight(p)
    ensures Sum(phases, weight) >= weight(phases[i])
  {
    var n := |phases| - 1;
    if i < n {
      SumUpdated(phases[..n], weight, i, p);
      assert phases[i := p][..n] == phases[..n][i := p];
    } else {
      assert phases[i := p][..n] == phases[..n];
    }
  }

  lemma {:induction false} SumPositive(phases: seq<Phase>, weight: Phase -> nat) returns (i: nat)
    requires Sum(phases, weight) > 0
    ensures i < |phases| && weight(phases[i]) > 0
  {
    var n := |phases| - 1;
    if weight(phases[n]) > 0 {
      i := n;
    } else {
      i := SumPositive(phases[..n], weight);
    }
  }

  lemma {:induction false} SumOfUnspawned(n: nat, weight: Phase -> nat)
    ensures Sum(seq(n, _ => Unspawned), weight) == n * weight(Unspawned)
  {
    if n > 0 {
      var all := seq(n, _ => Unspawned);
      assert all[..n - 1] == seq(n - 1, _ => Unspawned);
      SumOfUnspawned(n - 1, weight);
    }
  }

  /** A worker holds a semaphore slot from Acquire to Release. */
  function Holding(p: Phase): nat {
    if p.Checking? || p.Sending? || p.Releasing? then 1 else 0
  }

  function Running(p: Phase): nat {
    if p.Unspawned? || p.Done? then 0 else 1
  }

  function StepsLeft(p: Phase): nat {
    match p
    case Unspawned => 7
    case Waiting => 6
    case Checking => 5
    case Sending => 4
    case Releasing => 2
    case Finishing => 1
    case Done => 0
  }

  function MainLeft(m: Main): nat {
    match m
    case Spawning => 4
    case Awaiting => 3
    case Closing => 2
    case Draining => 1
    case Finished => 0
  }

  function Measure(s: State): nat {
    Sum(s.phases, StepsLeft) + |s.results| + MainLeft(s.main)
  }

  // --- the invariant ----------------------------------------------------------------------------------

  predicate PastSending(p: Phase) {
    p.Releasing? || p.Finishing? || p.Done?
  }

  /** Every live proxy whose worker got past sending is reported exactly once, and nothing else is. */
  predicate Reported(job: Job, phases: seq<Phase>, reports: seq<nat>)
    requires |phases| == |job.alive|
  {
    && Distinct(reports)
    && (forall i :: i in reports ==> i < |phases| && job.alive[i] && PastSending(phases[i]))
    && (forall i :: 0 <= i < |phases| && job.alive[i] && PastSending(phases[i]) ==> i in reports)
  }

  predicate Inv(job: Job, s: State) {
    && job.Valid() && |s.phases| == |job.proxies| && s.next <= |s.phases|
    && (forall i :: 0 <= i < |s.phases| ==> (s.phases[i].Unspawned? <==> i >= s.next))
    && (!s.main.Spawning? ==> s.next == |s.phases|)
    && s.sem == Sum(s.phases, Holding) && s.sem <= job.concurrency
    && s.wg == Sum(s.phases, Running)
    && (s.main.Closing? || s.main.Draining? || s.main.Finished? ==> s.wg == 0)
    && (s.closed <==> s.main.Draining? || s.main.Finished?)
    && (forall i :: 0 <= i < |s.phases| && s.phases[i].Sending? ==> job.alive[i])
    && Reported(job, s.phases, s.drained + s.results)
    && (s.main.Finished? ==> s.results == [])
  }

  lemma InitialInv(job: Job)
    requires job.Valid()
    ensures Inv(job, Initial(job)) && Measure(Initial(job)) == 7 * |job.proxies| + 4
  {
    SumOfUnspawned(|job.proxies|, Holding);
    SumOfUnspawned(|job.proxies|, Running);
    SumOfUnspawned(|job.proxies|, StepsLeft);
  }

  /** A worker whose phase still counts is running, so the wait group keeps the main goroutine waiting. */
  lemma RunningHoldsMain(job: Job, s: State, i: nat)
    requires Inv(job, s) && i < |s.phases| && Running(s.phases[i]) == 1
    ensures s.wg > 0 && (s.main.Spawning? || s.main.Awaiting?)
  {
    SumUpdated(s.phases, Running, i, Done);
  }

  lemma ReportedMove(job: Job, phases: seq<Phase>, reports: seq<nat>, i: nat, p: Phase)
    requires |phases| == |job.alive| && i < |phases| && Reported(job, phases, reports)
    requires PastSending(p) == PastSending(phases[i]) || !job.alive[i]
    ensures Reported(job, phases[i := p], reports)
  {
  }

  lemma ReportedSend(job: Job, phases: seq<Phase>, reports: seq<nat>, i: nat)
    requires |phases| == |job.alive| && i < |phases| && Reported(job, phases, reports)
    requires phases[i].Sending? && job.alive[i]
    ensures Reported(job, phases[i := Releasing], reports + [i])
  {
    assert i !in reports;
  }

  lemma SendKeepsInv(job: Job, s: State, i: nat)
    requires Inv(job, s) && Enabled(job, s, Send(i))
    ensures Inv(job, Step(job, s, Send(i)))
  {
    RunningHoldsMain(job, s, i);
    SumUpdated(s.phases, Holding, i, Releasing);
    SumUpdated(s.phases, Running, i, Releasing);
    assert s.drained + (s.results + [i]) == (s.drained + s.results) + [i];
    ReportedSend(job, s.phases, s.drained + s.results, i);
  }

  /** A running worker's change of phase, with the counters following it. */
  function Shifted(s: State, i: nat, p: Phase): State
    requires i < |s.phases| && s.sem + Holding(p) >= Holding(s.phases[i]) && s.wg + Running(p) >= Running(s.phases[i])
  {
    s.(phases := s.phases[i := p], sem := s.sem + Holding(p) - Holding(s.phases[i]),
       wg := s.wg + Running(p) - Running(s.phases[i]))
  }

  lemma ShiftKeepsInv(job: Job, s: State, i: nat, p: Phase)
    requires Inv(job, s) && i < |s.phases| && Running(s.phases[i]) == 1 && !p.Unspawned?
    requires s.sem + Holding(p) <= job.concurrency + Holding(s.phases[i]) && (p.Sending? ==> job.alive[i])
    requires PastSending(p) == PastSending(s.phases[i]) || !job.alive[i]
    ensures s.sem >= Holding(s.phases[i]) && s.wg > 0 && Inv(job, Shifted(s, i, p))
  {
    RunningHoldsMain(job, s, i);
    SumUpdated(s.phases, Holding, i, p);
    SumUpdated(s.phases, Running, i, p);
    ReportedMove(job, s.phases, s.drained + s.results, i, p);
  }

  /** The steps of a worker other than Send are such changes. */
  lemma WorkerStepIsShift(job: Job, s: State, m: Move) returns (i: nat, p: Phase)
    requires Enabled(job, s, m) && (m.Acquire? || m.Check? || m.Release? || m.Finish?)
    requires Holding(s.phases[m.worker]) <= s.sem <= job.concurrency && s.wg > 0
    ensures i == m.worker && i < |s.phases| && Running(s.phases[i]) == 1 && !p.Unspawned?
    ensures s.sem + Holding(p) <= job.concurrency + Holding(s.phases[i])
    ensures i < |job.alive| ==> (p.Sending? ==> job.alive[i]) && (PastSending(p) == PastSending(s.phases[i]) || !job.alive[i])
    ensures Step(job, s, m) == Shifted(s, i, p)
  {
    i := m.worker;
    p := Step(job, s, m).phases[i];
  }

  lemma WorkerStepKeepsInv(job: Job, s: State, m: Move)
    requires Inv(job, s) && Enabled(job, s, m)
    requires m.Acquire? || m.Check? || m.Release? || m.Finish?
    ensures Inv(job, Step(job, s, m))
  {
    RunningHoldsMain(job, s, m.worker);
    SumUpdated(s.phases, Holding, m.worker, Done);
    var i, p := WorkerStepIsShift(job, s, m);
    ShiftKeepsInv(job, s, i, p);
  }

  lemma MainStepKeepsInv(job: Job, s: State, m: Move)
    requires Inv(job, s) && Enabled(job, s, m)
    requires m.Spawn? || m.SpawnOver? || m.WaitOver? || m.CloseResults? || m.Drain? || m.DrainOver?
    ensures Inv(job, Step(job, s, m))
  {
    if m.Spawn? {
      SumUpdated(s.phases, Holding, s.next, Waiting);
      SumUpdated(s.phases, Running, s.next, Waiting);
      ReportedMove(job, s.phases, s.drained + s.results, s.next, Waiting);
    } else if m.Drain? {
      assert s.drained + [s.results[0]] + s.results[1..] == s.drained + s.results;
    }
  }

  lemma StepKeepsInv(job: Job, s: State, m: Move)
    requires Inv(job, s) && Enabled(job, s, m)
    ensures Inv(job, Step(job, s, m))
  {
    if m.Send? {
      SendKeepsInv(job, s, m.worker);
    } else if m.Acquire? || m.Check? || m.Release? || m.Finish? {
      WorkerStepKeepsInv(job, s, m);
    } else {
      MainStepKeepsInv(job, s, m);
    }
  }

  /** A worker's step shortens what the worker has left, by two where it adds a result to drain. */
  lemma WorkerStepShortens(job: Job, s: State, m: Move)
    requires Enabled(job, s, m)
    requires m.Acquire? || m.Check? || m.Send? || m.Release? || m.Finish?
    ensures var p := Step(job, s, m).phases[m.worker];
            Step(job, s, m).phases == s.phases[m.worker := p]
            && StepsLeft(p) + (if m.Send? then 2 else 1) <= StepsLeft(s.phases[m.worker])
  {
  }

  /** Every step brings the end nearer. */
  lemma StepDecreasesMeasure(job: Job, s: State, m: Move)
    requires Inv(job, s) && Enabled(job, s, m)
    ensures Measure(Step(job, s, m)) < Measure(s)
  {
    if m.Acquire? || m.Check? || m.Send? || m.Release? || m.Finish? {
      WorkerStepShortens(job, s, m);
      SumUpdated(s.phases, StepsLeft, m.worker, Step(job, s, m).phases[m.worker]);
    } else if m.Spawn? {
      assert s.phases[s.next].Unspawned?;
      SumUpdated(s.phases, StepsLeft, s.next, Waiting);
    }
  }

  // --- no deadlock, no blocked send ----------------------------------------------------------------------

  /** There is always room on the result channel for a worker that wants to send. */
  lemma SendNeverBlocks(job: Job, s: State, i: nat)
    requires Inv(job, s) && At(s, i, Sending)
    ensures Enabled(job, s, Send(i))
  {
    var reports := s.drained + s.results;
    assert i !in reports;
    DistinctMissingOne(reports, |job.proxies|, i);
    RunningHoldsMain(job, s, i);
  }

  /** A worker that holds a slot can always take its next step. */
  lemma HolderCanMove(job: Job, s: State, i: nat) returns (m: Move)
    requires Inv(job, s) && i < |s.phases| && Holding(s.phases[i]) == 1
    ensures Enabled(job, s, m)
  {
    SumUpdated(s.phases, Holding, i, Done);
    if s.phases[i].Checking? {
      m := Check(i);
    } else if s.phases[i].Sending? {
      SendNeverBlocks(job, s, i);
      m := Send(i);
    } else {
      m := Release(i);
    }
  }

  /** No reachable unfinished state is stuck. */
  lemma NoDeadlock(job: Job, s: State) returns (m: Move)
    requires Inv(job, s) && !s.main.Finished?
    ensures Enabled(job, s, m)
  {
    match s.main
    case Spawning => m := if s.next < |s.phases| then Spawn else SpawnOver;
    case Closing => m := CloseResults;
    case Draining => m := if s.results != [] then Drain else DrainOver;
    case Awaiting =>
      if s.wg == 0 {
        m := WaitOver;
      } else {
        var i := SumPositive(s.phases, Running);
        SumUpdated(s.phases, Running, i, Done);
        if Holding(s.phases[i]) == 1 {
          m := HolderCanMove(job, s, i);
        } else if s.phases[i].Finishing? {
          m := Finish(i);
        } else if s.sem < job.concurrency {
          m := Acquire(i);
        } else {
          var j := SumPositive(s.phases, Holding);
          m := HolderCanMove(job, s, j);
        }
      }
  }

  // --- runs -------------------------------------------------------------------------------------------------

  /** The states of a run, one more than its moves. */
  predicate IsRun(job: Job, states: seq<State>, moves: seq<Move>) {
    && |states| == |moves| + 1 && states[0] == Initial(job)
    && forall t :: 0 <= t < |moves| ==> Enabled(job, states[t], moves[t]) && states[t + 1] == Step(job, states[t], moves[t])
  }

  /** Every state of every run satisfies the invariant, and the steps taken are paid by the measure. */
  lemma {:induction false} RunInv(job: Job, states: seq<State>, moves: seq<Move>, t: nat)
    requires job.Valid() && IsRun(job, states, moves) && t <= |moves|
    ensures Inv(job, states[t]) && Measure(states[t]) + t <= 7 * |job.proxies| + 4
  {
    if t == 0 {
      InitialInv(job);
    } else {
      RunInv(job, states, moves, t - 1);
      StepKeepsInv(job, states[t - 1], moves[t - 1]);
      StepDecreasesMeasure(job, states[t - 1], moves[t - 1]);
    }
  }

  /** At every moment of every run at most `concurrency` checks are in progress. */
  lemma ConcurrencyBounded(job: Job, states: seq<State>, moves: seq<Move>, t: nat)
    requires job.Valid() && IsRun(job, states, moves) && t <= |moves|
    ensures states[t].sem == Sum(states[t].phases, Holding) <= job.concurrency
  {
    RunInv(job, states, moves, t);
  }

  /** No run takes more than 7n + 4 steps, and one that cannot go on has finished. */
  lemma EveryRunEnds(job: Job, states: seq<State>, moves: seq<Move>)
    requires job.Valid() && IsRun(job, states, moves)
    ensures |moves| <= 7 * |job.proxies| + 4
    ensures (forall m :: !Enabled(job, states[|moves|], m)) ==> states[|moves|].main.Finished?
  {
    RunInv(job, states, moves, |moves|);
    if !states[|moves|].main.Finished? {
      var m := NoDeadlock(job, states[|moves|]);
    }
  }

  // --- the outcome ----------------------------------------------------------------------------------------------

  /** The entries built from the drained results: one per address, the first to arrive. */
  function Entries(job: Job, drained: seq<nat>): seq<nat>
  {
    KeepFirst(drained, AddressOf(job))
  }

  function AddressOf(job: Job): nat -> string {
    (i: nat) => if i < |job.proxies| then job.proxies[i] else ""
  }

  /** The live addresses, as the outside world determines them. */
  function LiveAddresses(job: Job): set<string>
    requires job.Valid()
  {
    set i | 0 <= i < |job.proxies| && job.alive[i] :: job.proxies[i]
  }

  lemma FinishedReportsAll(job: Job, s: State)
    requires Inv(job, s) && s.main.Finished?
    ensures Distinct(s.drained) && forall i: nat :: i in s.drained <==> i < |job.proxies| && job.alive[i]
  {
    assert s.drained + s.results == s.drained;
    forall i | 0 <= i < |s.phases| ensures s.phases[i].Done? {
      if !s.phases[i].Done? {
        RunningHoldsMain(job, s, i);
      }
    }
  }

  /**
   * Whatever the schedule, a finished run yields exactly the addresses whose check succeeded, each
   * once.
   */
  lemma OutcomeIsLiveAddresses(job: Job, s: State)
    requires Inv(job, s) && s.main.Finished?
    ensures DistinctBy(Entries(job, s.drained), AddressOf(job))
    ensures KeysOf(Entries(job, s.drained), AddressOf(job)) == LiveAddresses(job)
  {
    FinishedReportsAll(job, s);
    KeepFirstKeys(s.drained, AddressOf(job));
    assert KeysOf(s.drained, AddressOf(job)) == LiveAddresses(job);
  }

  /** With distinct proxies, two finished runs of one job build the same entries up to order. */
  lemma OutcomeIndependentOfSchedule(job: Job, s: State, t: State)
    requires Distinct(job.proxies)
    requires Inv(job, s) && s.main.Finished? && Inv(job, t) && t.main.Finished?
    ensures multiset(Entries(job, s.drained)) == multiset(Entries(job, t.drained))
  {
    FinishedReportsAll(job, s);
    FinishedReportsAll(job, t);
    DistinctAddresses(job, s.drained);
    DistinctAddresses(job, t.drained);
    SameMembers(s.drained, t.drained);
  }

  /** Any two maximal runs of one job, however scheduled, build the same entries up to order. */
  lemma AllSchedulesAgree(job: Job, s: seq<State>, sm: seq<Move>, t: seq<State>, tm: seq<Move>)
    requires job.Valid() && Distinct(job.proxies) && IsRun(job, s, sm) && IsRun(job, t, tm)
    requires forall m :: !Enabled(job, s[|sm|], m)
    requires forall m :: !Enabled(job, t[|tm|], m)
    ensures multiset(Entries(job, s[|sm|].drained)) == multiset(Entries(job, t[|tm|].drained))
  {
    EveryRunEnds(job, s, sm);
    EveryRunEnds(job, t, tm);
    RunInv(job, s, sm, |sm|);
    RunInv(job, t, tm, |tm|);
    OutcomeIndependentOfSchedule(job, s[|sm|], t[|tm|]);
  }

  lemma DistinctAddresses(job: Job, drained: seq<nat>)
    requires Distinct(job.proxies) && Distinct(drained) && forall i :: i in drained ==> i < |job.proxies|
    ensures Entries(job, drained) == drained
  {
    forall i, j | 0 <= i < j < |drained| ensures AddressOf(job)(drained[i]) != AddressOf(job)(drained[j]) {
      assert drained[i] in drained && drained[j] in drained;
      assert drained[i] < drained[j] || drained[j] < drained[i];
    }
    KeepFirstOfDistinct(drained, AddressOf(job));
  }
}
