/**
 * The xray process manager: Ensure with its failure exits, Stop, and processes that die on their own.
 * A call of Ensure is a sequence of steps, so that what holds between two of them can be stated.
 */
module XrayInstance {
  import opened Base

  /** What a process was started with. */
  datatype Started<+C> = Started(config: C, hash: string)

  /** started holds all processes ever started, numbered in order; live are those still running. */
  datatype State<+C> = State(proc: Option<nat>, lastHash: string, started: seq<Started<C>>, live: set<nat>)

  /** Whether creating the directory, writing the file, starting and becoming ready succeed. */
  datatype Luck = Luck(mkdir: bool, write: bool, start: bool, ready: bool)

  // --- the calls, as functions on the state -----------------------------------------------------------

  function Fresh<C>(): State<C> {
    State(None, "", [], {})
  }

  /** Kill and forget the process. */
  function Dropped<C>(s: State<C>): State<C> {
    if s.proc.Some? then s.(proc := None, live := s.live - {s.proc.value}) else s
  }

  function Launched<C>(s: State<C>, config: C, hash: string): State<C> {
    s.(proc := Some(|s.started|), started := s.started + [Started(config, hash)], live := s.live + {|s.started|})
  }

  function EnsureOf<C>(s: State<C>, config: C, hash: string, luck: Luck): (State<C>, bool) {
    if s.proc.Some? && s.lastHash == hash then (s, true)
    else if !luck.mkdir || !luck.write || !luck.start then (Dropped(s), false)
    else
      var up := Launched(Dropped(s), config, hash);
      if luck.ready then (up.(lastHash := hash), true) else (Dropped(up), false)
  }

  function StopOf<C>(s: State<C>): State<C> {
    if s.proc.None? then s else Dropped(s).(lastHash := "")
  }

  /** A process dies without being asked to. */
  function CrashOf<C>(s: State<C>, p: nat): State<C> {
    s.(live := s.live - {p})
  }

  // --- Ensure, step by step ---------------------------------------------------------------------------

  /** Where a call stands: what it does next, or what it returned. */
  datatype Point = Deciding | MakingDir | Writing | Starting | AwaitingReady | Returned(ok: bool)

  datatype Call<+C> = Call(config: C, hash: string, at: Point)

  /** One step of a call; ok says whether the system call it makes succeeds. */
  function EnsureStep<C>(s: State<C>, c: Call<C>, ok: bool): (State<C>, Call<C>)
    requires !c.at.Returned?
  {
    match c.at
    case Deciding =>
      if s.proc.Some? && s.lastHash == c.hash then (s, c.(at := Returned(true)))
      else (Dropped(s), c.(at := MakingDir))
    case MakingDir => (s, c.(at := if ok then Writing else Returned(false)))
    case Writing => (s, c.(at := if ok then Starting else Returned(false)))
    case Starting =>
      if ok then (Launched(s, c.config, c.hash), c.(at := AwaitingReady)) else (s, c.(at := Returned(false)))
    case AwaitingReady =>
      if ok then (s.(lastHash := c.hash), c.(at := Returned(true))) else (Dropped(s), c.(at := Returned(false)))
  }

  /** The system call a step depends on. */
  function OkAt(luck: Luck, at: Point): bool {
    match at
    case MakingDir => luck.mkdir
    case Writing => luck.write
    case Starting => luck.start
    case AwaitingReady => luck.ready
    case _ => true
  }

  function StepsToReturn(at: Point): nat {
    match at
    case Deciding => 5
    case MakingDir => 4
    case Writing => 3
    case Starting => 2
    case AwaitingReady => 1
    case Returned(_) => 0
  }

  /** A call run to its end with nobody else around. */
  function Finish<C>(s: State<C>, c: Call<C>, luck: Luck): (State<C>, bool)
    decreases StepsToReturn(c.at)
  {
    if c.at.Returned? then (s, c.at.ok)
    else
      var next := EnsureStep(s, c, OkAt(luck, c.at));
      Finish(next.0, next.1, luck)
  }

  /** The steps compose to the call. */
  lemma StepsMakeEnsure<C>(s: State<C>, config: C, hash: string, luck: Luck)
    ensures Finish(s, Call(config, hash, Deciding), luck) == EnsureOf(s, config, hash, luck)
  {
    var c := Call(config, hash, Deciding);
    if !(s.proc.Some? && s.lastHash == hash) {
      var d := Dropped(s);
      assert Finish(s, c, luck) == Finish(d, c.(at := MakingDir), luck);
      assert Finish(d, c.(at := MakingDir), luck) == if luck.mkdir then Finish(d, c.(at := Writing), luck) else (d, false);
      assert Finish(d, c.(at := Writing), luck) == if luck.write then Finish(d, c.(at := Starting), luck) else (d, false);
      var up := Launched(d, config, hash);
      assert Finish(d, c.(at := Starting), luck)
          == if luck.start then Finish(up, c.(at := AwaitingReady), luck) else (d, false);
      assert Finish(up, c.(at := AwaitingReady), luck)
          == if luck.ready then (up.(lastHash := hash), true) else (Dropped(up), false);
    }
  }

  // --- what always holds --------------------------------------------------------------------------------

  /** No process runs but the one the instance knows of. */
  predicate OnlyProc<C>(s: State<C>) {
    && (s.proc.Some? ==> s.proc.value < |s.started|)
    && (forall p :: p in s.live ==> s.proc == Some(p))
  }

  /** Between calls: a process that is remembered was started with the configuration last made ready. */
  predicate Settled<C>(s: State<C>) {
    s.proc.Some? ==> s.proc.value < |s.started| && s.started[s.proc.value].hash == s.lastHash
  }

  /** Between two steps of a call. */
  ghost predicate Underway<C>(s: State<C>, c: Call<C>) {
    match c.at
    case Deciding => Settled(s)
    case MakingDir => s.proc.None?
    case Writing => s.proc.None?
    case Starting => s.proc.None?
    case AwaitingReady => s.proc.Some? && s.proc.value < |s.started| && s.started[s.proc.value] == Started(c.config, c.hash)
    case Returned(ok) => Settled(s) && (ok ==> s.proc.Some? && s.lastHash == c.hash)
  }

  lemma AtMostOneLive<C>(s: State<C>)
    requires OnlyProc(s)
    ensures |s.live| <= 1
  {
    if s.proc.Some? {
      assert s.live <= {s.proc.value};
      assert s.live == {} || s.live == {s.proc.value};
    } else {
      assert s.live == {};
    }
  }

  /** Every step of a call keeps both; a returned success means the process of this very hash is in place. */
  lemma StepKeeps<C>(s: State<C>, c: Call<C>, ok: bool)
    requires OnlyProc(s) && !c.at.Returned? && Underway(s, c)
    ensures var next := EnsureStep(s, c, ok); OnlyProc(next.0) && Underway(next.0, next.1)
  {
  }

  lemma CrashKeeps<C>(s: State<C>, p: nat)
    requires OnlyProc(s)
    ensures OnlyProc(CrashOf(s, p)) && (Settled(s) ==> Settled(CrashOf(s, p)))
    ensures forall c: Call<C> :: Underway(s, c) ==> Underway(CrashOf(s, p), c)
  {
  }

  lemma StopKeeps<C>(s: State<C>)
    requires OnlyProc(s)
    ensures OnlyProc(StopOf(s)) && Settled(StopOf(s)) && StopOf(s).live == {} && StopOf(s).proc.None?
  {
  }

  /**
   * Ensure either succeeds, and then the process in place was started for this hash, or leaves no
   * process at all.
   */
  lemma EnsureSettles<C>(s: State<C>, config: C, hash: string, luck: Luck)
    requires OnlyProc(s) && Settled(s)
    ensures var (t, ok) := EnsureOf(s, config, hash, luck);
            && OnlyProc(t) && Settled(t)
            && (if ok then t.proc.Some? && t.lastHash == hash && t.started[t.proc.value].hash == hash
                else t.proc.None? && t.live == {})
  {
  }

  /**
   * Ensure succeeds iff the hash is that of the remembered process, or the directory, the file, the start
   * and the readiness all work out; a process is started exactly when it gets that far.
   */
  lemma EnsureSucceedsIff<C>(s: State<C>, config: C, hash: string, luck: Luck)
    ensures var (t, ok) := EnsureOf(s, config, hash, luck);
            var known := s.proc.Some? && s.lastHash == hash;
            && (ok <==> known || (luck.mkdir && luck.write && luck.start && luck.ready))
            && t.started == (if !known && luck.mkdir && luck.write && luck.start then s.started + [Started(config, hash)] else s.started)
  {
  }

  /**
   * Success does not mean that the process runs: after a crash, Ensure with the same hash returns
   * success and starts nothing. A successful Ensure leaves its process running exactly when it was not
   * a repeated hash with a process that died.
   */
  lemma EnsuredRunsIff<C>(s: State<C>, config: C, hash: string, luck: Luck)
    requires OnlyProc(s) && Settled(s) && EnsureOf(s, config, hash, luck).1
    ensures var t := EnsureOf(s, config, hash, luck).0;
            t.proc.Some? && (t.proc.value in t.live
              <==> !(s.proc.Some? && s.lastHash == hash && s.proc.value !in s.live))
  {
  }

  lemma CrashedIsTakenForRunning<C>(config: C, hash: string)
    ensures var up := EnsureOf(Fresh<C>(), config, hash, Luck(true, true, true, true)).0;
            var down := CrashOf(up, 0);
            down.live == {} && EnsureOf(down, config, hash, Luck(true, true, true, true)) == (down, true)
  {
  }

  /** The same hash again starts nothing; a new hash never leaves the old process running. */
  lemma RestartIffHashChanged<C>(s: State<C>, config: C, hash: string, luck: Luck)
    requires OnlyProc(s) && Settled(s) && s.proc.Some?
    ensures var t := EnsureOf(s, config, hash, luck).0;
            if hash == s.lastHash then t == s else s.proc.value !in t.live && t.proc != s.proc
  {
  }

  // --- the manager as an object ---------------------------------------------------------------------------

  /** The operating system's side: processes by number. */
  class Machine<C> {
    var started: seq<Started<C>>
    var live: set<nat>

    constructor ()
      ensures started == [] && live == {}
    {
      started, live := [], {};
    }

    method Start(config: C, hash: string) returns (p: nat)
      modifies this
      ensures p == |old(started)| && started == old(started) + [Started(config, hash)] && live == old(live) + {p}
    {
      p := |started|;
      started := started + [Started(config, hash)];
      live := live + {p};
    }

    method Kill(p: nat)
      modifies this`live
      ensures live == old(live) - {p}
    {
      live := live - {p};
    }
  }

  class Instance<C> {
    const machine: Machine<C>
    var proc: Option<nat>
    var lastHash: string

    constructor (machine: Machine<C>)
      ensures this.machine == machine && proc == None && lastHash == ""
    {
      this.machine := machine;
      proc, lastHash := None, "";
    }

    ghost function Now(): State<C>
      reads this, machine
    {
      State(proc, lastHash, machine.started, machine.live)
    }

    method Ensure(config: C, hash: string, luck: Luck) returns (ok: bool)
      modifies this, machine
      ensures (Now(), ok) == EnsureOf(old(Now()), config, hash, luck)
    {
      if proc.Some? && lastHash == hash {
        return true;
      }
      if proc.Some? {
        machine.Kill(proc.value);
        proc := None;
      }
      if !luck.mkdir {
        return false;
      }
      if !luck.write {
        return false;
      }
      if !luck.start {
        return false;
      }
      var p := machine.Start(config, hash);
      proc := Some(p);
      if !luck.ready {
        machine.Kill(p);
        proc := None;
        return false;
      }
      lastHash := hash;
      return true;
    }

    /** Reports what the system says of the kill, which it may complain about for a process that died before. */
    method Stop(killOk: bool) returns (ok: bool)
      modifies this, machine
      ensures Now() == StopOf(old(Now())) && ok == (old(proc).None? || killOk)
      ensures proc.None? && machine.started == old(machine.started)
      ensures if old(proc).None? then lastHash == old(lastHash) && machine.live == old(machine.live)
              else lastHash == "" && machine.live == old(machine.live) - {old(proc).value}
    {
      if proc.None? {
        return true;
      }
      machine.Kill(proc.value);
      ok := killOk;
      proc := None;
      lastHash := "";
    }
  }

  // --- runs -------------------------------------------------------------------------------------------------

  datatype Op<+C> = Ensure(config: C, hash: string, luck: Luck) | Stop | Crash(p: nat)

  function Apply<C>(s: State<C>, op: Op<C>): State<C> {
    match op
    case Ensure(config, hash, luck) => EnsureOf(s, config, hash, luck).0
    case Stop => StopOf(s)
    case Crash(p) => CrashOf(s, p)
  }

  function Run<C>(ops: seq<Op<C>>): State<C> {
    if ops == [] then Fresh() else Apply(Run(ops[..|ops| - 1]), ops[|ops| - 1])
  }

  /**
   * After any calls and crashes at most one process runs, it is the one the instance knows of, and a
   * process that is remembered was started with the configuration of lastHash.
   */
  lemma {:induction false} EveryRunSettles<C>(ops: seq<Op<C>>)
    ensures OnlyProc(Run(ops)) && Settled(Run(ops)) && |Run(ops).live| <= 1
  {
    if ops != [] {
      var s, op := Run(ops[..|ops| - 1]), ops[|ops| - 1];
      EveryRunSettles(ops[..|ops| - 1]);
      match op {
        case Ensure(config, hash, luck) => EnsureSettles(s, config, hash, luck);
        case Stop => StopKeeps(s);
        case Crash(p) => CrashKeeps(s, p);
      }
    }
    AtMostOneLive(Run(ops));
  }
}
