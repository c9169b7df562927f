/**
 * Which upstream carries a forwarded request. The forwarding loop hands its requests to one client whose
 * transport keeps connections alive and knows them by their host: an attempt may go over a connection
 * that another attempt dialled, through the upstream picked there. What the transport does is any run of
 * the machine below; CONNECT and SOCKS5 dial for themselves and are not concerned.
 */
module KeepAlive {
  import ProxyPool
  import opened Failover
  import opened FailoverLaws

  /** An attempt of the forwarding loop: the host it wants, and the key of the entry it picked. */
  datatype Job = Job(host: string, pick: string)

  /** A connection to a host, through the upstream it was dialled through. */
  datatype Conn = Conn(host: string, via: string)

  /** An attempt, and the key of an upstream whose connection it was sent over. */
  datatype Trip = Trip(job: nat, via: string)

  /**
   * Connections go by number; held says which one an attempt is using; trips are all there have been.
   * A connection that attempts share (HTTP/2) is free again as soon as it is taken.
   */
  datatype Transport = Transport(conns: seq<Conn>, free: set<nat>, held: map<nat, nat>, trips: set<Trip>)

  datatype Move = Dial(job: nat) | Take(job: nat, conn: nat) | GiveBack(job: nat) | Break(job: nat) | Close(conn: nat)

  function Initial(): Transport {
    Transport([], {}, map[], {})
  }

  /** The transport dials for an attempt, whether or not that then uses the connection, and may take again. */
  predicate Enabled(jobs: seq<Job>, s: Transport, m: Move) {
    match m
    case Dial(i) => i < |jobs|
    case Take(i, c) => i < |jobs| && i !in s.held && c in s.free && c < |s.conns| && s.conns[c].host == jobs[i].host
    case GiveBack(i) => i in s.held
    case Break(i) => i in s.held
    case Close(c) => c in s.free
  }

  /** What DialContext opens for an attempt goes through the entry in the attempt's context. */
  function Opened(j: Job): Conn {
    Conn(j.host, j.pick)
  }

  function Step(jobs: seq<Job>, s: Transport, m: Move): Transport
    requires Enabled(jobs, s, m)
  {
    match m
    case Dial(i) => s.(conns := s.conns + [Opened(jobs[i])], free := s.free + {|s.conns|})
    case Take(i, c) => s.(free := s.free - {c}, held := s.held[i := c], trips := s.trips + {Trip(i, s.conns[c].via)})
    case GiveBack(i) => s.(free := s.free + {s.held[i]}, held := s.held - {i})
    case Break(i) => s.(held := s.held - {i})
    case Close(c) => s.(free := s.free - {c})
  }

  predicate IsRun(jobs: seq<Job>, states: seq<Transport>, moves: seq<Move>) {
    && |states| == |moves| + 1 && states[0] == Initial()
    && forall t :: 0 <= t < |moves| ==> Enabled(jobs, states[t], moves[t]) && states[t + 1] == Step(jobs, states[t], moves[t])
  }

  // --- what a connection stems from --------------------------------------------------------------------------

  /** Some attempt for this host picked this upstream. */
  predicate Picked(jobs: seq<Job>, host: string, via: string) {
    exists i :: 0 <= i < |jobs| && jobs[i] == Job(host, via)
  }

  predicate Inv(jobs: seq<Job>, s: Transport) {
    && (forall c :: 0 <= c < |s.conns| ==> Picked(jobs, s.conns[c].host, s.conns[c].via))
    && (forall trip :: trip in s.trips ==> trip.job < |jobs| && Picked(jobs, jobs[trip.job].host, trip.via))
  }

  lemma StepKeepsInv(jobs: seq<Job>, s: Transport, m: Move)
    requires Inv(jobs, s) && Enabled(jobs, s, m)
    ensures Inv(jobs, Step(jobs, s, m))
  {
    if m.Dial? {
      assert Picked(jobs, jobs[m.job].host, jobs[m.job].pick);
    }
  }

  lemma {:induction false} RunInv(jobs: seq<Job>, states: seq<Transport>, moves: seq<Move>, t: nat)
    requires IsRun(jobs, states, moves) && t <= |moves|
    ensures Inv(jobs, states[t])
  {
    if t > 0 {
      RunInv(jobs, states, moves, t - 1);
      StepKeepsInv(jobs, states[t - 1], moves[t - 1]);
    }
  }

  // --- who can carry an attempt ----------------------------------------------------------------------------------

  /** The run sends the attempt through the upstream. */
  predicate Carries(jobs: seq<Job>, states: seq<Transport>, moves: seq<Move>, trip: Trip) {
    IsRun(jobs, states, moves) && trip in states[|moves|].trips
  }

  /** An attempt goes over the connection that an earlier one dialled, used and gave back. */
  lemma ReuseRun(jobs: seq<Job>, i: nat, j: nat) returns (states: seq<Transport>, moves: seq<Move>)
    requires i < |jobs| && j < |jobs| && i != j && jobs[i].host == jobs[j].host
    ensures Carries(jobs, states, moves, Trip(j, jobs[i].pick))
  {
    var c := Opened(jobs[i]);
    moves := [Dial(i), Take(i, 0), GiveBack(i), Take(j, 0)];
    states := [Initial(), Transport([c], {0}, map[], {}), Transport([c], {}, map[i := 0], {Trip(i, c.via)}),
               Transport([c], {0}, map[], {Trip(i, c.via)}), Transport([c], {}, map[j := 0], {Trip(i, c.via), Trip(j, c.via)})];
  }

  lemma OwnRun(jobs: seq<Job>, j: nat) returns (states: seq<Transport>, moves: seq<Move>)
    requires j < |jobs|
    ensures Carries(jobs, states, moves, Trip(j, jobs[j].pick))
  {
    var c := Opened(jobs[j]);
    moves := [Dial(j), Take(j, 0)];
    states := [Initial(), Transport([c], {0}, map[], {}), Transport([c], {}, map[j := 0], {Trip(j, c.via)})];
  }

  /** An attempt can be carried by exactly the upstreams that some attempt for the same host picked. */
  lemma CarriersIff(jobs: seq<Job>, j: nat, via: string)
    requires j < |jobs|
    ensures (exists states, moves :: Carries(jobs, states, moves, Trip(j, via))) <==> Picked(jobs, jobs[j].host, via)
  {
    if exists states, moves :: Carries(jobs, states, moves, Trip(j, via)) {
      var states, moves :| Carries(jobs, states, moves, Trip(j, via));
      RunInv(jobs, states, moves, |moves|);
    }
    if Picked(jobs, jobs[j].host, via) {
      var i :| 0 <= i < |jobs| && jobs[i] == Job(jobs[j].host, via);
      if i == j {
        var states, moves := OwnRun(jobs, j);
      } else {
        var states, moves := ReuseRun(jobs, i, j);
      }
    }
  }

  /** Whatever the transport does, every attempt is carried by the upstream it picked. */
  ghost predicate Faithful(jobs: seq<Job>) {
    forall states, moves, trip :: Carries(jobs, states, moves, trip) && trip.job < |jobs| ==> trip.via == jobs[trip.job].pick
  }

  predicate OnePickEach(jobs: seq<Job>) {
    forall i, j :: 0 <= i < |jobs| && 0 <= j < |jobs| && jobs[i].host == jobs[j].host ==> jobs[i].pick == jobs[j].pick
  }

  /** The picks are what carries the traffic exactly when all attempts for one host pick one upstream. */
  lemma FaithfulIff(jobs: seq<Job>)
    ensures Faithful(jobs) <==> OnePickEach(jobs)
  {
    if Faithful(jobs) {
      forall i, j | 0 <= i < |jobs| && 0 <= j < |jobs| && jobs[i].host == jobs[j].host ensures jobs[i].pick == jobs[j].pick {
        if i != j {
          var states, moves := ReuseRun(jobs, i, j);
        }
      }
    }
    if OnePickEach(jobs) {
      forall states, moves, trip | Carries(jobs, states, moves, trip) && trip.job < |jobs| ensures trip.via == jobs[trip.job].pick {
        RunInv(jobs, states, moves, |moves|);
        var i :| 0 <= i < |jobs| && jobs[i] == Job(jobs[trip.job].host, trip.via);
      }
    }
  }

  // --- a forced request among others --------------------------------------------------------------------------------

  /** The attempts of a request for a host. */
  function JobsOf(host: string, picks: seq<ProxyPool.Entry>): seq<Job> {
    seq(|picks|, i requires 0 <= i < |picks| => Job(host, picks[i].Key()))
  }

  /** Whatever the transport does, all attempts from number n on are carried by this upstream. */
  ghost predicate Confined(jobs: seq<Job>, n: nat, via: string) {
    forall states, moves, trip ::
      Carries(jobs, states, moves, trip) && n <= trip.job < |jobs| ==> trip.via == via
  }

  /**
   * A forced request picks the upstream it names and no other. What is sent goes through that upstream,
   * whatever the transport does, exactly when no other forwarded request for the host picked another one.
   */
  lemma ForcedConfinedIff(others: seq<Job>, host: string, s: ProxyPool.State, r: Request)
    requires r.Forced() && Attempts(s, r, 0, {}).picks != []
    ensures Confined(others + JobsOf(host, Attempts(s, r, 0, {}).picks), |others|, r.pol.forceKey)
            <==> forall i :: 0 <= i < |others| && others[i].host == host ==> others[i].pick == r.pol.forceKey
  {
    var own := JobsOf(host, Attempts(s, r, 0, {}).picks);
    var jobs := others + own;
    ForcedPicksOnlyNamed(s, r, 0, {});
    if Confined(jobs, |others|, r.pol.forceKey) {
      forall i | 0 <= i < |others| && others[i].host == host ensures others[i].pick == r.pol.forceKey {
        var states, moves := ReuseRun(jobs, i, |others|);
      }
    }
    if forall i :: 0 <= i < |others| && others[i].host == host ==> others[i].pick == r.pol.forceKey {
      forall states, moves, trip | Carries(jobs, states, moves, trip) && |others| <= trip.job < |jobs|
        ensures trip.via == r.pol.forceKey
      {
        RunInv(jobs, states, moves, |moves|);
        var i :| 0 <= i < |jobs| && jobs[i] == Job(host, trip.via);
      }
    }
  }
}
