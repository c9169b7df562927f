/** The server-sent-events endpoint: a snapshot of the log joined to a live subscription. */
module LogServer {
  import opened Base
  import opened LogStream
  import opened LogBuffer

  /** What a streaming client meets: other users of the buffer, heartbeats, its own turn, its end. */
  datatype SseStep = Other(op: Op) | Heartbeat(pingOk: bool) | Deliver(writeOk: bool) | Disconnect

  datatype Reply = TooManyRequests | BufferDisabled | StreamingUnsupported | Streamed(emitted: seq<LogEvent>)

  /** Only the subscriber itself cancels its subscription or receives from its channel. */
  predicate Targets(op: Op, id: nat) {
    op == Cancel(id) || op == Receive(id)
  }

  /** Other users' operations leave what a subscriber received alone. */
  lemma OthersKeepReceived(s: State, op: Op, id: nat)
    requires Good(s) && id in s.chans && !Targets(op, id)
    ensures var t := Apply(s, op);
            && id in t.chans && t.chans[id].received == s.chans[id].received
            && t.chans[id].joined == s.chans[id].joined && Prefix(s.history, t.history)
  {
  }

  /** The events received so far are the history from the subscription on. */
  lemma ReceivedIsHistory(s: State, id: nat)
    requires Good(s) && id in s.chans
    ensures var ch := s.chans[id];
            && ch.joined + |ch.received| + |ch.queue| <= |s.history|
            && ch.received == s.history[ch.joined..ch.joined + |ch.received|]
            && (ch.queue != [] ==> ch.queue[0].id == ch.joined + |ch.received| + 1)
  {
    var ch := s.chans[id];
    var upto := ch.joined + |ch.received| + |ch.queue|;
    var block := s.history[ch.joined..upto];
    assert ch.received == (ch.received + ch.queue)[..|ch.received|] == block[..|ch.received|];
    if ch.queue != [] {
      assert ch.queue[0] == (ch.received + ch.queue)[|ch.received|] == block[|ch.received|];
    }
  }

  /** Mid-stream: what a client has been sent is what passes among the events it received. */
  predicate Following(s: State, id: nat, joined: nat, since: nat, minLevel: int, cursor: nat, emitted: seq<LogEvent>) {
    && id in s.chans && s.chans[id].joined == joined
    && since <= cursor && (cursor == since || cursor <= joined + |s.chans[id].received|)
    && emitted == Filter(s.chans[id].received, since, minLevel)
  }

  /** The moving cursor decides as the requested ID would, and the client stays in step. */
  lemma TurnKeepsFollowing(s: State, id: nat, joined: nat, since: nat, minLevel: int, cursor: nat, emitted: seq<LogEvent>)
    requires Good(s) && Following(s, id, joined, since, minLevel, cursor, emitted) && s.chans[id].queue != []
    ensures var e := s.chans[id].queue[0];
            var skipped := e.id <= cursor || e.level < minLevel;
            && (skipped <==> !Passes(e, since, minLevel))
            && Following(ReceiveOf(s, id), id, joined, since, minLevel,
                         if skipped then cursor else e.id, if skipped then emitted else emitted + [e])
  {
    ReceivedIsHistory(s, id);
    FilterAppended(s.chans[id].received, s.chans[id].queue[0], since, minLevel);
  }

  lemma FollowingIsHistory(s: State, id: nat, joined: nat, since: nat, minLevel: int, cursor: nat, emitted: seq<LogEvent>)
    requires Good(s) && Following(s, id, joined, since, minLevel, cursor, emitted)
    ensures var taken := |s.chans[id].received|;
            joined + taken <= |s.history| && emitted == Filter(s.history[joined..joined + taken], since, minLevel)
  {
    ReceivedIsHistory(s, id);
  }

  lemma PrefixTransitive(a: seq<LogEvent>, b: seq<LogEvent>, c: seq<LogEvent>)
    requires Prefix(a, b) && Prefix(b, c)
    ensures Prefix(a, c)
  {
    assert c[..|a|] == c[..|b|][..|a|];
  }

  // --- the channel loop ----------------------------------------------------------------------------------------

  /** A client of the channel loop; gone once the handler has returned. */
  datatype Client = Client(state: State, cursor: nat, emitted: seq<LogEvent>, gone: bool)

  lemma ChansStay(s: State, op: Op)
    ensures s.chans.Keys <= Apply(s, op).chans.Keys
  {
  }

  /** One turn of the select: whichever of its cases is ready. */
  function Turn(c: Client, id: nat, minLevel: int, step: SseStep): (t: Client)
    requires id in c.state.chans
    ensures id in t.state.chans
  {
    match step
    case Disconnect => c.(gone := true)
    case Heartbeat(pingOk) => c.(gone := !pingOk)
    case Other(op) =>
      ChansStay(c.state, op);
      if Targets(op, id) then c else c.(state := Apply(c.state, op))
    case Deliver(writeOk) =>
      var ch := c.state.chans[id];
      if ch.queue == [] then c.(gone := ch.closed)
      else
        var e, s := ch.queue[0], ReceiveOf(c.state, id);
        if e.id <= c.cursor || e.level < minLevel then c.(state := s)
        else if !writeOk then c.(state := s, gone := true)
        else Client(s, e.id, c.emitted + [e], false)
  }

  /** The turns until the client is gone. */
  function Turns(c: Client, id: nat, minLevel: int, live: seq<SseStep>): (t: Client)
    requires id in c.state.chans
    ensures id in t.state.chans
  {
    if live == [] then c
    else
      var before := Turns(c, id, minLevel, live[..|live| - 1]);
      if before.gone then before else Turn(before, id, minLevel, live[|live| - 1])
  }

  lemma GoneOneMore(c: Client, id: nat, minLevel: int, live: seq<SseStep>, i: nat)
    requires id in c.state.chans && i < |live| && Turns(c, id, minLevel, live[..i]).gone
    ensures Turns(c, id, minLevel, live[..i + 1]) == Turns(c, id, minLevel, live[..i])
  {
    assert live[..i + 1][..i] == live[..i];
  }

  lemma {:induction false} GoneStays(c: Client, id: nat, minLevel: int, live: seq<SseStep>, i: nat)
    requires id in c.state.chans && i <= |live| && Turns(c, id, minLevel, live[..i]).gone
    ensures Turns(c, id, minLevel, live) == Turns(c, id, minLevel, live[..i])
    decreases |live| - i
  {
    if i == |live| {
      assert live[..i] == live;
    } else {
      GoneOneMore(c, id, minLevel, live, i);
      GoneStays(c, id, minLevel, live, i + 1);
    }
  }

  lemma TurnsNext(c: Client, id: nat, minLevel: int, live: seq<SseStep>, i: nat)
    requires id in c.state.chans && i < |live| && !Turns(c, id, minLevel, live[..i]).gone
    ensures Turns(c, id, minLevel, live[..i + 1]) == Turn(Turns(c, id, minLevel, live[..i]), id, minLevel, live[i])
  {
    assert live[..i + 1][..i] == live[..i];
  }

  /** A turn that ends the stream from outside: the client leaves, or something cannot be written to it. */
  predicate Breaks(step: SseStep) {
    step == Disconnect || step == Heartbeat(false) || step == Deliver(false)
  }

  predicate Unbroken(live: seq<SseStep>) {
    forall i :: 0 <= i < |live| ==> !Breaks(live[i])
  }

  /** What was sent is what passes among the first `taken` events since the subscription. */
  predicate Sent(c: Client, joined: nat, since: nat, minLevel: int, taken: nat) {
    joined + taken <= |c.state.history| && c.emitted == Filter(c.state.history[joined..joined + taken], since, minLevel)
  }

  /** All received events that pass were sent, but for the last one where short is 1. */
  predicate SentBut(c: Client, id: nat, joined: nat, since: nat, minLevel: int, short: nat)
    requires id in c.state.chans
  {
    && c.state.chans[id].joined == joined && short <= |c.state.chans[id].received|
    && Sent(c, joined, since, minLevel, |c.state.chans[id].received| - short)
  }

  /** After a turn: nothing is left unsent unless the turn broke the stream, and who is not gone follows on. */
  predicate InStep(t: Client, id: nat, joined: nat, since: nat, minLevel: int, broken: bool, short: nat)
    requires id in t.state.chans
  {
    && short <= (if broken then 1 else 0) && SentBut(t, id, joined, since, minLevel, short)
    && (!t.gone ==> Following(t.state, id, joined, since, minLevel, t.cursor, t.emitted))
  }

  lemma FollowingInStep(t: Client, id: nat, joined: nat, since: nat, minLevel: int, broken: bool)
    requires Good(t.state) && Following(t.state, id, joined, since, minLevel, t.cursor, t.emitted)
    ensures InStep(t, id, joined, since, minLevel, broken, 0)
  {
    FollowingIsHistory(t.state, id, joined, since, minLevel, t.cursor, t.emitted);
  }

  lemma TurnStaysInStep(c: Client, id: nat, joined: nat, since: nat, minLevel: int, step: SseStep) returns (short: nat)
    requires Good(c.state) && Following(c.state, id, joined, since, minLevel, c.cursor, c.emitted)
    ensures var t := Turn(c, id, minLevel, step);
            && Good(t.state) && Prefix(c.state.history, t.state.history)
            && InStep(t, id, joined, since, minLevel, Breaks(step), short)
  {
    short := 0;
    match step {
      case Deliver(writeOk) =>
        short := DeliveryStaysInStep(c, id, joined, since, minLevel, writeOk);
      case Other(op) =>
        if !Targets(op, id) {
          ApplyKeepsGood(c.state, op);
          OthersKeepReceived(c.state, op, id);
        }
        FollowingInStep(Turn(c, id, minLevel, step), id, joined, since, minLevel, Breaks(step));
      case _ =>
        FollowingInStep(Turn(c, id, minLevel, step), id, joined, since, minLevel, Breaks(step));
    }
  }

  /** A ready channel that holds events, with the moving cursor out of sight. */
  lemma Delivery(c: Client, id: nat, joined: nat, since: nat, minLevel: int, writeOk: bool) returns (e: LogEvent, s: State)
    requires Good(c.state) && Following(c.state, id, joined, since, minLevel, c.cursor, c.emitted) && c.state.chans[id].queue != []
    ensures e == c.state.chans[id].queue[0] && s == ReceiveOf(c.state, id) && Good(s) && s.history == c.state.history
    ensures s.chans[id].received == c.state.chans[id].received + [e]
    ensures Turn(c, id, minLevel, Deliver(writeOk)) ==
              if !Passes(e, since, minLevel) then c.(state := s)
              else if !writeOk then c.(state := s, gone := true)
              else Client(s, e.id, c.emitted + [e], false)
    ensures if Passes(e, since, minLevel) then Following(s, id, joined, since, minLevel, e.id, c.emitted + [e])
            else Following(s, id, joined, since, minLevel, c.cursor, c.emitted)
  {
    e, s := c.state.chans[id].queue[0], ReceiveOf(c.state, id);
    ReceiveKeepsGood(c.state, id);
    TurnKeepsFollowing(c.state, id, joined, since, minLevel, c.cursor, c.emitted);
  }

  lemma ReceiveKeepsGood(s: State, id: nat)
    requires Good(s) && id in s.chans && s.chans[id].queue != []
    ensures var t := ReceiveOf(s, id);
            Good(t) && t.history == s.history && id in t.chans && t.chans[id].received == s.chans[id].received + [s.chans[id].queue[0]]
  {
    ApplyKeepsGood(s, Receive(id));
  }

  /** Over an event that could not be written the client is gone, and all before it was sent. */
  lemma UnsentInStep(c: Client, s: State, e: LogEvent, id: nat, joined: nat, since: nat, minLevel: int)
    requires Good(c.state) && Following(c.state, id, joined, since, minLevel, c.cursor, c.emitted)
    requires s.history == c.state.history && id in s.chans && s.chans[id].joined == joined
    requires s.chans[id].received == c.state.chans[id].received + [e]
    ensures InStep(c.(state := s, gone := true), id, joined, since, minLevel, true, 1)
  {
    FollowingIsHistory(c.state, id, joined, since, minLevel, c.cursor, c.emitted);
  }

  lemma DeliveryStaysInStep(c: Client, id: nat, joined: nat, since: nat, minLevel: int, writeOk: bool) returns (short: nat)
    requires Good(c.state) && Following(c.state, id, joined, since, minLevel, c.cursor, c.emitted)
    ensures var t := Turn(c, id, minLevel, Deliver(writeOk));
            && Good(t.state) && Prefix(c.state.history, t.state.history)
            && InStep(t, id, joined, since, minLevel, !writeOk, short)
  {
    var t := Turn(c, id, minLevel, Deliver(writeOk));
    short := 0;
    if c.state.chans[id].queue == [] {
      FollowingInStep(t, id, joined, since, minLevel, !writeOk);
    } else {
      var e, s := Delivery(c, id, joined, since, minLevel, writeOk);
      if Passes(e, since, minLevel) && !writeOk {
        UnsentInStep(c, s, e, id, joined, since, minLevel);
        short := 1;
      } else {
        FollowingInStep(t, id, joined, since, minLevel, !writeOk);
      }
    }
  }

  /** Through all turns. */
  lemma {:induction false} TurnsStayInStep(c: Client, id: nat, joined: nat, since: nat, minLevel: int, live: seq<SseStep>) returns (short: nat)
    requires Good(c.state) && Following(c.state, id, joined, since, minLevel, c.cursor, c.emitted) && !c.gone
    ensures var t := Turns(c, id, minLevel, live);
            && Good(t.state) && Prefix(c.state.history, t.state.history)
            && InStep(t, id, joined, since, minLevel, !Unbroken(live), short)
  {
    if live == [] {
      short := 0;
      FollowingInStep(c, id, joined, since, minLevel, false);
    } else {
      var n := |live| - 1;
      short := TurnsStayInStep(c, id, joined, since, minLevel, live[..n]);
      var before := Turns(c, id, minLevel, live[..n]);
      assert Unbroken(live) ==> Unbroken(live[..n]) && !Breaks(live[n]);
      if !before.gone {
        short := TurnStaysInStep(before, id, joined, since, minLevel, live[n]);
        PrefixTransitive(c.state.history, before.state.history, Turn(before, id, minLevel, live[n]).state.history);
      }
    }
  }

  /** A stream is what passes in one stretch of the history from the subscription on. */
  lemma StreamIsStretch(c: Client, id: nat, joined: nat, since: nat, minLevel: int, live: seq<SseStep>) returns (taken: nat)
    requires Good(c.state) && Following(c.state, id, joined, since, minLevel, c.cursor, c.emitted) && !c.gone
    ensures var t := Turns(c, id, minLevel, live);
            Prefix(c.state.history, t.state.history) && Sent(t, joined, since, minLevel, taken)
  {
    var short := TurnsStayInStep(c, id, joined, since, minLevel, live);
    taken := |Turns(c, id, minLevel, live).state.chans[id].received| - short;
  }

  /**
   * A client that stays, and to which everything can be written, is sent all that passes of what its
   * channel has handed over; once the channel is drained and still subscribed that is all of the history
   * from the subscription on. It is let go only when its channel was closed and is drained.
   */
  lemma UnbrokenMissesNothing(c: Client, id: nat, joined: nat, since: nat, minLevel: int, live: seq<SseStep>)
    requires Good(c.state) && Following(c.state, id, joined, since, minLevel, c.cursor, c.emitted) && !c.gone
    requires Unbroken(live)
    ensures var t := Turns(c, id, minLevel, live);
            var ch := t.state.chans[id];
            && Sent(t, joined, since, minLevel, |ch.received|)
            && (ch.queue == [] && id in t.state.subs ==> t.emitted == Filter(t.state.history[joined..], since, minLevel))
            && (t.gone ==> ch.closed && ch.queue == [])
  {
    var short := TurnsStayInStep(c, id, joined, since, minLevel, live);
    SentIsAll(Turns(c, id, minLevel, live), id, joined, since, minLevel);
    GoneIsDrained(c, id, minLevel, live);
  }

  lemma SentIsAll(t: Client, id: nat, joined: nat, since: nat, minLevel: int)
    requires id in t.state.chans && Good(t.state) && SentBut(t, id, joined, since, minLevel, 0)
    ensures t.state.chans[id].queue == [] && id in t.state.subs ==> t.emitted == Filter(t.state.history[joined..], since, minLevel)
  {
    if id in t.state.subs && t.state.chans[id].queue == [] {
      assert joined + |t.state.chans[id].received| == |t.state.history|;
      assert t.state.history[joined..|t.state.history|] == t.state.history[joined..];
    }
  }

  lemma {:induction false} GoneIsDrained(c: Client, id: nat, minLevel: int, live: seq<SseStep>)
    requires id in c.state.chans && Unbroken(live) && !c.gone
    ensures var t := Turns(c, id, minLevel, live); t.gone ==> t.state.chans[id].closed && t.state.chans[id].queue == []
  {
    if live != [] {
      var n := |live| - 1;
      assert Unbroken(live[..n]) && !Breaks(live[n]);
      GoneIsDrained(c, id, minLevel, live[..n]);
    }
  }

  /** A ready channel that holds events hands over its oldest; it is sent iff it passes and can be written. */
  lemma DeliverySends(c: Client, id: nat, joined: nat, since: nat, minLevel: int, writeOk: bool)
    requires Good(c.state) && Following(c.state, id, joined, since, minLevel, c.cursor, c.emitted)
    requires c.state.chans[id].queue != []
    ensures var t, e := Turn(c, id, minLevel, Deliver(writeOk)), c.state.chans[id].queue[0];
            && t.state.chans[id].received == c.state.chans[id].received + [e]
            && t.emitted == (if e.id > since && e.level >= minLevel && writeOk then c.emitted + [e] else c.emitted)
  {
    var e, s := Delivery(c, id, joined, since, minLevel, writeOk);
  }

  /** How many of the snapshot's writes succeed before the first that fails. */
  function Written(n: nat, writeOk: nat -> bool): (k: nat)
    ensures k <= n && (forall i: nat :: i < k ==> writeOk(i)) && (k < n ==> !writeOk(k))
  {
    if n == 0 then 0
    else
      var k := Written(n - 1, writeOk);
      if k == n - 1 && writeOk(n - 1) then n else k
  }

  /** A subscription from begin to end: the buffer afterwards, and what the client was sent. */
  function Subscribed(s: State, from: nat, minLevel: int, live: seq<SseStep>): (State, seq<LogEvent>) {
    var joined := Apply(s, Subscribe(256));
    var t := Turns(Client(joined, from, [], false), joined.nextSubID, minLevel, live);
    (Apply(t.state, Cancel(joined.nextSubID)), t.emitted)
  }

  /** The subscription after a snapshot, with what happens in between. */
  function LiveOf(was: State, snapshot: seq<LogEvent>, since: nat, minLevel: int, gap: seq<Op>, live: seq<SseStep>): (State, seq<LogEvent>) {
    Subscribed(Run(was, gap), if snapshot == [] then since else snapshot[|snapshot| - 1].id, minLevel, live)
  }

  /** How many events others append. */
  function Appends(live: seq<SseStep>): nat {
    if live == [] then 0
    else Appends(live[..|live| - 1]) + (if live[|live| - 1].Other? && live[|live| - 1].op.Append? then 1 else 0)
  }

  /** The subscription stands, with no more queued than was appended. */
  predicate Standing(s: State, id: nat, appended: nat) {
    id in s.subs && id in s.chans && s.chans[id].capacity == 256 && |s.chans[id].queue| <= appended
  }

  lemma OthersLetStand(s: State, op: Op, id: nat, appended: nat)
    requires Good(s) && Standing(s, id, appended) && !Targets(op, id) && (op.Append? ==> appended < 256)
    ensures Good(Apply(s, op)) && Standing(Apply(s, op), id, appended + (if op.Append? then 1 else 0))
  {
    ApplyKeepsGood(s, op);
    SubscriptionEndsIff(s, op, id);
    if op.Append? {
      AppendReachesIff(s, op.event, id);
    }
  }

  lemma ReceiveLetsStand(s: State, id: nat, appended: nat)
    requires Good(s) && Standing(s, id, appended) && s.chans[id].queue != []
    ensures Good(ReceiveOf(s, id)) && Standing(ReceiveOf(s, id), id, appended)
  {
    ReceiveKeepsGood(s, id);
  }

  lemma TurnStands(c: Client, id: nat, minLevel: int, step: SseStep, appended: nat)
    requires Good(c.state) && Standing(c.state, id, appended)
    requires step.Other? && step.op.Append? ==> appended < 256
    ensures Good(Turn(c, id, minLevel, step).state)
    ensures Standing(Turn(c, id, minLevel, step).state, id, appended + (if step.Other? && step.op.Append? then 1 else 0))
  {
    match step
    case Other(op) =>
      if !Targets(op, id) {
        OthersLetStand(c.state, op, id, appended);
      }
    case Deliver(_) =>
      if c.state.chans[id].queue != [] {
        ReceiveLetsStand(c.state, id, appended);
      }
    case _ =>
  }

  lemma {:induction false} TurnsStand(c: Client, id: nat, minLevel: int, live: seq<SseStep>)
    requires Good(c.state) && Standing(c.state, id, 0) && Appends(live) <= 256
    ensures Good(Turns(c, id, minLevel, live).state) && Standing(Turns(c, id, minLevel, live).state, id, Appends(live))
  {
    if live != [] {
      var n := |live| - 1;
      TurnsStand(c, id, minLevel, live[..n]);
      if !Turns(c, id, minLevel, live[..n]).gone {
        TurnStands(Turns(c, id, minLevel, live[..n]), id, minLevel, live[n], Appends(live[..n]));
      }
    }
  }

  /** While others append no more than 256 events a client loses none of them, however slowly it reads. */
  lemma SlowClientKeepsUp(s: State, from: nat, minLevel: int, live: seq<SseStep>)
    requires Good(s) && Appends(live) <= 256
    ensures var (now, id) := (Subscribed(s, from, minLevel, live).0, s.nextSubID + 1);
            id in now.chans && |s.history| <= |now.history| && now.chans[id].received + now.chans[id].queue == now.history[|s.history|..]
  {
    var joined := Apply(s, Subscribe(256));
    var start := Client(joined, from, [], false);
    var id := s.nextSubID + 1;
    ApplyKeepsGood(s, Subscribe(256));
    TurnsStand(start, id, minLevel, live);
    TurnsKeepJoined(start, id, minLevel, live);
    var t := Turns(start, id, minLevel, live);
    StandingIsUpToDate(t.state, id);
  }

  lemma {:induction false} TurnsKeepJoined(c: Client, id: nat, minLevel: int, live: seq<SseStep>)
    requires Good(c.state) && id in c.state.chans
    ensures var t := Turns(c, id, minLevel, live);
            Good(t.state) && t.state.chans[id].joined == c.state.chans[id].joined
  {
    if live != [] {
      var n := |live| - 1;
      TurnsKeepJoined(c, id, minLevel, live[..n]);
      var before := Turns(c, id, minLevel, live[..n]);
      if !before.gone {
        TurnKeepsJoined(before, id, minLevel, live[n]);
      }
    }
  }

  lemma TurnKeepsJoined(c: Client, id: nat, minLevel: int, step: SseStep)
    requires Good(c.state) && id in c.state.chans
    ensures var t := Turn(c, id, minLevel, step);
            Good(t.state) && t.state.chans[id].joined == c.state.chans[id].joined
  {
    match step
    case Other(op) =>
      ApplyKeepsGood(c.state, op);
      if !Targets(op, id) {
        OthersKeepReceived(c.state, op, id);
      }
    case Deliver(_) =>
      if c.state.chans[id].queue != [] {
        ReceiveKeepsGood(c.state, id);
      }
    case _ =>
  }

  lemma StandingIsUpToDate(s: State, id: nat)
    requires Good(s) && id in s.chans && id in s.subs
    ensures s.chans[id].joined <= |s.history|
    ensures s.chans[id].received + s.chans[id].queue == s.history[s.chans[id].joined..]
  {
    var ch := s.chans[id];
    assert s.history[ch.joined..ch.joined + |ch.received| + |ch.queue|] == s.history[ch.joined..];
  }

  /**
   * What one client got and what that did to the buffer: the snapshot as far as it could be written and no
   * subscription, or the whole session, which is then the snapshot and a stretch of the later history.
   */
  predicate Served(was: State, now: State, emitted: seq<LogEvent>, joined: nat, taken: nat, since: nat, minLevel: int,
                   snapshotOk: nat -> bool, gap: seq<Op>, live: seq<SseStep>)
    requires joined + taken <= |now.history|
  {
    var snapshot := Filter(Last(was.history, was.capacity), since, minLevel);
    if Written(|snapshot|, snapshotOk) == |snapshot|
    then emitted == Stream(was.history, was.capacity, now.history, joined, taken, since, minLevel)
         && emitted == snapshot + LiveOf(was, snapshot, since, minLevel, gap, live).1
         && now == LiveOf(was, snapshot, since, minLevel, gap, live).0
    else emitted == snapshot[..Written(|snapshot|, snapshotOk)] && now == was
  }

  lemma WholeServed(was: State, now: State, followed: seq<LogEvent>, joined: nat, taken: nat, since: nat, minLevel: int,
                    snapshotOk: nat -> bool, gap: seq<Op>, live: seq<SseStep>)
    requires joined + taken <= |now.history|
    requires var snapshot := Filter(Last(was.history, was.capacity), since, minLevel);
             && Written(|snapshot|, snapshotOk) == |snapshot|
             && followed == Filter(now.history[joined..joined + taken], since, minLevel)
             && (now, followed) == LiveOf(was, snapshot, since, minLevel, gap, live)
    ensures Served(was, now, Filter(Last(was.history, was.capacity), since, minLevel) + followed, joined, taken,
                   since, minLevel, snapshotOk, gap, live)
  {
  }

  lemma CutServed(was: State, since: nat, minLevel: int, snapshotOk: nat -> bool, gap: seq<Op>, live: seq<SseStep>)
    requires Numbered(was.history)
    requires var snapshot := Filter(Last(was.history, was.capacity), since, minLevel);
             Written(|snapshot|, snapshotOk) < |snapshot|
    ensures var snapshot := Filter(Last(was.history, was.capacity), since, minLevel);
            var sent := snapshot[..Written(|snapshot|, snapshotOk)];
            Increasing(sent) && Served(was, was, sent, |was.history|, 0, since, minLevel, snapshotOk, gap, live)
  {
    SnapshotFacts(was.history, was.capacity, since, minLevel);
    var snapshot := Filter(Last(was.history, was.capacity), since, minLevel);
    PrefixIncreasing(snapshot[..Written(|snapshot|, snapshotOk)], snapshot);
  }

  class AdminServer {
    const logBuf: LogBuffer?
    const maxSSE: nat
    var sseSem: nat

    constructor (buf: LogBuffer?, maxClients: int)
      ensures logBuf == buf && sseSem == 0 && maxSSE == if maxClients <= 0 then 10 else maxClients
    {
      logBuf := buf;
      maxSSE := if maxClients <= 0 then 10 else maxClients;
      sseSem := 0;
    }

    /** Writing the snapshot up to the first failure; cursor ends at the last ID written. */
    method SendSnapshot(snapshot: seq<LogEvent>, since: nat, writeOk: nat -> bool)
      returns (sent: seq<LogEvent>, cursor: nat, ok: bool)
      ensures sent == snapshot[..Written(|snapshot|, writeOk)]
      ensures ok <==> Written(|snapshot|, writeOk) == |snapshot|
      ensures cursor == if sent == [] then since else sent[|sent| - 1].id
    {
      sent, cursor := [], since;
      var i := 0;
      while i < |snapshot|
        invariant 0 <= i <= |snapshot| && sent == snapshot[..i]
        invariant forall j: nat :: j < i ==> writeOk(j)
        invariant cursor == if i == 0 then since else snapshot[i - 1].id
      {
        if !writeOk(i) {
          return sent, cursor, false;
        }
        sent := sent + [snapshot[i]];
        cursor := snapshot[i].id;
        i := i + 1;
      }
      ok := true;
    }

    /** One ready case of the select. */
    method TakeTurn(buf: LogBuffer, id: nat, cursor: nat, minLevel: int, step: SseStep, ghost c: Client)
      returns (written: Option<LogEvent>, gone: bool)
      requires buf.Valid() && id in buf.chans && c.state == buf.Value() && c.cursor == cursor && !c.gone
      modifies buf, buf.events
      ensures buf.Valid()
      ensures Turn(c, id, minLevel, step)
           == Client(buf.Value(), if written.Some? then written.value.id else cursor,
                     if written.Some? then c.emitted + [written.value] else c.emitted, gone)
    {
      written, gone := None, false;
      match step {
        case Disconnect =>
          gone := true;
        case Heartbeat(pingOk) =>
          gone := !pingOk;
        case Other(op) =>
          if !Targets(op, id) {
            buf.Do(op);
          }
        case Deliver(writeOk) =>
          var closed := buf.chans[id].closed;
          var e := buf.Receive(id);
          if e.None? {
            return None, closed;
          }
          if e.value.id <= cursor || e.value.level < minLevel {
            return None, false;
          }
          if !writeOk {
            return None, true;
          }
          written := e;
      }
    }

    /** The channel loop. */
    method Follow(buf: LogBuffer, id: nat, from: nat, minLevel: int, live: seq<SseStep>) returns (emitted: seq<LogEvent>)
      requires buf.Valid() && id in buf.chans
      modifies buf, buf.events
      ensures buf.Valid()
      ensures var t := Turns(Client(old(buf.Value()), from, [], false), id, minLevel, live);
              buf.Value() == t.state && emitted == t.emitted
    {
      ghost var start := Client(buf.Value(), from, [], false);
      ghost var now, past := start, [];
      emitted := [];
      var cursor := from;
      var i := 0;
      while i < |live|
        invariant 0 <= i <= |live| && buf.Valid() && past == live[..i] && id in now.state.chans
        invariant now == Turns(start, id, minLevel, past) == Client(buf.Value(), cursor, emitted, false)
      {
        TurnsNext(start, id, minLevel, live, i);
        var written, gone := TakeTurn(buf, id, cursor, minLevel, live[i], now);
        past := live[..i + 1];
        now := Turns(start, id, minLevel, past);
        if written.Some? {
          emitted := emitted + [written.value];
          cursor := written.value.id;
        }
        i := i + 1;
        if gone {
          GoneStays(start, id, minLevel, live, i);
          return;
        }
      }
      assert live[..i] == live;
    }

    /** Subscribing and following, from a cursor the snapshot left; the subscription is cancelled at the end. */
    method SubscribeAndFollow(buf: LogBuffer, from: nat, ghost since: nat, minLevel: int, live: seq<SseStep>)
      returns (emitted: seq<LogEvent>, ghost taken: nat)
      requires buf.Valid() && since <= from && (from == since || from <= |buf.history|)
      modifies buf, buf.events
      ensures buf.Valid() && Prefix(old(buf.history), buf.history)
      ensures |old(buf.history)| + taken <= |buf.history|
      ensures emitted == Filter(buf.history[|old(buf.history)|..|old(buf.history)| + taken], since, minLevel)
      ensures (buf.Value(), emitted) == Subscribed(old(buf.Value()), from, minLevel, live)
    {
      ghost var joined := |buf.history|;
      var id := buf.Subscribe(256);
      ghost var start := Client(buf.Value(), from, [], false);
      taken := StreamIsStretch(start, id, joined, since, minLevel, live);
      emitted := Follow(buf, id, from, minLevel, live);
      buf.Cancel(id);
    }

    /**
     * One client: snapshot, then subscription in a separate critical section (gap is what happens in
     * between), then the live loop until the client leaves, is dropped, or a write fails.
     */
    method StreamLogs(buf: LogBuffer, since: nat, minLevel: int, snapshotOk: nat -> bool, gap: seq<Op>, live: seq<SseStep>)
      returns (emitted: seq<LogEvent>, ghost joined: nat, ghost taken: nat)
      requires buf.Valid()
      modifies buf, buf.events
      ensures buf.Valid() && Increasing(emitted) && Prefix(old(buf.history), buf.history)
      ensures |old(buf.history)| <= joined && joined + taken <= |buf.history|
      ensures Served(old(buf.Value()), buf.Value(), emitted, joined, taken, since, minLevel, snapshotOk, gap, live)
    {
      ghost var was := buf.Value();
      var snapshot := buf.SnapshotSince(since, minLevel);
      SnapshotFacts(was.history, buf.capacity, since, minLevel);
      var sent, cursor, ok := SendSnapshot(snapshot, since, snapshotOk);
      if !ok {
        CutServed(was, since, minLevel, snapshotOk, gap, live);
        return sent, |was.history|, 0;
      }
      assert sent == snapshot;
      var followed;
      followed, joined, taken := GoLive(buf, cursor, since, minLevel, gap, live);
      emitted := snapshot + followed;
      StreamIncreasing(was.history, buf.capacity, buf.history, joined, taken, since, minLevel);
      WholeServed(was, buf.Value(), followed, joined, taken, since, minLevel, snapshotOk, gap, live);
    }

    /** From the snapshot on. */
    method GoLive(buf: LogBuffer, from: nat, ghost since: nat, minLevel: int, gap: seq<Op>, live: seq<SseStep>)
      returns (emitted: seq<LogEvent>, ghost joined: nat, ghost taken: nat)
      requires buf.Valid() && since <= from && (from == since || from <= |buf.history|)
      modifies buf, buf.events
      ensures buf.Valid() && Prefix(old(buf.history), buf.history)
      ensures |old(buf.history)| <= joined && joined + taken <= |buf.history|
      ensures emitted == Filter(buf.history[joined..joined + taken], since, minLevel)
      ensures (buf.Value(), emitted) == Subscribed(Run(old(buf.Value()), gap), from, minLevel, live)
    {
      Replay(buf, gap);
      ghost var prior := buf.history;
      joined := |prior|;
      emitted, taken := SubscribeAndFollow(buf, from, since, minLevel, live);
      PrefixTransitive(old(buf.history), prior, buf.history);
    }

    method Replay(buf: LogBuffer, ops: seq<Op>)
      requires buf.Valid()
      modifies buf, buf.events
      ensures buf.Valid() && buf.Value() == Run(old(buf.Value()), ops)
      ensures Prefix(old(buf.history), buf.history)
    {
      var i := 0;
      while i < |ops|
        invariant 0 <= i <= |ops| && buf.Valid() && buf.Value() == Run(old(buf.Value()), ops[..i])
      {
        assert ops[..i + 1][..i] == ops[..i];
        buf.Do(ops[i]);
        i := i + 1;
      }
      assert ops[..i] == ops;
      HistoryGrows(old(buf.Value()), ops);
    }

    /** The handler: a semaphore slot per client, given back on every path. */
    method HandleLogsSSE(flusher: bool, since: nat, minLevel: int, snapshotOk: nat -> bool, gap: seq<Op>, live: seq<SseStep>)
      returns (reply: Reply, ghost joined: nat, ghost taken: nat)
      requires sseSem <= maxSSE && (logBuf != null ==> logBuf.Valid())
      modifies this`sseSem, if logBuf == null then {} else {logBuf, logBuf.events}
      ensures sseSem == old(sseSem)
      ensures reply.TooManyRequests? <==> old(sseSem) == maxSSE
      ensures reply.BufferDisabled? <==> old(sseSem) < maxSSE && logBuf == null
      ensures reply.Streamed? <==> old(sseSem) < maxSSE && logBuf != null && flusher
      ensures logBuf != null && !reply.Streamed? ==> logBuf.Valid() && logBuf.Value() == old(logBuf.Value())
      ensures reply.Streamed? ==>
                && logBuf.Valid() && Increasing(reply.emitted)
                && |old(logBuf.history)| <= joined && joined + taken <= |logBuf.history|
                && Served(old(logBuf.Value()), logBuf.Value(), reply.emitted, joined, taken, since, minLevel, snapshotOk, gap, live)
    {
      joined, taken := 0, 0;
      if sseSem == maxSSE {
        return TooManyRequests, joined, taken;
      }
      sseSem := sseSem + 1;
      if logBuf == null {
        reply := BufferDisabled;
      } else if !flusher {
        reply := StreamingUnsupported;
      } else {
        var emitted;
        emitted, joined, taken := StreamLogs(logBuf, since, minLevel, snapshotOk, gap, live);
        reply := Streamed(emitted);
      }
      sseSem := sseSem - 1;
    }
  }

  lemma PrefixIncreasing(a: seq<LogEvent>, b: seq<LogEvent>)
    requires Prefix(a, b) && Increasing(b)
    ensures Increasing(a)
  {
    forall i, j | 0 <= i < j < |a| ensures a[i].id < a[j].id {
      assert b[..|a|][i] == b[i] && b[..|a|][j] == b[j];
    }
  }

  /** A snapshot is in order, and its last ID lies between the requested one and the history's end. */
  lemma SnapshotFacts(history: seq<LogEvent>, capacity: nat, since: nat, minLevel: int)
    requires Numbered(history)
    ensures var snapshot := Filter(Last(history, capacity), since, minLevel);
            Increasing(snapshot) && (snapshot != [] ==> since <= snapshot[|snapshot| - 1].id <= |history|)
  {
    var last := Last(history, capacity);
    FilterKeepsOrder(last, since, minLevel);
    var snapshot := Filter(last, since, minLevel);
    if snapshot != [] {
      assert snapshot[|snapshot| - 1] in snapshot;
    }
  }
}
