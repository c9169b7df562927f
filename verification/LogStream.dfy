/** The log buffer as a value: an unbounded history, its last events, and subscriber channels. */
module LogStream {

  datatype LogEvent = LogEvent(id: nat, time: int, level: int, message: string, attrs: map<string, string>)

  /**
   * A subscriber's channel. received, joined and closes record what the receiver took so far, how
   * long the history was at the subscription, and how often the channel was closed.
   */
  datatype Chan = Chan(capacity: nat, queue: seq<LogEvent>, closed: bool,
                       received: seq<LogEvent>, joined: nat, closes: nat)

  datatype State = State(capacity: nat, history: seq<LogEvent>, subs: set<nat>, chans: map<nat, Chan>, nextSubID: nat)

  datatype Op = Append(event: LogEvent) | Subscribe(buffer: int) | Cancel(id: nat) | Receive(from: nat)

  function Stamped(history: seq<LogEvent>, e: LogEvent): LogEvent {
    e.(id := |history| + 1)
  }

  predicate HasRoom(ch: Chan) {
    |ch.queue| < ch.capacity
  }

  function Close(ch: Chan): Chan {
    ch.(closed := true, closes := ch.closes + 1)
  }

  /** The non-blocking send of Append: into the queue, or else the slow subscriber is dropped. */
  function Offer(ch: Chan, e: LogEvent): Chan {
    if HasRoom(ch) then ch.(queue := ch.queue + [e]) else Close(ch)
  }

  function TakeOne(ch: Chan): Chan {
    if ch.queue == [] then ch else ch.(queue := ch.queue[1..], received := ch.received + [ch.queue[0]])
  }

  function AppendOf(s: State, event: LogEvent): State {
    var e := Stamped(s.history, event);
    s.(history := s.history + [e],
       subs := (set id | id in s.subs && id in s.chans && HasRoom(s.chans[id])),
       chans := (map id | id in s.chans :: if id in s.subs then Offer(s.chans[id], e) else s.chans[id]))
  }

  function BufferSize(buffer: int): nat {
    if buffer <= 0 then 256 else buffer
  }

  function SubscribeOf(s: State, buffer: int): State {
    var id := s.nextSubID + 1;
    s.(nextSubID := id, subs := s.subs + {id},
       chans := s.chans[id := Chan(BufferSize(buffer), [], false, [], |s.history|, 0)])
  }

  function CancelOf(s: State, id: nat): State {
    if id in s.subs && id in s.chans
    then s.(subs := s.subs - {id}, chans := s.chans[id := Close(s.chans[id])])
    else s
  }

  function ReceiveOf(s: State, id: nat): State {
    if id in s.chans then s.(chans := s.chans[id := TakeOne(s.chans[id])]) else s
  }

  function Apply(s: State, op: Op): State {
    match op
    case Append(e) => AppendOf(s, e)
    case Subscribe(buffer) => SubscribeOf(s, buffer)
    case Cancel(id) => CancelOf(s, id)
    case Receive(id) => ReceiveOf(s, id)
  }

  function Run(s: State, ops: seq<Op>): State {
    if ops == [] then s else Apply(Run(s, ops[..|ops| - 1]), ops[|ops| - 1])
  }

  function Initial(capacity: nat): State {
    State(capacity, [], {}, map[], 0)
  }

  // --- invariants over every run ------------------------------------------------------------------

  predicate Numbered(history: seq<LogEvent>) {
    forall i :: 0 <= i < |history| ==> history[i].id == i + 1
  }

  /** Received plus queued is one gapless block of the history that starts at the subscription. */
  predicate Block(ch: Chan, history: seq<LogEvent>) {
    var upto := ch.joined + |ch.received| + |ch.queue|;
    upto <= |history| && ch.received + ch.queue == history[ch.joined..upto]
  }

  predicate UpToDate(ch: Chan, history: seq<LogEvent>) {
    ch.joined + |ch.received| + |ch.queue| == |history|
  }

  predicate GoodChan(ch: Chan, subscribed: bool, history: seq<LogEvent>) {
    && |ch.queue| <= ch.capacity && 0 < ch.capacity
    && (ch.closed <==> !subscribed)
    && ch.closes == (if ch.closed then 1 else 0)
    && Block(ch, history)
    && (subscribed ==> UpToDate(ch, history))
  }

  predicate Good(s: State) {
    && Numbered(s.history)
    && s.subs <= s.chans.Keys
    && forall id :: id in s.chans ==> id <= s.nextSubID && GoodChan(s.chans[id], id in s.subs, s.history)
  }

  /** Offering to an open channel: never a send after close, never a second close. */
  lemma OfferKeepsGood(ch: Chan, history: seq<LogEvent>, e: LogEvent)
    requires GoodChan(ch, true, history)
    ensures !ch.closed && ch.closes == 0
    ensures GoodChan(Offer(ch, e), HasRoom(ch), history + [e])
  {
    var upto := |history|;
    var longer := history + [e];
    if HasRoom(ch) {
      assert ch.received + (ch.queue + [e]) == (ch.received + ch.queue) + [e];
      assert longer[ch.joined..upto + 1] == history[ch.joined..upto] + [e];
    } else {
      assert longer[ch.joined..upto] == history[ch.joined..upto];
    }
  }

  lemma DetachedKeepsGood(ch: Chan, history: seq<LogEvent>, e: LogEvent)
    requires GoodChan(ch, false, history)
    ensures GoodChan(ch, false, history + [e])
  {
    var upto := ch.joined + |ch.received| + |ch.queue|;
    assert (history + [e])[ch.joined..upto] == history[ch.joined..upto];
  }

  lemma TakeKeepsGood(ch: Chan, subscribed: bool, history: seq<LogEvent>)
    requires GoodChan(ch, subscribed, history)
    ensures GoodChan(TakeOne(ch), subscribed, history)
  {
    if ch.queue != [] {
      assert ch.received + [ch.queue[0]] + ch.queue[1..] == ch.received + ch.queue;
    }
  }

  lemma ApplyKeepsGood(s: State, op: Op)
    requires Good(s)
    ensures Good(Apply(s, op))
  {
    match op
    case Append(event) =>
      var e := Stamped(s.history, event);
      forall id | id in s.chans
        ensures GoodChan(AppendOf(s, event).chans[id], id in AppendOf(s, event).subs, s.history + [e])
      {
        if id in s.subs {
          OfferKeepsGood(s.chans[id], s.history, e);
        } else {
          DetachedKeepsGood(s.chans[id], s.history, e);
        }
      }
    case Subscribe(buffer) =>
    case Cancel(id) =>
    case Receive(id) =>
      if id in s.chans {
        TakeKeepsGood(s.chans[id], id in s.subs, s.history);
      }
  }

  /**
   * Over every run of appends, subscriptions, receives and cancellations: a channel is closed iff it
   * left subs, it is closed at most once, and what its receiver got plus what is queued is a gapless
   * block of the history from the subscription on, up to date while subscribed.
   */
  lemma {:induction false} RunKeepsGood(s: State, ops: seq<Op>)
    requires Good(s)
    ensures Good(Run(s, ops))
  {
    if ops != [] {
      RunKeepsGood(s, ops[..|ops| - 1]);
      ApplyKeepsGood(Run(s, ops[..|ops| - 1]), ops[|ops| - 1]);
    }
  }

  lemma EveryRunGood(capacity: nat, ops: seq<Op>)
    ensures Good(Run(Initial(capacity), ops))
  {
    RunKeepsGood(Initial(capacity), ops);
  }

  /** ch later became now by nothing but its receiver taking events. */
  predicate DrainedTo(ch: Chan, now: Chan) {
    && now.closed && now.closes == ch.closes
    && now.received + now.queue == ch.received + ch.queue && |now.queue| <= |ch.queue|
  }

  lemma ClosedStaysClosed(s: State, op: Op, id: nat)
    requires Good(s) && id in s.chans && id !in s.subs
    ensures var t := Apply(s, op); id in t.chans && id !in t.subs && DrainedTo(s.chans[id], t.chans[id])
  {
    var ch := s.chans[id];
    if op == Receive(id) && ch.queue != [] {
      assert ch.received + [ch.queue[0]] + ch.queue[1..] == ch.received + ch.queue;
    }
  }

  /**
   * Once closed, a channel only drains: no later run sends to it or closes it again, and the receiver
   * ends up with a longer part of the same events.
   */
  lemma {:induction false} ClosedOnlyDrains(s: State, ops: seq<Op>, id: nat)
    requires Good(s) && id in s.chans && id !in s.subs
    ensures var t := Run(s, ops); id in t.chans && id !in t.subs && DrainedTo(s.chans[id], t.chans[id])
  {
    if ops != [] {
      var n := |ops| - 1;
      ClosedOnlyDrains(s, ops[..n], id);
      RunKeepsGood(s, ops[..n]);
      ClosedStaysClosed(Run(s, ops[..n]), ops[n], id);
    }
  }

  lemma {:induction false} HistoryGrows(s: State, ops: seq<Op>)
    ensures |s.history| <= |Run(s, ops).history| && Run(s, ops).history[..|s.history|] == s.history
    ensures Run(s, ops).capacity == s.capacity
  {
    if ops != [] {
      HistoryGrows(s, ops[..|ops| - 1]);
    }
  }

  // --- how a subscription begins and ends ---------------------------------------------------------------------

  /** A new subscription has a number not seen before, an empty queue of the size asked for, 256 by default. */
  lemma SubscribeIsFresh(s: State, buffer: int)
    requires Good(s)
    ensures var t, id := Apply(s, Subscribe(buffer)), s.nextSubID + 1;
            && id !in s.chans && t.subs == s.subs + {id} && id in t.chans && !t.chans[id].closed
            && t.chans[id].queue == [] && t.chans[id].capacity == (if buffer > 0 then buffer else 256)
            && t.history == s.history && forall other :: other in s.chans ==> other in t.chans && t.chans[other] == s.chans[other]
  {
  }

  /**
   * An appended event gets the next ID and is queued for every subscriber whose queue is not full; one
   * whose queue is full is closed and dropped with its queue as it was.
   */
  lemma AppendReachesIff(s: State, event: LogEvent, id: nat)
    requires Good(s) && id in s.subs
    ensures var t, ch, e := Apply(s, Append(event)), s.chans[id], event.(id := |s.history| + 1);
            && t.history == s.history + [e] && id in t.chans
            && (|ch.queue| < ch.capacity ==> id in t.subs && !t.chans[id].closed && t.chans[id].queue == ch.queue + [e])
            && (|ch.queue| == ch.capacity ==> id !in t.subs && t.chans[id].closed && t.chans[id].queue == ch.queue)
  {
  }

  /** A subscription is ended by its own cancellation or by an event its full queue has no room for, and by nothing else. */
  lemma SubscriptionEndsIff(s: State, op: Op, id: nat)
    requires Good(s) && id in s.subs
    ensures id !in Apply(s, op).subs <==> op == Cancel(id) || (op.Append? && |s.chans[id].queue| == s.chans[id].capacity)
    ensures id in Apply(s, op).chans && Apply(s, op).chans[id].capacity == s.chans[id].capacity
  {
  }

  /** What ended a subscription in a run: the step that did, and the full queue it met, unless it was the cancellation. */
  lemma {:induction false} EndOfSubscription(s: State, ops: seq<Op>, id: nat) returns (t: nat)
    requires Good(s) && id in s.subs && id !in Run(s, ops).subs
    ensures t < |ops| && id in Run(s, ops[..t]).subs && id in Run(s, ops[..t]).chans
    ensures var ch := Run(s, ops[..t]).chans[id];
            ops[t] == Cancel(id) || (ops[t].Append? && |ch.queue| == ch.capacity == s.chans[id].capacity)
  {
    var n := |ops| - 1;
    RunKeepsGood(s, ops[..n]);
    if id in Run(s, ops[..n]).subs {
      t := n;
      SubscriptionEndsIff(Run(s, ops[..n]), ops[n], id);
      CapacityStays(s, ops[..n], id);
    } else {
      t := EndOfSubscription(s, ops[..n], id);
      assert ops[..n][..t] == ops[..t];
    }
  }

  lemma {:induction false} CapacityStays(s: State, ops: seq<Op>, id: nat)
    requires Good(s) && id in s.chans
    ensures id in Run(s, ops).chans && Run(s, ops).chans[id].capacity == s.chans[id].capacity
  {
    if ops != [] {
      CapacityStays(s, ops[..|ops| - 1], id);
      RunKeepsGood(s, ops[..|ops| - 1]);
    }
  }

  /** A receive hands over the oldest queued event and nothing else of the channel. */
  lemma ReceiveTakesOldest(s: State, id: nat)
    requires Good(s) && id in s.chans && s.chans[id].queue != []
    ensures var ch, now := s.chans[id], Apply(s, Receive(id)).chans[id];
            now.queue == ch.queue[1..] && now.received == ch.received + [ch.queue[0]] && now.closed == ch.closed
    ensures Apply(s, Receive(id)).subs == s.subs && Apply(s, Receive(id)).history == s.history
  {
  }

  // --- snapshots and streams ------------------------------------------------------------------------

  /** The last `capacity` events. */
  function Last(history: seq<LogEvent>, capacity: nat): seq<LogEvent> {
    if |history| <= capacity then history else history[|history| - capacity..]
  }

  predicate Passes(e: LogEvent, since: nat, minLevel: int) {
    e.id > since && e.level >= minLevel
  }

  function Filter(es: seq<LogEvent>, since: nat, minLevel: int): seq<LogEvent> {
    if es == [] then []
    else
      var init := Filter(es[..|es| - 1], since, minLevel);
      if Passes(es[|es| - 1], since, minLevel) then init + [es[|es| - 1]] else init
  }

  lemma FilterAppended(es: seq<LogEvent>, e: LogEvent, since: nat, minLevel: int)
    ensures Filter(es + [e], since, minLevel)
         == if Passes(e, since, minLevel) then Filter(es, since, minLevel) + [e] else Filter(es, since, minLevel)
  {
    assert (es + [e])[..|es|] == es;
  }

  lemma {:induction false} FilterConcat(a: seq<LogEvent>, b: seq<LogEvent>, since: nat, minLevel: int)
    ensures Filter(a + b, since, minLevel) == Filter(a, since, minLevel) + Filter(b, since, minLevel)
  {
    if b == [] {
      assert a + b == a;
    } else {
      var n := |b| - 1;
      var ab := a + b;
      FilterConcat(a, b[..n], since, minLevel);
      assert ab[..|ab| - 1] == a + b[..n];
      assert ab[|ab| - 1] == b[n];
    }
  }

  predicate Increasing(es: seq<LogEvent>) {
    forall i, j :: 0 <= i < j < |es| ==> es[i].id < es[j].id
  }

  /** Filtering keeps order, adds nothing, and keeps exactly what passes. */
  lemma {:induction false} FilterKeepsOrder(es: seq<LogEvent>, since: nat, minLevel: int)
    requires Increasing(es)
    ensures Increasing(Filter(es, since, minLevel))
    ensures forall e :: e in Filter(es, since, minLevel) <==> e in es && e.id > since && e.level >= minLevel
  {
    if es != [] {
      var n := |es| - 1;
      FilterKeepsOrder(es[..n], since, minLevel);
      assert es == es[..n] + [es[n]];
      var kept := Filter(es[..n], since, minLevel);
      forall i | 0 <= i < |kept| ensures kept[i].id < es[n].id {
        assert kept[i] in es[..n];
      }
    }
  }

  /** A log stream: the snapshot's events, then `taken` events of the history from `joined` on. */
  function Stream(snapshot: seq<LogEvent>, capacity: nat, history: seq<LogEvent>, joined: nat, taken: nat,
                  since: nat, minLevel: int): seq<LogEvent>
    requires joined + taken <= |history|
  {
    Filter(Last(snapshot, capacity), since, minLevel) + Filter(history[joined..joined + taken], since, minLevel)
  }

  predicate Prefix(a: seq<LogEvent>, b: seq<LogEvent>) {
    |a| <= |b| && b[..|a|] == a
  }

  lemma IncreasingJoined(a: seq<LogEvent>, b: seq<LogEvent>, m: int)
    requires Increasing(a) && Increasing(b)
    requires (forall e :: e in a ==> e.id <= m) && (forall e :: e in b ==> m < e.id)
    ensures Increasing(a + b)
  {
    forall i, j | 0 <= i < |a| && 0 <= j < |b| ensures a[i].id < b[j].id {
      assert a[i] in a && b[j] in b;
    }
  }

  lemma StretchIncreasing(history: seq<LogEvent>, lo: nat, hi: nat)
    requires Numbered(history) && lo <= hi <= |history|
    ensures Increasing(history[lo..hi]) && forall e :: e in history[lo..hi] ==> lo < e.id <= hi
  {
    forall i | 0 <= i < hi - lo ensures history[lo..hi][i].id == lo + i + 1 {
      assert history[lo..hi][i] == history[lo + i];
    }
  }

  /** Emitted IDs are strictly increasing, however many events fall between snapshot and subscription. */
  lemma StreamIncreasing(snapshot: seq<LogEvent>, capacity: nat, history: seq<LogEvent>, joined: nat, taken: nat,
                         since: nat, minLevel: int)
    requires Numbered(history) && Prefix(snapshot, history) && |snapshot| <= joined && joined + taken <= |history|
    ensures Increasing(Stream(snapshot, capacity, history, joined, taken, since, minLevel))
  {
    var head, tail := Last(snapshot, capacity), history[joined..joined + taken];
    assert head == history[|snapshot| - |head|..|snapshot|];
    StretchIncreasing(history, |snapshot| - |head|, |snapshot|);
    StretchIncreasing(history, joined, joined + taken);
    FilterKeepsOrder(head, since, minLevel);
    FilterKeepsOrder(tail, since, minLevel);
    IncreasingJoined(Filter(head, since, minLevel), Filter(tail, since, minLevel), joined);
  }

  /**
   * The positions a stream never emits: older than the ring held at snapshot time, or appended between
   * the snapshot (of the first `seen` events) and the subscription.
   */
  predicate Missed(i: nat, seen: nat, capacity: nat, joined: nat) {
    i + capacity < seen || seen <= i < joined
  }

  /** A history, cut at what the ring had evicted, the snapshot, the subscription and the last event taken. */
  lemma HistoryInFour(snapshot: seq<LogEvent>, capacity: nat, history: seq<LogEvent>, joined: nat, taken: nat)
    returns (evicted: seq<LogEvent>, gap: seq<LogEvent>)
    requires Prefix(snapshot, history) && |snapshot| <= joined && joined + taken <= |history|
    ensures evicted == snapshot[..|snapshot| - |Last(snapshot, capacity)|] && gap == history[|snapshot|..joined]
    ensures history[..joined + taken] == evicted + Last(snapshot, capacity) + gap + history[joined..joined + taken]
  {
    evicted, gap := snapshot[..|snapshot| - |Last(snapshot, capacity)|], history[|snapshot|..joined];
    assert evicted + Last(snapshot, capacity) == snapshot == history[..|snapshot|];
  }

  lemma FilterInFour(a: seq<LogEvent>, b: seq<LogEvent>, c: seq<LogEvent>, d: seq<LogEvent>, since: nat, minLevel: int)
    ensures Filter(a + b + c + d, since, minLevel)
         == Filter(a, since, minLevel) + Filter(b, since, minLevel) + Filter(c, since, minLevel) + Filter(d, since, minLevel)
  {
    FilterConcat(a + b + c, d, since, minLevel);
    FilterConcat(a + b, c, since, minLevel);
    FilterConcat(a, b, since, minLevel);
  }

  lemma NothingBetweenIff(a: seq<LogEvent>, b: seq<LogEvent>, c: seq<LogEvent>, d: seq<LogEvent>)
    ensures a + b + c + d == b + d <==> a == [] && c == []
  {
    if a + b + c + d == b + d {
      assert |a| + |b| + |c| + |d| == |b| + |d|;
    }
    if a == [] && c == [] {
      assert a + b + c + d == b + d;
    }
  }

  lemma NoneMissedIff(snapshot: seq<LogEvent>, capacity: nat, history: seq<LogEvent>, joined: nat, since: nat, minLevel: int)
    requires Prefix(snapshot, history) && |snapshot| <= joined <= |history|
    ensures var evicted, gap := snapshot[..|snapshot| - |Last(snapshot, capacity)|], history[|snapshot|..joined];
            Filter(evicted, since, minLevel) == [] && Filter(gap, since, minLevel) == []
            <==> forall i :: 0 <= i < |history| && Missed(i, |snapshot|, capacity, joined) ==> !Passes(history[i], since, minLevel)
  {
    var evicted, gap := snapshot[..|snapshot| - |Last(snapshot, capacity)|], history[|snapshot|..joined];
    FilterEmptyIff(evicted, since, minLevel);
    FilterEmptyIff(gap, since, minLevel);
    forall i | 0 <= i < |evicted| ensures evicted[i] == history[i] && Missed(i, |snapshot|, capacity, joined) {
      assert evicted[i] == history[..|snapshot|][i];
    }
    forall i | 0 <= i < |gap| ensures gap[i] == history[|snapshot| + i] && Missed(|snapshot| + i, |snapshot|, capacity, joined) {
    }
    forall i | 0 <= i < |history| && Missed(i, |snapshot|, capacity, joined)
      ensures if i < |snapshot| then i < |evicted| && evicted[i] == history[i]
              else i - |snapshot| < |gap| && gap[i - |snapshot|] == history[i]
    {
      assert i < |snapshot| ==> history[..|snapshot|][i] == history[i];
    }
  }

  /**
   * The stream is everything in the history that passes, up to the last event taken, exactly when no
   * event that passes had left the ring by snapshot time or fell between snapshot and subscription.
   */
  lemma GaplessIff(snapshot: seq<LogEvent>, capacity: nat, history: seq<LogEvent>, joined: nat, taken: nat,
                   since: nat, minLevel: int)
    requires Prefix(snapshot, history) && |snapshot| <= joined && joined + taken <= |history|
    ensures Stream(snapshot, capacity, history, joined, taken, since, minLevel)
              == Filter(history[..joined + taken], since, minLevel)
       <==> forall i :: 0 <= i < |history| && Missed(i, |snapshot|, capacity, joined) ==> !Passes(history[i], since, minLevel)
  {
    var evicted, gap := HistoryInFour(snapshot, capacity, history, joined, taken);
    var last, tail := Last(snapshot, capacity), history[joined..joined + taken];
    FilterInFour(evicted, last, gap, tail, since, minLevel);
    NothingBetweenIff(Filter(evicted, since, minLevel), Filter(last, since, minLevel),
                      Filter(gap, since, minLevel), Filter(tail, since, minLevel));
    NoneMissedIff(snapshot, capacity, history, joined, since, minLevel);
  }

  // --- resuming -----------------------------------------------------------------------------------------------

  /** Where a client that got these events would resume. */
  function ResumeAt(emitted: seq<LogEvent>, since: nat): nat {
    if emitted == [] then since else emitted[|emitted| - 1].id
  }

  lemma {:induction false} SameFilter(es: seq<LogEvent>, since: nat, later: nat, minLevel: int)
    requires forall i :: 0 <= i < |es| ==> (Passes(es[i], since, minLevel) <==> Passes(es[i], later, minLevel))
    ensures Filter(es, since, minLevel) == Filter(es, later, minLevel)
  {
    if es != [] {
      SameFilter(es[..|es| - 1], since, later, minLevel);
    }
  }

  /** Nothing of what was already gone through passes beyond the last ID sent. */
  lemma NothingBeyondLast(seen: seq<LogEvent>, since: nat, minLevel: int)
    requires Increasing(seen)
    ensures var later := ResumeAt(Filter(seen, since, minLevel), since);
            later >= since && Filter(seen, later, minLevel) == []
  {
    FilterKeepsOrder(seen, since, minLevel);
    var sent := Filter(seen, since, minLevel);
    var later := ResumeAt(sent, since);
    if sent != [] {
      assert sent[|sent| - 1] in sent;
    }
    forall i | 0 <= i < |seen| ensures !Passes(seen[i], later, minLevel) {
      if Passes(seen[i], since, minLevel) {
        assert seen[i] in sent;
        var j :| 0 <= j < |sent| && sent[j] == seen[i];
      }
    }
    FilterEmptyIff(seen, later, minLevel);
  }

  lemma LastSentIsOld(seen: seq<LogEvent>, since: nat, minLevel: int, bound: nat)
    requires Increasing(seen) && forall i :: 0 <= i < |seen| ==> seen[i].id <= bound
    ensures var later := ResumeAt(Filter(seen, since, minLevel), since); later == since || later <= bound
  {
    FilterKeepsOrder(seen, since, minLevel);
    var sent := Filter(seen, since, minLevel);
    if sent != [] {
      assert sent[|sent| - 1] in seen;
    }
  }

  /** What passed first and what passes beyond the last ID sent make up what passes. */
  lemma ResumedWhole(history: seq<LogEvent>, gone: nat, upto: nat, since: nat, minLevel: int)
    requires Numbered(history) && gone <= upto <= |history|
    ensures var first := Filter(history[..gone], since, minLevel);
            first + Filter(history[..upto], ResumeAt(first, since), minLevel) == Filter(history[..upto], since, minLevel)
  {
    var seen, rest := history[..gone], history[gone..upto];
    var later := ResumeAt(Filter(seen, since, minLevel), since);
    assert history[..upto] == seen + rest;
    FilterConcat(seen, rest, since, minLevel);
    FilterConcat(seen, rest, later, minLevel);
    NothingBeyondLast(seen, since, minLevel);
    LastSentIsOld(seen, since, minLevel, gone);
    SameFilter(rest, since, later, minLevel);
  }

  /**
   * A client that got everything up to some point and comes back with the last ID it was sent gets the
   * rest, nothing twice, exactly when no event beyond that ID that passes is missed by the new stream.
   */
  lemma ResumedGaplessIff(history: seq<LogEvent>, gone: nat, snapshot: seq<LogEvent>, capacity: nat, joined: nat, taken: nat,
                          since: nat, minLevel: int)
    requires Numbered(history) && Prefix(snapshot, history) && |snapshot| <= joined && gone <= joined + taken <= |history|
    ensures var first := Filter(history[..gone], since, minLevel);
            var later := ResumeAt(first, since);
            first + Stream(snapshot, capacity, history, joined, taken, later, minLevel)
              == Filter(history[..joined + taken], since, minLevel)
            <==> forall i :: 0 <= i < |history| && Missed(i, |snapshot|, capacity, joined) ==> !Passes(history[i], later, minLevel)
  {
    var first := Filter(history[..gone], since, minLevel);
    var later := ResumeAt(first, since);
    ResumedWhole(history, gone, joined + taken, since, minLevel);
    GaplessIff(snapshot, capacity, history, joined, taken, later, minLevel);
    PrefixCancels(first, Stream(snapshot, capacity, history, joined, taken, later, minLevel),
                  Filter(history[..joined + taken], later, minLevel));
  }

  lemma PrefixCancels(a: seq<LogEvent>, b: seq<LogEvent>, c: seq<LogEvent>)
    ensures a + b == a + c <==> b == c
  {
    if a + b == a + c {
      assert (a + b)[|a|..] == b && (a + c)[|a|..] == c;
    }
  }

  lemma {:induction false} FilterEmptyIff(es: seq<LogEvent>, since: nat, minLevel: int)
    ensures Filter(es, since, minLevel) == [] <==> forall i :: 0 <= i < |es| ==> !Passes(es[i], since, minLevel)
  {
    if es != [] {
      var n := |es| - 1;
      FilterEmptyIff(es[..n], since, minLevel);
      assert forall i :: 0 <= i < n ==> es[..n][i] == es[i];
    }
  }
}
