/** The log ring buffer with its subscribers, and the server-sent-events reader on top of it. */
module LogBuffer {
  import opened Base
  import opened ModLaws
  import opened LogStream

  /** The slot of the i-th oldest event, without the remainder operation. */
  function Slot(start: nat, i: nat, capacity: nat): (s: nat)
    requires start < capacity && i <= capacity
    ensures s < capacity
  {
    if start + i < capacity then start + i else start + i - capacity
  }

  lemma SlotIsRemainder(start: nat, i: nat, capacity: nat)
    requires start < capacity && i <= capacity
    ensures (start + i) % capacity == Slot(start, i, capacity)
  {
    RemainderUnique(start + i, if start + i < capacity then 0 else 1, capacity, Slot(start, i, capacity));
  }

  /** The slots hold the last events of the history, oldest first from start, wrapping around. */
  predicate Ring(slots: seq<LogEvent>, start: nat, size: nat, history: seq<LogEvent>) {
    var capacity := |slots|;
    && size == (if |history| <= capacity then |history| else capacity)
    && (if capacity == 0 then start == 0 else start < capacity)
    && (size < capacity ==> start == 0)
    && forall i :: 0 <= i < size ==> slots[Slot(start, i, capacity)] == history[|history| - size + i]
  }

  /** The slot of the i-th retained event holds the event with ID nextID - size + 1 + i. */
  lemma SlotHoldsID(slots: seq<LogEvent>, start: nat, size: nat, history: seq<LogEvent>, i: nat)
    requires Ring(slots, start, size, history) && Numbered(history) && i < size
    ensures slots[(start + i) % |slots|].id == |history| - size + 1 + i
  {
    SlotIsRemainder(start, i, |slots|);
  }

  lemma FillKeepsRing(slots: seq<LogEvent>, size: nat, history: seq<LogEvent>, e: LogEvent)
    requires Ring(slots, 0, size, history) && size < |slots|
    ensures Ring(slots[size := e], 0, size + 1, history + [e])
  {
  }

  lemma OverwriteKeepsRing(slots: seq<LogEvent>, start: nat, history: seq<LogEvent>, e: LogEvent)
    requires |slots| > 0 && Ring(slots, start, |slots|, history)
    ensures Ring(slots[start := e], Slot(start, 1, |slots|), |slots|, history + [e])
  {
    var n, next, longer := |slots|, Slot(start, 1, |slots|), history + [e];
    forall i | 0 <= i < n ensures slots[start := e][Slot(next, i, n)] == longer[|longer| - n + i] {
      if i < n - 1 {
        assert Slot(next, i, n) == Slot(start, i + 1, n) != start;
      }
    }
  }

  class LogBuffer {
    const capacity: nat
    const events: array<LogEvent>
    var start: nat
    var size: nat
    var nextID: nat
    // A channel goes by its subscription number: chans are the channels themselves, each still held
    // by its reader, and subs those that Append sends to.
    var subs: set<nat>
    var chans: map<nat, Chan>
    var nextSubID: nat
    ghost var history: seq<LogEvent>

    /** The ring holds the last events of the history, oldest first from start. */
    ghost predicate RingValid()
      reads this, events
    {
      events.Length == capacity && nextID == |history| && Ring(events[..], start, size, history)
    }

    ghost function Value(): State
      reads this
    {
      State(capacity, history, subs, chans, nextSubID)
    }

    ghost predicate Valid()
      reads this, events
    {
      RingValid() && Good(Value())
    }

    constructor (lines: int)
      ensures Valid() && fresh(events)
      ensures Value() == Initial(if lines <= 0 then 0 else lines)
    {
      var n: nat := if lines <= 0 then 0 else lines;
      capacity := n;
      events := new LogEvent[n](_ => LogEvent(0, 0, 0, "", map[]));
      start, size, nextID, nextSubID := 0, 0, 0, 0;
      subs, chans := {}, map[];
      history := [];
    }

    /** Writing one event into the ring, over the oldest once the ring is full. */
    method Store(e: LogEvent)
      requires RingValid()
      modifies events, this`start, this`size, this`nextID, this`history
      ensures RingValid() && history == old(history) + [e]
    {
      ghost var slots := events[..];
      if capacity > 0 {
        SlotIsRemainder(start, size, capacity);
        var idx := (start + size) % capacity;
        if size < capacity {
          FillKeepsRing(slots, size, history, e);
          size := size + 1;
        } else {
          SlotIsRemainder(start, 1, capacity);
          OverwriteKeepsRing(slots, start, history, e);
          start := (start + 1) % capacity;
        }
        events[idx] := e;
        assert events[..] == slots[idx := e];
      }
      nextID := nextID + 1;
      history := history + [e];
    }

    /** Offering an event to every subscriber, in whatever order the map yields them. */
    method Broadcast(e: LogEvent)
      requires subs <= chans.Keys && forall id :: id in subs ==> !chans[id].closed
      modifies this`subs, this`chans
      ensures subs == set id | id in old(subs) && |old(chans)[id].queue| < old(chans)[id].capacity
      ensures chans == map id | id in old(chans)
                :: if id in old(subs) then Offer(old(chans)[id], e) else old(chans)[id]
    {
      var pending := subs;
      while pending != {}
        invariant pending <= old(subs) && chans.Keys == old(chans).Keys
        invariant subs == set id | id in old(subs) && (id in pending || HasRoom(old(chans)[id]))
        invariant forall id :: id in chans ==>
                    chans[id] == if id in old(subs) && id !in pending then Offer(old(chans)[id], e) else old(chans)[id]
      {
        var id :| id in pending;
        assert !chans[id].closed;
        if HasRoom(chans[id]) {
          chans := chans[id := chans[id].(queue := chans[id].queue + [e])];
        } else {
          chans := chans[id := Close(chans[id])];
          subs := subs - {id};
        }
        pending := pending - {id};
      }
    }

    method Append(event: LogEvent) returns (e: LogEvent)
      requires Valid()
      modifies this`start, this`size, this`nextID, this`history, this`subs, this`chans, events
      ensures Valid() && Value() == AppendOf(old(Value()), event)
      ensures e == Stamped(old(history), event)
    {
      ApplyKeepsGood(Value(), Op.Append(event));
      e := event.(id := nextID + 1);
      Store(e);
      Broadcast(e);
      assert Value() == AppendOf(old(Value()), event);
    }

    /** The retained events that pass, oldest first. */
    method SnapshotSince(since: nat, minLevel: int) returns (out: seq<LogEvent>)
      requires Valid()
      ensures out == Filter(Last(history, capacity), since, minLevel)
    {
      out := [];
      if capacity == 0 || size == 0 {
        assert Last(history, capacity) == [];
        return;
      }
      ghost var last := Last(history, capacity);
      assert |last| == size;
      var i := 0;
      while i < size
        invariant 0 <= i <= size
        invariant out == Filter(last[..i], since, minLevel)
      {
        SlotIsRemainder(start, i, capacity);
        var e := events[(start + i) % capacity];
        assert e == events[..][Slot(start, i, capacity)] == last[i];
        FilterAppended(last[..i], e, since, minLevel);
        assert last[..i + 1] == last[..i] + [e];
        if e.id <= since {
        } else if e.level < minLevel {
        } else {
          out := out + [e];
        }
        i := i + 1;
      }
      assert last[..i] == last;
    }

    method Subscribe(buffer: int) returns (id: nat)
      requires Valid()
      modifies this`subs, this`chans, this`nextSubID
      ensures Valid() && Value() == SubscribeOf(old(Value()), buffer)
      ensures id == nextSubID
    {
      ApplyKeepsGood(Value(), Op.Subscribe(buffer));
      var room := if buffer <= 0 then 256 else buffer;
      nextSubID := nextSubID + 1;
      id := nextSubID;
      chans := chans[id := Chan(room, [], false, [], nextID, 0)];
      subs := subs + {id};
      assert Value() == SubscribeOf(old(Value()), buffer);
    }

    /** The cancel closure that Subscribe returns. */
    method Cancel(id: nat)
      requires Valid()
      modifies this`subs, this`chans
      ensures Valid() && Value() == CancelOf(old(Value()), id)
    {
      ApplyKeepsGood(Value(), Op.Cancel(id));
      if id in subs {
        assert !chans[id].closed;
        chans := chans[id := Close(chans[id])];
        subs := subs - {id};
      }
    }

    /** A receive: the oldest queued event, or None when nothing is queued. */
    method Receive(id: nat) returns (e: Option<LogEvent>)
      requires Valid()
      modifies this`chans
      ensures Valid() && Value() == ReceiveOf(old(Value()), id)
      ensures e == if id in old(chans) && old(chans)[id].queue != [] then Some(old(chans)[id].queue[0]) else None
    {
      ApplyKeepsGood(Value(), Op.Receive(id));
      e := None;
      if id in chans {
        if chans[id].queue != [] {
          e := Some(chans[id].queue[0]);
        }
        chans := chans[id := TakeOne(chans[id])];
      }
      assert Value() == ReceiveOf(old(Value()), id);
    }

    method Do(op: Op)
      requires Valid()
      modifies this`start, this`size, this`nextID, this`history, this`subs, this`chans, this`nextSubID, events
      ensures Valid() && Value() == Apply(old(Value()), op)
    {
      match op {
        case Append(e) =>
          var _ := Append(e);
        case Subscribe(buffer) =>
          var _ := Subscribe(buffer);
        case Cancel(id) =>
          Cancel(id);
        case Receive(id) =>
          var _ := Receive(id);
      }
    }
  }
}
