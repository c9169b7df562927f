/** What single operations mean for a caller: keys, marks, availability, and the strategies. */
module PoolLaws {
  import opened Base
  import opened GoText
  import opened Powers
  import opened ProxyPool
  import opened RoundRobinLaws
  import opened BackoffLaws
  import Fields

  // --- keys --------------------------------------------------------------------------------------------------

  /** An identifier is a key of its own; without one, two entries are told apart by address and user. */
  lemma SameKeyIff(a: Entry, b: Entry)
    requires '|' !in a.addr && '|' !in b.addr
    ensures !Blank(a.id) ==> a.Key() == a.id
    ensures Blank(a.id) && Blank(b.id) ==>
              (a.Key() == b.Key() <==> a.addr == b.addr && (a.username == b.username || (Blank(a.username) && Blank(b.username))))
  {
    if Blank(a.id) && Blank(b.id) && a.Key() == b.Key() {
      var x := if Blank(a.username) then "" else "|" + a.username;
      var y := if Blank(b.username) then "" else "|" + b.username;
      assert a.Key() == a.addr + x && b.Key() == b.addr + y;
      Fields.FreeThenRest(a.addr, x, b.addr, y, '|');
      if x != "" {
        Fields.LabelCancels("|", a.username, b.username);
      }
    }
  }

  // --- marks -------------------------------------------------------------------------------------------------

  /** A mark changes the entry its key stands for and no other. */
  lemma MarksTouchOne(s: State, op: Op, j: nat)
    requires j < |s.entries|
    requires (op.MarkSuccess? && j != LastIndex(s.entries, op.key)) || (op.MarkFailure? && j != LastIndex(s.entries, op.failedKey))
    ensures Apply(s, op).entries[j] == s.entries[j] && Apply(s, op).rr == s.rr
  {
  }

  /** A success makes its upstream available at any time, whatever failures came before. */
  lemma SuccessMakesAvailable(s: State, key: string, now: int)
    requires LastIndex(s.entries, key) >= 0
    ensures var t := Apply(s, MarkSuccess(key));
            var i := GetOf(t, key, now);
            && i >= 0 && t.entries[i].Key() == key && Selectable(t.entries[i], now)
            && t.entries[i].failures == 0 && t.entries[i].disabledUntil.None?
  {
    OpOnEntry(s, MarkSuccess(key), key);
  }

  /**
   * An entry with failures at these times behind it, as ConsecutiveFailures has it after any run, can be had
   * by its key from the very end of the closed-form backoff on, and selected after it, neither any earlier.
   */
  lemma AwayExactly(t: State, key: string, times: seq<int>, base: int, max: int, now: int) returns (end: int)
    requires LastIndex(t.entries, key) >= 0 && times != [] && Backed(t.entries[LastIndex(t.entries, key)], times, base, max)
    ensures end == times[|times| - 1] + if |times| == 1 then base else Min(base * Pow2(|times| - 1), max)
    ensures GetOf(t, key, now) == LastIndex(t.entries, key) <==> now >= end
    ensures Selectable(t.entries[LastIndex(t.entries, key)], now) <==> now > end
  {
    end := times[|times| - 1] + ClosedForm(|times|, base, max);
    AwayUntil(t, key, end, now);
  }

  lemma AwayUntil(t: State, key: string, end: int, now: int)
    requires var i := LastIndex(t.entries, key); i >= 0 && t.entries[i].disabledUntil == Some(end)
    ensures var i := LastIndex(t.entries, key);
            (GetOf(t, key, now) == i <==> now >= end) && (Selectable(t.entries[i], now) <==> now > end)
  {
  }

  // --- strategies ----------------------------------------------------------------------------------------------

  lemma {:induction false} DrawsFrom(es: seq<Entry>, now: int, draws: nat -> nat, i: nat) returns (d: nat)
    requires es != [] && i <= |es|
    ensures i <= d <= |es|
    ensures forall c :: i <= c < d ==> !Selectable(es[draws(c) % |es|], now)
    ensures d < |es| ==> Selectable(es[draws(d) % |es|], now)
    ensures RandomProbe(es, now, draws, i) == if d < |es| then draws(d) % |es| else -1
    decreases |es| - i
  {
    if i < |es| && !Selectable(es[draws(i) % |es|], now) {
      d := DrawsFrom(es, now, draws, i + 1);
    } else {
      d := i;
    }
  }

  /**
   * Under the random strategy as many positions are drawn as there are entries, and the first one drawn
   * that is selectable is returned; Next fails iff no draw hits one, and leaves the counter alone.
   */
  lemma RandomReturnsFirstHit(s: State, draws: nat -> nat, now: int) returns (d: nat)
    requires s.entries != []
    ensures NextOf(s, Random(draws), now).0 == s
    ensures d <= |s.entries| && forall c :: 0 <= c < d ==> !Selectable(s.entries[draws(c) % |s.entries|], now)
    ensures if d < |s.entries|
            then NextOf(s, Random(draws), now).1 == draws(d) % |s.entries| && Selectable(s.entries[draws(d) % |s.entries|], now)
            else NextOf(s, Random(draws), now).1 == -1
  {
    d := DrawsFrom(s.entries, now, draws, 0);
  }

  /** After an update round robin starts over: the first call begins at position 1, or at the only one. */
  lemma UpdateRestarts(s: State, es: seq<Entry>, now: int)
    requires es != [] && Selectable(es[1 % |es|], now)
    ensures NextOf(Apply(s, Op.Update(es)), RoundRobin, now).1 == 1 % |es|
  {
  }
}
