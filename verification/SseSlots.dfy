/**
 * The slots of the log endpoint: a channel of fixed capacity that every streaming client holds an
 * element of. Clients come, are served or refused, and leave in any order; every interleaving is a run.
 */
module SseSlots {

  /** sem is the number of elements in the channel; clients go by number, each connecting once. */
  datatype State = State(sem: nat, streaming: set<nat>, refused: set<nat>, gone: set<nat>)

  datatype Move = Connect(client: nat) | Leave(client: nat)

  function Initial(): State {
    State(0, {}, {}, {})
  }

  predicate Known(s: State, i: nat) {
    i in s.streaming || i in s.refused || i in s.gone
  }

  /** Connecting never waits; leaving takes an element out of the channel, which waits while it is empty. */
  predicate Enabled(s: State, m: Move) {
    match m
    case Connect(i) => !Known(s, i)
    case Leave(i) => i in s.streaming && s.sem > 0
  }

  function Step(slots: nat, s: State, m: Move): State
    requires Enabled(s, m)
  {
    match m
    case Connect(i) =>
      if s.sem < slots then s.(sem := s.sem + 1, streaming := s.streaming + {i}) else s.(refused := s.refused + {i})
    case Leave(i) => s.(sem := s.sem - 1, streaming := s.streaming - {i}, gone := s.gone + {i})
  }

  predicate Inv(slots: nat, s: State) {
    s.sem == |s.streaming| <= slots && s.streaming !! s.refused && s.streaming !! s.gone
  }

  lemma StepKeepsInv(slots: nat, s: State, m: Move)
    requires Inv(slots, s) && Enabled(s, m)
    ensures Inv(slots, Step(slots, s, m))
  {
  }

  /** Giving a slot back never waits. */
  lemma LeavingNeverWaits(slots: nat, s: State, i: nat)
    requires Inv(slots, s) && i in s.streaming
    ensures Enabled(s, Leave(i))
  {
    assert s.streaming == (s.streaming - {i}) + {i};
  }

  predicate IsRun(slots: nat, states: seq<State>, moves: seq<Move>) {
    && |states| == |moves| + 1 && states[0] == Initial()
    && forall t :: 0 <= t < |moves| ==> Enabled(states[t], moves[t]) && states[t + 1] == Step(slots, states[t], moves[t])
  }

  lemma {:induction false} RunInv(slots: nat, states: seq<State>, moves: seq<Move>, t: nat)
    requires IsRun(slots, states, moves) && t <= |moves|
    ensures Inv(slots, states[t])
  {
    if t > 0 {
      RunInv(slots, states, moves, t - 1);
      StepKeepsInv(slots, states[t - 1], moves[t - 1]);
    }
  }

  /** In every interleaving at most `slots` clients stream, and a client is refused only while that many do. */
  lemma CapHolds(slots: nat, states: seq<State>, moves: seq<Move>, t: nat)
    requires IsRun(slots, states, moves) && t <= |moves|
    ensures |states[t].streaming| <= slots
    ensures t < |moves| && moves[t].Connect? ==>
              (moves[t].client in states[t + 1].refused <==> |states[t].streaming| == slots)
  {
    RunInv(slots, states, moves, t);
    if t < |moves| && moves[t].Connect? {
      assert states[t + 1] == Step(slots, states[t], moves[t]);
    }
  }

  /** How often a client has given a slot back. */
  function Returns(moves: seq<Move>, i: nat): nat {
    if moves == [] then 0 else Returns(moves[..|moves| - 1], i) + (if moves[|moves| - 1] == Leave(i) then 1 else 0)
  }

  predicate ReturnsMatch(s: State, moves: seq<Move>, i: nat) {
    Returns(moves, i) == (if i in s.gone then 1 else 0)
  }

  lemma ReturnsMatchStep(slots: nat, s: State, moves: seq<Move>, m: Move, i: nat)
    requires Inv(slots, s) && Enabled(s, m) && ReturnsMatch(s, moves, i)
    ensures ReturnsMatch(Step(slots, s, m), moves + [m], i)
  {
    assert (moves + [m])[..|moves|] == moves;
  }

  /** A client that was served and is gone has given back one slot, any other none. */
  lemma {:induction false} EachSlotReturnedOnce(slots: nat, states: seq<State>, moves: seq<Move>, i: nat, t: nat)
    requires IsRun(slots, states, moves) && t <= |moves|
    ensures Returns(moves[..t], i) == if i in states[t].gone then 1 else 0
  {
    if t > 0 {
      EachSlotReturnedOnce(slots, states, moves, i, t - 1);
      RunInv(slots, states, moves, t - 1);
      ReturnsMatchStep(slots, states[t - 1], moves[..t - 1], moves[t - 1], i);
      assert moves[..t] == moves[..t - 1] + [moves[t - 1]];
    }
  }
}
