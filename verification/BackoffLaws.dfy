/** Exponential backoff: its closed form, its shape, and what a run of failures leaves behind. */
module BackoffLaws {
  import opened Base
  import opened Powers
  import opened ProxyPool
  import opened RoundRobinLaws

  /** Durations for which doubling stays within a 64-bit time.Duration. */
  predicate Representable(base: int, max: int) {
    0 < base && 2 * base < TWO_TO_THE_63 && 2 * max < TWO_TO_THE_63
  }

  /** Wrapping gives the number within 64-bit bounds that is the same modulo 2^64. */
  lemma WrapIsTwosComplement(x: int) returns (k: int)
    ensures -TWO_TO_THE_63 <= Wrap(x) < TWO_TO_THE_63 && Wrap(x) == x - k * TWO_TO_THE_64
  {
    k := (x + TWO_TO_THE_63) / TWO_TO_THE_64;
  }

  /** Beyond representable settings doubling overflows: the second failure in a row ends its backoff at once. */
  lemma OverflowEndsBackoff(max: int)
    requires max > 0
    ensures BackoffOf(1, TWO_TO_THE_63 / 2, max) == TWO_TO_THE_63 / 2
    ensures BackoffOf(2, TWO_TO_THE_63 / 2, max) == -TWO_TO_THE_63
  {
  }

  function Min(a: int, b: int): int {
    if a <= b then a else b
  }

  /** The first backoff is base, even above max; every later one is base * 2^(f-1), capped. */
  function ClosedForm(f: int, base: int, max: int): int {
    if f <= 1 then base else Min(base * Pow2(f - 1), max)
  }

  function Doubled(b: int, k: nat): int
    decreases k
  {
    if k == 0 then b else Doubled(2 * b, k - 1)
  }

  lemma {:induction false} DoubledIsScaled(b: int, k: nat)
    ensures Doubled(b, k) == b * Pow2(k)
    decreases k
  {
    if k > 0 {
      DoubledIsScaled(2 * b, k - 1);
      var p := Pow2(k - 1);
      assert b * (2 * p) == (2 * b) * p;
    }
  }

  lemma {:induction false} DoubledGrows(b: int, k: nat)
    requires b > 0
    ensures b <= Doubled(b, k) < Doubled(b, k + 1)
    decreases k
  {
    if k > 0 {
      DoubledGrows(2 * b, k - 1);
    }
  }

  lemma {:induction false} DoublingClosedForm(b: int, i: int, f: int, max: int)
    requires Representable(b, max) && i <= f
    ensures Doubling(b, i, f, max) == if i == f then b else Min(Doubled(b, f - i), max)
    decreases f - i
  {
    if i < f {
      assert Wrap(b * 2) == 2 * b;
      if 2 * b < max {
        DoublingClosedForm(2 * b, i + 1, f, max);
      } else {
        DoubledGrows(2 * b, f - i - 1);
      }
    }
  }

  lemma BackoffClosedForm(f: int, base: int, max: int)
    requires Representable(base, max)
    ensures BackoffOf(f, base, max) == ClosedForm(f, base, max)
  {
    if f >= 1 {
      DoublingClosedForm(base, 1, f, max);
      DoubledIsScaled(base, f - 1);
    }
  }

  lemma ClosedFormStep(f: int, base: int, max: int)
    requires 0 < base <= max
    ensures ClosedForm(f, base, max) <= ClosedForm(f + 1, base, max)
    ensures base <= ClosedForm(f, base, max) <= max
  {
    if f >= 1 {
      DoubledIsScaled(base, f - 1);
      DoubledIsScaled(base, f);
      DoubledGrows(base, f - 1);
    }
  }

  /** Backoffs never shrink from one failure to the next exactly when base does not exceed max. */
  lemma NondecreasingIff(base: int, max: int)
    requires Representable(base, max)
    ensures base <= max <==> forall f :: f >= 1 ==> BackoffOf(f, base, max) <= BackoffOf(f + 1, base, max)
  {
    BackoffClosedForm(1, base, max);
    BackoffClosedForm(2, base, max);
    assert Pow2(1) == 2;
    if base <= max {
      forall f | f >= 1 ensures BackoffOf(f, base, max) <= BackoffOf(f + 1, base, max) {
        BackoffClosedForm(f, base, max);
        BackoffClosedForm(f + 1, base, max);
        ClosedFormStep(f, base, max);
      }
    } else {
      assert BackoffOf(1, base, max) > BackoffOf(1 + 1, base, max);
    }
  }

  /** A failed entry stays away for at least base, or max where that is less. */
  lemma BackoffAtLeastShortest(f: int, base: int, max: int)
    requires Representable(base, max)
    ensures Min(base, max) <= BackoffOf(f, base, max)
  {
    BackoffClosedForm(f, base, max);
    if f >= 2 {
      DoubledIsScaled(base, f - 1);
      DoubledGrows(base, f - 1);
    }
  }

  /** No longer time is certain: the shorter of base and max is the greatest lower bound of the backoffs. */
  lemma ShortestBackoffIff(m: int, base: int, max: int)
    requires Representable(base, max)
    ensures m <= Min(base, max) <==> forall f :: f >= 1 ==> m <= BackoffOf(f, base, max)
  {
    BackoffClosedForm(1, base, max);
    BackoffClosedForm(2, base, max);
    assert Pow2(1) == 2;
    if m <= Min(base, max) {
      forall f | f >= 1 ensures m <= BackoffOf(f, base, max) {
        BackoffAtLeastShortest(f, base, max);
      }
    } else {
      assert BackoffOf(1, base, max) < m || BackoffOf(1 + 1, base, max) < m;
    }
  }

  lemma LastIndexUnique(es: seq<Entry>, key: string, i: nat)
    requires i < |es| && es[i].Key() == key
    requires forall j :: i < j < |es| ==> es[j].Key() != key
    ensures LastIndex(es, key) == i
  {
  }

  /** With distinct keys the index is a bijection onto positions. */
  lemma IndexIsBijection(es: seq<Entry>, i: nat)
    requires DistinctKeys(es) && i < |es|
    ensures LastIndex(es, es[i].Key()) == i
  {
    LastIndexUnique(es, es[i].Key(), i);
  }

  // --- a run of failures ----------------------------------------------------------------------

  /** No success for the key, no Update, and the same backoff settings throughout. */
  predicate FailureRun(ops: seq<Op>, key: string, base: int, max: int) {
    NoUpdate(ops) && forall t :: 0 <= t < |ops| ==>
      && (ops[t].MarkSuccess? ==> ops[t].key != key)
      && (ops[t].MarkFailure? && ops[t].failedKey == key ==> ops[t].base == base && ops[t].max == max)
  }

  function FailureTimes(ops: seq<Op>, key: string): seq<int> {
    if ops == [] then []
    else
      var init := FailureTimes(ops[..|ops| - 1], key);
      var op := ops[|ops| - 1];
      if op.MarkFailure? && op.failedKey == key then init + [op.failedAt] else init
  }

  predicate Backed(e: Entry, times: seq<int>, base: int, max: int) {
    && e.failures == |times|
    && (times != [] ==> e.disabledUntil == Some(times[|times| - 1] + ClosedForm(|times|, base, max)))
  }

  /** What one operation does to the entry a key stands for. */
  lemma OpOnEntry(s: State, op: Op, key: string)
    requires !op.Update? && LastIndex(s.entries, key) >= 0
    ensures LastIndex(Apply(s, op).entries, key) == LastIndex(s.entries, key)
    ensures var i := LastIndex(s.entries, key);
            Apply(s, op).entries[i] ==
              if op == MarkSuccess(key) then s.entries[i].(failures := 0, disabledUntil := None)
              else if op.MarkFailure? && op.failedKey == key then
                s.entries[i].(failures := s.entries[i].failures + 1,
                              disabledUntil := Some(op.failedAt + BackoffOf(s.entries[i].failures + 1, op.base, op.max)))
              else s.entries[i]
  {
    OpOnKey(s, op, key);
  }

  lemma OpOnKey(s: State, op: Op, key: string)
    requires !op.Update? && LastIndex(s.entries, key) >= 0
    ensures LastIndex(Apply(s, op).entries, key) == LastIndex(s.entries, key)
    ensures var i := LastIndex(s.entries, key);
            Apply(s, op).entries[i] ==
              if op == MarkSuccess(key) then Recovered(s.entries[i])
              else if op.MarkFailure? && op.failedKey == key then Failed(s.entries[i], op.failedAt, op.base, op.max)
              else s.entries[i]
  {
    ApplyKeepsKeys(s, op);
    LastIndexByKeys(Apply(s, op).entries, s.entries, key);
  }

  lemma FailureBacks(e: Entry, times: seq<int>, at: int, base: int, max: int)
    requires Representable(base, max) && Backed(e, times, base, max)
    ensures Backed(Failed(e, at, base, max), times + [at], base, max)
  {
    BackoffClosedForm(e.failures + 1, base, max);
  }

  /**
   * After f consecutive failures, whatever else happened to the pool meanwhile, the entry is
   * disabled until the closed-form backoff has passed since the last of them.
   */
  lemma {:induction false} ConsecutiveFailures(s: State, ops: seq<Op>, key: string, base: int, max: int)
    requires Representable(base, max) && FailureRun(ops, key, base, max)
    requires var i := LastIndex(s.entries, key); i >= 0 && s.entries[i].failures == 0
    ensures LastIndex(ApplyAll(s, ops).entries, key) == LastIndex(s.entries, key)
    ensures Backed(ApplyAll(s, ops).entries[LastIndex(s.entries, key)], FailureTimes(ops, key), base, max)
  {
    if ops != [] {
      var n := |ops| - 1;
      ConsecutiveFailures(s, ops[..n], key, base, max);
      var before := ApplyAll(s, ops[..n]);
      OpOnEntry(before, ops[n], key);
      if ops[n].MarkFailure? && ops[n].failedKey == key {
        var e := before.entries[LastIndex(s.entries, key)];
        FailureBacks(e, FailureTimes(ops[..n], key), ops[n].failedAt, base, max);
      }
    }
  }

  /** One success forgets the failures: the next backoff is base again. */
  lemma SuccessResets(s: State, key: string, at: int, base: int, max: int)
    requires Representable(base, max) && LastIndex(s.entries, key) >= 0
    ensures var i := LastIndex(s.entries, key);
            var after := Apply(Apply(s, MarkSuccess(key)), MarkFailure(key, at, base, max));
            i < |after.entries| && Backed(after.entries[i], [at], base, max)
  {
    OpOnEntry(s, MarkSuccess(key), key);
    FirstFailureBacks(Apply(s, MarkSuccess(key)), key, at, base, max);
  }

  lemma FirstFailureBacks(s: State, key: string, at: int, base: int, max: int)
    requires Representable(base, max)
    requires var i := LastIndex(s.entries, key); i >= 0 && s.entries[i].failures == 0
    ensures var i, after := LastIndex(s.entries, key), Apply(s, MarkFailure(key, at, base, max));
            i < |after.entries| && Backed(after.entries[i], [at], base, max)
  {
    OpOnKey(s, MarkFailure(key, at, base, max), key);
    FailureBacks(s.entries[LastIndex(s.entries, key)], [], at, base, max);
  }
}
