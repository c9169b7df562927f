/** 64-bit FNV-1a, the hash behind the rendezvous score. Words are numbers below 2^64. */
module Fnv {
  import opened Base
  import opened Powers

  const OFFSET64: Word := 14695981039346656037
  const PRIME64: Word := 1099511628211
  // PRIME64 * PRIME64_INVERSE == 1 + 887285111055 * 2^64: the prime is odd, so it can be divided out.
  const PRIME64_INVERSE: Word := 14886173955864302971

  /** Bitwise exclusive-or. */
  function Xor(a: nat, b: nat): nat
    decreases a + b
  {
    if a == 0 && b == 0 then 0
    else 2 * Xor(a / 2, b / 2) + (if a % 2 == b % 2 then 0 else 1)
  }

  lemma {:induction false} XorBound(a: nat, b: nat, k: nat)
    requires a < Pow2(k) && b < Pow2(k)
    ensures Xor(a, b) < Pow2(k)
  {
    if k > 0 {
      XorBound(a / 2, b / 2, k - 1);
    }
  }

  lemma {:induction false} XorTwice(a: nat, b: nat)
    ensures Xor(Xor(a, b), b) == a
    decreases a + b
  {
    if a != 0 || b != 0 {
      XorTwice(a / 2, b / 2);
      var x := Xor(a, b);
      assert x / 2 == Xor(a / 2, b / 2) && x % 2 == (if a % 2 == b % 2 then 0 else 1);
    }
  }

  lemma {:induction false} XorSymmetric(a: nat, b: nat)
    ensures Xor(a, b) == Xor(b, a)
    decreases a + b
  {
    if a != 0 || b != 0 {
      XorSymmetric(a / 2, b / 2);
    }
  }

  lemma Pow2At64()
    ensures Pow2(64) == TWO_TO_THE_64
  {
    assert Pow2(8) == 0x100;
    assert Pow2(16) == 0x1_0000;
    assert Pow2(24) == 0x100_0000;
    assert Pow2(32) == 0x1_0000_0000;
    assert Pow2(40) == 0x100_0000_0000;
    assert Pow2(48) == 0x1_0000_0000_0000;
    assert Pow2(56) == 0x100_0000_0000_0000;
  }

  /** The exclusive-or of two 64-bit words is a 64-bit word. */
  function XorWord(a: Word, b: Word): Word {
    Pow2At64();
    XorBound(a, b, 64);
    Xor(a, b)
  }

  function MulWord(a: Word, b: Word): Word {
    (a * b) % TWO_TO_THE_64
  }

  /** One byte: exclusive-or into the state, then multiply by the prime modulo 2^64. */
  function Step(h: Word, b: Byte): Word {
    MulWord(XorWord(h, b), PRIME64)
  }

  function Unstep(h: Word, b: Byte): Word {
    XorWord(MulWord(h, PRIME64_INVERSE), b)
  }

  lemma ModShift(x: int, z: int)
    requires 0 <= x < TWO_TO_THE_64
    ensures (x + TWO_TO_THE_64 * z) % TWO_TO_THE_64 == x
  {
  }

  lemma MulUndone(x: Word)
    ensures MulWord(MulWord(x, PRIME64), PRIME64_INVERSE) == x
    ensures MulWord(MulWord(x, PRIME64_INVERSE), PRIME64) == x
  {
    var k := (x * PRIME64) / TWO_TO_THE_64;
    assert MulWord(x, PRIME64) * PRIME64_INVERSE
           == x + TWO_TO_THE_64 * (887285111055 * x - k * PRIME64_INVERSE);
    ModShift(x, 887285111055 * x - k * PRIME64_INVERSE);
    var l := (x * PRIME64_INVERSE) / TWO_TO_THE_64;
    assert MulWord(x, PRIME64_INVERSE) * PRIME64
           == x + TWO_TO_THE_64 * (887285111055 * x - l * PRIME64);
    ModShift(x, 887285111055 * x - l * PRIME64);
  }

  /** Each byte step is a bijection on 64-bit states: Unstep is its two-sided inverse. */
  lemma StepBijective(h: Word, b: Byte)
    ensures Unstep(Step(h, b), b) == h
    ensures Step(Unstep(h, b), b) == h
  {
    MulUndone(XorWord(h, b));
    XorTwice(h, b);
    MulUndone(h);
    XorTwice(MulWord(h, PRIME64_INVERSE), b);
  }

  /** From one state, different bytes lead to different states. */
  lemma StepSeparatesBytes(h: Word, a: Byte, b: Byte)
    ensures Step(h, a) == Step(h, b) <==> a == b
  {
    if Step(h, a) == Step(h, b) {
      MulUndone(XorWord(h, a));
      MulUndone(XorWord(h, b));
      XorSymmetric(h, a);
      XorSymmetric(h, b);
      XorTwice(a, h);
      XorTwice(b, h);
    }
  }

  /** Absorbing bytes one at a time, left to right. */
  function Absorb(h: Word, bytes: seq<Byte>): Word {
    if bytes == [] then h else Step(Absorb(h, bytes[..|bytes| - 1]), bytes[|bytes| - 1])
  }

  /** FNV-1a of a byte string (section 2 of draft-eastlake-fnv). */
  function Fnv1a(bytes: seq<Byte>): Word {
    Absorb(OFFSET64, bytes)
  }

  lemma AbsorbNext(h: Word, bytes: seq<Byte>, b: Byte)
    ensures Absorb(h, bytes + [b]) == Step(Absorb(h, bytes), b)
  {
    assert (bytes + [b])[..|bytes|] == bytes;
  }

  lemma {:induction false} AbsorbConcat(h: Word, a: seq<Byte>, b: seq<Byte>)
    ensures Absorb(h, a + b) == Absorb(Absorb(h, a), b)
  {
    if b == [] {
      assert a + b == a;
    } else {
      var last := |b| - 1;
      assert (a + b)[..|a + b| - 1] == a + b[..last];
      AbsorbConcat(h, a, b[..last]);
    }
  }

  /** A common suffix keeps different states apart. */
  lemma {:induction false} AbsorbInjective(h: Word, g: Word, bytes: seq<Byte>)
    requires Absorb(h, bytes) == Absorb(g, bytes)
    ensures h == g
  {
    if bytes != [] {
      var last := |bytes| - 1;
      StepBijective(Absorb(h, bytes[..last]), bytes[last]);
      StepBijective(Absorb(g, bytes[..last]), bytes[last]);
      AbsorbInjective(h, g, bytes[..last]);
    }
  }

  predicate DifferAtOneByte(a: seq<Byte>, b: seq<Byte>, i: nat) {
    |a| == |b| && i < |a| && a[i] != b[i] && a[..i] == b[..i] && a[i + 1..] == b[i + 1..]
  }

  /** Byte strings of one length that differ in exactly one byte never collide, from any state. */
  lemma OneByteNeverCollides(h: Word, a: seq<Byte>, b: seq<Byte>, i: nat)
    requires DifferAtOneByte(a, b, i)
    ensures Absorb(h, a) != Absorb(h, b)
  {
    var tail := a[i + 1..];
    assert a == a[..i + 1] + tail && b == b[..i + 1] + tail;
    AbsorbConcat(h, a[..i + 1], tail);
    AbsorbConcat(h, b[..i + 1], tail);
    assert a[..i + 1][..i] == a[..i] && b[..i + 1][..i] == b[..i];
    if Absorb(h, a) == Absorb(h, b) {
      AbsorbInjective(Absorb(h, a[..i + 1]), Absorb(h, b[..i + 1]), tail);
      StepSeparatesBytes(Absorb(h, a[..i]), a[i], b[i]);
    }
  }

  // --- published values -------------------------------------------------------------------------------------

  lemma {:induction false} XorZero(a: nat)
    ensures Xor(a, 0) == a
  {
    if a > 0 {
      XorZero(a / 2);
    }
  }

  lemma HalfOfSum(q: nat, p: nat, r: nat)
    ensures (q * (2 * p) + r) / 2 == q * p + r / 2 && (q * (2 * p) + r) % 2 == r % 2
  {
    assert q * (2 * p) == 2 * (q * p);
  }

  /** The low bits are combined, the high bits stay. */
  lemma {:induction false} XorLow(q: nat, r: nat, b: nat, k: nat)
    requires r < Pow2(k) && b < Pow2(k)
    ensures Xor(q * Pow2(k) + r, b) == q * Pow2(k) + Xor(r, b)
  {
    if k == 0 {
      XorZero(q);
    } else {
      var p := Pow2(k - 1);
      HalfOfSum(q, p, r);
      XorLow(q, r / 2, b / 2, k - 1);
      assert q * Pow2(k) == 2 * (q * p);
    }
  }

  /** One step, worked out on the low byte of the state. */
  lemma StepValue(h: Word, b: Byte, r: Byte, low: Byte)
    requires h % 256 == r && Xor(r, b) == low
    ensures Step(h, b) == ((h - r + low) * PRIME64) % TWO_TO_THE_64
  {
    assert Pow2(8) == 256;
    XorLow(h / 256, r, b, 8);
    assert h == h / 256 * 256 + r;
  }

  lemma LowByteOfOffset()
    ensures OFFSET64 % 256 == 0x25
  {
  }

  lemma LowBytesCombined()
    ensures Xor(0x25, 0x61) == 0x44
  {
    assert Xor(0x2, 0x6) == 0x4;
    assert Xor(0x25 / 2, 0x61 / 2) == 0x22;
  }

  lemma LetterProduct()
    ensures ((OFFSET64 - 0x25 + 0x44) * PRIME64) % TWO_TO_THE_64 == 0xaf63dc4c8601ec8c
  {
  }

  lemma LetterStep(h: Word, b: Byte, r: Byte, low: Byte)
    requires h == OFFSET64 && h % 256 == r == 0x25 && Xor(r, b) == low == 0x44
    ensures Step(h, b) == 0xaf63dc4c8601ec8c
  {
    StepValue(h, b, r, low);
    LetterProduct();
  }

  lemma AbsorbLetter(h: Word, letter: seq<Byte>)
    requires |letter| == 1
    ensures Absorb(h, letter) == Step(h, letter[0])
  {
    assert letter[..0] == [];
  }

  /** The hashes of "" and "a" that are published with the function. */
  lemma PublishedHashes(empty: seq<Byte>, letter: seq<Byte>)
    requires empty == [] && |letter| == 1 && letter[0] == 0x61
    ensures Fnv1a(empty) == 0xcbf29ce484222325 && Fnv1a(letter) == 0xaf63dc4c8601ec8c
  {
    AbsorbLetter(OFFSET64, letter);
    LowByteOfOffset();
    LowBytesCombined();
    LetterStep(OFFSET64, letter[0], 0x25, 0x44);
  }
}
