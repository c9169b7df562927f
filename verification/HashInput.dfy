/** What the score hashes: session and node key can be told apart in it. */
module HashInput {
  import opened Base
  import opened GoText
  import opened Fnv
  import opened Rendezvous

  // --- UTF-8 ---------------------------------------------------------------------------------------------------

  /** How many bytes a character has, by the first of them. */
  function Width(lead: Byte): (n: nat)
    ensures 1 <= n <= 4
  {
    if lead < 0x80 then 1 else if lead < 0xE0 then 2 else if lead < 0xF0 then 3 else 4
  }

  lemma CharWidth(c: char)
    ensures Utf8Char(c) != [] && |Utf8Char(c)| == Width(Utf8Char(c)[0])
    ensures 0 in Utf8Char(c) <==> c == '\0'
  {
  }

  function Above(b: int, mark: int): int {
    b - mark
  }

  /** The number a character's bytes stand for. */
  function CharCode(bytes: seq<Byte>): int
    requires bytes != [] && |bytes| == Width(bytes[0])
  {
    if |bytes| == 1 then bytes[0]
    else if |bytes| == 2 then Above(bytes[0], 0xC0) * 0x40 + Above(bytes[1], 0x80)
    else if |bytes| == 3 then Above(bytes[0], 0xE0) * 0x1000 + Above(bytes[1], 0x80) * 0x40 + Above(bytes[2], 0x80)
    else Above(bytes[0], 0xF0) * 0x4_0000 + Above(bytes[1], 0x80) * 0x1000 + Above(bytes[2], 0x80) * 0x40 + Above(bytes[3], 0x80)
  }

  lemma CharReadsBack(c: char)
    ensures Utf8Char(c) != [] && |Utf8Char(c)| == Width(Utf8Char(c)[0]) && CharCode(Utf8Char(c)) == c as int
  {
    var n := c as int;
    assert n / 0x1000 == n / 0x40 / 0x40 && n / 0x4_0000 == n / 0x40 / 0x40 / 0x40;
  }

  lemma FirstCharEqual(c: char, x: seq<Byte>, d: char, y: seq<Byte>)
    requires Utf8Char(c) + x == Utf8Char(d) + y
    ensures c == d && x == y
  {
    var a, b := Utf8Char(c), Utf8Char(d);
    CharReadsBack(c);
    CharReadsBack(d);
    assert (a + x)[0] == a[0] && (b + y)[0] == b[0];
    assert a == (a + x)[..|a|] && b == (b + y)[..|b|];
    assert x == (a + x)[|a|..] && y == (b + y)[|b|..];
    assert (c as int) as char == (d as int) as char;
  }

  /** Different texts have different bytes. */
  lemma {:induction false} Utf8Injective(s: string, t: string)
    requires Utf8(s) == Utf8(t)
    ensures s == t
  {
    if s != "" && t != "" {
      FirstCharEqual(s[0], Utf8(s[1..]), t[0], Utf8(t[1..]));
      Utf8Injective(s[1..], t[1..]);
      assert s == [s[0]] + s[1..] && t == [t[0]] + t[1..];
    } else if s != "" {
      CharWidth(s[0]);
    } else if t != "" {
      CharWidth(t[0]);
    }
  }

  lemma {:induction false} NoZeroByte(s: string)
    requires '\0' !in s
    ensures 0 !in Utf8(s)
  {
    if s != "" {
      assert s[0] in s && forall c :: c in s[1..] ==> c in s;
      NoZeroByte(s[1..]);
      CharWidth(s[0]);
    }
  }

  // --- session and node ------------------------------------------------------------------------------------------

  /** The bytes before the first zero. */
  function BeforeZero(bytes: seq<Byte>): nat {
    if bytes == [] || bytes[0] == 0 then 0 else 1 + BeforeZero(bytes[1..])
  }

  lemma {:induction false} BeforeZeroIs(a: seq<Byte>, b: seq<Byte>)
    requires 0 !in a
    ensures BeforeZero(a + [0] + b) == |a|
  {
    if a == [] {
      assert (a + [0] + b)[0] == 0;
    } else {
      assert (a + [0] + b)[1..] == a[1..] + [0] + b;
      BeforeZeroIs(a[1..], b);
    }
  }

  /** What is hashed for a session and a node. */
  function Hashed(session: string, node: string): seq<Byte> {
    Utf8(session) + [0] + Utf8(node)
  }

  /** The score is the hash of bytes that, sessions being free of zero characters, say which session and node it is of. */
  lemma ScoreTellsApart(session: string, node: string, other: string, another: string)
    requires '\0' !in session && '\0' !in other
    ensures Score(session, node) == Fnv1a(Hashed(session, node))
    ensures Hashed(session, node) == Hashed(other, another) <==> session == other && node == another
  {
    if Hashed(session, node) == Hashed(other, another) {
      NoZeroByte(session);
      NoZeroByte(other);
      BeforeZeroIs(Utf8(session), Utf8(node));
      BeforeZeroIs(Utf8(other), Utf8(another));
      var a, b := Hashed(session, node), Hashed(other, another);
      assert a[..|Utf8(session)|] == Utf8(session) && b[..|Utf8(other)|] == Utf8(other);
      assert a[|Utf8(session)| + 1..] == Utf8(node) && b[|Utf8(other)| + 1..] == Utf8(another);
      Utf8Injective(session, other);
      Utf8Injective(node, another);
    }
  }
}
