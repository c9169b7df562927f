/** The few string operations of Go's standard library that the proxy decides by. */
module GoText {
  import opened Base

  /** unicode.IsSpace */
  predicate IsSpace(c: char) {
    var n := c as int;
    9 <= n <= 13 || n == 0x20 || n == 0x85 || n == 0xA0 || n == 0x1680 || 0x2000 <= n <= 0x200A
    || n == 0x2028 || n == 0x2029 || n == 0x202F || n == 0x205F || n == 0x3000
  }

  function TrimLeft(s: string): string {
    if s != "" && IsSpace(s[0]) then TrimLeft(s[1..]) else s
  }

  function TrimRight(s: string): string {
    if s != "" && IsSpace(s[|s| - 1]) then TrimRight(s[..|s| - 1]) else s
  }

  function TrimSpace(s: string): string {
    TrimRight(TrimLeft(s))
  }

  /** What the source writes as strings.TrimSpace(s) == "" (BlankIsTrimmedEmpty). */
  predicate Blank(s: string) {
    forall c :: c in s ==> IsSpace(c)
  }

  /** strings.ToLower on ASCII letters; other characters are left as they are. */
  function LowerChar(c: char): char {
    if 'A' <= c <= 'Z' then ((c as int) + 32) as char else c
  }

  function ToLower(s: string): string {
    seq(|s|, i requires 0 <= i < |s| => LowerChar(s[i]))
  }

  /** Go's `<` on strings: bytewise, which on UTF-8 text is the order of code points. */
  predicate Less(a: string, b: string) {
    if b == "" then false
    else if a == "" then true
    else if a[0] != b[0] then a[0] < b[0]
    else Less(a[1..], b[1..])
  }

  lemma {:induction false} TrimLeftEmpties(s: string)
    ensures TrimLeft(s) == "" <==> Blank(s)
    ensures TrimLeft(s) != "" ==> !IsSpace(TrimLeft(s)[0])
  {
    if s != "" && IsSpace(s[0]) {
      TrimLeftEmpties(s[1..]);
      assert s == [s[0]] + s[1..];
    } else if s != "" {
      assert s[0] in s;
    }
  }

  lemma {:induction false} TrimRightKeepsHead(s: string)
    requires s != "" && !IsSpace(s[0])
    ensures TrimRight(s) != ""
  {
    if IsSpace(s[|s| - 1]) {
      TrimRightKeepsHead(s[..|s| - 1]);
    }
  }

  lemma BlankIsTrimmedEmpty(s: string)
    ensures Blank(s) <==> TrimSpace(s) == ""
  {
    TrimLeftEmpties(s);
    if TrimLeft(s) != "" {
      TrimRightKeepsHead(TrimLeft(s));
    }
  }

  /** Text without blanks at its ends is left alone by trimming. */
  lemma TrimmedStays(s: string)
    requires s == "" || (!IsSpace(s[0]) && !IsSpace(s[|s| - 1]))
    ensures TrimSpace(s) == s
  {
  }

  lemma {:induction false} TrimRightEnds(s: string)
    ensures TrimRight(s) == "" || (TrimRight(s)[0] == s[0] && !IsSpace(TrimRight(s)[|TrimRight(s)| - 1]))
  {
    if s != "" && IsSpace(s[|s| - 1]) {
      TrimRightEnds(s[..|s| - 1]);
    }
  }

  lemma TrimmedEnds(s: string)
    ensures var t := TrimSpace(s); t == "" || (!IsSpace(t[0]) && !IsSpace(t[|t| - 1]))
  {
    TrimLeftEmpties(s);
    TrimRightEnds(TrimLeft(s));
  }

  /** Lower-casing trimmed text leaves nothing to trim and nothing to lower-case. */
  lemma LowerTrimmedStays(s: string)
    ensures var t := ToLower(TrimSpace(s)); ToLower(TrimSpace(t)) == t
  {
    var trimmed := TrimSpace(s);
    TrimLeftEmpties(s);
    TrimRightEnds(TrimLeft(s));
    TrimmedStays(ToLower(trimmed));
    assert ToLower(ToLower(trimmed)) == ToLower(trimmed);
  }

  lemma {:induction false} TrimLeftPadded(a: string, s: string)
    requires Blank(a)
    ensures TrimLeft(a + s) == TrimLeft(s)
  {
    if a == "" {
      assert a + s == s;
    } else {
      assert a[0] in a && (a + s)[1..] == a[1..] + s;
      assert forall c :: c in a[1..] ==> c in a;
      TrimLeftPadded(a[1..], s);
    }
  }

  lemma {:induction false} TrimRightPadded(s: string, b: string)
    requires Blank(b)
    ensures TrimRight(s + b) == TrimRight(s)
  {
    if b == "" {
      assert s + b == s;
    } else {
      var n := |b| - 1;
      assert b[n] in b && (s + b)[..|s| + n] == s + b[..n];
      assert forall c :: c in b[..n] ==> c in b;
      TrimRightPadded(s, b[..n]);
    }
  }

  lemma {:induction false} TrimLeftBefore(s: string, b: string)
    requires TrimLeft(s) != ""
    ensures TrimLeft(s + b) == TrimLeft(s) + b
  {
    if s != "" && IsSpace(s[0]) {
      assert (s + b)[1..] == s[1..] + b;
      TrimLeftBefore(s[1..], b);
    }
  }

  /** Blanks around a text do not survive trimming. */
  lemma TrimPadded(a: string, s: string, b: string)
    requires Blank(a) && Blank(b)
    ensures TrimSpace(a + s + b) == TrimSpace(s)
  {
    assert a + s + b == a + (s + b);
    TrimLeftPadded(a, s + b);
    TrimLeftEmpties(s);
    if TrimLeft(s) == "" {
      TrimLeftEmpties(s + b);
    } else {
      TrimLeftBefore(s, b);
      TrimRightPadded(TrimLeft(s), b);
    }
  }

  lemma {:induction false} LowerTrimLeft(s: string)
    ensures ToLower(TrimLeft(s)) == TrimLeft(ToLower(s))
  {
    if s != "" && IsSpace(s[0]) {
      assert ToLower(s)[1..] == ToLower(s[1..]);
      LowerTrimLeft(s[1..]);
    }
  }

  lemma {:induction false} LowerTrimRight(s: string)
    ensures ToLower(TrimRight(s)) == TrimRight(ToLower(s))
  {
    if s != "" && IsSpace(s[|s| - 1]) {
      assert ToLower(s)[..|s| - 1] == ToLower(s[..|s| - 1]);
      LowerTrimRight(s[..|s| - 1]);
    }
  }

  /** Trimming and lower-casing can be done in either order. */
  lemma LowerTrim(s: string)
    ensures ToLower(TrimSpace(s)) == TrimSpace(ToLower(s))
  {
    LowerTrimLeft(s);
    LowerTrimRight(TrimLeft(s));
  }

  /** The texts agree up to k, where a ends or has the smaller character. */
  predicate SmallerAt(a: string, b: string, k: nat) {
    k <= |a| && k < |b| && a[..k] == b[..k] && (k == |a| || a[k] < b[k])
  }

  lemma SharedHead(a: string, b: string, k: nat)
    requires k <= |a| && k <= |b| && a[..k] == b[..k]
    ensures k > 0 ==> a[0] == b[0]
  {
    if k > 0 {
      assert a[..k][0] == a[0] && b[..k][0] == b[0];
    }
  }

  /** The order is lexicographic. */
  lemma {:induction false} LessIff(a: string, b: string)
    ensures Less(a, b) <==> exists k: nat :: k < |b| && SmallerAt(a, b, k)
  {
    if b == "" {
    } else if a == "" || a[0] != b[0] {
      assert a == "" || a[0] < b[0] ==> SmallerAt(a, b, 0);
      forall k: nat | k < |b| && SmallerAt(a, b, k) ensures k == 0 {
        SharedHead(a, b, k);
      }
    } else {
      LessIff(a[1..], b[1..]);
      if j: nat :| j < |b[1..]| && SmallerAt(a[1..], b[1..], j) {
        assert a[..j + 1] == [a[0]] + a[1..][..j] && b[..j + 1] == [b[0]] + b[1..][..j];
        assert SmallerAt(a, b, j + 1);
      }
      if k: nat :| k < |b| && SmallerAt(a, b, k) {
        assert k > 0;
        assert a[1..][..k - 1] == a[..k][1..] && b[1..][..k - 1] == b[..k][1..];
        assert SmallerAt(a[1..], b[1..], k - 1);
      }
    }
  }

  lemma {:induction false} LessTotal(a: string, b: string)
    ensures Less(a, b) || Less(b, a) || a == b
  {
    if a != "" && b != "" && a[0] == b[0] {
      LessTotal(a[1..], b[1..]);
      assert a[1..] == b[1..] ==> a == [a[0]] + a[1..] == b;
    }
  }

  lemma {:induction false} LessAsymmetric(a: string, b: string)
    requires Less(a, b)
    ensures !Less(b, a) && a != b
  {
    if a != "" && a[0] == b[0] {
      LessAsymmetric(a[1..], b[1..]);
    }
  }

  lemma {:induction false} LessTransitive(a: string, b: string, c: string)
    requires Less(a, b) && Less(b, c)
    ensures Less(a, c)
  {
    if a != "" && a[0] == b[0] == c[0] {
      LessTransitive(a[1..], b[1..], c[1..]);
    }
  }

  /** The UTF-8 bytes of a character: Go strings are byte strings, and hashing sees the bytes. */
  function Utf8Char(c: char): seq<Byte> {
    var n := c as int;
    if n < 0x80 then [n]
    else if n < 0x800 then [0xC0 + n / 0x40, 0x80 + n % 0x40]
    else if n < 0x1_0000 then [0xE0 + n / 0x1000, 0x80 + n / 0x40 % 0x40, 0x80 + n % 0x40]
    else [0xF0 + n / 0x4_0000, 0x80 + n / 0x1000 % 0x40, 0x80 + n / 0x40 % 0x40, 0x80 + n % 0x40]
  }

  function Utf8(s: string): seq<Byte> {
    if s == "" then [] else Utf8Char(s[0]) + Utf8(s[1..])
  }
}
