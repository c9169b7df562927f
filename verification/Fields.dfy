/** Texts made of labelled fields between separators, and when they can be taken apart again. */
module Fields {
  import opened NodeSpec

  predicate Free(s: string, c: char) {
    c !in s
  }

  predicate OccursAt(s: string, m: string, i: nat) {
    i + |m| <= |s| && s[i..i + |m|] == m
  }

  predicate Contains(s: string, m: string) {
    exists i :: 0 <= i <= |s| && OccursAt(s, m, i)
  }

  /** A separator at the start and nowhere else: such a text cannot overlap itself. */
  predicate Marker(m: string) {
    m != "" && forall i :: 0 < i < |m| ==> m[i] != m[0]
  }

  // --- two fields around a marker -----------------------------------------------------------------------

  /** v is u, the marker and some more, and p is that more, the marker and q. */
  predicate Moves(u: string, p: string, v: string, q: string, m: string) {
    |u| + |m| <= |v| && v[..|u| + |m|] == u + m && p == v[|u| + |m|..] + m + q
  }

  lemma MovedSharesText(u: string, p: string, v: string, q: string, m: string)
    requires Moves(u, p, v, q, m)
    ensures u + m + p == v + m + q
  {
    var x := v[|u| + |m|..];
    assert v == u + m + x;
    assert u + m + (x + m + q) == (u + m + x) + m + q;
  }

  lemma LongerMoves(u: string, p: string, v: string, q: string, m: string)
    requires Marker(m) && u + m + p == v + m + q && |u| < |v|
    ensures Moves(u, p, v, q, m)
  {
    var text := u + m + p;
    assert text == u + (m + p) && text == v + (m + q);
    assert forall d :: 0 <= d < |m| ==> text[|u| + d] == m[d];
    assert text[|u| + (|v| - |u|)] == text[|v|] == m[0];
    assert v == text[..|v|] && u + m == text[..|u| + |m|];
    assert p == text[|u| + |m|..];
    assert text[|u| + |m|..] == v[|u| + |m|..] + (m + q);
  }

  /** Two pairs of fields make one text iff they are equal or the marker moves from one field to the other. */
  lemma PairsShareTextIff(u: string, p: string, v: string, q: string, m: string)
    requires Marker(m)
    ensures u + m + p == v + m + q <==> (u == v && p == q) || Moves(u, p, v, q, m) || Moves(v, q, u, p, m)
  {
    if u + m + p == v + m + q {
      if |u| < |v| {
        LongerMoves(u, p, v, q, m);
      } else if |v| < |u| {
        LongerMoves(v, q, u, p, m);
      } else {
        assert (u + m + p)[..|u|] == u && (v + m + q)[..|v|] == v;
        assert (u + m + p)[|u| + |m|..] == p && (v + m + q)[|v| + |m|..] == q;
      }
    }
    if Moves(u, p, v, q, m) {
      MovedSharesText(u, p, v, q, m);
    }
    if Moves(v, q, u, p, m) {
      MovedSharesText(v, q, u, p, m);
    }
  }

  lemma MovesContains(u: string, p: string, v: string, q: string, m: string)
    requires Moves(u, p, v, q, m)
    ensures Contains(v, m) && Contains(p, m)
  {
    assert v[|u|..|u| + |m|] == v[..|u| + |m|][|u|..] == m;
    assert OccursAt(v, m, |u|);
    var n := |v| - |u| - |m|;
    assert p[n..n + |m|] == m;
    assert OccursAt(p, m, n);
  }

  /** A different pair with the same text. */
  predicate OtherReading(u: string, p: string, v: string, q: string, m: string) {
    (u != v || p != q) && u + m + p == v + m + q
  }

  lemma SplitAtOccurrence(s: string, m: string) returns (x: string, y: string)
    requires Contains(s, m)
    ensures s == x + m + y
  {
    var i :| 0 <= i <= |s| && OccursAt(s, m, i);
    x, y := s[..i], s[i + |m|..];
  }

  lemma OtherReadingContains(u: string, p: string, v: string, q: string, m: string)
    requires Marker(m) && OtherReading(u, p, v, q, m)
    ensures Contains(u, m) || Contains(p, m)
  {
    PairsShareTextIff(u, p, v, q, m);
    if Moves(u, p, v, q, m) {
      MovesContains(u, p, v, q, m);
    } else {
      MovesContains(v, q, u, p, m);
    }
  }

  lemma SplitFirstField(u: string, p: string, m: string) returns (v: string, q: string)
    requires m != "" && Contains(u, m)
    ensures OtherReading(u, p, v, q, m)
  {
    var y;
    v, y := SplitAtOccurrence(u, m);
    q := y + m + p;
    assert (v + m + y) + m + p == v + m + q;
    assert |v| < |u|;
  }

  lemma SplitSecondField(u: string, p: string, m: string) returns (v: string, q: string)
    requires m != "" && Contains(p, m)
    ensures OtherReading(u, p, v, q, m)
  {
    var x;
    x, q := SplitAtOccurrence(p, m);
    v := u + m + x;
    assert u + m + (x + m + q) == v + m + q;
    assert |q| < |p|;
  }

  /** A pair of fields has another reading iff one of the fields contains the marker. */
  lemma AmbiguousPairIff(u: string, p: string, m: string)
    requires Marker(m)
    ensures (exists v, q :: OtherReading(u, p, v, q, m)) <==> Contains(u, m) || Contains(p, m)
  {
    if exists v, q :: OtherReading(u, p, v, q, m) {
      var v, q :| OtherReading(u, p, v, q, m);
      OtherReadingContains(u, p, v, q, m);
    }
    if Contains(u, m) {
      var v, q := SplitFirstField(u, p, m);
    } else if Contains(p, m) {
      var v, q := SplitSecondField(u, p, m);
    }
  }

  // --- lists of labelled fields --------------------------------------------------------------------------

  function Tagged(labels: seq<string>, values: seq<string>): seq<string>
    requires |labels| == |values|
  {
    seq(|labels|, i requires 0 <= i < |labels| => labels[i] + values[i])
  }

  predicate Separable(labels: seq<string>, c: char) {
    labels != [] && forall i :: 0 <= i < |labels| ==> Free(labels[i], c)
  }

  /** No field contains the separator and the label that end it. */
  predicate Clear(labels: seq<string>, values: seq<string>, c: char) {
    |labels| == |values| && forall i :: 0 <= i < |values| - 1 ==> !Contains(values[i], [c] + labels[i + 1])
  }

  lemma LabelCancels(tag: string, a: string, b: string)
    requires tag + a == tag + b
    ensures a == b
  {
    assert (tag + a)[|tag|..] == a && (tag + b)[|tag|..] == b;
  }

  /** What follows the first label of a joined list. */
  function AfterLabel(labels: seq<string>, values: seq<string>, c: char): (r: string)
    requires |labels| == |values| && labels != []
    ensures Join(Tagged(labels, values), [c]) == labels[0] + r
  {
    var rest := Join(Tagged(labels, values)[1..], [c]);
    if |labels| == 1 then values[0]
    else
      assert labels[0] + values[0] + [c] + rest == labels[0] + (values[0] + [c] + rest);
      values[0] + [c] + rest
  }

  lemma FirstFieldEnds(labels: seq<string>, values: seq<string>, c: char)
    requires |labels| == |values| && |labels| > 1
    ensures Join(Tagged(labels, values), [c])
         == labels[0] + (values[0] + ([c] + labels[1]) + AfterLabel(labels[1..], values[1..], c))
  {
    assert Tagged(labels, values)[1..] == Tagged(labels[1..], values[1..]);
    var r := AfterLabel(labels[1..], values[1..], c);
    assert labels[0] + values[0] + [c] + (labels[1] + r) == labels[0] + (values[0] + ([c] + labels[1]) + r);
  }

  /** A list of labelled fields can be read off its text where no field contains what ends it. */
  lemma {:induction false} TaggedInjective(labels: seq<string>, v: seq<string>, w: seq<string>, c: char)
    requires Separable(labels, c) && Clear(labels, v, c) && Clear(labels, w, c)
    requires Join(Tagged(labels, v), [c]) == Join(Tagged(labels, w), [c])
    ensures v == w
  {
    if |labels| == 1 {
      LabelCancels(labels[0], v[0], w[0]);
    } else {
      var m := [c] + labels[1];
      var r, s := AfterLabel(labels[1..], v[1..], c), AfterLabel(labels[1..], w[1..], c);
      FirstFieldEnds(labels, v, c);
      FirstFieldEnds(labels, w, c);
      LabelCancels(labels[0], v[0] + m + r, w[0] + m + s);
      FirstFieldsEqual(v[0], r, w[0], s, c, labels[1]);
      TaggedInjective(labels[1..], v[1..], w[1..], c);
      assert v == [v[0]] + v[1..] && w == [w[0]] + w[1..];
    }
  }

  lemma FirstFieldsEqual(u: string, p: string, v: string, q: string, c: char, tag: string)
    requires Free(tag, c) && !Contains(u, [c] + tag) && !Contains(v, [c] + tag)
    requires u + ([c] + tag) + p == v + ([c] + tag) + q
    ensures u == v && p == q
  {
    var m := [c] + tag;
    forall i | 0 < i < |m| ensures m[i] != m[0] {
      assert m[i] in tag;
    }
    PairsShareTextIff(u, p, v, q, m);
    if Moves(u, p, v, q, m) {
      MovesContains(u, p, v, q, m);
    } else if Moves(v, q, u, p, m) {
      MovesContains(v, q, u, p, m);
    }
  }

  /**
   * Two lists of fields of one text: equal, or at the first difference the separator and label of the
   * next field moved between the field and what follows it.
   */
  predicate SharesFields(labels: seq<string>, v: seq<string>, w: seq<string>, c: char)
    requires labels != [] && |labels| == |v| == |w|
  {
    if |labels| == 1 then v[0] == w[0]
    else
      var m := [c] + labels[1];
      var r, s := AfterLabel(labels[1..], v[1..], c), AfterLabel(labels[1..], w[1..], c);
      (v[0] == w[0] && SharesFields(labels[1..], v[1..], w[1..], c)) || Moves(v[0], r, w[0], s, m) || Moves(w[0], s, v[0], r, m)
  }

  lemma LabelIsMarker(tag: string, c: char)
    requires Free(tag, c)
    ensures Marker([c] + tag)
  {
    var m := [c] + tag;
    forall i | 0 < i < |m| ensures m[i] != m[0] {
      assert m[i] in tag;
    }
  }

  lemma LabelCancelsIff(tag: string, a: string, b: string)
    ensures tag + a == tag + b <==> a == b
  {
    if tag + a == tag + b {
      LabelCancels(tag, a, b);
    }
  }

  /** Whatever the fields contain, two lists have one text exactly in these cases. */
  lemma {:induction false} TaggedShareIff(labels: seq<string>, v: seq<string>, w: seq<string>, c: char)
    requires Separable(labels, c) && |labels| == |v| == |w|
    ensures Join(Tagged(labels, v), [c]) == Join(Tagged(labels, w), [c]) <==> SharesFields(labels, v, w, c)
  {
    if |labels| == 1 {
      LabelCancelsIff(labels[0], v[0], w[0]);
    } else {
      var m := [c] + labels[1];
      var r, s := AfterLabel(labels[1..], v[1..], c), AfterLabel(labels[1..], w[1..], c);
      FirstFieldEnds(labels, v, c);
      FirstFieldEnds(labels, w, c);
      LabelCancelsIff(labels[0], v[0] + m + r, w[0] + m + s);
      LabelIsMarker(labels[1], c);
      PairsShareTextIff(v[0], r, w[0], s, m);
      LabelCancelsIff(labels[1], r, s);
      TaggedShareIff(labels[1..], v[1..], w[1..], c);
    }
  }

  // --- joining ---------------------------------------------------------------------------------------------

  lemma {:induction false} JoinAppended(parts: seq<string>, last: string, sep: string)
    requires parts != []
    ensures Join(parts + [last], sep) == Join(parts, sep) + sep + last
  {
    assert (parts + [last])[1..] == parts[1..] + [last];
    if |parts| > 1 {
      JoinAppended(parts[1..], last, sep);
    } else {
      assert Join([last], sep) == last;
    }
  }

  /** Where a character first occurs. */
  function FirstAt(s: string, c: char): nat {
    if s == "" || s[0] == c then 0 else 1 + FirstAt(s[1..], c)
  }

  lemma {:induction false} FirstAtAfterFree(a: string, x: string, c: char)
    requires Free(a, c) && (x == "" || x[0] == c)
    ensures FirstAt(a + x, c) == |a|
  {
    if a == "" {
      assert a + x == x;
    } else {
      assert (a + x)[1..] == a[1..] + x;
      FirstAtAfterFree(a[1..], x, c);
    }
  }

  /** A text free of the separator is joined to what follows without ambiguity. */
  lemma FreeThenRest(a: string, x: string, b: string, y: string, c: char)
    requires Free(a, c) && Free(b, c) && (x == "" || x[0] == c) && (y == "" || y[0] == c) && a + x == b + y
    ensures a == b && x == y
  {
    FirstAtAfterFree(a, x, c);
    FirstAtAfterFree(b, y, c);
    assert (a + x)[..|a|] == a && (b + y)[..|b|] == b;
    assert (a + x)[|a|..] == x && (b + y)[|b|..] == y;
  }
}
