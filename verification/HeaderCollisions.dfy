/** Different headers of one text, and which maps have such a double. */
module HeaderCollisions {
  import opened Base
  import opened GoText
  import opened Sorting
  import opened Permutations
  import opened NodeSpec
  import opened Fields
  import opened HeaderLaws

  /** Different headers with the same text. */
  predicate Double(h: Headers, g: Headers) {
    HeaderText(h) == HeaderText(g) && !SameHeaders(h, g)
  }

  predicate Lower(s: string) {
    ToLower(s) == s
  }

  /** No two names of the map differ in case alone. */
  predicate OneSpelling(g: Headers) {
    forall j, k :: j in g && k in g && ToLower(j) == ToLower(k) ==> j == k
  }

  // --- texts of small maps -------------------------------------------------------------------------------------

  lemma NamesInOrder(g: Headers, order: seq<string>)
    requires Enumerates(order, g.Keys) && SortedBy(order, Identity())
    requires forall i :: 0 <= i < |order| ==> Lower(order[i])
    ensures Names(g) == order
  {
    AnyOrderSortsAlike(order, g.Keys);
    assert LowerAll(order) == order;
    SortSorts(order, Identity());
    SortedUnique(order, Sort(order, Identity()), Identity());
  }

  function OneHeader(n: string, v: string): Headers {
    map[n := v]
  }

  lemma OneHeaderText(n: string, v: string)
    requires Lower(n)
    ensures Names(OneHeader(n, v)) == [n] && HeaderText(OneHeader(n, v)) == n + "=" + v
  {
    var h := OneHeader(n, v);
    assert Elements([n]) == h.Keys;
    NamesInOrder(h, [n]);
    RenderIsJoin(h, [n]);
  }

  function TwoHeaders(n: string, v: string, m: string, w: string): Headers {
    map[n := v, m := w]
  }

  lemma TwoHeadersNames(n: string, v: string, m: string, w: string)
    requires Lower(n) && Lower(m) && Less(n, m)
    ensures Names(TwoHeaders(n, v, m, w)) == [n, m]
  {
    LessAsymmetric(n, m);
    assert Elements([n, m]) == TwoHeaders(n, v, m, w).Keys;
    NamesInOrder(TwoHeaders(n, v, m, w), [n, m]);
  }

  lemma TwoPieces(n: string, v: string, m: string, w: string)
    requires n != m
    ensures Pieces(TwoHeaders(n, v, m, w), [n, m]) == [n + "=" + v, m + "=" + w]
  {
  }

  lemma TwoHeadersText(n: string, v: string, m: string, w: string)
    requires Lower(n) && Lower(m) && Less(n, m)
    ensures Names(TwoHeaders(n, v, m, w)) == [n, m]
    ensures HeaderText(TwoHeaders(n, v, m, w)) == n + "=" + v + "&" + (m + "=" + w)
  {
    TwoHeadersNames(n, v, m, w);
    RenderIsJoin(TwoHeaders(n, v, m, w), [n, m]);
    LessAsymmetric(n, m);
    TwoPieces(n, v, m, w);
    JoinTwo(n + "=" + v, m + "=" + w);
  }

  lemma JoinTwo(a: string, b: string)
    ensures Join([a, b], "&") == a + "&" + b
  {
    assert [a, b][1..] == [b];
  }

  // --- the text from its first name on -----------------------------------------------------------------------

  /** What follows the first value. */
  function Remainder(h: Headers): string
    requires Names(h) != []
  {
    AfterFirst(Pieces(h, Names(h)), '&')
  }

  lemma FirstName(h: Headers)
    requires Names(h) != []
    ensures HeaderText(h) == Names(h)[0] + "=" + (Lookup(h, Names(h)[0]) + Remainder(h)) && Lower(Names(h)[0])
    ensures Remainder(h) == "" <==> |Names(h)| == 1
  {
    var names := Names(h);
    RenderIsJoin(h, names);
    assert Piece(h, names[0]) + Remainder(h) == names[0] + "=" + (Lookup(h, names[0]) + Remainder(h));
    NamesLower(h, 0);
  }

  lemma NamesCount(h: Headers)
    ensures |Names(h)| == |LowerNames(h)| == |h|
  {
    DistinctLength(Ascending(h.Keys));
    SortSorts(LowerNames(h), Identity());
    assert |Names(h)| == |multiset(Names(h))| == |multiset(LowerNames(h))|;
    assert |h.Keys| == |h|;
  }

  lemma DifferentNamesDouble(h: Headers, g: Headers)
    requires HeaderText(h) == HeaderText(g) && Names(h) != Names(g)
    ensures Double(h, g)
  {
    SameMultisetSameNames(h, g);
  }

  // --- a single header ---------------------------------------------------------------------------------------------

  /** The text of one header has another = that may end its name. */
  predicate SplitsElsewhere(n: string, v: string) {
    var text := n + "=" + v;
    exists l: nat :: l < |text| && l != |n| && text[l] == '=' && Lower(text[..l])
  }

  /** A second header begins at position j of the value and its name ends at l. */
  predicate SecondAt(n: string, v: string, j: nat, l: nat) {
    j < l < |v| && v[j] == '&' && v[l] == '=' && Lower(v[j + 1..l]) && Less(n, v[j + 1..l])
  }

  /** The value contains a header of a later name. */
  predicate HoldsSecond(n: string, v: string) {
    exists j: nat, l: nat :: j < |v| && l < |v| && SecondAt(n, v, j, l)
  }

  lemma OneHeaderDoubles(h: Headers, n: string, m: string, w: string)
    requires HeaderText(h) == m + "=" + w && Names(h) == [n] && Lower(m) && m != n
    ensures OneSpelling(OneHeader(m, w)) && Double(h, OneHeader(m, w))
  {
    OneHeaderText(m, w);
    assert [n][0] != [m][0];
    DifferentNamesDouble(h, OneHeader(m, w));
  }

  lemma CutAt(text: string, l: nat)
    requires l < |text|
    ensures text == text[..l] + [text[l]] + text[l + 1..]
  {
  }

  lemma SplitDoubles(h: Headers, n: string, v: string) returns (g: Headers)
    requires HeaderText(h) == n + "=" + v && Names(h) == [n] && SplitsElsewhere(n, v)
    ensures OneSpelling(g) && Double(h, g)
  {
    var text := n + "=" + v;
    var l: nat :| l < |text| && l != |n| && text[l] == '=' && Lower(text[..l]);
    CutAt(text, l);
    OneHeaderDoubles(h, n, text[..l], text[l + 1..]);
    g := OneHeader(text[..l], text[l + 1..]);
  }

  lemma TwoHeadersDouble(h: Headers, n: string, v: string, m: string, w: string)
    requires HeaderText(h) == n + "=" + v + "&" + (m + "=" + w) && Names(h) == [n] && Lower(n) && Lower(m) && Less(n, m)
    ensures OneSpelling(TwoHeaders(n, v, m, w)) && Double(h, TwoHeaders(n, v, m, w))
  {
    TwoHeadersText(n, v, m, w);
    assert |[n]| != |[n, m]|;
    DifferentNamesDouble(h, TwoHeaders(n, v, m, w));
  }

  lemma CutSecond(n: string, v: string, j: nat, l: nat)
    requires j < l < |v| && v[j] == '&' && v[l] == '='
    ensures n + "=" + v == n + "=" + v[..j] + "&" + (v[j + 1..l] + "=" + v[l + 1..])
  {
    assert v == v[..j] + ("&" + (v[j + 1..l] + "=" + v[l + 1..]));
  }

  lemma SecondDoubles(h: Headers, n: string, v: string) returns (g: Headers)
    requires HeaderText(h) == n + "=" + v && Names(h) == [n] && Lower(n) && HoldsSecond(n, v)
    ensures OneSpelling(g) && Double(h, g)
  {
    var j: nat, l: nat :| j < l < |v| && SecondAt(n, v, j, l);
    CutSecond(n, v, j, l);
    TwoHeadersDouble(h, n, v[..j], v[j + 1..l], v[l + 1..]);
    g := TwoHeaders(n, v[..j], v[j + 1..l], v[l + 1..]);
  }

  lemma RemainderSecond(g: Headers)
    requires |Names(g)| >= 2
    ensures var m := Names(g)[1];
            Remainder(g) == "&" + m + "=" + (Lookup(g, m) + AfterFirst(Pieces(g, Names(g))[1..], '&'))
  {
    var pieces, m := Pieces(g, Names(g)), Names(g)[1];
    var last := AfterFirst(pieces[1..], '&');
    assert pieces[1..][0] == Piece(g, m) && Join(pieces[1..], "&") == Piece(g, m) + last;
    assert "&" + (m + "=" + Lookup(g, m) + last) == "&" + m + "=" + (Lookup(g, m) + last);
  }

  lemma NamesLower(g: Headers, i: nat)
    requires i < |Names(g)|
    ensures Lower(Names(g)[i])
  {
    NamesAreLowerNames(g, Names(g)[i]);
    var name := NameOrigin(g, Names(g)[i]);
    assert ToLower(ToLower(name)) == ToLower(name);
  }

  lemma LowerNamesDistinct(g: Headers)
    requires OneSpelling(g)
    ensures Distinct(LowerNames(g))
  {
    var order := Ascending(g.Keys);
    forall i, j | 0 <= i < j < |LowerNames(g)| ensures LowerNames(g)[i] != LowerNames(g)[j] {
      assert order[i] in Elements(order) && order[j] in Elements(order);
    }
  }

  lemma TwiceCounts(s: seq<string>)
    requires |s| >= 2 && s[0] == s[1]
    ensures multiset(s)[s[0]] >= 2
  {
    assert s == [s[0], s[1]] + s[2..];
  }

  /** The first two names are in order and different. */
  lemma FirstTwoNames(g: Headers)
    requires OneSpelling(g) && |Names(g)| >= 2
    ensures Less(Names(g)[0], Names(g)[1])
  {
    var names := Names(g);
    LowerNamesDistinct(g);
    CountInDistinct(LowerNames(g), names[0]);
    SortSorts(LowerNames(g), Identity());
    if names[0] == names[1] {
      TwiceCounts(names);
    }
    assert !Less(Identity()(names[1]), Identity()(names[0]));
    LessTotal(names[0], names[1]);
  }

  lemma SecondFound(n: string, v: string, w: string, m: string, rest: string)
    requires v == w + ("&" + m + "=" + rest) && Lower(m) && Less(n, m)
    ensures HoldsSecond(n, v)
  {
    var j, l := |w|, |w| + 1 + |m|;
    assert v[j + 1..l] == m;
    assert SecondAt(n, v, j, l);
  }

  lemma SplitFound(n: string, v: string, m: string, tail: string)
    requires n + "=" + v == m + "=" + tail && m != n && Lower(m)
    ensures SplitsElsewhere(n, v)
  {
    var text := n + "=" + v;
    assert text[..|m|] == m && text[|m|] == '=' && text[..|n|] == n;
  }

  lemma DoubleOfOne(h: Headers, n: string, v: string, g: Headers)
    requires HeaderText(h) == n + "=" + v && Names(h) == [n] && v == Lookup(h, n) && Names(g) != []
    requires OneSpelling(g) && Double(h, g)
    ensures SplitsElsewhere(n, v) || HoldsSecond(n, v)
  {
    FirstName(g);
    var m := Names(g)[0];
    if m != n {
      SplitFound(n, v, m, Lookup(g, m) + Remainder(g));
    } else {
      LabelCancels(n + "=", v, Lookup(g, m) + Remainder(g));
      if |Names(g)| == 1 {
        assert Lookup(g, m) + "" == Lookup(g, m);
        OneNameSameHeaders(h, g, n);
      } else {
        RemainderSecond(g);
        NamesLower(g, 1);
        FirstTwoNames(g);
        SecondFound(n, v, Lookup(g, m), Names(g)[1], Lookup(g, Names(g)[1]) + AfterFirst(Pieces(g, Names(g))[1..], '&'));
      }
    }
  }

  lemma OneNameSameHeaders(h: Headers, g: Headers, n: string)
    requires Names(h) == Names(g) == [n] && Lookup(h, n) == Lookup(g, n)
    ensures SameHeaders(h, g)
  {
    SameMultisetSameNames(h, g);
    forall k | k in LowerNames(h) ensures Lookup(h, k) == Lookup(g, k) {
      NamesAreLowerNames(h, k);
    }
  }

  // --- two and more ---------------------------------------------------------------------------------------------

  /** All but the first name can be read as part of the first value. */
  lemma ManyDouble(h: Headers) returns (g: Headers)
    requires |Names(h)| >= 2
    ensures OneSpelling(g) && Double(h, g)
  {
    FirstName(h);
    var n := Names(h)[0];
    g := OneHeader(n, Lookup(h, n) + Remainder(h));
    OneHeaderText(n, Lookup(h, n) + Remainder(h));
    DifferentNamesDouble(h, g);
  }

  /** Headers whose text can be read in another way. */
  predicate Ambiguous(h: Headers) {
    || |h| >= 2
    || (|h| == 1 && |Names(h)| == 1
        && (SplitsElsewhere(Names(h)[0], Lookup(h, Names(h)[0])) || HoldsSecond(Names(h)[0], Lookup(h, Names(h)[0]))))
  }

  /**
   * Some different headers, spelt in one way each, share the text of a map iff it has two or more, or the
   * text of its only one can end the name elsewhere or holds a second header.
   */
  lemma DoubleIff(h: Headers)
    ensures (exists g :: OneSpelling(g) && Double(h, g)) <==> Ambiguous(h)
  {
    NamesCount(h);
    if |h| >= 2 {
      var g := ManyDouble(h);
    } else if |h| == 1 {
      OneDoubleIff(h);
    } else {
      forall g | Double(h, g) ensures false {
        NoDoubleOfNone(h, g);
      }
    }
  }

  lemma NoDoubleOfNone(h: Headers, g: Headers)
    requires Names(h) == [] && HeaderText(h) == HeaderText(g)
    ensures SameHeaders(h, g)
  {
    RenderIsJoin(h, Names(h));
    RenderIsJoin(g, Names(g));
    JoinedEmptyIff(h, Names(h));
    JoinedEmptyIff(g, Names(g));
    NamesCount(h);
    SameMultisetSameNames(h, g);
  }

  lemma OneDoubleIff(h: Headers)
    requires |h| == |Names(h)| == 1
    ensures (exists g :: OneSpelling(g) && Double(h, g)) <==> Ambiguous(h)
  {
    FirstName(h);
    var n := Names(h)[0];
    var v := Lookup(h, n);
    assert Names(h) == [n] && v + "" == v;
    if g :| OneSpelling(g) && Double(h, g) {
      JoinedEmptyIff(g, Names(g));
      RenderIsJoin(g, Names(g));
      DoubleOfOne(h, n, v, g);
    }
    if SplitsElsewhere(n, v) {
      var g := SplitDoubles(h, n, v);
    } else if HoldsSecond(n, v) {
      var g := SecondDoubles(h, n, v);
    }
  }

  // --- a family -----------------------------------------------------------------------------------------------------

  lemma ValueMoves(n: string, m: string, a: string, b: string, c: string)
    ensures n + "=" + (a + "&" + m + "=" + b) + "&" + (m + "=" + c) == n + "=" + a + "&" + (m + "=" + (b + "&" + m + "=" + c))
  {
  }

  lemma DifferentValuesDouble(h: Headers, g: Headers, k: string)
    requires HeaderText(h) == HeaderText(g) && k in h && Lower(k) && Lookup(h, k) != Lookup(g, k)
    ensures Double(h, g)
  {
    LowerNameListed(h, k);
  }

  /** An ampersand in a value lets different headers of the same names share a text. */
  lemma AmpersandCollides(n: string, m: string, a: string, b: string, c: string)
    requires Lower(n) && Lower(m) && Less(n, m)
    ensures Double(TwoHeaders(n, a + "&" + m + "=" + b, m, c), TwoHeaders(n, a, m, b + "&" + m + "=" + c))
  {
    LessAsymmetric(n, m);
    TwoHeadersText(n, a + "&" + m + "=" + b, m, c);
    TwoHeadersText(n, a, m, b + "&" + m + "=" + c);
    ValueMoves(n, m, a, b, c);
    assert |a + "&" + m + "=" + b| > |a|;
    DifferentValuesDouble(TwoHeaders(n, a + "&" + m + "=" + b, m, c), TwoHeaders(n, a, m, b + "&" + m + "=" + c), n);
  }
}
