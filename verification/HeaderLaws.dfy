/** What the header text keeps of a map of headers. */
module HeaderLaws {
  import Base
  import opened GoText
  import opened Sorting
  import opened NodeSpec
  import opened Fields

  /** Names and values that keep clear of the separators. */
  predicate CleanHeaders(h: Headers) {
    forall k :: k in h ==> Free(k, '&') && Free(k, '=') && Free(h[k], '&')
  }

  predicate AmpersandFree(h: Headers) {
    forall k :: k in h ==> Free(k, '&') && Free(h[k], '&')
  }

  /** The lower-cased names, in no particular order; names that differ in case alone appear together. */
  function LowerNames(h: Headers): seq<string> {
    LowerAll(Ascending(h.Keys))
  }

  /** The names as the text lists them. */
  function Names(h: Headers): seq<string> {
    Sort(LowerNames(h), Identity())
  }

  /**
   * The same lower-cased names, and under each the same value: a missing one counts as empty, so the
   * value of a name with capitals counts only if its lower-cased twin is there too.
   */
  predicate SameHeaders(h: Headers, g: Headers) {
    multiset(LowerNames(h)) == multiset(LowerNames(g)) && forall k :: k in LowerNames(h) ==> Lookup(h, k) == Lookup(g, k)
  }

  // --- the text as joined pieces --------------------------------------------------------------------------

  function Piece(h: Headers, k: string): string {
    k + "=" + Lookup(h, k)
  }

  function Pieces(h: Headers, keys: seq<string>): seq<string> {
    seq(|keys|, i requires 0 <= i < |keys| => Piece(h, keys[i]))
  }

  lemma FourTexts(a: string, b: string, c: string, d: string)
    ensures a + b + c + "=" + d == a + b + (c + "=" + d)
  {
  }

  lemma {:induction false} RenderAppends(h: Headers, keys: seq<string>)
    requires keys != []
    ensures var n := |keys| - 1;
            Render(h, keys) == if n > 0 then Render(h, keys[..n]) + "&" + Piece(h, keys[n]) else Piece(h, keys[n])
  {
    var n := |keys| - 1;
    FourTexts(Render(h, keys[..n]), if n > 0 then "&" else "", keys[n], Lookup(h, keys[n]));
    if n == 0 {
      assert "" + "" + Piece(h, keys[n]) == Piece(h, keys[n]);
    }
  }

  lemma {:induction false} RenderIsJoin(h: Headers, keys: seq<string>)
    ensures Render(h, keys) == Join(Pieces(h, keys), "&")
  {
    if keys != [] {
      var n := |keys| - 1;
      RenderIsJoin(h, keys[..n]);
      RenderAppends(h, keys);
      assert Pieces(h, keys) == Pieces(h, keys[..n]) + [Piece(h, keys[n])];
      if n > 0 {
        JoinAppended(Pieces(h, keys[..n]), Piece(h, keys[n]), "&");
      }
    }
  }

  predicate AllFree(parts: seq<string>, c: char) {
    forall i :: 0 <= i < |parts| ==> Free(parts[i], c)
  }

  lemma JoinedEmptyIff(h: Headers, keys: seq<string>)
    ensures Join(Pieces(h, keys), "&") == "" <==> keys == []
  {
    if keys != [] {
      assert Pieces(h, keys)[0] == Piece(h, keys[0]) && |Piece(h, keys[0])| >= 1;
    }
  }

  /** Parts free of the separator can be read off their joined text. */
  lemma {:induction false} JoinInjective(a: seq<string>, b: seq<string>, c: char)
    requires a != [] && b != [] && AllFree(a, c) && AllFree(b, c) && Join(a, [c]) == Join(b, [c])
    ensures a == b
  {
    FreeThenRest(a[0], AfterFirst(a, c), b[0], AfterFirst(b, c), c);
    if |a| > 1 && |b| > 1 {
      assert Join(a[1..], [c]) == AfterFirst(a, c)[1..] && Join(b[1..], [c]) == AfterFirst(b, c)[1..];
      JoinInjective(a[1..], b[1..], c);
      assert a == [a[0]] + a[1..] && b == [b[0]] + b[1..];
    }
  }

  function AfterFirst(parts: seq<string>, c: char): (r: string)
    requires parts != []
    ensures Join(parts, [c]) == parts[0] + r && (r == "" <==> |parts| == 1) && (r != "" ==> r[0] == c)
  {
    if |parts| == 1 then ""
    else
      assert parts[0] + [c] + Join(parts[1..], [c]) == parts[0] + ([c] + Join(parts[1..], [c]));
      [c] + Join(parts[1..], [c])
  }

  lemma PiecesFromText(h: Headers, g: Headers)
    requires AllFree(Pieces(h, Names(h)), '&') && AllFree(Pieces(g, Names(g)), '&')
    ensures HeaderText(h) == HeaderText(g) <==> Pieces(h, Names(h)) == Pieces(g, Names(g))
  {
    RenderIsJoin(h, Names(h));
    RenderIsJoin(g, Names(g));
    JoinedEmptyIff(h, Names(h));
    JoinedEmptyIff(g, Names(g));
    if HeaderText(h) == HeaderText(g) && Names(h) != [] && Names(g) != [] {
      JoinInjective(Pieces(h, Names(h)), Pieces(g, Names(g)), '&');
    }
  }

  // --- names -----------------------------------------------------------------------------------------------

  lemma LoweringKeepsFree(k: string, c: char)
    requires Free(k, c) && !('a' <= c <= 'z')
    ensures Free(ToLower(k), c)
  {
    forall i | 0 <= i < |k| ensures ToLower(k)[i] != c {
      assert k[i] in k;
    }
  }

  lemma NamesAreLowerNames(h: Headers, k: string)
    ensures k in Names(h) <==> k in LowerNames(h)
  {
    SortSorts(LowerNames(h), Identity());
    assert k in Names(h) <==> k in multiset(Names(h));
    assert k in LowerNames(h) <==> k in multiset(LowerNames(h));
  }

  /** Every lower-cased name comes from a name of the map. */
  lemma NameOrigin(h: Headers, k: string) returns (name: string)
    requires k in LowerNames(h)
    ensures name in h && ToLower(name) == k
  {
    var order := Ascending(h.Keys);
    var i :| 0 <= i < |order| && LowerNames(h)[i] == k;
    name := order[i];
    assert name in Base.Elements(order);
  }

  lemma LowerNameListed(h: Headers, k: string)
    requires k in h && ToLower(k) == k
    ensures k in LowerNames(h)
  {
    var order := Ascending(h.Keys);
    assert k in Base.Elements(order);
    var i :| 0 <= i < |order| && order[i] == k;
    assert LowerNames(h)[i] == k;
  }

  lemma PiecesFree(h: Headers)
    requires AmpersandFree(h)
    ensures AllFree(Pieces(h, Names(h)), '&')
  {
    var names := Names(h);
    forall i | 0 <= i < |names| ensures Free(Pieces(h, names)[i], '&') {
      NamesAreLowerNames(h, names[i]);
      var name := NameOrigin(h, names[i]);
      LoweringKeepsFree(name, '&');
    }
  }

  lemma NamesFree(h: Headers)
    requires CleanHeaders(h)
    ensures AllFree(Names(h), '=')
  {
    var names := Names(h);
    forall i | 0 <= i < |names| ensures Free(names[i], '=') {
      NamesAreLowerNames(h, names[i]);
      var name := NameOrigin(h, names[i]);
      LoweringKeepsFree(name, '=');
    }
  }

  lemma PieceSplits(h: Headers, j: string, g: Headers, k: string)
    requires Free(j, '=') && Free(k, '=') && Piece(h, j) == Piece(g, k)
    ensures j == k && Lookup(h, j) == Lookup(g, k)
  {
    assert Piece(h, j) == j + ("=" + Lookup(h, j)) && Piece(g, k) == k + ("=" + Lookup(g, k));
    FreeThenRest(j, "=" + Lookup(h, j), k, "=" + Lookup(g, k), '=');
    LabelCancels("=", Lookup(h, j), Lookup(g, k));
  }

  lemma SameMultisetSameNames(h: Headers, g: Headers)
    ensures multiset(LowerNames(h)) == multiset(LowerNames(g)) <==> Names(h) == Names(g)
  {
    SortSorts(LowerNames(h), Identity());
    SortSorts(LowerNames(g), Identity());
    if multiset(LowerNames(h)) == multiset(LowerNames(g)) {
      SortOfPermutation(LowerNames(h), LowerNames(g), Identity());
    }
  }

  // --- when two maps have one text ------------------------------------------------------------------------

  lemma SameHeadersSameText(h: Headers, g: Headers)
    requires SameHeaders(h, g)
    ensures HeaderText(h) == HeaderText(g)
  {
    SameMultisetSameNames(h, g);
    forall k | k in Names(h) ensures Lookup(h, k) == Lookup(g, k) {
      NamesAreLowerNames(h, k);
    }
    RenderSame(h, g, Names(h));
  }

  lemma SamePiecesSameHeaders(h: Headers, g: Headers)
    requires CleanHeaders(h) && CleanHeaders(g) && Pieces(h, Names(h)) == Pieces(g, Names(g))
    ensures SameHeaders(h, g)
  {
    NamesFree(h);
    NamesFree(g);
    var a, b := Names(h), Names(g);
    assert |Pieces(h, a)| == |a| && |Pieces(g, b)| == |b|;
    forall i | 0 <= i < |a| ensures a[i] == b[i] && Lookup(h, a[i]) == Lookup(g, a[i]) {
      assert Pieces(h, a)[i] == Pieces(g, b)[i];
      PieceSplits(h, a[i], g, b[i]);
    }
    assert a == b;
    SameMultisetSameNames(h, g);
    forall k | k in LowerNames(h) ensures Lookup(h, k) == Lookup(g, k) {
      NamesAreLowerNames(h, k);
      var i :| 0 <= i < |a| && a[i] == k;
    }
  }

  /** Two maps of clean headers have one text iff they are the same headers, in the sense above. */
  lemma HeaderTextIff(h: Headers, g: Headers)
    requires CleanHeaders(h) && CleanHeaders(g)
    ensures HeaderText(h) == HeaderText(g) <==> SameHeaders(h, g)
  {
    PiecesFree(h);
    PiecesFree(g);
    PiecesFromText(h, g);
    if HeaderText(h) == HeaderText(g) {
      SamePiecesSameHeaders(h, g);
    }
    if SameHeaders(h, g) {
      SameHeadersSameText(h, g);
    }
  }

  lemma ValueFromPiece(h: Headers, g: Headers, k: string)
    requires k in h && k in g && Piece(h, k) == Piece(g, k)
    ensures h[k] == g[k]
  {
    assert Piece(h, k) == k + ("=" + h[k]) && Piece(g, k) == k + ("=" + g[k]);
    LabelCancels(k, "=" + h[k], "=" + g[k]);
    LabelCancels("=", h[k], g[k]);
  }

  lemma SamePieceSameValue(h: Headers, g: Headers, k: string)
    requires k in h && k in g && ToLower(k) == k && Names(h) == Names(g) && Pieces(h, Names(h)) == Pieces(g, Names(g))
    ensures h[k] == g[k]
  {
    LowerNameListed(h, k);
    NamesAreLowerNames(h, k);
    var i :| 0 <= i < |Names(h)| && Names(h)[i] == k;
    assert Pieces(h, Names(h))[i] == Piece(h, k) && Pieces(g, Names(g))[i] == Piece(g, k);
    ValueFromPiece(h, g, k);
  }

  /** Under the same names, the text tells two maps apart iff they differ under a name without capitals. */
  lemma SameNamesTextIff(h: Headers, g: Headers)
    requires h.Keys == g.Keys && AmpersandFree(h) && AmpersandFree(g)
    ensures HeaderText(h) == HeaderText(g) <==> forall k :: k in h && ToLower(k) == k ==> h[k] == g[k]
  {
    if HeaderText(h) == HeaderText(g) {
      PiecesFree(h);
      PiecesFree(g);
      PiecesFromText(h, g);
      forall k | k in h && ToLower(k) == k ensures h[k] == g[k] {
        SamePieceSameValue(h, g, k);
      }
    }
    if forall k :: k in h && ToLower(k) == k ==> h[k] == g[k] {
      CapitalizedValuesIgnored(h, g);
    }
  }
}
