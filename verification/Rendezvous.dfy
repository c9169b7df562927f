/** Rendezvous (highest random weight) selection of an upstream for a session. */
module Rendezvous {
  import opened Base
  import opened GoText
  import opened Fnv
  import opened ProxyPool

  /** FNV-1a of session, a zero byte, and node key. */
  function Score(session: string, key: string): Word {
    Fnv1a(Utf8(session) + [0] + Utf8(key))
  }

  /** h ^= b; h *= prime */
  method Mix(h: Word, b: Byte) returns (mixed: Word)
    ensures mixed == Step(h, b)
  {
    mixed := XorWord(h, b);
    mixed := MulWord(mixed, PRIME64);
  }

  method MixAll(h: Word, bytes: seq<Byte>) returns (mixed: Word)
    ensures mixed == Absorb(h, bytes)
  {
    mixed := h;
    var i := 0;
    while i < |bytes|
      invariant 0 <= i <= |bytes|
      invariant mixed == Absorb(h, bytes[..i])
    {
      AbsorbNext(h, bytes[..i], bytes[i]);
      assert bytes[..i + 1] == bytes[..i] + [bytes[i]];
      mixed := Mix(mixed, bytes[i]);
      i := i + 1;
    }
    assert bytes[..i] == bytes;
  }

  /** The score as the source computes it: three stages over one running hash. */
  method HrwScore(sessionKey: string, nodeKey: string) returns (h: Word)
    ensures h == Score(sessionKey, nodeKey)
  {
    var session: seq<Byte>, node: seq<Byte> := Utf8(sessionKey), Utf8(nodeKey);
    h := MixAll(OFFSET64, session);
    h := Mix(h, 0);
    AbsorbNext(OFFSET64, session, 0);
    h := MixAll(h, node);
    AbsorbConcat(OFFSET64, session + [0], node);
  }

  /** A score for every node key. */
  type Scorer = string -> Word

  function HrwOf(session: string): Scorer {
    (key: string) => Score(session, key)
  }

  /** Candidate i is preferred to candidate j: a higher score, or the same score earlier in the list. */
  predicate Beats(keys: seq<string>, score: Scorer, i: int, j: int)
    requires 0 <= i < |keys| && 0 <= j < |keys|
  {
    score(keys[i]) > score(keys[j])
    || (score(keys[i]) == score(keys[j]) && i < j)
  }

  /** Position of the pick among the keys that are not excluded; -1 when all are. */
  function Winner(keys: seq<string>, score: Scorer, exclude: set<string>): (w: int)
    ensures -1 <= w < |keys| && (w >= 0 ==> keys[w] !in exclude)
  {
    if keys == [] then -1
    else
      var n := |keys| - 1;
      Better(keys, score, exclude, Winner(keys[..n], score, exclude), n)
  }

  /** The pick once candidate n has been compared with w, the pick among the candidates before it. */
  function Better(keys: seq<string>, score: Scorer, exclude: set<string>, w: int, n: nat): int
    requires n < |keys| && -1 <= w < n
  {
    if keys[n] in exclude then w
    else if w < 0 || score(keys[n]) > score(keys[w]) then n
    else w
  }

  lemma WinnerNext(keys: seq<string>, i: nat, score: Scorer, exclude: set<string>)
    requires i < |keys|
    ensures Winner(keys[..i + 1], score, exclude)
         == Better(keys, score, exclude, Winner(keys[..i], score, exclude), i)
  {
    assert keys[..i + 1][..i] == keys[..i];
  }

  /** A nil exclusion set excludes nothing. */
  function Excluded(exclude: Option<set<string>>): set<string> {
    if exclude.Some? then exclude.value else {}
  }

  method PickRendezvous(candidates: seq<Entry>, sessionKey: string, exclude: Option<set<string>>)
    returns (best: Option<Entry>)
    ensures var w := Winner(Keys(candidates), HrwOf(sessionKey), Excluded(exclude));
            best == if w >= 0 then Some(candidates[w]) else None
  {
    best := None;
    var bestScore: Word := 0;
    ghost var keys, score, out := Keys(candidates), HrwOf(sessionKey), Excluded(exclude);
    ghost var w, seen := -1, [];
    var i := 0;
    while i < |candidates|
      invariant 0 <= i <= |candidates| && -1 <= w < i
      invariant seen == keys[..i] && w == Winner(seen, score, out)
      invariant best == if w >= 0 then Some(candidates[w]) else None
      invariant w >= 0 ==> bestScore == score(keys[w])
    {
      WinnerNext(keys, i, score, out);
      seen := keys[..i + 1];
      w := Winner(seen, score, out);
      var k := candidates[i].Key();
      if exclude.None? || k !in exclude.value {
        var h := ScoreFor(sessionKey, k, score);
        if best.None? || h > bestScore {
          best := Some(candidates[i]);
          bestScore := h;
        }
      }
      i := i + 1;
    }
    assert keys[..i] == keys;
  }

  method ScoreFor(sessionKey: string, nodeKey: string, ghost score: Scorer) returns (h: Word)
    requires score == HrwOf(sessionKey)
    ensures h == score(nodeKey)
  {
    h := HrwScore(sessionKey, nodeKey);
  }

  // --- what the pick is -----------------------------------------------------------------------

  predicate IsWinner(keys: seq<string>, score: Scorer, exclude: set<string>, w: int) {
    && 0 <= w < |keys| && keys[w] !in exclude
    && forall j :: 0 <= j < |keys| && j != w && keys[j] !in exclude ==> Beats(keys, score, w, j)
  }

  /** The loop's pick is the one candidate that beats all other candidates; none only if none is left. */
  lemma {:induction false} WinnerBeatsAll(keys: seq<string>, score: Scorer, exclude: set<string>)
    ensures var w := Winner(keys, score, exclude);
            if w >= 0 then IsWinner(keys, score, exclude, w)
            else forall j :: 0 <= j < |keys| ==> keys[j] in exclude
  {
    if keys != [] {
      var n := |keys| - 1;
      var init := keys[..n];
      WinnerBeatsAll(init, score, exclude);
      forall j | 0 <= j < n ensures keys[j] == init[j] {}
      var w := Winner(init, score, exclude);
      if w >= 0 {
        forall j | 0 <= j < n && j != w && keys[j] !in exclude ensures Beats(keys, score, w, j) {
          assert Beats(init, score, w, j);
        }
      }
    }
  }

  lemma WinnerUnique(keys: seq<string>, score: Scorer, exclude: set<string>, w: int)
    requires IsWinner(keys, score, exclude, w)
    ensures Winner(keys, score, exclude) == w
  {
    WinnerBeatsAll(keys, score, exclude);
    var v := Winner(keys, score, exclude);
    if v >= 0 {
      assert v == w || Beats(keys, score, v, w);
    }
  }

  // --- minimal disruption -----------------------------------------------------------------------

  /** small is the subsequence of big at the increasing positions f. */
  predicate Embeds(f: seq<nat>, small: seq<string>, big: seq<string>) {
    && |f| == |small|
    && (forall i :: 0 <= i < |f| ==> f[i] < |big| && small[i] == big[f[i]])
    && (forall i, j :: 0 <= i < j < |f| ==> f[i] < f[j])
  }

  /** Losing candidates may disappear: whatever subsequence keeps the winner keeps it as winner. */
  lemma LosersAreIrrelevant(small: seq<string>, big: seq<string>, f: seq<nat>, p: nat, score: Scorer, exclude: set<string>)
    requires Embeds(f, small, big) && p < |f| && f[p] == Winner(big, score, exclude)
    ensures Winner(small, score, exclude) == p
  {
    WinnerBeatsAll(big, score, exclude);
    forall j | 0 <= j < |small| && j != p && small[j] !in exclude ensures Beats(small, score, p, j) {
      assert f[j] != f[p];
      assert Beats(big, score, f[p], f[j]);
    }
    WinnerUnique(small, score, exclude, p);
  }

  function Grown(keys: seq<string>, i: nat, x: string): (g: seq<string>)
    requires i <= |keys|
    ensures |g| == |keys| + 1 && g[i] == x
    ensures forall j :: 0 <= j < |keys| ==> keys[j] == g[if j < i then j else j + 1]
  {
    keys[..i] + [x] + keys[i..]
  }

  /** The newcomer x at position i beats the pick w of the others (-1 if there was none). */
  predicate Takes(keys: seq<string>, i: nat, x: string, score: Scorer, w: int)
    requires -1 <= w < |keys|
  {
    w < 0 || score(x) > score(keys[w])
    || (score(x) == score(keys[w]) && i <= w)
  }

  /** Where position j of the grown list was before. */
  function Origin(j: nat, i: nat): nat
    requires j != i
  {
    if j < i then j else j - 1
  }

  /** What beats the pick of the others beats the others. */
  lemma NewcomerBeats(keys: seq<string>, i: nat, x: string, score: Scorer, exclude: set<string>, w: nat, j: nat)
    requires i <= |keys| && j <= |keys| && j != i && Grown(keys, i, x)[j] !in exclude
    requires w < |keys| && IsWinner(keys, score, exclude, w) && Takes(keys, i, x, score, w)
    ensures Beats(Grown(keys, i, x), score, i, j)
  {
    assert Grown(keys, i, x)[j] == keys[Origin(j, i)];
    if Origin(j, i) != w {
      assert Beats(keys, score, w, Origin(j, i));
    }
  }

  lemma NewcomerWins(keys: seq<string>, i: nat, x: string, score: Scorer, exclude: set<string>)
    requires i <= |keys| && x !in exclude && Takes(keys, i, x, score, Winner(keys, score, exclude))
    ensures Winner(Grown(keys, i, x), score, exclude) == i
  {
    var w, g := Winner(keys, score, exclude), Grown(keys, i, x);
    WinnerBeatsAll(keys, score, exclude);
    forall j | 0 <= j < |g| && j != i && g[j] !in exclude ensures Beats(g, score, i, j) {
      if w >= 0 {
        NewcomerBeats(keys, i, x, score, exclude, w, j);
      } else {
        assert g[j] == keys[Origin(j, i)];
      }
    }
    WinnerUnique(g, score, exclude, i);
  }

  lemma NewcomerExcluded(keys: seq<string>, i: nat, x: string, score: Scorer, exclude: set<string>)
    requires i <= |keys| && x in exclude && Winner(keys, score, exclude) < 0
    ensures Winner(Grown(keys, i, x), score, exclude) == -1
  {
    var g := Grown(keys, i, x);
    WinnerBeatsAll(keys, score, exclude);
    WinnerBeatsAll(g, score, exclude);
    forall j | 0 <= j < |g| ensures g[j] in exclude {
      assert j != i ==> g[j] == keys[Origin(j, i)];
    }
  }

  /** Where the pick of the others is found in the grown list, and that it still beats them there. */
  lemma OldWinnerBeats(keys: seq<string>, i: nat, x: string, score: Scorer, exclude: set<string>, w: nat, j: nat)
    requires i <= |keys| && j <= |keys| && j != i && Grown(keys, i, x)[j] !in exclude
    requires w < |keys| && IsWinner(keys, score, exclude, w) && j != (if w < i then w else w + 1)
    ensures Beats(Grown(keys, i, x), score, if w < i then w else w + 1, j)
  {
    assert Grown(keys, i, x)[j] == keys[Origin(j, i)];
    assert Beats(keys, score, w, Origin(j, i));
  }

  lemma NewcomerLoses(keys: seq<string>, i: nat, x: string, score: Scorer, exclude: set<string>, w: nat)
    requires i <= |keys| && Winner(keys, score, exclude) == w
    requires x in exclude || !Takes(keys, i, x, score, w)
    ensures Winner(Grown(keys, i, x), score, exclude) == if w < i then w else w + 1
  {
    var g, moved := Grown(keys, i, x), if w < i then w else w + 1;
    WinnerBeatsAll(keys, score, exclude);
    assert g[moved] == keys[w] && g[i] == x;
    forall j | 0 <= j < |g| && j != moved && g[j] !in exclude ensures Beats(g, score, moved, j) {
      if j != i {
        OldWinnerBeats(keys, i, x, score, exclude, w, j);
      }
    }
    WinnerUnique(g, score, exclude, moved);
  }

  /**
   * A new candidate changes the pick only to itself, and exactly when it beats the old winner;
   * otherwise the old winner stays, one position further if the newcomer sits before it.
   */
  lemma NewcomerTakesOnlyItsOwn(keys: seq<string>, i: nat, x: string, score: Scorer, exclude: set<string>)
    requires i <= |keys|
    ensures var w := Winner(keys, score, exclude);
            Winner(keys[..i] + [x] + keys[i..], score, exclude) ==
              if x !in exclude && Takes(keys, i, x, score, w) then i
              else if w < 0 then -1
              else if w < i then w else w + 1
  {
    var w := Winner(keys, score, exclude);
    if x !in exclude && Takes(keys, i, x, score, w) {
      NewcomerWins(keys, i, x, score, exclude);
    } else if w < 0 {
      NewcomerExcluded(keys, i, x, score, exclude);
    } else {
      NewcomerLoses(keys, i, x, score, exclude, w);
    }
  }

  /** No two different candidates share a score. */
  predicate NoTies(keys: seq<string>, score: Scorer) {
    forall i, j :: 0 <= i < |keys| && 0 <= j < |keys| && score(keys[i]) == score(keys[j])
      ==> keys[i] == keys[j]
  }

  /** Without ties the picked key depends on the set of candidates alone, not on their order. */
  lemma OrderIrrelevant(a: seq<string>, b: seq<string>, score: Scorer, exclude: set<string>)
    requires NoTies(a, score) && Elements(a) == Elements(b)
    ensures var v, w := Winner(a, score, exclude), Winner(b, score, exclude);
            (v < 0 <==> w < 0) && (v >= 0 ==> a[v] == b[w])
  {
    WinnerBeatsAll(a, score, exclude);
    WinnerBeatsAll(b, score, exclude);
    var v, w := Winner(a, score, exclude), Winner(b, score, exclude);
    if v >= 0 {
      assert a[v] in Elements(b);
      var j :| 0 <= j < |b| && b[j] == a[v];
      assert w == j || Beats(b, score, w, j);
    }
    if w >= 0 {
      assert b[w] in Elements(a);
      var j :| 0 <= j < |a| && a[j] == b[w];
      assert v == j || Beats(a, score, v, j);
    }
  }

  /** With a tie the order does matter: two candidates swap the pick exactly when they tie. */
  lemma PairOrderMattersIffTie(a: string, b: string, score: Scorer)
    requires a != b
    ensures var v, w := Winner([a, b], score, {}), Winner([b, a], score, {});
            v >= 0 && w >= 0 && ([a, b][v] != [b, a][w] <==> score(a) == score(b))
  {
    WinnerBeatsAll([a, b], score, {});
    WinnerBeatsAll([b, a], score, {});
    var v, w := Winner([a, b], score, {}), Winner([b, a], score, {});
    assert [a, b][0] !in {} && [b, a][0] !in {};
    assert Beats([a, b], score, v, 1 - v);
    assert Beats([b, a], score, w, 1 - w);
  }

  // --- ties -------------------------------------------------------------------------------------

  /** Two node keys of one length that differ in exactly one byte tie for no session. */
  lemma OneByteNodesNeverTie(session: string, a: string, b: string, i: nat)
    requires DifferAtOneByte(Utf8(a), Utf8(b), i)
    ensures Score(session, a) != Score(session, b)
  {
    var prefix := Utf8(session) + [0];
    AbsorbConcat(OFFSET64, prefix, Utf8(a));
    AbsorbConcat(OFFSET64, prefix, Utf8(b));
    OneByteNeverCollides(Absorb(OFFSET64, prefix), Utf8(a), Utf8(b), i);
  }

  /** Two sessions of one length that differ in exactly one byte score every node differently. */
  lemma OneByteSessionsNeverTie(s: string, t: string, key: string, i: nat)
    requires DifferAtOneByte(Utf8(s), Utf8(t), i)
    ensures Score(s, key) != Score(t, key)
  {
    SessionFirst(s, key);
    SessionFirst(t, key);
    OneByteNeverCollides(OFFSET64, Utf8(s), Utf8(t), i);
    if Score(s, key) == Score(t, key) {
      AbsorbInjective(Absorb(OFFSET64, Utf8(s)), Absorb(OFFSET64, Utf8(t)), [0] + Utf8(key));
    }
  }

  lemma SessionFirst(session: string, key: string)
    ensures Score(session, key) == Absorb(Absorb(OFFSET64, Utf8(session)), [0] + Utf8(key))
  {
    assert Utf8(session) + [0] + Utf8(key) == Utf8(session) + ([0] + Utf8(key));
    AbsorbConcat(OFFSET64, Utf8(session), [0] + Utf8(key));
  }

  // --- the ranking --------------------------------------------------------------------------------

  function Scores(keys: seq<string>, score: Scorer): (r: seq<int>)
    ensures |r| == |keys| && forall i :: 0 <= i < |r| ==> r[i] == score(keys[i])
  {
    seq(|keys|, i requires 0 <= i < |keys| => score(keys[i]))
  }

  predicate Ahead(scores: seq<int>, i: int, j: int)
    requires 0 <= i < |scores| && 0 <= j < |scores|
  {
    scores[i] > scores[j] || (scores[i] == scores[j] && i < j)
  }

  predicate Within(order: seq<nat>, n: nat) {
    forall i :: 0 <= i < |order| ==> order[i] < n
  }

  predicate Descending(scores: seq<int>, order: seq<nat>) {
    Within(order, |scores|) && forall i, j :: 0 <= i < j < |order| ==> Ahead(scores, order[i], order[j])
  }

  /** All candidate positions, each once, every one preferred to those after it. */
  predicate IsRanking(scores: seq<int>, order: seq<nat>) {
    |order| == |scores| && Descending(scores, order) && forall p :: 0 <= p < |scores| ==> p in order
  }

  function Insert(scores: seq<int>, order: seq<nat>, p: nat): (r: seq<nat>)
    requires p < |scores| && Within(order, |scores|)
    ensures |r| == |order| + 1 && Within(r, |scores|)
    ensures p in r && (forall x :: x in order ==> x in r)
    ensures forall i :: 0 <= i < |r| ==> r[i] == p || r[i] in order
  {
    if order == [] then [p]
    else if Ahead(scores, p, order[0]) then [p] + order
    else [order[0]] + Insert(scores, order[1..], p)
  }

  /** The positions below n in descending order of preference. */
  function RankingBelow(scores: seq<int>, n: nat): (r: seq<nat>)
    requires n <= |scores|
    ensures |r| == n && Within(r, n)
  {
    if n == 0 then [] else Insert(scores, RankingBelow(scores, n - 1), n - 1)
  }

  function Ranking(keys: seq<string>, score: Scorer): (r: seq<nat>)
    ensures |r| == |keys| && Within(r, |keys|)
  {
    RankingBelow(Scores(keys, score), |keys|)
  }

  lemma {:induction false} InsertKeepsDescending(scores: seq<int>, order: seq<nat>, p: nat)
    requires p < |scores| && p !in order && Descending(scores, order)
    ensures Descending(scores, Insert(scores, order, p))
  {
    if order == [] {
    } else if Ahead(scores, p, order[0]) {
      var r := [p] + order;
      forall i, j | 0 <= i < j < |r| ensures Ahead(scores, r[i], r[j]) {
        assert r[j] == order[j - 1];
        assert j == 1 || Ahead(scores, order[0], order[j - 1]);
        assert i == 0 || Ahead(scores, order[i - 1], order[j - 1]);
      }
    } else {
      InsertKeepsDescending(scores, order[1..], p);
      var tail := Insert(scores, order[1..], p);
      var r := [order[0]] + tail;
      forall i, j | 0 <= i < j < |r| ensures Ahead(scores, r[i], r[j]) {
        if i == 0 {
          assert tail[j - 1] == p || tail[j - 1] in order[1..];
        } else {
          assert Ahead(scores, tail[i - 1], tail[j - 1]);
        }
      }
    }
  }

  lemma InsertNewPosition(scores: seq<int>, before: seq<nat>, p: nat)
    requires p < |scores| && Within(before, p) && Descending(scores, before)
    ensures Descending(scores, Insert(scores, before, p))
  {
    InsertKeepsDescending(scores, before, p);
  }

  lemma {:induction false} RankingBelowDescends(scores: seq<int>, n: nat)
    requires n <= |scores|
    ensures Descending(scores, RankingBelow(scores, n))
  {
    if n > 0 {
      RankingBelowDescends(scores, n - 1);
      InsertNewPosition(scores, RankingBelow(scores, n - 1), n - 1);
    }
  }

  lemma {:induction false} RankingBelowComplete(scores: seq<int>, n: nat, p: nat)
    requires p < n <= |scores|
    ensures p in RankingBelow(scores, n)
  {
    if p < n - 1 {
      RankingBelowComplete(scores, n - 1, p);
    }
  }

  lemma RankingIsRanking(keys: seq<string>, score: Scorer)
    ensures IsRanking(Scores(keys, score), Ranking(keys, score))
  {
    var scores := Scores(keys, score);
    RankingBelowDescends(scores, |keys|);
    forall p | 0 <= p < |keys| ensures p in Ranking(keys, score) {
      RankingBelowComplete(scores, |keys|, p);
    }
  }

  /** The keys of the first k candidates of an order. */
  function TopKeys(keys: seq<string>, order: seq<nat>, k: nat): set<string>
    requires k <= |order| && Within(order, |keys|)
  {
    set i | 0 <= i < k :: keys[order[i]]
  }

  /** With distinct keys, excluding the first k of the ranking makes the pick its candidate number k. */
  lemma PickAfterTop(keys: seq<string>, score: Scorer, k: nat)
    requires Distinct(keys) && k <= |keys|
    ensures var order := Ranking(keys, score);
            Winner(keys, score, TopKeys(keys, order, k)) == if k < |keys| then order[k] else -1
  {
    var order := Ranking(keys, score);
    var exclude := TopKeys(keys, order, k);
    RankingIsRanking(keys, score);
    if k == |keys| {
      WinnerBeatsAll(keys, score, exclude);
      forall p | 0 <= p < |keys| ensures keys[p] in exclude {
        assert p in order;
      }
    } else {
      PickIsNext(keys, score, Scores(keys, score), order, k);
      WinnerUnique(keys, score, exclude, order[k]);
    }
  }

  lemma PickIsNext(keys: seq<string>, score: Scorer, scores: seq<int>, order: seq<nat>, k: nat)
    requires scores == Scores(keys, score)
    requires Distinct(keys) && IsRanking(scores, order) && k < |keys|
    ensures IsWinner(keys, score, TopKeys(keys, order, k), order[k])
  {
    var exclude, w := TopKeys(keys, order, k), order[k];
    forall i | 0 <= i < k ensures keys[order[i]] != keys[w] {
      assert Ahead(scores, order[i], w);
      assert order[i] < w || w < order[i];
    }
    forall j | 0 <= j < |keys| && j != w && keys[j] !in exclude ensures Beats(keys, score, w, j) {
      assert j in order;
      var i :| 0 <= i < |order| && order[i] == j;
      assert i > k;
      assert Ahead(scores, w, order[i]);
    }
  }
}
