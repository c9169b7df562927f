/** Sorting by a string key; which algorithm is used does not matter where keys are distinct. */
module Sorting {
  import opened GoText

  predicate SortedBy<T>(xs: seq<T>, key: T -> string) {
    forall i, j :: 0 <= i < j < |xs| ==> !Less(key(xs[j]), key(xs[i]))
  }

  function Insert<T>(xs: seq<T>, key: T -> string, x: T): seq<T> {
    if xs == [] || Less(key(x), key(xs[|xs| - 1])) == false then xs + [x]
    else Insert(xs[..|xs| - 1], key, x) + [xs[|xs| - 1]]
  }

  function Sort<T>(xs: seq<T>, key: T -> string): seq<T> {
    if xs == [] then [] else Insert(Sort(xs[..|xs| - 1], key), key, xs[|xs| - 1])
  }

  lemma NotLessTransitive(a: string, b: string, c: string)
    requires !Less(b, a) && !Less(c, b)
    ensures !Less(c, a)
  {
    if Less(c, a) {
      LessTotal(a, b);
      LessTotal(b, c);
      if a == b || b == c {
      } else {
        LessTransitive(a, b, c);
        LessAsymmetric(a, c);
      }
    }
  }

  lemma {:induction false} InsertPermutes<T>(xs: seq<T>, key: T -> string, x: T)
    ensures multiset(Insert(xs, key, x)) == multiset(xs) + multiset{x}
  {
    if xs != [] {
      var n := |xs| - 1;
      assert xs == xs[..n] + [xs[n]];
      InsertPermutes(xs[..n], key, x);
    }
  }

  lemma InsertMembers<T>(xs: seq<T>, key: T -> string, x: T, y: T)
    requires y in Insert(xs, key, x)
    ensures y in xs || y == x
  {
    InsertPermutes(xs, key, x);
    assert y in multiset(Insert(xs, key, x));
  }

  lemma {:induction false} InsertSorts<T>(xs: seq<T>, key: T -> string, x: T)
    requires SortedBy(xs, key)
    ensures SortedBy(Insert(xs, key, x), key)
  {
    if xs != [] {
      var n := |xs| - 1;
      if !Less(key(x), key(xs[n])) {
        forall i | 0 <= i < n ensures !Less(key(x), key(xs[i])) {
          NotLessTransitive(key(xs[i]), key(xs[n]), key(x));
        }
      } else {
        InsertSorts(xs[..n], key, x);
        var r := Insert(xs[..n], key, x);
        LessAsymmetric(key(x), key(xs[n]));
        forall i | 0 <= i < |r| ensures !Less(key(xs[n]), key(r[i])) {
          InsertMembers(xs[..n], key, x, r[i]);
        }
      }
    }
  }

  lemma {:induction false} SortSorts<T>(xs: seq<T>, key: T -> string)
    ensures SortedBy(Sort(xs, key), key)
    ensures multiset(Sort(xs, key)) == multiset(xs)
  {
    if xs != [] {
      var n := |xs| - 1;
      SortSorts(xs[..n], key);
      InsertSorts(Sort(xs[..n], key), key, xs[n]);
      InsertPermutes(Sort(xs[..n], key), key, xs[n]);
      assert multiset(xs) == multiset(xs[..n]) + multiset{xs[n]} by {
        assert xs == xs[..n] + [xs[n]];
      }
    }
  }

  /** The key tells elements apart. */
  predicate KeyIdentifies<T(==)>(xs: seq<T>, key: T -> string) {
    forall i, j :: 0 <= i < |xs| && 0 <= j < |xs| && key(xs[i]) == key(xs[j]) ==> xs[i] == xs[j]
  }

  lemma SameHead<T>(a: seq<T>, b: seq<T>, key: T -> string)
    requires SortedBy(a, key) && SortedBy(b, key) && multiset(a) == multiset(b)
    requires KeyIdentifies(a, key) && a != []
    ensures b != [] && a[0] == b[0]
  {
    assert a[0] in multiset(b);
    var i :| 0 <= i < |b| && b[i] == a[0];
    assert b[0] in multiset(a);
    var j :| 0 <= j < |a| && a[j] == b[0];
    assert i == 0 || !Less(key(b[i]), key(b[0]));
    assert j == 0 || !Less(key(a[j]), key(a[0]));
    LessTotal(key(a[0]), key(b[0]));
    assert a[0] == a[j];
  }

  lemma SameTailMultiset<T>(a: seq<T>, b: seq<T>)
    requires a != [] && b != [] && a[0] == b[0] && multiset(a) == multiset(b)
    ensures multiset(a[1..]) == multiset(b[1..])
  {
    assert a == [a[0]] + a[1..] && b == [b[0]] + b[1..];
    assert multiset(a[1..]) == multiset(a) - multiset{a[0]};
    assert multiset(b[1..]) == multiset(b) - multiset{b[0]};
  }

  /** Whatever the algorithm, sorting has one result where the key tells elements apart. */
  lemma {:induction false} SortedUnique<T>(a: seq<T>, b: seq<T>, key: T -> string)
    requires SortedBy(a, key) && SortedBy(b, key) && multiset(a) == multiset(b)
    requires KeyIdentifies(a, key)
    ensures a == b
  {
    if a == [] {
      assert |b| == |multiset(b)| == |multiset(a)|;
    } else {
      SameHead(a, b, key);
      SameTailMultiset(a, b);
      assert a == [a[0]] + a[1..] && b == [b[0]] + b[1..];
      SortedUnique(a[1..], b[1..], key);
    }
  }

  /** Sorting forgets the order of its input. */
  lemma SortOfPermutation<T>(a: seq<T>, b: seq<T>, key: T -> string)
    requires multiset(a) == multiset(b) && KeyIdentifies(a, key)
    ensures Sort(a, key) == Sort(b, key)
  {
    SortSorts(a, key);
    SortSorts(b, key);
    var s := Sort(a, key);
    forall i, j | 0 <= i < |s| && 0 <= j < |s| && key(s[i]) == key(s[j]) ensures s[i] == s[j] {
      assert s[i] in multiset(a) && s[j] in multiset(a);
    }
    SortedUnique(s, Sort(b, key), key);
  }
}
