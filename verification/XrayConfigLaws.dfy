/** What the generated configuration means, and what it does not depend on. */
module XrayConfigLaws {
  import opened Base
  import opened GoText
  import opened Counters
  import opened Dedup
  import NodeIdentity
  import opened NodeSpec
  import opened Permutations
  import opened Sorting
  import opened XrayConfig

  // --- nothing is lost ---------------------------------------------------------------------------------

  lemma {:induction false} ChosenOrSkipped(specs: seq<Spec>)
    ensures |Chosen(specs)| + |SkippedKinds(specs)| == |specs|
  {
    if specs != [] {
      ChosenOrSkipped(specs[..|specs| - 1]);
    }
  }

  /** Every spec is either included or counted as skipped. */
  lemma Conservation(specs: seq<Spec>, opt: Options, hash12: string -> string, digest: Config -> string, r: Result)
    requires AllIdentifiable(specs) && Generates(specs, opt, hash12, digest, r) && r.Ok?
    ensures |r.generated.included| + Total(r.generated.skipped) == |specs|
  {
    var all := IdentifiedAll(specs, hash12);
    var sorted :| IsSortOf(sorted, Chosen(all)) && AllSupported(sorted) && r == ResultOf(all, sorted, opt, digest);
    ChosenOrSkipped(all);
    TotalTally(SkippedKinds(all));
    assert |sorted| == |multiset(sorted)| == |Chosen(all)|;
  }

  /** How many unsupported specs of a type there are. */
  function Unsupported(specs: seq<Spec>, kind: string): nat {
    if specs == [] then 0
    else
      var last := specs[|specs| - 1];
      Unsupported(specs[..|specs| - 1], kind) + (if !Supported(last) && last.kind == kind then 1 else 0)
  }

  lemma {:induction false} SkippedKindsCount(specs: seq<Spec>, kind: string)
    ensures multiset(SkippedKinds(specs))[kind] == Unsupported(specs, kind)
  {
    if specs != [] {
      SkippedKindsCount(specs[..|specs| - 1], kind);
    }
  }

  /** The skipped counts are, type by type, the numbers of unsupported specs. */
  lemma SkippedByType(specs: seq<Spec>, opt: Options, hash12: string -> string, digest: Config -> string, g: Generated, kind: string)
    requires AllIdentifiable(specs) && Generates(specs, opt, hash12, digest, Ok(g))
    ensures CountOf(g.skipped, kind) == Unsupported(IdentifiedAll(specs, hash12), kind)
  {
    var all := IdentifiedAll(specs, hash12);
    TallyCounts(SkippedKinds(all));
    SkippedKindsCount(all, kind);
    assert kind in SkippedKinds(all) <==> kind in multiset(SkippedKinds(all));
  }

  // --- when generation succeeds ------------------------------------------------------------------------------

  /** How many specs are of a kind that can be translated. */
  function SupportedCount(specs: seq<Spec>): nat {
    if specs == [] then 0
    else SupportedCount(specs[..|specs| - 1]) + (if Supported(specs[|specs| - 1]) then 1 else 0)
  }

  lemma {:induction false} ChosenCount(specs: seq<Spec>)
    ensures |Chosen(specs)| == SupportedCount(specs)
  {
    if specs != [] {
      ChosenCount(specs[..|specs| - 1]);
    }
  }

  /** The options are complete, and no more specs are supported than they allow, 2000 where they set no limit. */
  predicate Generable(specs: seq<Spec>, opt: Options, hash12: string -> string)
    requires AllIdentifiable(specs)
  {
    && !Blank(opt.socksListen) && !Blank(opt.metricsListen) && !Blank(opt.userPassword)
    && SupportedCount(IdentifiedAll(specs, hash12)) <= (if opt.maxNodes > 0 then opt.maxNodes else 2000)
  }

  lemma GenerateSucceedsIff(specs: seq<Spec>, opt: Options, hash12: string -> string, digest: Config -> string, r: Result)
    requires AllIdentifiable(specs) && Generates(specs, opt, hash12, digest, r)
    ensures r.Ok? <==> Generable(specs, opt, hash12)
  {
    ChosenCount(IdentifiedAll(specs, hash12));
  }

  /** What a failed generation complains about: the first missing option, or how many nodes are too many. */
  lemma ComplaintIs(specs: seq<Spec>, opt: Options, hash12: string -> string, digest: Config -> string, e: Error)
    requires AllIdentifiable(specs) && Generates(specs, opt, hash12, digest, Err(e))
    ensures e == if Blank(opt.socksListen) then MissingSocksListen
                 else if Blank(opt.metricsListen) then MissingMetricsListen
                 else if Blank(opt.userPassword) then MissingUserPassword
                 else TooManyNodes(SupportedCount(IdentifiedAll(specs, hash12)), if opt.maxNodes > 0 then opt.maxNodes else 2000)
  {
    ChosenCount(IdentifiedAll(specs, hash12));
  }

  // --- order of the input -----------------------------------------------------------------------------

  lemma {:induction false} ChosenConcat(a: seq<Spec>, b: seq<Spec>)
    ensures Chosen(a + b) == Chosen(a) + Chosen(b)
    ensures SkippedKinds(a + b) == SkippedKinds(a) + SkippedKinds(b)
  {
    if b == [] {
      assert a + b == a;
    } else {
      var n := |b| - 1;
      ChosenConcat(a, b[..n]);
      assert a + b == (a + b[..n]) + [b[n]] && b == b[..n] + [b[n]];
      ChosenNext(a + b[..n], b[n]);
      ChosenNext(b[..n], b[n]);
    }
  }

  lemma ChosenAround(a: seq<Spec>, x: Spec, b: seq<Spec>)
    ensures Chosen(a + [x] + b) == Chosen(a) + ChosenOne(x) + Chosen(b)
    ensures SkippedKinds(a + [x] + b) == SkippedKinds(a) + SkippedOne(x) + SkippedKinds(b)
  {
    ChosenConcat(a + [x], b);
    ChosenNext(a, x);
  }

  /** One spec more adds its own contribution. */
  lemma ChosenWithOneMore(b: seq<Spec>, w: seq<Spec>, l: seq<Spec>, x: Spec, r: seq<Spec>)
    requires b == l + [x] + r && w == l + r
    ensures multiset(Chosen(b)) == multiset(Chosen(w)) + multiset(ChosenOne(x))
    ensures multiset(SkippedKinds(b)) == multiset(SkippedKinds(w)) + multiset(SkippedOne(x))
  {
    ChosenAround(l, x, r);
    ChosenConcat(l, r);
    MiddleOut(Chosen(l), ChosenOne(x), Chosen(r));
    MiddleOut(SkippedKinds(l), SkippedOne(x), SkippedKinds(r));
  }

  lemma ChosenWithoutAt(b: seq<Spec>, j: nat)
    requires j < |b|
    ensures multiset(Chosen(b)) == multiset(Chosen(WithoutAt(b, j))) + multiset(ChosenOne(b[j]))
    ensures multiset(SkippedKinds(b)) == multiset(SkippedKinds(WithoutAt(b, j))) + multiset(SkippedOne(b[j]))
  {
    SplitAt(b, j);
    ChosenWithOneMore(b, WithoutAt(b, j), b[..j], b[j], b[j + 1..]);
  }

  lemma {:induction false} ChosenPermuted(a: seq<Spec>, b: seq<Spec>)
    requires multiset(a) == multiset(b)
    ensures multiset(Chosen(a)) == multiset(Chosen(b))
    ensures multiset(SkippedKinds(a)) == multiset(SkippedKinds(b))
  {
    if a == [] {
      assert |b| == |multiset(b)| == |multiset(a)|;
    } else {
      var n := |a| - 1;
      var j := TakeLastOut(a, b);
      ChosenPermuted(a[..n], WithoutAt(b, j));
      ChosenWithoutAt(a, n);
      ChosenWithoutAt(b, j);
      assert WithoutAt(a, n) == a[..n];
    }
  }

  lemma IdentifiedPermuted(a: seq<Spec>, b: seq<Spec>, hash12: string -> string)
    requires AllIdentifiable(a) && AllIdentifiable(b) && multiset(a) == multiset(b)
    ensures multiset(IdentifiedAll(a, hash12)) == multiset(IdentifiedAll(b, hash12))
  {
    ImagesPermuted(a, IdentifiedAll(a, hash12), b, IdentifiedAll(b, hash12));
  }

  lemma ChosenKeyIdentifies(all: seq<Spec>)
    requires DistinctBy(all, IDOf())
    ensures KeyIdentifies(Chosen(all), IDOf())
  {
    ChosenSupported(all);
    var c := Chosen(all);
    forall i, j | 0 <= i < |c| && 0 <= j < |c| && IDOf()(c[i]) == IDOf()(c[j]) ensures c[i] == c[j] {
      assert c[i] in all && c[j] in all;
      var p :| 0 <= p < |all| && all[p] == c[i];
      var q :| 0 <= q < |all| && all[q] == c[j];
    }
  }

  lemma SortsAgree(c: seq<Spec>, d: seq<Spec>, s: seq<Spec>, t: seq<Spec>)
    requires multiset(c) == multiset(d) && KeyIdentifies(c, IDOf()) && IsSortOf(s, c) && IsSortOf(t, d)
    ensures s == t
  {
    forall i, j | 0 <= i < |s| && 0 <= j < |s| && IDOf()(s[i]) == IDOf()(s[j]) ensures s[i] == s[j] {
      assert s[i] in multiset(c) && s[j] in multiset(c);
    }
    SortedUnique(s, t, IDOf());
  }

  /**
   * Any reordering of specs with distinct identifiers gives the same tree, hash, included list and
   * skipped counts, or the same error; in particular the unstable sort has one result.
   */
  lemma GenerateForgetsOrder(a: seq<Spec>, b: seq<Spec>, opt: Options, hash12: string -> string,
                             digest: Config -> string, ra: Result, rb: Result)
    requires AllIdentifiable(a) && AllIdentifiable(b) && multiset(a) == multiset(b)
    requires DistinctBy(IdentifiedAll(a, hash12), IDOf())
    requires Generates(a, opt, hash12, digest, ra) && Generates(b, opt, hash12, digest, rb)
    ensures ra == rb
  {
    var ia, ib := IdentifiedAll(a, hash12), IdentifiedAll(b, hash12);
    var s :| IsSortOf(s, Chosen(ia)) && AllSupported(s) && ra == ResultOf(ia, s, opt, digest);
    var t :| IsSortOf(t, Chosen(ib)) && AllSupported(t) && rb == ResultOf(ib, t, opt, digest);
    IdentifiedPermuted(a, b, hash12);
    ChosenPermuted(ia, ib);
    ChosenKeyIdentifies(ia);
    SortsAgree(Chosen(ia), Chosen(ib), s, t);
    TallyOfPermutation(SkippedKinds(ia), SkippedKinds(ib));
    assert |Chosen(ia)| == |multiset(Chosen(ia))| == |Chosen(ib)|;
  }

  // --- what a configuration means ------------------------------------------------------------------------

  predicate Matches(rule: Rule, inboundTag: string, user: string) {
    inboundTag in rule.inboundTags && (rule.users.None? || user in rule.users.value)
  }

  /** The outbound tag of the first rule that matches. */
  function Route(rules: seq<Rule>, inboundTag: string, user: string): Option<string> {
    if rules == [] then None
    else if Matches(rules[0], inboundTag, user) then Some(rules[0].outboundTag)
    else Route(rules[1..], inboundTag, user)
  }

  lemma {:induction false} FirstMatchRoutes(rules: seq<Rule>, inboundTag: string, user: string, k: nat)
    requires k < |rules| && Matches(rules[k], inboundTag, user)
    requires forall j :: 0 <= j < k ==> !Matches(rules[j], inboundTag, user)
    ensures Route(rules, inboundTag, user) == Some(rules[k].outboundTag)
  {
    if k > 0 {
      FirstMatchRoutes(rules[1..], inboundTag, user, k - 1);
    }
  }

  /** A user with an account of a node reaches that node's tag; anyone else goes direct. */
  lemma RouteOf(nodes: seq<Spec>, user: string)
    ensures Route(NodeRules(nodes) + [CATCH_ALL], INBOUND_TAG, user)
         == Some(if user in IDs(nodes) then user else DIRECT_TAG)
  {
    var rules := NodeRules(nodes) + [CATCH_ALL];
    if user in IDs(nodes) {
      var k := FirstAt(IDs(nodes), user);
      assert nodes[k].id == user;
      forall j | 0 <= j < k ensures !Matches(rules[j], INBOUND_TAG, user) {
        assert IDs(nodes)[j] == nodes[j].id;
      }
      FirstMatchRoutes(rules, INBOUND_TAG, user, k);
    } else {
      forall j | 0 <= j < |nodes| ensures !Matches(rules[j], INBOUND_TAG, user) {
        assert IDs(nodes)[j] in IDs(nodes);
      }
      FirstMatchRoutes(rules, INBOUND_TAG, user, |nodes|);
    }
  }

  lemma {:induction false} FirstAt(xs: seq<string>, x: string) returns (k: nat)
    requires x in xs
    ensures k < |xs| && xs[k] == x && forall j :: 0 <= j < k ==> xs[j] != x
  {
    if xs[0] == x {
      k := 0;
    } else {
      assert xs == [xs[0]] + xs[1..];
      k := FirstAt(xs[1..], x);
      k := k + 1;
    }
  }

  // --- the generated configuration routes correctly -------------------------------------------------------

  predicate HasPrefix(s: string, prefix: string) {
    prefix <= s
  }

  lemma {:induction false} ChosenDistinct(all: seq<Spec>)
    requires DistinctBy(all, IDOf())
    ensures DistinctBy(Chosen(all), IDOf())
  {
    if all != [] {
      var n := |all| - 1;
      ChosenDistinct(all[..n]);
      ChosenSupported(all[..n]);
      var init := Chosen(all[..n]);
      forall i | 0 <= i < |init| ensures init[i].id != all[n].id {
        assert init[i] in all[..n];
        var p :| 0 <= p < n && all[..n][p] == init[i];
        assert IDOf()(all[p]) != IDOf()(all[n]);
      }
    }
  }

  /** Distinctness by a key survives rearrangement. */
  lemma DistinctByPermuted(a: seq<Spec>, b: seq<Spec>)
    requires multiset(a) == multiset(b) && DistinctBy(a, IDOf())
    ensures DistinctBy(b, IDOf())
  {
    forall i, j | 0 <= i < j < |b| ensures b[i].id != b[j].id {
      if b[i].id == b[j].id {
        var p := Found(a, b, i);
        var q := Found(a, b, j);
        assert IDOf()(a[p]) == IDOf()(a[q]);
        TwiceCounts(b, i, j);
        DistinctByOnce(a, p);
      }
    }
  }

  lemma Found(a: seq<Spec>, b: seq<Spec>, i: nat) returns (p: nat)
    requires multiset(a) == multiset(b) && i < |b|
    ensures p < |a| && a[p] == b[i]
  {
    assert b[i] in multiset(a);
    p :| 0 <= p < |a| && a[p] == b[i];
  }

  lemma TwiceCounts(b: seq<Spec>, i: nat, j: nat)
    requires i < j < |b| && b[i] == b[j]
    ensures multiset(b)[b[j]] >= 2
  {
    assert b == b[..j] + [b[j]] + b[j + 1..];
    assert b[..j][i] in multiset(b[..j]);
  }

  lemma DistinctByOnce(a: seq<Spec>, p: nat)
    requires p < |a| && DistinctBy(a, IDOf())
    ensures multiset(a)[a[p]] == 1
  {
    forall i, j | 0 <= i < j < |a| ensures a[i] != a[j] {
      assert IDOf()(a[i]) != IDOf()(a[j]);
    }
    CountInDistinct(a, a[p]);
  }

  /** The nodes behind a result: supported, distinct, and exactly the supported ones of the input. */
  lemma NodesOf(specs: seq<Spec>, opt: Options, hash12: string -> string, digest: Config -> string, g: Generated)
    returns (nodes: seq<Spec>)
    requires AllIdentifiable(specs) && DistinctBy(IdentifiedAll(specs, hash12), IDOf())
    requires Generates(specs, opt, hash12, digest, Ok(g))
    ensures AllSupported(nodes) && DistinctBy(nodes, IDOf()) && g.config == Tree(nodes, opt) && g.included == IDs(nodes)
    ensures forall s :: s in nodes <==> s in IdentifiedAll(specs, hash12) && Supported(s)
  {
    var all := IdentifiedAll(specs, hash12);
    nodes :| IsSortOf(nodes, Chosen(all)) && AllSupported(nodes) && Ok(g) == ResultOf(all, nodes, opt, digest);
    SortSupported(nodes, all);
    ChosenDistinct(all);
    DistinctByPermuted(Chosen(all), nodes);
  }

  /** Position k of the accounts and of the outbounds is the only one for this user and tag. */
  predicate OnlyAt(config: Config, k: nat, id: string) {
    && k < |config.inbound.accounts| && k < |config.outbounds|
    && (forall j :: 0 <= j < |config.inbound.accounts| ==> (config.inbound.accounts[j].user == id <==> j == k))
    && (forall j :: 0 <= j < |config.outbounds| ==> (config.outbounds[j].tag == id <==> j == k))
  }

  /**
   * Every included identifier, used as user name, has exactly one account, is routed to the tag of the
   * same name, and that tag belongs to exactly one outbound: the one built from the spec with that
   * identifier.
   */
  lemma IncludedReachTheirNode(specs: seq<Spec>, opt: Options, hash12: string -> string, digest: Config -> string,
                               g: Generated, id: string) returns (s: Spec, k: nat)
    requires AllIdentifiable(specs) && DistinctBy(IdentifiedAll(specs, hash12), IDOf())
    requires Generates(specs, opt, hash12, digest, Ok(g)) && id in g.included && id != DIRECT_TAG
    ensures s in IdentifiedAll(specs, hash12) && s.id == id
    ensures OnlyAt(g.config, k, id) && g.config.inbound.accounts[k].pass == opt.userPassword
    ensures Route(g.config.rules, INBOUND_TAG, id) == Some(id)
    ensures BuildOutbound(s, opt.mode) == Some(g.config.outbounds[k])
  {
    var nodes := NodesOf(specs, opt, hash12, digest, g);
    k :| 0 <= k < |nodes| && IDs(nodes)[k] == id;
    s := nodes[k];
    assert s in nodes;
    RouteOf(nodes, id);
    OneNodePerID(nodes, k, opt);
  }

  lemma OneNodePerID(nodes: seq<Spec>, k: nat, opt: Options)
    requires k < |nodes| && AllSupported(nodes) && DistinctBy(nodes, IDOf()) && nodes[k].id != DIRECT_TAG
    ensures OnlyAt(Tree(nodes, opt), k, nodes[k].id)
  {
    var config := Tree(nodes, opt);
    forall j | 0 <= j < |nodes| && j != k ensures nodes[j].id != nodes[k].id {
      assert IDOf()(nodes[j]) != IDOf()(nodes[k]);
    }
    forall j | 0 <= j < |nodes| ensures config.outbounds[j].tag == nodes[j].id {
      assert Supported(nodes[j]);
    }
  }

  /** The included identifiers ascend, whatever the order of the input. */
  lemma IncludedAscend(specs: seq<Spec>, opt: Options, hash12: string -> string, digest: Config -> string,
                       g: Generated, i: nat, j: nat)
    requires AllIdentifiable(specs) && DistinctBy(IdentifiedAll(specs, hash12), IDOf())
    requires Generates(specs, opt, hash12, digest, Ok(g)) && i < j < |g.included|
    ensures Less(g.included[i], g.included[j])
  {
    var all := IdentifiedAll(specs, hash12);
    var nodes: seq<Spec> :| IsSortOf(nodes, Chosen(all)) && AllSupported(nodes) && Ok(g) == ResultOf(all, nodes, opt, digest);
    ChosenDistinct(all);
    DistinctByPermuted(Chosen(all), nodes);
    assert IDOf()(nodes[i]) != IDOf()(nodes[j]) && !Less(IDOf()(nodes[j]), IDOf()(nodes[i]));
    LessTotal(nodes[i].id, nodes[j].id);
  }

  /** Exactly the supported specs are included. */
  lemma IncludedIffSupported(specs: seq<Spec>, opt: Options, hash12: string -> string, digest: Config -> string,
                             g: Generated, s: Spec)
    requires AllIdentifiable(specs) && DistinctBy(IdentifiedAll(specs, hash12), IDOf())
    requires Generates(specs, opt, hash12, digest, Ok(g)) && s in IdentifiedAll(specs, hash12)
    ensures s.id in g.included <==> Supported(s)
  {
    var nodes := NodesOf(specs, opt, hash12, digest, g);
    if Supported(s) {
      var k :| 0 <= k < |nodes| && nodes[k] == s;
      assert IDs(nodes)[k] in IDs(nodes);
    }
    if s.id in g.included {
      var k :| 0 <= k < |nodes| && IDs(nodes)[k] == s.id;
      assert nodes[k] in nodes;
      SameIDSameSpec(IdentifiedAll(specs, hash12), s, nodes[k]);
    }
  }

  lemma SameIDSameSpec(all: seq<Spec>, s: Spec, t: Spec)
    requires DistinctBy(all, IDOf()) && s in all && t in all && s.id == t.id
    ensures s == t
  {
    var p :| 0 <= p < |all| && all[p] == s;
    var q :| 0 <= q < |all| && all[q] == t;
    assert IDOf()(all[p]) == IDOf()(all[q]);
  }

  /** A user that is no included identifier goes to the `direct` outbound, whoever asks. */
  lemma OthersGoDirect(specs: seq<Spec>, opt: Options, hash12: string -> string, digest: Config -> string,
                       g: Generated, user: string)
    requires AllIdentifiable(specs) && Generates(specs, opt, hash12, digest, Ok(g))
    ensures Route(g.config.rules, INBOUND_TAG, user) == Some(if user in g.included then user else DIRECT_TAG)
    ensures g.config.outbounds != [] && g.config.outbounds[|g.config.outbounds| - 1] == DIRECT
  {
    var all := IdentifiedAll(specs, hash12);
    var nodes :| IsSortOf(nodes, Chosen(all)) && AllSupported(nodes) && Ok(g) == ResultOf(all, nodes, opt, digest);
    RouteOf(nodes, user);
  }

  // --- the observatory ------------------------------------------------------------------------------------

  /** The outbounds a selector's prefixes choose. */
  function Observed(selector: seq<string>, outbounds: seq<Outbound>): seq<Outbound> {
    if outbounds == [] then []
    else
      var n := |outbounds| - 1;
      var init := Observed(selector, outbounds[..n]);
      if exists i :: 0 <= i < |selector| && HasPrefix(outbounds[n].tag, selector[i]) then init + [outbounds[n]] else init
  }

  predicate Nodelike(o: Outbound) {
    HasPrefix(o.tag, NODE_PREFIX)
  }

  lemma {:induction false} ObservedLength(outbounds: seq<Outbound>)
    ensures |Observed([NODE_PREFIX], outbounds)| <= |outbounds|
    ensures (forall i :: 0 <= i < |outbounds| ==> Nodelike(outbounds[i])) ==> Observed([NODE_PREFIX], outbounds) == outbounds
    ensures (exists i :: 0 <= i < |outbounds| && !Nodelike(outbounds[i])) ==> |Observed([NODE_PREFIX], outbounds)| < |outbounds|
  {
    if outbounds != [] {
      var n := |outbounds| - 1;
      ObservedLength(outbounds[..n]);
      assert [NODE_PREFIX][0] == NODE_PREFIX;
      assert outbounds == outbounds[..n] + [outbounds[n]];
    }
  }

  /** The observatory watches the node outbounds, all of them and nothing else, iff all identifiers start with n-. */
  lemma ObservatoryCoversNodesIff(nodes: seq<Spec>, opt: Options)
    requires AllSupported(nodes)
    ensures var config := Tree(nodes, opt);
            Observed(config.observatory.selector, config.outbounds) == NodeOutbounds(nodes, opt.mode)
            <==> forall i :: 0 <= i < |nodes| ==> HasPrefix(nodes[i].id, NODE_PREFIX)
  {
    var outs := NodeOutbounds(nodes, opt.mode);
    ObservedLength(outs);
    DirectUnobserved(outs);
    forall i | 0 <= i < |nodes| ensures Nodelike(outs[i]) == HasPrefix(nodes[i].id, NODE_PREFIX) {
      assert Supported(nodes[i]);
    }
  }

  lemma DirectUnobserved(outs: seq<Outbound>)
    ensures Observed([NODE_PREFIX], outs + [DIRECT]) == Observed([NODE_PREFIX], outs)
  {
    assert (outs + [DIRECT])[..|outs|] == outs;
    assert DIRECT_TAG[0] == 'd';
    assert NODE_PREFIX[0] == 'n';
  }

  /** What the updater's pipeline gives: specs without an identifier, or with one that Normalize gave. */
  predicate NodeIDs(specs: seq<Spec>) {
    forall i :: 0 <= i < |specs| ==> Blank(specs[i].id) || HasPrefix(specs[i].id, NODE_PREFIX)
  }

  /** After deduplication such specs meet what the routing and observatory laws ask for. */
  lemma DeduplicatedSpecsAreRoutable(specs: seq<Spec>, hash12: string -> string)
    requires AllIdentifiable(specs) && NodeIDs(specs)
    ensures var out := DeduplicateOf(specs, hash12);
            AllIdentifiable(out) && IdentifiedAll(out, hash12) == out && DistinctBy(out, IDOf())
            && forall s :: s in out ==> HasPrefix(s.id, NODE_PREFIX) && s.id != DIRECT_TAG && !Blank(s.id)
  {
    var all, out := IdentifiedAll(specs, hash12), DeduplicateOf(specs, hash12);
    DeduplicateIdentified(specs, hash12);
    KeptWasThere(all);
    forall s | s in out ensures HasPrefix(s.id, NODE_PREFIX) && s.id != DIRECT_TAG && !Blank(s.id) {
      assert s in all;
      var i :| 0 <= i < |all| && all[i] == s;
      PrefixOfIdentified(specs[i], hash12);
    }
    forall i | 0 <= i < |out| ensures !Blank(out[i].id) {
      assert out[i] in out;
    }
  }

  lemma PrefixOfIdentified(s: Spec, hash12: string -> string)
    requires Identifiable(s) && (Blank(s.id) || HasPrefix(s.id, NODE_PREFIX))
    ensures HasPrefix(Identified(s, hash12).id, NODE_PREFIX) && Identified(s, hash12).id != DIRECT_TAG
  {
    var id := Identified(s, hash12).id;
    assert NODE_PREFIX[0] == 'n' && DIRECT_TAG[0] == 'd';
    assert id[0] == NODE_PREFIX[0];
  }

  /** A number of seconds is written as it is, and a missing one as its default. */
  lemma SecondsAreWritten(v: int, fallback: int)
    requires 0 < (if v > 0 then v else fallback) && (if v > 0 then v else fallback) * 1_000_000_000 < TWO_TO_THE_63
    ensures DurationString(v, fallback) == Itoa(if v > 0 then v else fallback) + "s"
  {
    var n := if v > 0 then v else fallback;
    WrapFits(n * NANOSECONDS);
    assert n * NANOSECONDS / NANOSECONDS == n;
  }

  lemma WrapFits(x: int)
    requires 0 <= x < TWO_TO_THE_63
    ensures Wrap(x) == x
  {
  }

  /** A number of seconds beyond what a duration can hold, 292 years, wraps around and comes out negative. */
  lemma SecondsOverflow(v: int, fallback: int)
    requires TWO_TO_THE_63 <= v * 1_000_000_000 < TWO_TO_THE_64
    ensures DurationString(v, fallback) == Itoa(-((TWO_TO_THE_64 - v * 1_000_000_000) / 1_000_000_000)) + "s"
  {
    WrapOnce(v * NANOSECONDS);
  }

  lemma WrapOnce(x: int)
    requires TWO_TO_THE_63 <= x < TWO_TO_THE_64
    ensures Wrap(x) == x - TWO_TO_THE_64
  {
  }

  /**
   * Which observatory is configured: the plain one where the mode says so, whatever its case and the blanks
   * around it, and otherwise the burst one; each with its own settings, in seconds, 30 and 5 by default.
   */
  lemma ObservatoryIs(o: ObservatoryOptions)
    ensures var mode, every := TrimSpace(ToLower(o.mode)), DurationString(o.intervalSeconds, 30);
            if mode == "observatory" then ObservatoryOf(o) == Plain(["n-"], o.destination, every)
            else
              && ObservatoryOf(o).Burst? && ObservatoryOf(o).selector == ["n-"]
              && ObservatoryOf(o).destination == o.destination && ObservatoryOf(o).interval == every
              && ObservatoryOf(o).sampling == o.sampling && ObservatoryOf(o).timeout == DurationString(o.timeoutSeconds, 5)
              && (ObservatoryOf(o).connectivity.Some? <==> !Blank(o.connectivity))
              && (!Blank(o.connectivity) ==> ObservatoryOf(o).connectivity == Some(o.connectivity))
  {
    LowerTrim(o.mode);
  }

  /** Around the nodes: password-protected SOCKS with UDP, the metrics where they were asked for, and a way out. */
  lemma SurroundingsAre(nodes: seq<Spec>, opt: Options)
    requires AllSupported(nodes)
    ensures var c := Tree(nodes, opt);
            && c.inbound.protocol == "socks" && c.inbound.auth == "password" && c.inbound.udp && c.inbound.tag == "socks-in"
            && c.metricsListen == opt.metricsListen && c.metricsTag == "metrics" && c.logLevel == "warning" && c.domainStrategy == "AsIs"
            && |c.outbounds| == |nodes| + 1 && c.outbounds[|nodes|].tag == "direct" && c.outbounds[|nodes|].protocol == "freedom"
            && |c.rules| == |nodes| + 1 && (forall i :: 0 <= i < |c.rules| ==> c.rules[i].ruleType == "field" && c.rules[i].inboundTags == ["socks-in"])
  {
  }

  /** A node is spoken to in the protocol of its type. */
  lemma ProtocolIsType(s: Spec, mode: Mode)
    requires Supported(s)
    ensures var p := BuildOutbound(s, mode).value.protocol;
            if s.kind == "socks5" then p == "socks" else p == s.kind && p in {"http", "shadowsocks", "vmess", "vless", "trojan"}
    ensures s.kind == "vless" ==> BuildOutbound(s, mode).value.settings.encryption == "none"
  {
  }

  /** Supported are SOCKS5 and HTTP, and the other four types where they come with their configuration. */
  lemma SupportedIff(s: Spec)
    ensures Supported(s) <==>
              || s.kind in {"socks5", "http"}
              || (s.kind == "shadowsocks" && s.shadowsocks.Some?) || (s.kind == "vmess" && s.vmess.Some?)
              || (s.kind == "vless" && s.vless.Some?) || (s.kind == "trojan" && s.trojan.Some?)
  {
  }

  // --- where xray listens -------------------------------------------------------------------------------------

  lemma {:induction false} DigitsReadBack(n: nat)
    ensures AllDigits(Digits(n)) && ReadDigits(Digits(n)) == n
  {
    if n < 10 {
      assert Digits(n)[..0] == "";
    } else {
      DigitsReadBack(n / 10);
      assert Digits(n)[..|Digits(n)| - 1] == Digits(n / 10);
    }
  }

  /** A written number is read back, one that does not fit into 64 bits as the nearest that does. */
  lemma ItoaReadBack(n: int)
    ensures Atoi(Itoa(n)) == if n >= TWO_TO_THE_63 then TWO_TO_THE_63 - 1 else if n < -TWO_TO_THE_63 then -TWO_TO_THE_63 else n
  {
    var d := Digits(if n < 0 then -n else n);
    DigitsReadBack(if n < 0 then -n else n);
    NodeIdentity.DigitsAreDigits(if n < 0 then -n else n);
    assert d[0] in d;
    assert n < 0 ==> Itoa(n)[0] == '-' && Itoa(n)[1..] == d;
  }

  lemma OneLastColon(s: string, c: nat)
    requires c < |s| && s[c] == ':' && forall i :: c < i < |s| ==> s[i] != ':'
    ensures LastColon(s) == c
  {
  }

  lemma ColonsAfter(host: string, rest: string)
    requires ':' !in rest
    ensures var s := host + ":" + rest;
            |host| < |s| && s[|host|] == ':' && forall i :: |host| < i < |s| ==> s[i] != ':'
  {
    var s := host + ":" + rest;
    forall i | |host| < i < |s| ensures s[i] != ':' {
      assert s[i] == rest[i - |host| - 1];
    }
  }

  lemma LastColonAfter(host: string, rest: string)
    requires ':' !in rest
    ensures LastColon(host + ":" + rest) == |host|
  {
    ColonsAfter(host, rest);
    OneLastColon(host + ":" + rest, |host|);
  }

  /** The generated inbound listens at the host and port its address is made of. */
  lemma ListensWhereTold(host: string, port: int)
    ensures HostPart(host + ":" + Itoa(port)) == host
    ensures -TWO_TO_THE_63 <= port < TWO_TO_THE_63 ==> PortPart(host + ":" + Itoa(port)) == port
    ensures port >= TWO_TO_THE_63 ==> PortPart(host + ":" + Itoa(port)) == TWO_TO_THE_63 - 1
    ensures port < -TWO_TO_THE_63 ==> PortPart(host + ":" + Itoa(port)) == -TWO_TO_THE_63
  {
    NodeIdentity.ItoaFree(port, ':');
    LastColonAfter(host, Itoa(port));
    assert (host + ":" + Itoa(port))[|host| + 1..] == Itoa(port);
    ItoaReadBack(port);
  }

  /** An address without a colon is all host, and its port 0; so is the port of one whose port is no number. */
  lemma ListensWithoutPort(host: string, rest: string)
    requires ':' !in host && ':' !in rest
    ensures HostPart(host) == host && PortPart(host) == 0
    ensures rest == "" || (rest[0] != '-' && rest[0] != '+' && !AllDigits(rest)) ==>
              HostPart(host + ":" + rest) == host && PortPart(host + ":" + rest) == 0
  {
    assert forall i :: 0 <= i < |host| ==> host[i] in host;
    LastColonAfter(host, rest);
    assert (host + ":" + rest)[..|host|] == host && (host + ":" + rest)[|host| + 1..] == rest;
  }
}
