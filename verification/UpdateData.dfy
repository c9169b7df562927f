/** What an update of the pool loads, and the entries it builds. */
module UpdateData {
  import opened Base
  import opened GoText
  import opened Dedup
  import opened NodeSpec
  import opened XrayConfig
  import opened XrayConfigLaws
  import FanOut
  import ProxyPool

  type Entry = ProxyPool.Entry

  datatype Health = Health(alive: bool, delay: int)

  /** A proxy whose check succeeded. */
  datatype Checked = Checked(addr: string, latency: int)

  // --- entries from a generated configuration -----------------------------------------------------------

  predicate AliveIn(health: map<string, Health>, id: string) {
    id in health && health[id].alive
  }

  function XrayEntry(id: string, delay: int, opt: Options, now: int): Entry {
    ProxyPool.Entry(id, opt.socksListen, id, opt.userPassword, delay, Some(now), 0, None)
  }

  /** One entry per included node that xray reports alive, in the order of the included list. */
  function XrayEntries(included: seq<string>, health: map<string, Health>, opt: Options, now: int): seq<Entry> {
    if included == [] then []
    else
      var n := |included| - 1;
      var init := XrayEntries(included[..n], health, opt, now);
      if AliveIn(health, included[n]) then init + [XrayEntry(included[n], health[included[n]].delay, opt, now)] else init
  }

  method BuildXrayEntries(included: seq<string>, health: map<string, Health>, opt: Options, now: int)
    returns (entries: seq<Entry>)
    ensures entries == XrayEntries(included, health, opt, now)
  {
    entries := [];
    var i := 0;
    while i < |included|
      invariant 0 <= i <= |included| && entries == XrayEntries(included[..i], health, opt, now)
    {
      assert included[..i + 1][..i] == included[..i];
      if included[i] in health && health[included[i]].alive {
        entries := entries + [XrayEntry(included[i], health[included[i]].delay, opt, now)];
      }
      i := i + 1;
    }
    assert included[..i] == included;
  }

  /** The included identifiers that xray reports alive. */
  function AliveIncluded(included: seq<string>, health: map<string, Health>): set<string> {
    set id | id in included && id in health && health[id].alive
  }

  function KeySet(es: seq<Entry>): set<string> {
    set e | e in es :: e.Key()
  }

  /** An entry for a node: dialled at xray's own address, under the node's name, with nothing held against it. */
  predicate IsNodeEntry(e: Entry, health: map<string, Health>, opt: Options, now: int) {
    && e.id in health && health[e.id].alive && e.Key() == e.id
    && e.addr == opt.socksListen && e.username == e.id && e.password == opt.userPassword
    && e.latency == health[e.id].delay && e.lastCheckedAt == Some(now) && e.failures == 0 && e.disabledUntil.None?
  }

  lemma {:induction false} XrayEntriesAreNodes(included: seq<string>, health: map<string, Health>, opt: Options, now: int)
    requires forall id :: id in included ==> !Blank(id)
    ensures forall e :: e in XrayEntries(included, health, opt, now) ==> e.id in included && IsNodeEntry(e, health, opt, now)
    ensures forall id :: id in AliveIncluded(included, health) ==> exists e :: e in XrayEntries(included, health, opt, now) && e.id == id
  {
    if included != [] {
      var n := |included| - 1;
      assert included == included[..n] + [included[n]];
      XrayEntriesAreNodes(included[..n], health, opt, now);
      var init, es := XrayEntries(included[..n], health, opt, now), XrayEntries(included, health, opt, now);
      forall id | id in AliveIncluded(included, health) ensures exists e :: e in es && e.id == id {
        if id == included[n] {
          assert es[|init|] in es;
        } else {
          assert id in AliveIncluded(included[..n], health);
          var e :| e in init && e.id == id;
          assert e in es;
        }
      }
    }
  }

  /** The entries keep the order of the included list. */
  lemma {:induction false} XrayEntriesInOrder(included: seq<string>, health: map<string, Health>, opt: Options, now: int, i: nat, j: nat)
    returns (p: nat, q: nat)
    requires i < j < |XrayEntries(included, health, opt, now)|
    ensures p < q < |included|
    ensures XrayEntries(included, health, opt, now)[i].id == included[p] && XrayEntries(included, health, opt, now)[j].id == included[q]
  {
    var n := |included| - 1;
    var init := XrayEntries(included[..n], health, opt, now);
    if j < |init| {
      p, q := XrayEntriesInOrder(included[..n], health, opt, now, i, j);
    } else {
      q := n;
      p := EntryOrigin(included[..n], health, opt, now, i);
    }
  }

  lemma {:induction false} EntryOrigin(included: seq<string>, health: map<string, Health>, opt: Options, now: int, i: nat) returns (p: nat)
    requires i < |XrayEntries(included, health, opt, now)|
    ensures p < |included| && XrayEntries(included, health, opt, now)[i].id == included[p]
  {
    var n := |included| - 1;
    if i < |XrayEntries(included[..n], health, opt, now)| {
      p := EntryOrigin(included[..n], health, opt, now, i);
    } else {
      p := n;
    }
  }

  /** The keys of the entries are the identifiers that are included and reported alive, each once. */
  lemma XrayEntriesKeys(included: seq<string>, health: map<string, Health>, opt: Options, now: int)
    requires Distinct(included) && forall id :: id in included ==> !Blank(id)
    ensures var es := XrayEntries(included, health, opt, now);
            && ProxyPool.DistinctKeys(es) && KeySet(es) == (set id | id in included && id in health && health[id].alive)
            && (forall e :: e in es ==> e.id in included && IsNodeEntry(e, health, opt, now))
  {
    var es := XrayEntries(included, health, opt, now);
    XrayEntriesAreNodes(included, health, opt, now);
    forall i, j | 0 <= i < j < |es| ensures es[i].Key() != es[j].Key() {
      assert es[i] in es && es[j] in es;
      var p, q := XrayEntriesInOrder(included, health, opt, now, i, j);
    }
    forall id ensures id in KeySet(es) <==> id in AliveIncluded(included, health) {
      if id in AliveIncluded(included, health) {
        var e :| e in es && e.id == id;
        assert e.Key() in KeySet(es);
      }
    }
  }

  // --- entries from health checks ----------------------------------------------------------------------

  function AddrOf(): Checked -> string {
    (r: Checked) => r.addr
  }

  function LegacyEntry(r: Checked, now: int): Entry {
    ProxyPool.Entry("", r.addr, "", "", r.latency, Some(now), 0, None)
  }

  function LegacyEntries(results: seq<Checked>, now: int): seq<Entry> {
    var kept := KeepFirst(results, AddrOf());
    seq(|kept|, i requires 0 <= i < |kept| => LegacyEntry(kept[i], now))
  }

  /** One more result adds its entry if its address is new. */
  lemma LegacyEntriesAppended(results: seq<Checked>, r: Checked, now: int)
    ensures LegacyEntries(results + [r], now)
         == LegacyEntries(results, now) + if r.addr in KeysOf(results, AddrOf()) then [] else [LegacyEntry(r, now)]
  {
    KeepFirstAppended(results, r, AddrOf());
    KeepFirstKeys(results, AddrOf());
  }

  /** The loop over the closed result channel, with its `seen` map. */
  method DrainResults(results: seq<Checked>, now: int) returns (entries: seq<Entry>)
    ensures entries == LegacyEntries(results, now)
  {
    entries := [];
    var seen := {};
    var i := 0;
    while i < |results|
      invariant 0 <= i <= |results|
      invariant seen == KeysOf(results[..i], AddrOf()) && entries == LegacyEntries(results[..i], now)
    {
      LegacyEntriesAppended(results[..i], results[i], now);
      KeysOfAppended(results[..i], results[i], AddrOf());
      assert results[..i + 1] == results[..i] + [results[i]];
      if results[i].addr !in seen {
        seen := seen + {results[i].addr};
        entries := entries + [LegacyEntry(results[i], now)];
      }
      i := i + 1;
    }
    assert results[..i] == results;
  }

  lemma {:induction false} KeptResults(results: seq<Checked>)
    ensures forall r :: r in KeepFirst(results, AddrOf()) ==> r in results
  {
    if results != [] {
      KeptResults(results[..|results| - 1]);
    }
  }

  /** One entry per address that reported, under that address as key. */
  lemma LegacyEntriesKeys(results: seq<Checked>, now: int)
    ensures var es := LegacyEntries(results, now);
            && ProxyPool.DistinctKeys(es)
            && (forall e :: e in es ==> e.Key() == e.addr && Checked(e.addr, e.latency) in results
                                        && e == ProxyPool.Entry("", e.addr, "", "", e.latency, Some(now), 0, None))
            && (forall a :: a in KeysOf(results, AddrOf()) ==> exists e :: e in es && e.addr == a)
  {
    var kept, es := KeepFirst(results, AddrOf()), LegacyEntries(results, now);
    KeepFirstKeys(results, AddrOf());
    KeptResults(results);
    forall i | 0 <= i < |es| ensures es[i].Key() == AddrOf()(kept[i]) && Checked(es[i].addr, es[i].latency) in results {
      assert kept[i] in kept;
    }
    forall a | a in KeysOf(results, AddrOf()) ensures exists e :: e in es && e.addr == a {
      var r :| r in kept && AddrOf()(r) == a;
      var i :| 0 <= i < |kept| && kept[i] == r;
      assert es[i] in es && es[i].addr == a;
    }
  }

  /** What a finished fan-out hands to the drain loop. */
  function ResultsOf(job: FanOut.Job, drained: seq<nat>, latency: nat -> int): seq<Checked> {
    seq(|drained|, k requires 0 <= k < |drained| => Checked(FanOut.AddressOf(job)(drained[k]), latency(drained[k])))
  }

  /** Results a fan-out over these proxies can have: every result is about one of them. */
  predicate PossibleResults(proxies: seq<string>, results: seq<Checked>) {
    forall k :: 0 <= k < |results| ==> results[k].addr in proxies
  }

  /**
   * Whatever the schedule of the checks, the entries built from a finished fan-out have as keys exactly
   * the live addresses, each once.
   */
  lemma FanOutEntries(job: FanOut.Job, s: FanOut.State, latency: nat -> int, now: int)
    requires FanOut.Inv(job, s) && s.main.Finished?
    ensures var results := ResultsOf(job, s.drained, latency);
            && PossibleResults(job.proxies, results)
            && ProxyPool.DistinctKeys(LegacyEntries(results, now))
            && KeySet(LegacyEntries(results, now)) == FanOut.LiveAddresses(job)
  {
    FanOut.FinishedReportsAll(job, s);
    var results := ResultsOf(job, s.drained, latency);
    LegacyEntriesKeys(results, now);
    ResultsAreLive(job, s, latency);
    forall k | 0 <= k < |results| ensures results[k].addr in job.proxies {
      assert s.drained[k] in s.drained;
    }
  }

  lemma ResultsAreLive(job: FanOut.Job, s: FanOut.State, latency: nat -> int)
    requires FanOut.Inv(job, s) && s.main.Finished?
    ensures KeysOf(ResultsOf(job, s.drained, latency), AddrOf()) == FanOut.LiveAddresses(job)
  {
    FanOut.FinishedReportsAll(job, s);
    var results := ResultsOf(job, s.drained, latency);
    forall a ensures a in KeysOf(results, AddrOf()) <==> a in FanOut.LiveAddresses(job) {
      if a in KeysOf(results, AddrOf()) {
        var r :| r in results && AddrOf()(r) == a;
        var k :| 0 <= k < |results| && results[k] == r;
        assert s.drained[k] in s.drained;
      }
      if a in FanOut.LiveAddresses(job) {
        var i :| 0 <= i < |job.proxies| && job.alive[i] && job.proxies[i] == a;
        assert i in s.drained;
        var k :| 0 <= k < |s.drained| && s.drained[k] == i;
        assert results[k] in results;
      }
    }
  }

  // --- loading ---------------------------------------------------------------------------------------------

  /** A download or a source that may fail; NotConfigured where there is nothing to load. */
  datatype Load<+T> = NotConfigured | Failed | Loaded(items: T)

  function ItemsOf<T>(l: Load<seq<T>>): seq<T> {
    if l.Loaded? then l.items else []
  }

  /** The legacy addresses: each once, in order of appearance; nothing at all counts as a failure. */
  function AddressesOf(urls: Load<seq<string>>, sources: Load<seq<string>>): Option<seq<string>> {
    if urls.Failed? || sources.Failed? then None
    else
      var out := KeepFirst(ItemsOf(urls) + ItemsOf(sources), Identity());
      if out == [] then None else Some(out)
  }

  method AddEach(out: seq<string>, seen: set<string>, addrs: seq<string>, ghost before: seq<string>)
    returns (more: seq<string>, seenToo: set<string>)
    requires out == KeepFirst(before, Identity()) && seen == KeysOf(out, Identity())
    ensures more == KeepFirst(before + addrs, Identity()) && seenToo == KeysOf(more, Identity())
  {
    more, seenToo := out, seen;
    assert before + addrs[..0] == before;
    var i := 0;
    while i < |addrs|
      invariant 0 <= i <= |addrs|
      invariant more == KeepFirst(before + addrs[..i], Identity()) && seenToo == KeysOf(more, Identity())
    {
      assert before + addrs[..i + 1] == (before + addrs[..i]) + [addrs[i]];
      KeepFirstAppended(before + addrs[..i], addrs[i], Identity());
      if addrs[i] !in seenToo {
        KeysOfAppended(more, addrs[i], Identity());
        seenToo := seenToo + {addrs[i]};
        more := more + [addrs[i]];
      }
      i := i + 1;
    }
    assert addrs[..i] == addrs;
  }

  method LoadSOCKS5Upstreams(urls: Load<seq<string>>, sources: Load<seq<string>>) returns (r: Option<seq<string>>)
    ensures r == AddressesOf(urls, sources)
  {
    var out: seq<string>, seen: set<string> := [], {};
    assert KeepFirst([], Identity()) == out && KeysOf(out, Identity()) == seen;
    if urls.Failed? {
      return None;
    }
    if urls.Loaded? {
      out, seen := AddEach(out, seen, urls.items, []);
      assert [] + urls.items == urls.items;
    }
    assert out == KeepFirst(ItemsOf(urls), Identity()) && seen == KeysOf(out, Identity());
    if sources.Failed? {
      return None;
    }
    if sources.Loaded? {
      out, seen := AddEach(out, seen, sources.items, ItemsOf(urls));
    } else {
      assert ItemsOf(urls) + ItemsOf(sources) == ItemsOf(urls);
    }
    if |out| == 0 {
      return None;
    }
    r := Some(out);
  }

  /** Loading fails iff one of the two kinds of source fails or there is not one address. */
  lemma LoadFailsIff(urls: Load<seq<string>>, sources: Load<seq<string>>)
    ensures AddressesOf(urls, sources).None?
            <==> urls == Failed || sources == Failed || (ItemsOf(urls) == [] && ItemsOf(sources) == [])
  {
    var all := ItemsOf(urls) + ItemsOf(sources);
    KeepFirstKeys(all, Identity());
    if all != [] {
      assert Identity()(all[0]) in KeysOf(all, Identity());
    }
  }

  /** The addresses of lists come before those only typed sources have. */
  lemma ListsComeFirst(urls: Load<seq<string>>, sources: Load<seq<string>>, i: nat, j: nat)
    requires AddressesOf(urls, sources).Some?
    requires var out := AddressesOf(urls, sources).value; i < |out| && j < |out| && out[i] in ItemsOf(urls) && out[j] !in ItemsOf(urls)
    ensures i < j
  {
    var a, all := ItemsOf(urls), ItemsOf(urls) + ItemsOf(sources);
    var kept, out := Kept(all, Identity(), |all|), KeepFirst(all, Identity());
    assert all[..|all|] == all;
    KeepFirstPositions(all, Identity(), |all|);
    KeptFirst(all, Identity(), |all|, i);
    KeptAscends(all, Identity(), |all|);
    assert all[kept[i]] == out[i] && all[kept[j]] == out[j];
    var p :| 0 <= p < |a| && a[p] == out[i];
    assert Identity()(all[p]) == Identity()(out[i]);
  }

  lemma LoadedAddressesDistinct(urls: Load<seq<string>>, sources: Load<seq<string>>)
    requires AddressesOf(urls, sources).Some?
    ensures var out := AddressesOf(urls, sources).value;
            && out != [] && Distinct(out)
            && forall a :: a in out <==> a in ItemsOf(urls) || a in ItemsOf(sources)
  {
    var all := ItemsOf(urls) + ItemsOf(sources);
    var out := AddressesOf(urls, sources).value;
    KeepFirstKeys(all, Identity());
    forall i, j | 0 <= i < j < |out| ensures out[i] != out[j] {
      assert Identity()(out[i]) != Identity()(out[j]);
    }
    forall a ensures a in out <==> a in all {
      assert a in out <==> a in KeysOf(out, Identity());
      assert a in all <==> a in KeysOf(all, Identity());
    }
  }

  /** split stands for splitting host and port off an address and reading the port as a number. */
  function SpecFromAddr(addr: string, split: string -> Option<(string, int)>, hash12: string -> string): (r: Option<Spec>)
    ensures r.Some? ==> Identifiable(r.value) && Supported(r.value) && HasPrefix(r.value.id, NODE_PREFIX)
  {
    var hostPort := split(addr);
    if hostPort.None? || hostPort.value.1 <= 0 then None
    else
      var s := Spec("", "", TYPE_SOCKS5, hostPort.value.0, hostPort.value.1, None, None, None, None, None, None);
      Some(Normalize(s, hash12))
  }

  /** The SOCKS5 node at a host and port, before it has an identifier. */
  function PlainNode(host: string, port: int): Spec {
    Spec("", "", "socks5", host, port, None, None, None, None, None, None)
  }

  /** A plain address is taken iff it splits into a host and a positive port, and is then the SOCKS5 node there. */
  lemma PlainAddressIs(addr: string, split: string -> Option<(string, int)>, hash12: string -> string)
    ensures SpecFromAddr(addr, split, hash12).Some? <==> split(addr).Some? && split(addr).value.1 > 0
    ensures SpecFromAddr(addr, split, hash12).Some? ==>
              var node := PlainNode(split(addr).value.0, split(addr).value.1);
              SpecFromAddr(addr, split, hash12).value == node.(id := StableNodeID(node, hash12))
  {
  }

  function SpecsFrom(addrs: seq<string>, split: string -> Option<(string, int)>, hash12: string -> string): (r: seq<Spec>)
    ensures AllIdentifiable(r) && NodeIDs(r)
  {
    if addrs == [] then []
    else
      var init := SpecsFrom(addrs[..|addrs| - 1], split, hash12);
      var last := SpecFromAddr(addrs[|addrs| - 1], split, hash12);
      if last.Some? then init + [last.value] else init
  }

  /** What a typed source yields: specs of its own and plain SOCKS5 addresses. */
  datatype Sourced = Sourced(specs: seq<Spec>, addrs: seq<string>)

  /** Sources give every spec its configuration and its identifier. */
  predicate WellSourced(sources: Load<Sourced>) {
    sources.Loaded? ==> AllIdentifiable(sources.items.specs) && NodeIDs(sources.items.specs)
  }

  /** Everything loaded, before deduplication. */
  function RawSpecs(sources: Load<Sourced>, urls: Load<seq<string>>,
                    split: string -> Option<(string, int)>, hash12: string -> string): (r: seq<Spec>)
    requires WellSourced(sources)
    ensures AllIdentifiable(r) && NodeIDs(r)
  {
    (if sources.Loaded? then sources.items.specs + SpecsFrom(sources.items.addrs, split, hash12) else [])
    + SpecsFrom(ItemsOf(urls), split, hash12)
  }

  function UpstreamSpecs(sources: Load<Sourced>, urls: Load<seq<string>>,
                         split: string -> Option<(string, int)>, hash12: string -> string): Option<seq<Spec>>
    requires WellSourced(sources)
  {
    if sources.Failed? || urls.Failed? then None
    else Some(DeduplicateOf(RawSpecs(sources, urls, split, hash12), hash12))
  }

  method AppendSpecs(specs: seq<Spec>, addrs: seq<string>, split: string -> Option<(string, int)>, hash12: string -> string)
    returns (more: seq<Spec>)
    ensures more == specs + SpecsFrom(addrs, split, hash12)
  {
    more := specs;
    var i := 0;
    while i < |addrs|
      invariant 0 <= i <= |addrs| && more == specs + SpecsFrom(addrs[..i], split, hash12)
    {
      assert addrs[..i + 1][..i] == addrs[..i];
      var s := SpecFromAddr(addrs[i], split, hash12);
      if s.Some? {
        more := more + [s.value];
      }
      i := i + 1;
    }
    assert addrs[..i] == addrs;
  }

  method LoadUpstreamSpecs(sources: Load<Sourced>, urls: Load<seq<string>>,
                           split: string -> Option<(string, int)>, hash12: string -> string)
    returns (r: Option<seq<Spec>>)
    requires WellSourced(sources)
    ensures r == UpstreamSpecs(sources, urls, split, hash12)
  {
    var specs: seq<Spec> := [];
    if sources.Failed? {
      return None;
    }
    if sources.Loaded? {
      specs := AppendSpecs(sources.items.specs, sources.items.addrs, split, hash12);
    }
    if urls.Failed? {
      return None;
    }
    if urls.Loaded? {
      specs := AppendSpecs(specs, urls.items, split, hash12);
    }
    assert specs == RawSpecs(sources, urls, split, hash12);
    specs := NodeSpec.Deduplicate(specs, hash12);
    r := Some(specs);
  }

  lemma {:induction false} SpecsFromAre(addrs: seq<string>, split: string -> Option<(string, int)>, hash12: string -> string)
    ensures forall s :: s in SpecsFrom(addrs, split, hash12)
              <==> exists a :: a in addrs && SpecFromAddr(a, split, hash12) == Some(s)
  {
    if addrs != [] {
      var n := |addrs| - 1;
      assert addrs == addrs[..n] + [addrs[n]];
      SpecsFromAre(addrs[..n], split, hash12);
      var init, all := SpecsFrom(addrs[..n], split, hash12), SpecsFrom(addrs, split, hash12);
      var last := SpecFromAddr(addrs[n], split, hash12);
      forall s ensures s in all <==> exists a :: a in addrs && SpecFromAddr(a, split, hash12) == Some(s) {
        assert s in all <==> s in init || last == Some(s);
      }
    }
  }

  /** A spec that loading is to take over: from a typed source, or the node of a plain address. */
  ghost predicate Offered(sources: Load<Sourced>, urls: Load<seq<string>>,
                          split: string -> Option<(string, int)>, hash12: string -> string, s: Spec)
    requires WellSourced(sources)
  {
    || (sources.Loaded? && s in sources.items.specs)
    || (exists a :: ((sources.Loaded? && a in sources.items.addrs) || (urls.Loaded? && a in urls.items))
                    && SpecFromAddr(a, split, hash12) == Some(s))
  }

  lemma OfferedIsRaw(sources: Load<Sourced>, urls: Load<seq<string>>,
                     split: string -> Option<(string, int)>, hash12: string -> string, s: Spec)
    requires WellSourced(sources)
    ensures Offered(sources, urls, split, hash12, s) <==> s in RawSpecs(sources, urls, split, hash12)
  {
    if sources.Loaded? {
      SpecsFromAre(sources.items.addrs, split, hash12);
    }
    SpecsFromAre(ItemsOf(urls), split, hash12);
  }

  /**
   * Loading specs fails iff a source fails. Otherwise nothing offered is lost: its identifier is among the
   * loaded ones, and no other is.
   */
  lemma NothingOfferedIsLost(sources: Load<Sourced>, urls: Load<seq<string>>,
                             split: string -> Option<(string, int)>, hash12: string -> string, id: string)
    requires WellSourced(sources)
    ensures UpstreamSpecs(sources, urls, split, hash12).None? <==> sources == Load<Sourced>.Failed || urls == Load<seq<string>>.Failed
    ensures UpstreamSpecs(sources, urls, split, hash12).Some? ==>
              ((exists t :: t in UpstreamSpecs(sources, urls, split, hash12).value && t.id == id)
                <==> exists s :: Offered(sources, urls, split, hash12, s) && Identifiable(s) && Identified(s, hash12).id == id)
  {
    if UpstreamSpecs(sources, urls, split, hash12).Some? {
      var raw := RawSpecs(sources, urls, split, hash12);
      IdentifierCame(raw, hash12, id);
      forall s ensures Offered(sources, urls, split, hash12, s) <==> s in raw {
        OfferedIsRaw(sources, urls, split, hash12, s);
      }
    }
  }

  lemma IdentifierCame(raw: seq<Spec>, hash12: string -> string, id: string)
    requires AllIdentifiable(raw)
    ensures (exists t :: t in DeduplicateOf(raw, hash12) && t.id == id)
            <==> exists s :: s in raw && Identifiable(s) && Identified(s, hash12).id == id
  {
    var all, out := IdentifiedAll(raw, hash12), DeduplicateOf(raw, hash12);
    DeduplicateIdentified(raw, hash12);
    assert id in KeysOf(out, IDOf()) <==> id in KeysOf(all, IDOf());
    assert (exists t :: t in out && t.id == id) <==> id in KeysOf(out, IDOf());
    if id in KeysOf(all, IDOf()) {
      var t :| t in all && IDOf()(t) == id;
      var i :| 0 <= i < |all| && all[i] == t;
      assert raw[i] in raw && Identified(raw[i], hash12).id == id;
    }
    if s :| s in raw && Identifiable(s) && Identified(s, hash12).id == id {
      var i :| 0 <= i < |raw| && raw[i] == s;
      assert all[i] in all && IDOf()(all[i]) == id;
    }
  }

  /** What loading hands to Generate: specs with distinct, non-blank n- identifiers of their own. */
  predicate Ready(specs: seq<Spec>, hash12: string -> string) {
    && AllIdentifiable(specs) && IdentifiedAll(specs, hash12) == specs && DistinctBy(specs, IDOf())
    && forall s :: s in specs ==> HasPrefix(s.id, NODE_PREFIX) && s.id != DIRECT_TAG && !Blank(s.id)
  }

  lemma LoadedSpecsReady(sources: Load<Sourced>, urls: Load<seq<string>>,
                         split: string -> Option<(string, int)>, hash12: string -> string)
    requires WellSourced(sources) && UpstreamSpecs(sources, urls, split, hash12).Some?
    ensures Ready(UpstreamSpecs(sources, urls, split, hash12).value, hash12)
  {
    DeduplicatedSpecsAreRoutable(RawSpecs(sources, urls, split, hash12), hash12);
  }

  /** An included list whose elements can be used as pool keys. */
  predicate UsableIDs(included: seq<string>) {
    Distinct(included) && forall id :: id in included ==> !Blank(id) && HasPrefix(id, NODE_PREFIX)
  }

  lemma GeneratedIsUsable(specs: seq<Spec>, opt: Options, hash12: string -> string, digest: Config -> string, g: Generated)
    requires Ready(specs, hash12) && Generates(specs, opt, hash12, digest, Ok(g))
    ensures UsableIDs(g.included) && g.hash == digest(g.config)
  {
    var nodes := NodesOf(specs, opt, hash12, digest, g);
    forall i, j | 0 <= i < j < |nodes| ensures IDs(nodes)[i] != IDs(nodes)[j] {
      assert IDOf()(nodes[i]) != IDOf()(nodes[j]);
    }
    forall id | id in IDs(nodes) ensures !Blank(id) && HasPrefix(id, NODE_PREFIX) {
      var k :| 0 <= k < |nodes| && IDs(nodes)[k] == id;
      assert nodes[k] in nodes;
      assert nodes[k] in specs;
    }
  }

  /**
   * A pool entry leads to its node: dialling its address with its credentials meets exactly one
   * account, and the user is routed to the one outbound built from the spec the entry is named after.
   */
  lemma EntryLeadsToItsNode(specs: seq<Spec>, opt: Options, hash12: string -> string, digest: Config -> string, g: Generated,
                            health: map<string, Health>, now: int, e: Entry) returns (s: Spec, k: nat)
    requires Ready(specs, hash12) && Generates(specs, opt, hash12, digest, Ok(g))
    requires e in XrayEntries(g.included, health, opt, now)
    ensures e.addr == opt.socksListen && e.Key() == e.id
    ensures g.config.inbound.listen == HostPart(e.addr) && g.config.inbound.port == PortPart(e.addr)
    ensures s in specs && s.id == e.id && OnlyAt(g.config, k, e.username)
    ensures g.config.inbound.accounts[k] == Account(e.username, e.password)
    ensures Route(g.config.rules, INBOUND_TAG, e.username) == Some(g.config.outbounds[k].tag)
    ensures BuildOutbound(s, opt.mode) == Some(g.config.outbounds[k])
  {
    GeneratedIsUsable(specs, opt, hash12, digest, g);
    XrayEntriesKeys(g.included, health, opt, now);
    IncludedIsNoDirect(g.included, e.id);
    s, k := IncludedReachTheirNode(specs, opt, hash12, digest, g, e.id);
    ListenOf(specs, opt, hash12, digest, g);
  }

  lemma IncludedIsNoDirect(included: seq<string>, id: string)
    requires UsableIDs(included) && id in included
    ensures id != DIRECT_TAG
  {
    assert NODE_PREFIX[0] == 'n' && DIRECT_TAG[0] == 'd';
  }

  lemma ListenOf(specs: seq<Spec>, opt: Options, hash12: string -> string, digest: Config -> string, g: Generated)
    requires AllIdentifiable(specs) && Generates(specs, opt, hash12, digest, Ok(g))
    ensures g.config.inbound.listen == HostPart(opt.socksListen) && g.config.inbound.port == PortPart(opt.socksListen)
  {
  }
}
