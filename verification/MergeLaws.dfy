/** When deduplication costs a connection: specs merged as one node that ask for different things. */
module MergeLaws {
  import opened Base
  import Fields
  import GoText
  import opened Dedup
  import opened NodeSpec
  import opened NodeIdentity
  import opened XrayConfig
  import opened OutboundLaws

  /** Spelt alike in everything a canonical string blurs and an outbound does not. */
  predicate SameSpelling(s: Spec, t: Spec)
    requires Supported(s) && Supported(t) && s.kind == t.kind
  {
    && s.server == t.server
    && (s.kind == TYPE_SHADOWSOCKS ==> s.shadowsocks.value.cipher == t.shadowsocks.value.cipher)
    && (s.kind == TYPE_VMESS ==> SameSpellingStreams(s.vmess.value.stream, t.vmess.value.stream))
    && (s.kind == TYPE_VLESS ==> SameSpellingStreams(s.vless.value.stream, t.vless.value.stream))
    && (s.kind == TYPE_TROJAN ==> SameSpellingStreams(s.trojan.value.stream, t.trojan.value.stream))
  }

  /** Headers are sent on WebSocket connections only. */
  predicate SameSpellingStreams(a: Stream, b: Stream) {
    Network(a) == "ws" ==> a.headers == b.headers
  }

  lemma AgreeingStreamsConnectIff(mode: Mode, tls: bool, a: Stream, b: Stream)
    requires AgreeingStreams(a, b)
    ensures SameStream(mode, tls, a, tls, b) <==> SameSpellingStreams(a, b)
  {
  }

  /** The same node asks for the same connection iff it is spelt alike, in strict and relaxed mode alike. */
  lemma SameNodeConnectsIff(mode: Mode, s: Spec, t: Spec)
    requires Normalizable(s) && Normalizable(t) && Supported(s) && Supported(t) && s.id == t.id && SameNode(s, t)
    ensures SameConnection(mode, s, t) <==> SameSpelling(s, t)
  {
    if s.kind == TYPE_VMESS {
      AgreeingStreamsConnectIff(mode, s.vmess.value.stream.tls, s.vmess.value.stream, t.vmess.value.stream);
    } else if s.kind == TYPE_VLESS {
      AgreeingStreamsConnectIff(mode, s.vless.value.stream.tls, s.vless.value.stream, t.vless.value.stream);
    } else if s.kind == TYPE_TROJAN {
      AgreeingStreamsConnectIff(mode, true, s.trojan.value.stream, t.trojan.value.stream);
    }
  }

  // --- lists of specs -------------------------------------------------------------------------------------

  /** An identifier that Normalize gave, or none yet. */
  predicate OwnID(s: Spec, hash12: string -> string)
    requires Normalizable(s)
  {
    GoText.Blank(s.id) || s.id == StableNodeID(s, hash12)
  }

  /** Supported, unambiguous specs with identifiers of their own. */
  predicate Orderly(specs: seq<Spec>, hash12: string -> string) {
    forall i :: 0 <= i < |specs| ==> Unambiguous(specs[i]) && Supported(specs[i]) && OwnID(specs[i], hash12)
  }

  /** The hash does not take the canonical strings of two of these specs to one value. */
  predicate NoCollision(specs: seq<Spec>, hash12: string -> string)
    requires forall i :: 0 <= i < |specs| ==> Normalizable(specs[i])
  {
    forall i, j :: 0 <= i < |specs| && 0 <= j < |specs| && hash12(CanonicalString(specs[i])) == hash12(CanonicalString(specs[j]))
      ==> CanonicalString(specs[i]) == CanonicalString(specs[j])
  }

  lemma OwnIdentified(s: Spec, hash12: string -> string)
    requires Normalizable(s) && OwnID(s, hash12)
    ensures Identified(s, hash12) == s.(id := StableNodeID(s, hash12))
  {
  }

  /** Two of the specs get one identifier iff they are the same node. */
  lemma OneIdentifierIff(specs: seq<Spec>, hash12: string -> string, i: nat, j: nat)
    requires Orderly(specs, hash12) && NoCollision(specs, hash12) && i < |specs| && j < |specs|
    ensures Identified(specs[i], hash12).id == Identified(specs[j], hash12).id <==> SameNode(specs[i], specs[j])
  {
    OwnIdentified(specs[i], hash12);
    OwnIdentified(specs[j], hash12);
    CanonicalIffSameNode(specs[i], specs[j]);
    var a, b := hash12(CanonicalString(specs[i])), hash12(CanonicalString(specs[j]));
    if "n-" + a == "n-" + b {
      Fields.LabelCancels("n-", a, b);
    }
  }

  lemma IdentifyingKeepsSpelling(s: Spec, t: Spec, hash12: string -> string)
    requires Normalizable(s) && Normalizable(t) && OwnID(s, hash12) && OwnID(t, hash12)
    requires Supported(s) && Supported(t) && SameNode(s, t)
    ensures var a, b := Identified(s, hash12), Identified(t, hash12);
            && Normalizable(a) && Normalizable(b) && Supported(a) && Supported(b) && SameNode(a, b)
            && (SameSpelling(a, b) <==> SameSpelling(s, t))
  {
    OwnIdentified(s, hash12);
    OwnIdentified(t, hash12);
  }

  /** Two of the specs that are one node ask for one connection iff they are spelt alike. */
  lemma MergedConnectIff(mode: Mode, specs: seq<Spec>, hash12: string -> string, i: nat, j: nat)
    requires Orderly(specs, hash12) && NoCollision(specs, hash12) && i < |specs| && j < |specs| && SameNode(specs[i], specs[j])
    ensures var a, b := Identified(specs[i], hash12), Identified(specs[j], hash12);
            Supported(a) && Supported(b) && (SameConnection(mode, a, b) <==> SameSpelling(specs[i], specs[j]))
  {
    IdentifyingKeepsSpelling(specs[i], specs[j], hash12);
    OneIdentifierIff(specs, hash12, i, j);
    SameNodeConnectsIff(mode, Identified(specs[i], hash12), Identified(specs[j], hash12));
  }

  // --- what deduplication keeps ------------------------------------------------------------------------------

  lemma {:induction false} FirstIsKept(xs: seq<Spec>, p: nat)
    requires p < |xs| && FirstOfItsKey(xs, IDOf(), p)
    ensures xs[p] in KeepFirst(xs, IDOf())
  {
    var n := |xs| - 1;
    if p < n {
      assert forall q :: 0 <= q < n ==> xs[..n][q] == xs[q];
      FirstIsKept(xs[..n], p);
    } else {
      FirstOfItsKeyIff(xs, IDOf(), p);
      KeepFirstKeys(xs[..n], IDOf());
    }
  }

  lemma {:induction false} FirstWithID(xs: seq<Spec>, i: nat) returns (f: nat)
    requires i < |xs|
    ensures f <= i && xs[f].id == xs[i].id && FirstOfItsKey(xs, IDOf(), f)
  {
    if j :| 0 <= j < i && xs[j].id == xs[i].id {
      f := FirstWithID(xs, j);
    } else {
      f := i;
    }
  }

  /** Some spec of the list asks for the connection s asks for. */
  predicate Served(mode: Mode, kept: seq<Spec>, s: Spec)
    requires Supported(s)
  {
    exists k :: 0 <= k < |kept| && Supported(kept[k]) && SameConnection(mode, kept[k], s)
  }

  /** Specs of one node are spelt alike. */
  predicate OneSpellingEach(specs: seq<Spec>)
    requires forall i :: 0 <= i < |specs| ==> Normalizable(specs[i]) && Supported(specs[i])
  {
    forall i, j :: 0 <= i < |specs| && 0 <= j < |specs| && SameNode(specs[i], specs[j]) ==> SameSpelling(specs[i], specs[j])
  }

  /** The specs as identified, still supported and identifiable. */
  lemma IdentifiedSupported(specs: seq<Spec>, hash12: string -> string)
    requires Orderly(specs, hash12)
    ensures AllIdentifiable(specs)
    ensures forall i :: 0 <= i < |specs| ==> Supported(IdentifiedAll(specs, hash12)[i])
  {
  }

  lemma SpelledAlikeServed(mode: Mode, specs: seq<Spec>, hash12: string -> string, i: nat)
    requires Orderly(specs, hash12) && NoCollision(specs, hash12) && i < |specs| && OneSpellingEach(specs)
    requires AllIdentifiable(specs) && Supported(IdentifiedAll(specs, hash12)[i])
    ensures Served(mode, DeduplicateOf(specs, hash12), IdentifiedAll(specs, hash12)[i])
  {
    var all, kept := IdentifiedAll(specs, hash12), DeduplicateOf(specs, hash12);
    var f := FirstWithID(all, i);
    FirstIsKept(all, f);
    OneIdentifierIff(specs, hash12, f, i);
    MergedConnectIff(mode, specs, hash12, f, i);
    var k :| 0 <= k < |kept| && kept[k] == all[f];
    assert SameConnection(mode, kept[k], all[i]);
  }

  lemma ServedAlikeSpelledAlike(mode: Mode, specs: seq<Spec>, hash12: string -> string, i: nat, j: nat)
    requires Orderly(specs, hash12) && NoCollision(specs, hash12) && i < |specs| && j < |specs| && SameNode(specs[i], specs[j])
    requires AllIdentifiable(specs)
    requires var all := IdentifiedAll(specs, hash12);
             Supported(all[i]) && Supported(all[j])
             && Served(mode, DeduplicateOf(specs, hash12), all[i]) && Served(mode, DeduplicateOf(specs, hash12), all[j])
    ensures SameSpelling(specs[i], specs[j])
  {
    var all, kept := IdentifiedAll(specs, hash12), DeduplicateOf(specs, hash12);
    OneIdentifierIff(specs, hash12, i, j);
    DeduplicateIdentified(specs, hash12);
    BothServedConnect(mode, kept, all[i], all[j]);
    MergedConnectIff(mode, specs, hash12, i, j);
  }

  /** Where identifiers are distinct, one spec serves all that share its identifier. */
  lemma BothServedConnect(mode: Mode, kept: seq<Spec>, s: Spec, t: Spec)
    requires DistinctBy(kept, IDOf()) && Supported(s) && Supported(t) && s.id == t.id
    requires Served(mode, kept, s) && Served(mode, kept, t)
    ensures SameConnection(mode, s, t)
  {
    var k :| 0 <= k < |kept| && Supported(kept[k]) && SameConnection(mode, kept[k], s);
    var l :| 0 <= l < |kept| && Supported(kept[l]) && SameConnection(mode, kept[l], t);
    assert IDOf()(kept[k]) == IDOf()(kept[l]);
    SameConnectionSharesReader(mode, s, t, kept[k]);
  }

  /**
   * Deduplication loses no connection exactly when specs of one node are spelt alike: same server to
   * the letter, same method to the letter, and on WebSocket the same headers.
   */
  lemma DeduplicationLosesNothingIff(mode: Mode, specs: seq<Spec>, hash12: string -> string)
    requires Orderly(specs, hash12) && NoCollision(specs, hash12)
    ensures AllIdentifiable(specs) && forall i :: 0 <= i < |specs| ==> Supported(IdentifiedAll(specs, hash12)[i])
    ensures (forall i :: 0 <= i < |specs| ==> Served(mode, DeduplicateOf(specs, hash12), IdentifiedAll(specs, hash12)[i]))
            <==> OneSpellingEach(specs)
  {
    IdentifiedSupported(specs, hash12);
    if OneSpellingEach(specs) {
      forall i | 0 <= i < |specs| ensures Served(mode, DeduplicateOf(specs, hash12), IdentifiedAll(specs, hash12)[i]) {
        SpelledAlikeServed(mode, specs, hash12, i);
      }
    }
    if forall i :: 0 <= i < |specs| ==> Served(mode, DeduplicateOf(specs, hash12), IdentifiedAll(specs, hash12)[i]) {
      forall i, j | 0 <= i < |specs| && 0 <= j < |specs| && SameNode(specs[i], specs[j])
        ensures SameSpelling(specs[i], specs[j])
      {
        ServedAlikeSpelledAlike(mode, specs, hash12, i, j);
      }
    }
  }

  // --- a node that is lost --------------------------------------------------------------------------------------

  /** A VMess node over WebSocket behind a given virtual host. */
  function HostNode(host: string): Spec {
    Spec("", "", TYPE_VMESS, "h", 443, None, None, None,
         Some(VMess("u", 0, "auto", Stream(true, false, "", "ws", "/", map["Host" := host]))), None, None)
  }

  lemma HostHeadersShareText(a: string, b: string)
    ensures HeaderText(map["Host" := a]) == HeaderText(map["Host" := b])
  {
    var h: Headers, g: Headers := map["Host" := a], map["Host" := b];
    assert GoText.ToLower("Host")[0] == 'h' && "Host"[0] == 'H';
    CapitalizedValuesIgnored(h, g);
  }

  lemma HostNodesShareString(a: string, b: string)
    ensures CanonicalString(HostNode(a)) == CanonicalString(HostNode(b))
  {
    HostHeadersShareText(a, b);
    assert StreamParts(HostNode(a).vmess.value.stream) == StreamParts(HostNode(b).vmess.value.stream);
    assert Parts(HostNode(a)) == Parts(HostNode(b));
  }

  function HostNodes(a: string, b: string): (specs: seq<Spec>)
    ensures AllIdentifiable(specs) && |specs| == 2 && specs[0] == HostNode(a) && specs[1] == HostNode(b)
  {
    [HostNode(a), HostNode(b)]
  }

  /** The node as Normalize leaves it. */
  function NormalHost(host: string, hash12: string -> string): Spec {
    Normalize(HostNode(host), hash12)
  }

  /** Two nodes that differ in their Host header alone are taken for one, and one of them is dropped. */
  lemma HostHeaderDropped(a: string, b: string, mode: Mode, hash12: string -> string)
    requires a != b
    ensures CanonicalString(HostNode(a)) == CanonicalString(HostNode(b))
    ensures BuildOutbound(NormalHost(a, hash12), mode) != BuildOutbound(NormalHost(b, hash12), mode)
    ensures DeduplicateOf(HostNodes(a, b), hash12) == [NormalHost(a, hash12)]
  {
    HostNodesShareString(a, b);
    HostNodesDiffer(a, b, StableNodeID(HostNode(a), hash12), mode);
    HostNodesIdentified(a, b, hash12);
    TwoWithOneID(NormalHost(a, hash12), NormalHost(b, hash12));
  }

  lemma HostNodesIdentified(a: string, b: string, hash12: string -> string)
    ensures IdentifiedAll(HostNodes(a, b), hash12) == [NormalHost(a, hash12), NormalHost(b, hash12)]
  {
    HostNodeIdentified(a, hash12);
    HostNodeIdentified(b, hash12);
  }

  lemma HostNodeIdentified(host: string, hash12: string -> string)
    ensures Identified(HostNode(host), hash12) == NormalHost(host, hash12)
  {
    assert GoText.Blank("");
  }

  lemma TwoWithOneID(x: Spec, y: Spec)
    requires x.id == y.id
    ensures KeepFirst([x, y], IDOf()) == [x]
  {
    KeepFirstAppended([], x, IDOf());
    KeepFirstAppended([x], y, IDOf());
    assert [] + [x] == [x] && [x] + [y] == [x, y];
    assert IDOf()(x) in KeysOf([x], IDOf());
  }

  lemma HostNodesDiffer(a: string, b: string, id: string, mode: Mode)
    requires a != b
    ensures BuildOutbound(HostNode(a).(id := id), mode) != BuildOutbound(HostNode(b).(id := id), mode)
  {
    var x, y := HostNode(a).(id := id), HostNode(b).(id := id);
    WebSocketNetwork();
    assert x.vmess.value.stream.headers["Host"] != y.vmess.value.stream.headers["Host"];
    OutboundsEqualIffSameConnection(mode, x, y);
  }

  lemma WebSocketNetwork()
    ensures GoText.ToLower(GoText.TrimSpace("ws")) == "ws" && !GoText.Blank("ws")
  {
    assert 'w' in "ws";
    assert GoText.ToLower("ws") == "ws";
    GoText.TrimmedStays("ws");
  }
}
