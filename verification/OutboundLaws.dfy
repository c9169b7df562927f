/** An outbound says what its spec says: reading it back gives the same connection. */
module OutboundLaws {
  import opened Base
  import opened GoText
  import opened NodeSpec
  import opened XrayConfig

  // --- when two specs ask for the same connection ---------------------------------------------------------

  predicate Silent(login: Option<Login>) {
    login.None? || (Blank(login.value.username) && Blank(login.value.password))
  }

  predicate SameLogin(a: Option<Login>, b: Option<Login>) {
    (Silent(a) && Silent(b)) || (!Silent(a) && !Silent(b) && a == b)
  }

  predicate SameText(a: string, b: string) {
    a == b || (Blank(a) && Blank(b))
  }

  /** A blank network means tcp; case and surrounding blanks do not matter. */
  function Network(s: Stream): string {
    if Blank(s.network) then "tcp" else ToLower(TrimSpace(s.network))
  }

  /**
   * tlsA and tlsB say whether TLS is on, which for Trojan does not depend on the stream. Relaxed mode
   * verifies no certificate, so there it does not matter what a spec says about verification.
   */
  predicate SameStream(mode: Mode, tlsA: bool, a: Stream, tlsB: bool, b: Stream) {
    && Network(a) == Network(b)
    && (Network(a) == "ws" ==> a.wsPath == b.wsPath && a.headers == b.headers)
    && tlsA == tlsB
    && (tlsA ==> SameText(a.serverName, b.serverName))
    && (tlsA && mode.Strict? ==> a.skipCertVerify == b.skipCertVerify)
  }

  predicate SameConnection(mode: Mode, s: Spec, t: Spec)
    requires Supported(s) && Supported(t)
  {
    && s.id == t.id && s.kind == t.kind && s.server == t.server && s.port == t.port
    && (s.kind == TYPE_SOCKS5 ==> SameLogin(s.socks5, t.socks5))
    && (s.kind == TYPE_HTTP ==> SameLogin(s.http, t.http))
    && (s.kind == TYPE_SHADOWSOCKS ==> s.shadowsocks == t.shadowsocks)
    && (s.kind == TYPE_TROJAN ==> s.trojan.value.password == t.trojan.value.password
                                  && SameStream(mode, true, s.trojan.value.stream, true, t.trojan.value.stream))
    && (s.kind == TYPE_VMESS ==> SameVMess(mode, s.vmess.value, t.vmess.value))
    && (s.kind == TYPE_VLESS ==> SameVLESS(mode, s.vless.value, t.vless.value))
  }

  predicate SameVMess(mode: Mode, a: VMess, b: VMess) {
    a.uuid == b.uuid && a.alterID == b.alterID && a.security == b.security
    && SameStream(mode, a.stream.tls, a.stream, b.stream.tls, b.stream)
  }

  predicate SameVLESS(mode: Mode, a: VLESS, b: VLESS) {
    a.uuid == b.uuid && SameText(a.flow, b.flow) && SameStream(mode, a.stream.tls, a.stream, b.stream.tls, b.stream)
  }

  // --- reading an outbound ---------------------------------------------------------------------------------

  function TextOf(o: Option<string>): string {
    if o.Some? then o.value else ""
  }

  function StreamOf(o: Option<StreamSettings>): Stream {
    match o
    case None => Stream(false, false, "", "", "", map[])
    case Some(st) =>
      Stream(st.tls.Some?, st.tls.Some? && st.tls.value.allowInsecure,
             if st.tls.Some? then TextOf(st.tls.value.serverName) else "", st.network,
             if st.ws.Some? then st.ws.value.path else "",
             if st.ws.Some? && st.ws.value.headers.Some? then st.ws.value.headers.value else map[])
  }

  /** The node an outbound stands for, by its protocol and settings. */
  function NodeOf(out: Outbound): Option<Spec> {
    match out.settings
    case Freedom => None
    case LoginServer(address, port, users) =>
      if out.protocol == "socks" then Some(Spec(out.tag, "", TYPE_SOCKS5, address, port, users, None, None, None, None, None))
      else Some(Spec(out.tag, "", TYPE_HTTP, address, port, None, users, None, None, None, None))
    case ShadowsocksServer(address, port, cipher, password) =>
      Some(Spec(out.tag, "", TYPE_SHADOWSOCKS, address, port, None, None, Some(Shadowsocks(cipher, password)), None, None, None))
    case TrojanServer(address, port, password) =>
      Some(Spec(out.tag, "", TYPE_TROJAN, address, port, None, None, None, None, None,
                Some(Trojan(password, StreamOf(out.streamSettings)))))
    case VMessNext(address, port, id, alterID, security) =>
      Some(Spec(out.tag, "", TYPE_VMESS, address, port, None, None, None,
                Some(VMess(id, alterID, security, StreamOf(out.streamSettings))), None, None))
    case VLESSNext(address, port, id, _, flow) =>
      Some(Spec(out.tag, "", TYPE_VLESS, address, port, None, None, None, None,
                Some(VLESS(id, TextOf(flow), StreamOf(out.streamSettings))), None))
  }

  // --- the round trip ----------------------------------------------------------------------------------------

  lemma NetworkIsBuilt(tls: bool, s: Stream, mode: Mode)
    ensures BuildStreamSettings(tls, s, mode).network == Network(s)
    ensures Network(Stream(tls, false, "", Network(s), "", map[])) == Network(s)
  {
    BlankIsTrimmedEmpty(s.network);
    BlankIsTrimmedEmpty(Network(s));
    if !Blank(s.network) {
      LowerTrimmedStays(s.network);
    } else {
      assert "tcp"[0] == 't' && ToLower("tcp") == "tcp";
      TrimmedStays("tcp");
    }
  }

  lemma NetworkOfReading(st: StreamSettings)
    ensures Network(StreamOf(Some(st))) == Network(Stream(st.tls.Some?, false, "", st.network, "", map[]))
  {
  }

  lemma EmptyHeaders(h: Headers)
    requires |h| == 0
    ensures h == map[]
  {
    assert h.Keys == {};
  }

  lemma StreamRoundTrip(mode: Mode, tls: bool, s: Stream)
    ensures var read := StreamOf(Some(BuildStreamSettings(tls, s, mode)));
            read.tls == tls && SameStream(mode, tls, read, tls, s)
  {
    var st := BuildStreamSettings(tls, s, mode);
    NetworkIsBuilt(tls, s, mode);
    NetworkOfReading(st);
    if |s.headers| == 0 {
      EmptyHeaders(s.headers);
    }
  }

  /** What reading back an outbound gives. */
  predicate ReadsBack(mode: Mode, s: Spec)
    requires Supported(s)
  {
    var node := NodeOf(BuildOutbound(s, mode).value);
    node.Some? && Supported(node.value) && SameConnection(mode, node.value, s)
  }

  lemma TrojanReadsBack(mode: Mode, s: Spec)
    requires Supported(s) && s.kind == TYPE_TROJAN
    ensures ReadsBack(mode, s)
  {
    StreamRoundTrip(mode, true, s.trojan.value.stream);
  }

  lemma VMessReadsBack(mode: Mode, s: Spec)
    requires Supported(s) && s.kind == TYPE_VMESS
    ensures ReadsBack(mode, s)
  {
    StreamRoundTrip(mode, s.vmess.value.stream.tls, s.vmess.value.stream);
  }

  lemma VLESSRead(mode: Mode, s: Spec)
    requires Supported(s) && s.kind == TYPE_VLESS
    ensures var c := s.vless.value;
            var read := StreamOf(Some(BuildStreamSettings(c.stream.tls, c.stream, mode)));
            NodeOf(BuildOutbound(s, mode).value)
              == Some(Spec(s.id, "", TYPE_VLESS, s.server, s.port, None, None, None, None,
                           Some(VLESS(c.uuid, TextOf(NonBlank(c.flow)), read)), None))
  {
  }

  lemma VLESSReadsBack(mode: Mode, s: Spec)
    requires Supported(s) && s.kind == TYPE_VLESS
    ensures ReadsBack(mode, s)
  {
    VLESSRead(mode, s);
    assert SameText(TextOf(NonBlank(s.vless.value.flow)), s.vless.value.flow);
    StreamRoundTrip(mode, s.vless.value.stream.tls, s.vless.value.stream);
  }

  lemma PlainReadsBack(mode: Mode, s: Spec)
    requires Supported(s) && (s.kind == TYPE_SOCKS5 || s.kind == TYPE_HTTP || s.kind == TYPE_SHADOWSOCKS)
    ensures ReadsBack(mode, s)
  {
  }

  /** Reading back the outbound of a supported spec gives a spec that asks for the same connection. */
  lemma OutboundRoundTrip(mode: Mode, s: Spec)
    requires Supported(s)
    ensures var node := NodeOf(BuildOutbound(s, mode).value);
            node.Some? && Supported(node.value) && SameConnection(mode, node.value, s)
  {
    if s.kind == TYPE_TROJAN {
      TrojanReadsBack(mode, s);
    } else if s.kind == TYPE_VMESS {
      VMessReadsBack(mode, s);
    } else if s.kind == TYPE_VLESS {
      VLESSReadsBack(mode, s);
    } else {
      PlainReadsBack(mode, s);
    }
  }

  lemma SameStreamBuilt(mode: Mode, tls: bool, a: Stream, b: Stream)
    requires SameStream(mode, tls, a, tls, b)
    ensures BuildStreamSettings(tls, a, mode) == BuildStreamSettings(tls, b, mode)
  {
    NetworkIsBuilt(tls, a, mode);
    NetworkIsBuilt(tls, b, mode);
  }

  lemma SameConnectionBuilt(mode: Mode, s: Spec, t: Spec)
    requires Supported(s) && Supported(t) && SameConnection(mode, s, t)
    ensures BuildOutbound(s, mode) == BuildOutbound(t, mode)
  {
    if s.kind == TYPE_TROJAN {
      SameStreamBuilt(mode, true, s.trojan.value.stream, t.trojan.value.stream);
    } else if s.kind == TYPE_VMESS {
      SameStreamBuilt(mode, s.vmess.value.stream.tls, s.vmess.value.stream, t.vmess.value.stream);
    } else if s.kind == TYPE_VLESS {
      SameStreamBuilt(mode, s.vless.value.stream.tls, s.vless.value.stream, t.vless.value.stream);
    }
  }

  lemma SameConnectionSharesReader(mode: Mode, s: Spec, t: Spec, node: Spec)
    requires Supported(s) && Supported(t) && Supported(node)
    requires SameConnection(mode, node, s) && SameConnection(mode, node, t)
    ensures SameConnection(mode, s, t)
  {
  }

  /** Two supported specs have one outbound exactly when they ask for the same connection. */
  lemma OutboundsEqualIffSameConnection(mode: Mode, s: Spec, t: Spec)
    requires Supported(s) && Supported(t)
    ensures BuildOutbound(s, mode) == BuildOutbound(t, mode) <==> SameConnection(mode, s, t)
  {
    if BuildOutbound(s, mode) == BuildOutbound(t, mode) {
      OutboundRoundTrip(mode, s);
      OutboundRoundTrip(mode, t);
      SameConnectionSharesReader(mode, s, t, NodeOf(BuildOutbound(s, mode).value).value);
    }
    if SameConnection(mode, s, t) {
      SameConnectionBuilt(mode, s, t);
    }
  }

  // --- relaxed mode ------------------------------------------------------------------------------------------

  /** The same outbound with certificate verification off wherever TLS is on. */
  function Unverified(out: Outbound): Outbound {
    if out.streamSettings.None? || out.streamSettings.value.tls.None? then out
    else
      var st := out.streamSettings.value;
      out.(streamSettings := Some(st.(tls := Some(st.tls.value.(allowInsecure := true)))))
  }

  /** Relaxed mode turns certificate verification off and changes nothing else. */
  lemma RelaxedOnlySkipsVerification(s: Spec)
    requires Supported(s)
    ensures BuildOutbound(s, Relaxed) == Some(Unverified(BuildOutbound(s, Strict).value))
  {
  }
}
