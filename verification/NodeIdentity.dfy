/** When two specs share a canonical string, and so an identifier. */
module NodeIdentity {
  import opened Base
  import opened GoText
  import opened NodeSpec
  import opened Fields
  import opened HeaderLaws

  // --- numbers --------------------------------------------------------------------------------------------

  predicate IsDigit(c: char) {
    '0' <= c <= '9'
  }

  lemma {:induction false} DigitsAreDigits(n: nat)
    ensures Digits(n) != "" && forall c :: c in Digits(n) ==> IsDigit(c)
  {
    if n >= 10 {
      DigitsAreDigits(n / 10);
    }
  }

  lemma {:induction false} DigitsInjective(n: nat, m: nat)
    requires Digits(n) == Digits(m)
    ensures n == m
  {
    DigitsAreDigits(n / 10);
    DigitsAreDigits(m / 10);
    var d := Digits(n);
    if n >= 10 && m >= 10 {
      assert d[..|d| - 1] == Digits(n / 10) == Digits(m / 10);
      DigitsInjective(n / 10, m / 10);
    }
  }

  lemma MinusShowsSign(n: int)
    ensures '-' in Itoa(n) <==> n < 0
  {
    DigitsAreDigits(if n < 0 then -n else n);
    assert n < 0 ==> Itoa(n)[0] == '-';
  }

  lemma ItoaInjective(n: int, m: int)
    requires Itoa(n) == Itoa(m)
    ensures n == m
  {
    MinusShowsSign(n);
    MinusShowsSign(m);
    if n < 0 {
      assert Itoa(n)[1..] == Digits(-n) && Itoa(m)[1..] == Digits(-m);
      DigitsInjective(-n, -m);
    } else {
      DigitsInjective(n, m);
    }
  }

  lemma ItoaFree(n: int, c: char)
    requires !IsDigit(c) && c != '-'
    ensures Free(Itoa(n), c)
  {
    DigitsAreDigits(if n < 0 then -n else n);
  }

  lemma FormatBoolInjective(a: bool, b: bool)
    requires FormatBool(a) == FormatBool(b)
    ensures a == b
  {
    assert |FormatBool(true)| == 4 && |FormatBool(false)| == 5;
  }

  // --- the fields of a canonical string -----------------------------------------------------------------------

  const HEAD_LABELS := ["type=", "server=", "port="]
  const LOGIN_LABELS := ["user=", "pass="]
  const CIPHER_LABELS := ["method=", "pass="]
  const STREAM_LABELS := ["tls=", "skip=", "sni=", "net=", "wspath=", "hdr="]
  const VMESS_LABELS := ["vmess", "uuid=", "aid=", "sec="] + STREAM_LABELS
  const VLESS_LABELS := ["vless", "uuid=", "flow="] + STREAM_LABELS
  const TROJAN_LABELS := ["trojan", "pass="] + STREAM_LABELS

  function StreamValues(s: Stream): seq<string> {
    [FormatBool(s.tls), FormatBool(s.skipCertVerify), s.serverName, s.network, s.wsPath, HeaderText(s.headers)]
  }

  function LoginValues(c: Login): seq<string> {
    [c.username, c.password]
  }

  function CipherValues(c: Shadowsocks): seq<string> {
    [NormalCipher(c), c.password]
  }

  function VMessValues(c: VMess): seq<string> {
    ["", c.uuid, Itoa(c.alterID), c.security] + StreamValues(c.stream)
  }

  function VLESSValues(c: VLESS): seq<string> {
    ["", c.uuid, c.flow] + StreamValues(c.stream)
  }

  function TrojanValues(c: Trojan): seq<string> {
    ["", c.password] + StreamValues(c.stream)
  }

  predicate Plain(kind: string) {
    kind == TYPE_SOCKS5 || kind == TYPE_HTTP || kind == TYPE_SHADOWSOCKS
  }

  predicate Streamed(kind: string) {
    kind == TYPE_VMESS || kind == TYPE_VLESS || kind == TYPE_TROJAN
  }

  /** No field of the configuration contains the separator and label of the field after it. */
  predicate ClearFields(s: Spec)
    requires Normalizable(s)
  {
    && (s.kind == TYPE_SOCKS5 && s.socks5.Some? ==> Clear(LOGIN_LABELS, LoginValues(s.socks5.value), '|'))
    && (s.kind == TYPE_HTTP && s.http.Some? ==> Clear(LOGIN_LABELS, LoginValues(s.http.value), '|'))
    && (s.kind == TYPE_SHADOWSOCKS && s.shadowsocks.Some? ==> Clear(CIPHER_LABELS, CipherValues(s.shadowsocks.value), '|'))
    && (s.kind == TYPE_VMESS ==> Clear(VMESS_LABELS, VMessValues(s.vmess.value), ',') && CleanHeaders(s.vmess.value.stream.headers))
    && (s.kind == TYPE_VLESS ==> Clear(VLESS_LABELS, VLESSValues(s.vless.value), ',') && CleanHeaders(s.vless.value.stream.headers))
    && (s.kind == TYPE_TROJAN ==> Clear(TROJAN_LABELS, TrojanValues(s.trojan.value), ',')
                                  && CleanHeaders(s.trojan.value.stream.headers))
  }

  /** Specs of a known type whose fields do not contain what ends them. */
  predicate Unambiguous(s: Spec) {
    Normalizable(s) && (Plain(s.kind) || Streamed(s.kind)) && !Contains(NormalServer(s), "|port=") && ClearFields(s)
  }

  // --- the same node ------------------------------------------------------------------------------------------

  predicate AgreeingStreams(a: Stream, b: Stream) {
    && a.tls == b.tls && a.skipCertVerify == b.skipCertVerify && a.serverName == b.serverName
    && a.network == b.network && a.wsPath == b.wsPath && SameHeaders(a.headers, b.headers)
  }

  predicate SameCipher(a: Option<Shadowsocks>, b: Option<Shadowsocks>) {
    && (a.Some? <==> b.Some?)
    && (a.Some? ==> ToLower(TrimSpace(a.value.cipher)) == ToLower(TrimSpace(b.value.cipher)) && a.value.password == b.value.password)
  }

  predicate SameVMessNode(a: VMess, b: VMess) {
    a.uuid == b.uuid && a.alterID == b.alterID && a.security == b.security && AgreeingStreams(a.stream, b.stream)
  }

  predicate SameVLESSNode(a: VLESS, b: VLESS) {
    a.uuid == b.uuid && a.flow == b.flow && AgreeingStreams(a.stream, b.stream)
  }

  predicate SameTrojanNode(a: Trojan, b: Trojan) {
    a.password == b.password && AgreeingStreams(a.stream, b.stream)
  }

  /** The same configuration, for the type it is used with; a missing and an empty one are told apart. */
  predicate SameSettings(s: Spec, t: Spec)
    requires Normalizable(s) && Normalizable(t) && s.kind == t.kind
  {
    && (s.kind == TYPE_SOCKS5 ==> s.socks5 == t.socks5)
    && (s.kind == TYPE_HTTP ==> s.http == t.http)
    && (s.kind == TYPE_SHADOWSOCKS ==> SameCipher(s.shadowsocks, t.shadowsocks))
    && (s.kind == TYPE_VMESS ==> SameVMessNode(s.vmess.value, t.vmess.value))
    && (s.kind == TYPE_VLESS ==> SameVLESSNode(s.vless.value, t.vless.value))
    && (s.kind == TYPE_TROJAN ==> SameTrojanNode(s.trojan.value, t.trojan.value))
  }

  predicate SameServer(s: Spec, t: Spec) {
    ToLower(TrimSpace(s.server)) == ToLower(TrimSpace(t.server))
  }

  lemma SameServerIff(s: Spec, t: Spec)
    ensures SameServer(s, t) <==> NormalServer(s) == NormalServer(t)
  {
    LowerTrim(s.server);
    LowerTrim(t.server);
  }

  /** The same endpoint and settings, up to case and blanks in server and method. */
  predicate SameNode(s: Spec, t: Spec)
    requires Normalizable(s) && Normalizable(t)
  {
    s.kind == t.kind && SameServer(s, t) && s.port == t.port && SameSettings(s, t)
  }

  // --- type, server and port ------------------------------------------------------------------------------------

  /** What follows the port. */
  function Rest(s: Spec): string
    requires Normalizable(s)
  {
    if KindParts(s) == [] then "" else "|" + Join(KindParts(s), "|")
  }

  function HeadValues(s: Spec): seq<string>
    requires Normalizable(s)
  {
    [s.kind, NormalServer(s), Itoa(s.port) + Rest(s)]
  }

  lemma JoinThree(a: string, b: string, c: string)
    ensures Join([a, b, c], "|") == a + "|" + (b + "|" + c)
  {
    assert [a, b, c][1..] == [b, c];
    assert [b, c][1..] == [c];
    assert Join([c], "|") == c;
    assert Join([b, c], "|") == b + "|" + c;
  }

  lemma JoinThreeAnd(a: string, b: string, c: string, more: seq<string>)
    ensures Join([a, b, c] + more, "|") == a + "|" + (b + "|" + (c + (if more == [] then "" else "|" + Join(more, "|"))))
  {
    assert ([a, b, c] + more)[1..] == [b, c] + more;
    assert ([b, c] + more)[1..] == [c] + more;
    JoinOneAnd(c, more);
    assert Join([b, c] + more, "|") == b + "|" + Join([c] + more, "|");
  }

  lemma JoinOneAnd(c: string, more: seq<string>)
    ensures Join([c] + more, "|") == c + (if more == [] then "" else "|" + Join(more, "|"))
  {
    assert ([c] + more)[1..] == more;
    if more == [] {
      assert [c] + more == [c] && c + "" == c;
    } else {
      assert c + "|" + Join(more, "|") == c + ("|" + Join(more, "|"));
    }
  }

  lemma CanonicalFields(s: Spec)
    requires Normalizable(s)
    ensures CanonicalString(s) == Join(Tagged(HEAD_LABELS, HeadValues(s)), "|")
  {
    var a, b, c := "type=" + s.kind, "server=" + NormalServer(s), "port=" + Itoa(s.port);
    JoinThreeAnd(a, b, c, KindParts(s));
    assert "port=" + (Itoa(s.port) + Rest(s)) == c + Rest(s);
    assert Tagged(HEAD_LABELS, HeadValues(s)) == [a, b, c + Rest(s)];
    JoinThree(a, b, c + Rest(s));
  }

  lemma ContainsBringsSeparator(s: string, m: string)
    requires m != ""
    ensures Contains(s, m) ==> m[0] in s
  {
    if Contains(s, m) {
      var i :| 0 <= i <= |s| && OccursAt(s, m, i);
      assert s[i] == s[i..i + |m|][0] == m[0];
    }
  }

  lemma HeadClear(s: Spec)
    requires Unambiguous(s)
    ensures Separable(HEAD_LABELS, '|') && Clear(HEAD_LABELS, HeadValues(s), '|')
  {
    ContainsBringsSeparator(s.kind, "|server=");
    assert ['|'] + HEAD_LABELS[1] == "|server=" && ['|'] + HEAD_LABELS[2] == "|port=";
  }

  lemma SameStringSameHead(s: Spec, t: Spec)
    requires Unambiguous(s) && Unambiguous(t) && CanonicalString(s) == CanonicalString(t)
    ensures s.kind == t.kind && NormalServer(s) == NormalServer(t) && s.port == t.port && Rest(s) == Rest(t)
  {
    CanonicalFields(s);
    CanonicalFields(t);
    HeadClear(s);
    HeadClear(t);
    TaggedInjective(HEAD_LABELS, HeadValues(s), HeadValues(t), '|');
    assert HeadValues(s)[0] == HeadValues(t)[0] && HeadValues(s)[1] == HeadValues(t)[1] && HeadValues(s)[2] == HeadValues(t)[2];
    ItoaFree(s.port, '|');
    ItoaFree(t.port, '|');
    FreeThenRest(Itoa(s.port), Rest(s), Itoa(t.port), Rest(t), '|');
    ItoaInjective(s.port, t.port);
  }

  lemma SameRestSameParts(s: Spec, t: Spec)
    requires Normalizable(s) && Normalizable(t) && Rest(s) == Rest(t)
    ensures KindParts(s) == [] <==> KindParts(t) == []
    ensures KindParts(s) != [] ==> Join(KindParts(s), "|") == Join(KindParts(t), "|")
  {
    if KindParts(s) != [] && KindParts(t) != [] {
      LabelCancels("|", Join(KindParts(s), "|"), Join(KindParts(t), "|"));
    }
  }

  // --- settings ----------------------------------------------------------------------------------------------------

  lemma SameLogin(a: Option<Login>, b: Option<Login>)
    requires LoginParts(a) == [] <==> LoginParts(b) == []
    requires a.Some? && b.Some? ==> Join(LoginParts(a), "|") == Join(LoginParts(b), "|")
    requires a.Some? ==> Clear(LOGIN_LABELS, LoginValues(a.value), '|')
    requires b.Some? ==> Clear(LOGIN_LABELS, LoginValues(b.value), '|')
    ensures a == b
  {
    if a.Some? && b.Some? {
      assert LoginParts(a) == Tagged(LOGIN_LABELS, LoginValues(a.value));
      assert LoginParts(b) == Tagged(LOGIN_LABELS, LoginValues(b.value));
      TaggedInjective(LOGIN_LABELS, LoginValues(a.value), LoginValues(b.value), '|');
      assert LoginValues(a.value)[0] == LoginValues(b.value)[0] && LoginValues(a.value)[1] == LoginValues(b.value)[1];
    }
  }

  function CipherParts(c: Option<Shadowsocks>): seq<string> {
    if c.Some? then ["method=" + NormalCipher(c.value), "pass=" + c.value.password] else []
  }

  lemma CipherTagged(c: Shadowsocks)
    ensures CipherParts(Some(c)) == Tagged(CIPHER_LABELS, CipherValues(c)) && Separable(CIPHER_LABELS, '|')
  {
  }

  lemma SameCipherParts(a: Option<Shadowsocks>, b: Option<Shadowsocks>)
    requires CipherParts(a) == [] <==> CipherParts(b) == []
    requires a.Some? && b.Some? ==> Join(CipherParts(a), "|") == Join(CipherParts(b), "|")
    requires a.Some? ==> Clear(CIPHER_LABELS, CipherValues(a.value), '|')
    requires b.Some? ==> Clear(CIPHER_LABELS, CipherValues(b.value), '|')
    ensures SameCipher(a, b)
  {
    if a.Some? && b.Some? {
      CipherTagged(a.value);
      CipherTagged(b.value);
      TaggedInjective(CIPHER_LABELS, CipherValues(a.value), CipherValues(b.value), '|');
      assert CipherValues(a.value)[0] == CipherValues(b.value)[0] && CipherValues(a.value)[1] == CipherValues(b.value)[1];
    }
  }

  lemma SameStreamValues(a: Stream, b: Stream)
    requires StreamValues(a) == StreamValues(b) && CleanHeaders(a.headers) && CleanHeaders(b.headers)
    ensures AgreeingStreams(a, b)
  {
    var v, w := StreamValues(a), StreamValues(b);
    assert v[0] == w[0] && v[1] == w[1] && v[2] == w[2] && v[3] == w[3] && v[4] == w[4] && v[5] == w[5];
    FormatBoolInjective(a.tls, b.tls);
    FormatBoolInjective(a.skipCertVerify, b.skipCertVerify);
    HeaderTextIff(a.headers, b.headers);
  }

  function VMessParts(c: VMess): seq<string> {
    ["vmess", "uuid=" + c.uuid, "aid=" + Itoa(c.alterID), "sec=" + c.security] + StreamParts(c.stream)
  }

  lemma TaggedConcat(a: seq<string>, v: seq<string>, b: seq<string>, w: seq<string>)
    requires |a| == |v| && |b| == |w|
    ensures Tagged(a + b, v + w) == Tagged(a, v) + Tagged(b, w)
  {
  }

  lemma StreamTagged(s: Stream)
    ensures StreamParts(s) == Tagged(STREAM_LABELS, StreamValues(s))
  {
  }

  lemma VMessTagged(c: VMess)
    ensures VMessParts(c) == Tagged(VMESS_LABELS, VMessValues(c)) && Separable(VMESS_LABELS, ',')
  {
    StreamTagged(c.stream);
    TaggedConcat(["vmess", "uuid=", "aid=", "sec="], ["", c.uuid, Itoa(c.alterID), c.security], STREAM_LABELS, StreamValues(c.stream));
    assert "vmess" + "" == "vmess";
    assert Tagged(["vmess", "uuid=", "aid=", "sec="], ["", c.uuid, Itoa(c.alterID), c.security]) == VMessParts(c)[..4];
  }

  lemma SameVMessText(a: VMess, b: VMess)
    requires Clear(VMESS_LABELS, VMessValues(a), ',') && CleanHeaders(a.stream.headers)
    requires Clear(VMESS_LABELS, VMessValues(b), ',') && CleanHeaders(b.stream.headers)
    requires Join(VMessParts(a), ",") == Join(VMessParts(b), ",")
    ensures SameVMessNode(a, b)
  {
    VMessTagged(a);
    VMessTagged(b);
    TaggedInjective(VMESS_LABELS, VMessValues(a), VMessValues(b), ',');
    var v, w := VMessValues(a), VMessValues(b);
    assert v[1] == w[1] && v[2] == w[2] && v[3] == w[3] && v[4..] == w[4..];
    ItoaInjective(a.alterID, b.alterID);
    assert v[4..] == StreamValues(a.stream) && w[4..] == StreamValues(b.stream);
    SameStreamValues(a.stream, b.stream);
  }

  function VLESSParts(c: VLESS): seq<string> {
    ["vless", "uuid=" + c.uuid, "flow=" + c.flow] + StreamParts(c.stream)
  }

  lemma VLESSTagged(c: VLESS)
    ensures VLESSParts(c) == Tagged(VLESS_LABELS, VLESSValues(c)) && Separable(VLESS_LABELS, ',')
  {
    StreamTagged(c.stream);
    TaggedConcat(["vless", "uuid=", "flow="], ["", c.uuid, c.flow], STREAM_LABELS, StreamValues(c.stream));
    assert "vless" + "" == "vless";
    assert Tagged(["vless", "uuid=", "flow="], ["", c.uuid, c.flow]) == VLESSParts(c)[..3];
  }

  lemma SameVLESSText(a: VLESS, b: VLESS)
    requires Clear(VLESS_LABELS, VLESSValues(a), ',') && CleanHeaders(a.stream.headers)
    requires Clear(VLESS_LABELS, VLESSValues(b), ',') && CleanHeaders(b.stream.headers)
    requires Join(VLESSParts(a), ",") == Join(VLESSParts(b), ",")
    ensures SameVLESSNode(a, b)
  {
    VLESSTagged(a);
    VLESSTagged(b);
    TaggedInjective(VLESS_LABELS, VLESSValues(a), VLESSValues(b), ',');
    var v, w := VLESSValues(a), VLESSValues(b);
    assert v[1] == w[1] && v[2] == w[2] && v[3..] == w[3..];
    assert v[3..] == StreamValues(a.stream) && w[3..] == StreamValues(b.stream);
    SameStreamValues(a.stream, b.stream);
  }

  function TrojanParts(c: Trojan): seq<string> {
    ["trojan", "pass=" + c.password] + StreamParts(c.stream)
  }

  lemma TrojanTagged(c: Trojan)
    ensures TrojanParts(c) == Tagged(TROJAN_LABELS, TrojanValues(c)) && Separable(TROJAN_LABELS, ',')
  {
    StreamTagged(c.stream);
    TaggedConcat(["trojan", "pass="], ["", c.password], STREAM_LABELS, StreamValues(c.stream));
    assert "trojan" + "" == "trojan";
    assert Tagged(["trojan", "pass="], ["", c.password]) == TrojanParts(c)[..2];
  }

  lemma SameTrojanText(a: Trojan, b: Trojan)
    requires Clear(TROJAN_LABELS, TrojanValues(a), ',') && CleanHeaders(a.stream.headers)
    requires Clear(TROJAN_LABELS, TrojanValues(b), ',') && CleanHeaders(b.stream.headers)
    requires Join(TrojanParts(a), ",") == Join(TrojanParts(b), ",")
    ensures SameTrojanNode(a, b)
  {
    TrojanTagged(a);
    TrojanTagged(b);
    TaggedInjective(TROJAN_LABELS, TrojanValues(a), TrojanValues(b), ',');
    var v, w := TrojanValues(a), TrojanValues(b);
    assert v[1] == w[1] && v[2..] == w[2..];
    assert v[2..] == StreamValues(a.stream) && w[2..] == StreamValues(b.stream);
    SameStreamValues(a.stream, b.stream);
  }

  lemma SameRestSamePlain(s: Spec, t: Spec)
    requires Unambiguous(s) && Unambiguous(t) && s.kind == t.kind && Plain(s.kind) && Rest(s) == Rest(t)
    ensures SameSettings(s, t)
  {
    SameRestSameParts(s, t);
    if s.kind == TYPE_SOCKS5 {
      SameLogin(s.socks5, t.socks5);
    } else if s.kind == TYPE_HTTP {
      SameLogin(s.http, t.http);
    } else {
      assert KindParts(s) == CipherParts(s.shadowsocks) && KindParts(t) == CipherParts(t.shadowsocks);
      SameCipherParts(s.shadowsocks, t.shadowsocks);
    }
  }

  lemma SameRestSameStreamed(s: Spec, t: Spec)
    requires Unambiguous(s) && Unambiguous(t) && s.kind == t.kind && Streamed(s.kind) && Rest(s) == Rest(t)
    ensures SameSettings(s, t)
  {
    SameRestSameParts(s, t);
    assert KindParts(s)[0] == Join(KindParts(s), "|") == Join(KindParts(t), "|") == KindParts(t)[0];
    if s.kind == TYPE_VMESS {
      assert KindParts(s) == [Join(VMessParts(s.vmess.value), ",")] && KindParts(t) == [Join(VMessParts(t.vmess.value), ",")];
      SameVMessText(s.vmess.value, t.vmess.value);
    } else if s.kind == TYPE_VLESS {
      assert KindParts(s) == [Join(VLESSParts(s.vless.value), ",")] && KindParts(t) == [Join(VLESSParts(t.vless.value), ",")];
      SameVLESSText(s.vless.value, t.vless.value);
    } else {
      assert KindParts(s) == [Join(TrojanParts(s.trojan.value), ",")] && KindParts(t) == [Join(TrojanParts(t.trojan.value), ",")];
      SameTrojanText(s.trojan.value, t.trojan.value);
    }
  }

  // --- both directions ---------------------------------------------------------------------------------------------

  lemma AgreeingStreamsSameParts(a: Stream, b: Stream)
    requires AgreeingStreams(a, b)
    ensures StreamParts(a) == StreamParts(b)
  {
    SameHeadersSameText(a.headers, b.headers);
  }

  /** The same node has one string, whatever its fields contain. */
  lemma SameNodeSameString(s: Spec, t: Spec)
    requires Normalizable(s) && Normalizable(t) && SameNode(s, t)
    ensures CanonicalString(s) == CanonicalString(t)
  {
    SameServerIff(s, t);
    if s.kind == TYPE_VMESS {
      AgreeingStreamsSameParts(s.vmess.value.stream, t.vmess.value.stream);
    } else if s.kind == TYPE_VLESS {
      AgreeingStreamsSameParts(s.vless.value.stream, t.vless.value.stream);
    } else if s.kind == TYPE_TROJAN {
      AgreeingStreamsSameParts(s.trojan.value.stream, t.trojan.value.stream);
    }
    assert Parts(s) == Parts(t);
  }

  /** Two unambiguous specs have one canonical string exactly when they are the same node. */
  lemma CanonicalIffSameNode(s: Spec, t: Spec)
    requires Unambiguous(s) && Unambiguous(t)
    ensures CanonicalString(s) == CanonicalString(t) <==> SameNode(s, t)
  {
    if CanonicalString(s) == CanonicalString(t) {
      SameStringSameHead(s, t);
      SameServerIff(s, t);
      if Plain(s.kind) {
        SameRestSamePlain(s, t);
      } else {
        SameRestSameStreamed(s, t);
      }
    }
    if SameNode(s, t) {
      SameNodeSameString(s, t);
    }
  }

  // --- every case in which two strings are equal ------------------------------------------------------------------

  predicate HasSettings(s: Spec) {
    && (s.kind == TYPE_SOCKS5 ==> s.socks5.Some?)
    && (s.kind == TYPE_HTTP ==> s.http.Some?)
    && (s.kind == TYPE_SHADOWSOCKS ==> s.shadowsocks.Some?)
  }

  /** The settings of two specs of one type have one text. */
  predicate SettingsShare(s: Spec, t: Spec)
    requires Normalizable(s) && Normalizable(t) && s.kind == t.kind && (Plain(s.kind) || Streamed(s.kind))
  {
    && (HasSettings(s) <==> HasSettings(t))
    && (HasSettings(s) ==>
          if s.kind == TYPE_SOCKS5 then SharesFields(LOGIN_LABELS, LoginValues(s.socks5.value), LoginValues(t.socks5.value), '|')
          else if s.kind == TYPE_HTTP then SharesFields(LOGIN_LABELS, LoginValues(s.http.value), LoginValues(t.http.value), '|')
          else if s.kind == TYPE_SHADOWSOCKS then
            SharesFields(CIPHER_LABELS, CipherValues(s.shadowsocks.value), CipherValues(t.shadowsocks.value), '|')
          else if s.kind == TYPE_VMESS then SharesFields(VMESS_LABELS, VMessValues(s.vmess.value), VMessValues(t.vmess.value), ',')
          else if s.kind == TYPE_VLESS then SharesFields(VLESS_LABELS, VLESSValues(s.vless.value), VLESSValues(t.vless.value), ',')
          else SharesFields(TROJAN_LABELS, TrojanValues(s.trojan.value), TrojanValues(t.trojan.value), ','))
  }

  function PortAndRest(s: Spec): string
    requires Normalizable(s)
  {
    Itoa(s.port) + Rest(s)
  }

  /**
   * The same type and endpoint and settings of one text, or the text |port= moved between the server of
   * one spec and what follows it in the other.
   */
  predicate StringsShare(s: Spec, t: Spec)
    requires Normalizable(s) && Normalizable(t) && (Plain(s.kind) || Streamed(s.kind))
  {
    && s.kind == t.kind
    && (|| (NormalServer(s) == NormalServer(t) && s.port == t.port && SettingsShare(s, t))
        || Moves(NormalServer(s), PortAndRest(s), NormalServer(t), PortAndRest(t), "|port=")
        || Moves(NormalServer(t), PortAndRest(t), NormalServer(s), PortAndRest(s), "|port="))
  }

  lemma RestEmptyIff(s: Spec)
    requires Normalizable(s) && (Plain(s.kind) || Streamed(s.kind))
    ensures Rest(s) == "" <==> !HasSettings(s)
  {
  }

  lemma LoginRestIff(a: Login, b: Login)
    ensures Join(LoginParts(Some(a)), "|") == Join(LoginParts(Some(b)), "|")
            <==> SharesFields(LOGIN_LABELS, LoginValues(a), LoginValues(b), '|')
  {
    assert LoginParts(Some(a)) == Tagged(LOGIN_LABELS, LoginValues(a));
    assert LoginParts(Some(b)) == Tagged(LOGIN_LABELS, LoginValues(b));
    TaggedShareIff(LOGIN_LABELS, LoginValues(a), LoginValues(b), '|');
  }

  lemma CipherRestIff(a: Shadowsocks, b: Shadowsocks)
    ensures Join(CipherParts(Some(a)), "|") == Join(CipherParts(Some(b)), "|")
            <==> SharesFields(CIPHER_LABELS, CipherValues(a), CipherValues(b), '|')
  {
    CipherTagged(a);
    CipherTagged(b);
    TaggedShareIff(CIPHER_LABELS, CipherValues(a), CipherValues(b), '|');
  }

  lemma PlainRestIff(s: Spec, t: Spec)
    requires Normalizable(s) && Normalizable(t) && s.kind == t.kind && Plain(s.kind) && HasSettings(s) && HasSettings(t)
    ensures Join(KindParts(s), "|") == Join(KindParts(t), "|") <==> SettingsShare(s, t)
  {
    if s.kind == TYPE_SOCKS5 {
      LoginRestIff(s.socks5.value, t.socks5.value);
    } else if s.kind == TYPE_HTTP {
      LoginRestIff(s.http.value, t.http.value);
    } else {
      assert KindParts(s) == CipherParts(s.shadowsocks) && KindParts(t) == CipherParts(t.shadowsocks);
      CipherRestIff(s.shadowsocks.value, t.shadowsocks.value);
    }
  }

  lemma StreamedRestIff(s: Spec, t: Spec)
    requires Normalizable(s) && Normalizable(t) && s.kind == t.kind && Streamed(s.kind)
    ensures Join(KindParts(s), "|") == Join(KindParts(t), "|") <==> SettingsShare(s, t)
  {
    if s.kind == TYPE_VMESS {
      VMessTagged(s.vmess.value);
      VMessTagged(t.vmess.value);
      assert KindParts(s) == [Join(VMessParts(s.vmess.value), ",")] && KindParts(t) == [Join(VMessParts(t.vmess.value), ",")];
      TaggedShareIff(VMESS_LABELS, VMessValues(s.vmess.value), VMessValues(t.vmess.value), ',');
    } else if s.kind == TYPE_VLESS {
      VLESSTagged(s.vless.value);
      VLESSTagged(t.vless.value);
      assert KindParts(s) == [Join(VLESSParts(s.vless.value), ",")] && KindParts(t) == [Join(VLESSParts(t.vless.value), ",")];
      TaggedShareIff(VLESS_LABELS, VLESSValues(s.vless.value), VLESSValues(t.vless.value), ',');
    } else {
      TrojanTagged(s.trojan.value);
      TrojanTagged(t.trojan.value);
      assert KindParts(s) == [Join(TrojanParts(s.trojan.value), ",")] && KindParts(t) == [Join(TrojanParts(t.trojan.value), ",")];
      TaggedShareIff(TROJAN_LABELS, TrojanValues(s.trojan.value), TrojanValues(t.trojan.value), ',');
    }
  }

  lemma RestIff(s: Spec, t: Spec)
    requires Normalizable(s) && Normalizable(t) && s.kind == t.kind && (Plain(s.kind) || Streamed(s.kind))
    ensures Rest(s) == Rest(t) <==> SettingsShare(s, t)
  {
    RestEmptyIff(s);
    RestEmptyIff(t);
    if HasSettings(s) && HasSettings(t) {
      LabelCancelsIff("|", Join(KindParts(s), "|"), Join(KindParts(t), "|"));
      if Plain(s.kind) {
        PlainRestIff(s, t);
      } else {
        StreamedRestIff(s, t);
      }
    }
  }

  lemma PortAndRestIff(s: Spec, t: Spec)
    requires Normalizable(s) && Normalizable(t)
    ensures PortAndRest(s) == PortAndRest(t) <==> s.port == t.port && Rest(s) == Rest(t)
  {
    if PortAndRest(s) == PortAndRest(t) {
      ItoaFree(s.port, '|');
      ItoaFree(t.port, '|');
      FreeThenRest(Itoa(s.port), Rest(s), Itoa(t.port), Rest(t), '|');
      ItoaInjective(s.port, t.port);
    }
  }

  lemma ServerAndPort(s: Spec)
    requires Normalizable(s)
    ensures CanonicalString(s) == "type=" + (s.kind + ("|server=" + (NormalServer(s) + "|port=" + PortAndRest(s))))
  {
    CanonicalFields(s);
    var a, b, c := "type=" + s.kind, "server=" + NormalServer(s), "port=" + PortAndRest(s);
    assert Tagged(HEAD_LABELS, HeadValues(s)) == [a, b, c];
    JoinThree(a, b, c);
    ServerAndPortText(s.kind, NormalServer(s), PortAndRest(s));
  }

  lemma ServerAndPortText(kind: string, server: string, rest: string)
    ensures "type=" + kind + "|" + ("server=" + server + "|" + ("port=" + rest))
         == "type=" + (kind + ("|server=" + (server + "|port=" + rest)))
  {
  }

  lemma TypeAndServerIff(kind: string, x: string, other: string, y: string)
    requires Free(kind, '|') && Free(other, '|')
    ensures "type=" + (kind + ("|server=" + x)) == "type=" + (other + ("|server=" + y)) <==> kind == other && x == y
  {
    LabelCancelsIff("type=", kind + ("|server=" + x), other + ("|server=" + y));
    if kind + ("|server=" + x) == other + ("|server=" + y) {
      FreeThenRest(kind, "|server=" + x, other, "|server=" + y, '|');
    }
    LabelCancelsIff("|server=", x, y);
  }

  /** The cases by what the strings are made of: type, server, port, and all that follows. */
  lemma CanonicalPiecesIff(s: Spec, t: Spec)
    requires Normalizable(s) && Normalizable(t) && Free(s.kind, '|') && Free(t.kind, '|')
    ensures CanonicalString(s) == CanonicalString(t) <==>
              && s.kind == t.kind
              && (|| (NormalServer(s) == NormalServer(t) && PortAndRest(s) == PortAndRest(t))
                  || Moves(NormalServer(s), PortAndRest(s), NormalServer(t), PortAndRest(t), "|port=")
                  || Moves(NormalServer(t), PortAndRest(t), NormalServer(s), PortAndRest(s), "|port="))
  {
    ServerAndPort(s);
    ServerAndPort(t);
    TypeAndServerIff(s.kind, NormalServer(s) + "|port=" + PortAndRest(s), t.kind, NormalServer(t) + "|port=" + PortAndRest(t));
    PortIsMarker();
    PairsShareTextIff(NormalServer(s), PortAndRest(s), NormalServer(t), PortAndRest(t), "|port=");
  }

  lemma KnownKindFree(s: Spec)
    requires Plain(s.kind) || Streamed(s.kind)
    ensures Free(s.kind, '|')
  {
  }

  /** Every case in which two specs of known types, whatever their fields contain, have one string. */
  lemma CanonicalShareIff(s: Spec, t: Spec)
    requires Normalizable(s) && Normalizable(t) && (Plain(s.kind) || Streamed(s.kind)) && (Plain(t.kind) || Streamed(t.kind))
    ensures CanonicalString(s) == CanonicalString(t) <==> StringsShare(s, t)
  {
    KnownKindFree(s);
    KnownKindFree(t);
    CanonicalPiecesIff(s, t);
    PortAndRestIff(s, t);
    if s.kind == t.kind {
      RestIff(s, t);
    }
  }

  lemma PortIsMarker()
    ensures Marker("|port=")
  {
  }

  // --- where strings are ambiguous -----------------------------------------------------------------------------------

  function WithLogin(s: Spec, user: string, pass: string): Spec {
    s.(kind := TYPE_SOCKS5, socks5 := Some(Login(user, pass)))
  }

  lemma LoginText(user: string, pass: string)
    ensures Join(LoginParts(Some(Login(user, pass))), "|") == "user=" + (user + "|pass=" + pass)
  {
    var parts := LoginParts(Some(Login(user, pass)));
    assert parts[1..] == ["pass=" + pass];
    assert "user=" + user + "|" + ("pass=" + pass) == "user=" + (user + "|pass=" + pass);
  }

  lemma SameLoginTextIff(s: Spec, u: string, p: string, v: string, q: string)
    ensures CanonicalString(WithLogin(s, u, p)) == CanonicalString(WithLogin(s, v, q)) <==> u + "|pass=" + p == v + "|pass=" + q
  {
    var a, b := WithLogin(s, u, p), WithLogin(s, v, q);
    LoginText(u, p);
    LoginText(v, q);
    CanonicalFields(a);
    CanonicalFields(b);
    var x, y := HeadValues(a), HeadValues(b);
    FirstFieldEnds(HEAD_LABELS, x, '|');
    HeadTextIff(TYPE_SOCKS5, NormalServer(s), Itoa(s.port), Rest(a), Rest(b));
    if Rest(a) == Rest(b) {
      LabelCancels("|", "user=" + (u + "|pass=" + p), "user=" + (v + "|pass=" + q));
      LabelCancels("user=", u + "|pass=" + p, v + "|pass=" + q);
    }
  }

  lemma HeadTextIff(kind: string, server: string, port: string, r: string, t: string)
    ensures Join(Tagged(HEAD_LABELS, [kind, server, port + r]), "|") == Join(Tagged(HEAD_LABELS, [kind, server, port + t]), "|")
            <==> r == t
  {
    var a, b := "type=" + kind, "server=" + server;
    assert Tagged(HEAD_LABELS, [kind, server, port + r]) == [a, b, "port=" + (port + r)];
    assert Tagged(HEAD_LABELS, [kind, server, port + t]) == [a, b, "port=" + (port + t)];
    JoinThree(a, b, "port=" + (port + r));
    JoinThree(a, b, "port=" + (port + t));
    if a + "|" + (b + "|" + ("port=" + (port + r))) == a + "|" + (b + "|" + ("port=" + (port + t))) {
      LabelCancels(a + "|", b + "|" + ("port=" + (port + r)), b + "|" + ("port=" + (port + t)));
      LabelCancels(b + "|", "port=" + (port + r), "port=" + (port + t));
      LabelCancels("port=", port + r, port + t);
      LabelCancels(port, r, t);
    }
  }

  lemma PassIsMarker()
    ensures Marker("|pass=")
  {
  }

  /**
   * Two logins of one endpoint share a canonical string iff they are equal, or the text |pass= moved from
   * the user of one into the password of the other.
   */
  lemma LoginsShareStringIff(s: Spec, u: string, p: string, v: string, q: string)
    ensures CanonicalString(WithLogin(s, u, p)) == CanonicalString(WithLogin(s, v, q))
            <==> (u == v && p == q) || Moves(u, p, v, q, "|pass=") || Moves(v, q, u, p, "|pass=")
  {
    SameLoginTextIff(s, u, p, v, q);
    PassIsMarker();
    PairsShareTextIff(u, p, v, q, "|pass=");
  }

  /** A different login with the same canonical string. */
  predicate Impostor(s: Spec, u: string, p: string, v: string, q: string) {
    (u != v || p != q) && CanonicalString(WithLogin(s, u, p)) == CanonicalString(WithLogin(s, v, q))
  }

  /** Some different login shares the string of a login iff |pass= occurs in the user or the password. */
  lemma LoginAmbiguousIff(s: Spec, u: string, p: string)
    ensures (exists v, q :: Impostor(s, u, p, v, q)) <==> Contains(u, "|pass=") || Contains(p, "|pass=")
  {
    PassIsMarker();
    AmbiguousPairIff(u, p, "|pass=");
    forall v, q ensures Impostor(s, u, p, v, q) <==> OtherReading(u, p, v, q, "|pass=") {
      SameLoginTextIff(s, u, p, v, q);
    }
    if exists v, q :: OtherReading(u, p, v, q, "|pass=") {
      var v, q :| OtherReading(u, p, v, q, "|pass=");
      assert Impostor(s, u, p, v, q);
    }
  }

  /** The text moved: different credentials, one string. */
  lemma PipeInUserCollides(s: Spec, a: string, b: string, c: string)
    ensures var x, y := WithLogin(s, a + "|pass=" + b, c), WithLogin(s, a, b + "|pass=" + c);
            CanonicalString(x) == CanonicalString(y) && !SameNode(x, y)
  {
    assert (a + "|pass=" + b)[..|a| + 6] == a + "|pass=" && (a + "|pass=" + b)[|a| + 6..] == b;
    LoginsShareStringIff(s, a + "|pass=" + b, c, a, b + "|pass=" + c);
    assert |a + "|pass=" + b| > |a|;
  }

  // Outside Unambiguous other fields collide as well: a comma in a UUID, an ampersand in a header value.

  function VLESSNode(uuid: string, flow: string, stream: Stream): Spec {
    Spec("", "", TYPE_VLESS, "h", 443, None, None, None, None, Some(VLESS(uuid, flow, stream)), None)
  }

  lemma FlowMoves(a: string, b: string, c: string, rest: string)
    ensures "uuid=" + (a + ",flow=" + b) + "," + ("flow=" + c + "," + rest)
         == "uuid=" + a + "," + ("flow=" + (b + ",flow=" + c) + "," + rest)
  {
  }

  lemma VLESSText(c: VLESS)
    ensures Join(VLESSParts(c), ",") == "vless," + ("uuid=" + c.uuid + "," + ("flow=" + c.flow + "," + Join(StreamParts(c.stream), ",")))
  {
    var p := VLESSParts(c);
    assert p[1..][1..][1..] == StreamParts(c.stream);
    assert Join(p[1..][1..], ",") == "flow=" + c.flow + "," + Join(StreamParts(c.stream), ",");
    assert Join(p[1..], ",") == "uuid=" + c.uuid + "," + Join(p[1..][1..], ",");
    assert "vless" + "," == "vless,";
  }

  lemma CommaInUUIDCollides(a: string, b: string, c: string, stream: Stream)
    ensures var x, y := VLESSNode(a + ",flow=" + b, c, stream), VLESSNode(a, b + ",flow=" + c, stream);
            CanonicalString(x) == CanonicalString(y) && !SameNode(x, y)
  {
    var x, y := VLESSNode(a + ",flow=" + b, c, stream), VLESSNode(a, b + ",flow=" + c, stream);
    VLESSText(x.vless.value);
    VLESSText(y.vless.value);
    FlowMoves(a, b, c, Join(StreamParts(stream), ","));
    assert KindParts(x) == [Join(VLESSParts(x.vless.value), ",")] && KindParts(y) == [Join(VLESSParts(y.vless.value), ",")];
    CanonicalFields(x);
    CanonicalFields(y);
    assert |a + ",flow=" + b| > |a|;
  }
}
