/**
 * Translation of node specs into an xray configuration: accounts, ordered routing rules and outbounds,
 * with the meaning of the rules given by first match.
 */
module XrayConfig {
  import opened Base
  import opened GoText
  import opened Counters
  import opened NodeSpec
  import opened Sorting

  datatype Mode = Strict | Relaxed

  datatype Account = Account(user: string, pass: string)

  /** A rule without users applies to every user. */
  datatype Rule = Rule(ruleType: string, inboundTags: seq<string>, users: Option<seq<string>>, outboundTag: string)

  datatype Settings =
    | Freedom
    | LoginServer(address: string, port: int, users: Option<Login>)
    | ShadowsocksServer(address: string, port: int, cipher: string, password: string)
    | TrojanServer(address: string, port: int, password: string)
    | VMessNext(address: string, port: int, id: string, alterID: int, security: string)
    | VLESSNext(address: string, port: int, id: string, encryption: string, flow: Option<string>)

  datatype WebSocket = WebSocket(path: string, headers: Option<Headers>)
  datatype TLS = TLS(allowInsecure: bool, serverName: Option<string>)
  datatype StreamSettings = StreamSettings(network: string, ws: Option<WebSocket>, tls: Option<TLS>)

  datatype Outbound = Outbound(tag: string, protocol: string, settings: Settings, streamSettings: Option<StreamSettings>)

  datatype ObservatoryOptions = ObservatoryOptions(
    mode: string, destination: string, connectivity: string,
    intervalSeconds: int, timeoutSeconds: int, sampling: int)

  datatype Observatory =
    | Plain(selector: seq<string>, probeURL: string, probeInterval: string)
    | Burst(selector: seq<string>, destination: string, interval: string, sampling: int, timeout: string, connectivity: Option<string>)

  datatype Inbound = Inbound(
    listen: string, port: int, protocol: string, tag: string, auth: string, udp: bool, accounts: seq<Account>)

  /** The generated tree; its list of inbounds has one element. */
  datatype Config = Config(
    logLevel: string, inbound: Inbound, domainStrategy: string, rules: seq<Rule>, outbounds: seq<Outbound>,
    metricsTag: string, metricsListen: string, observatory: Observatory)

  datatype Options = Options(
    mode: Mode, socksListen: string, metricsListen: string, userPassword: string, maxNodes: int,
    observatory: ObservatoryOptions)

  datatype Error = MissingSocksListen | MissingMetricsListen | MissingUserPassword | TooManyNodes(count: nat, limit: int)

  datatype Generated = Generated(config: Config, hash: string, included: seq<string>, skipped: Counter)

  datatype Result = Ok(generated: Generated) | Err(error: Error)

  const INBOUND_TAG := "socks-in"
  const DIRECT_TAG := "direct"
  const NODE_PREFIX := "n-"
  const DEFAULT_MAX_NODES := 2000

  // --- one outbound --------------------------------------------------------------------------------------

  function NonBlank(s: string): Option<string> {
    if Blank(s) then None else Some(s)
  }

  function BuildStreamSettings(tlsEnabled: bool, s: Stream, mode: Mode): StreamSettings {
    var trimmed := ToLower(TrimSpace(s.network));
    var network := if trimmed == "" then "tcp" else trimmed;
    StreamSettings(
      network,
      if network == "ws" then Some(WebSocket(s.wsPath, if |s.headers| > 0 then Some(s.headers) else None)) else None,
      if tlsEnabled then Some(TLS(s.skipCertVerify || mode.Relaxed?, NonBlank(s.serverName))) else None)
  }

  /** Credentials are sent if one of the two is not blank. */
  function LoginUsers(login: Option<Login>): Option<Login> {
    if login.None? || (Blank(login.value.username) && Blank(login.value.password)) then None else login
  }

  function BuildOutbound(s: Spec, mode: Mode): (out: Option<Outbound>)
    ensures out.Some? <==> Supported(s)
    ensures out.Some? ==> out.value.tag == s.id && out.value.protocol != "freedom"
  {
    if s.kind == TYPE_SOCKS5 then
      Some(Outbound(s.id, "socks", LoginServer(s.server, s.port, LoginUsers(s.socks5)), None))
    else if s.kind == TYPE_HTTP then
      Some(Outbound(s.id, "http", LoginServer(s.server, s.port, LoginUsers(s.http)), None))
    else if s.kind == TYPE_SHADOWSOCKS && s.shadowsocks.Some? then
      var c := s.shadowsocks.value;
      Some(Outbound(s.id, "shadowsocks", ShadowsocksServer(s.server, s.port, c.cipher, c.password), None))
    else if s.kind == TYPE_TROJAN && s.trojan.Some? then
      var c := s.trojan.value;
      Some(Outbound(s.id, "trojan", TrojanServer(s.server, s.port, c.password), Some(BuildStreamSettings(true, c.stream, mode))))
    else if s.kind == TYPE_VMESS && s.vmess.Some? then
      var c := s.vmess.value;
      Some(Outbound(s.id, "vmess", VMessNext(s.server, s.port, c.uuid, c.alterID, c.security),
                    Some(BuildStreamSettings(c.stream.tls, c.stream, mode))))
    else if s.kind == TYPE_VLESS && s.vless.Some? then
      var c := s.vless.value;
      Some(Outbound(s.id, "vless", VLESSNext(s.server, s.port, c.uuid, "none", NonBlank(c.flow)),
                    Some(BuildStreamSettings(c.stream.tls, c.stream, mode))))
    else None
  }

  /** SOCKS5 and HTTP need no configuration; the other known types need theirs; no other type is supported. */
  predicate Supported(s: Spec) {
    || s.kind == TYPE_SOCKS5 || s.kind == TYPE_HTTP
    || (s.kind == TYPE_SHADOWSOCKS && s.shadowsocks.Some?)
    || (s.kind == TYPE_TROJAN && s.trojan.Some?)
    || (s.kind == TYPE_VMESS && s.vmess.Some?)
    || (s.kind == TYPE_VLESS && s.vless.Some?)
  }

  // --- which nodes are included ----------------------------------------------------------------------------

  /** The supported specs, in input order. */
  function Chosen(specs: seq<Spec>): seq<Spec> {
    if specs == [] then []
    else
      var init := Chosen(specs[..|specs| - 1]);
      if Supported(specs[|specs| - 1]) then init + [specs[|specs| - 1]] else init
  }

  /** The types of the others. */
  function SkippedKinds(specs: seq<Spec>): seq<string> {
    if specs == [] then []
    else
      var init := SkippedKinds(specs[..|specs| - 1]);
      if Supported(specs[|specs| - 1]) then init else init + [specs[|specs| - 1].kind]
  }

  function ChosenOne(s: Spec): seq<Spec> {
    if Supported(s) then [s] else []
  }

  function SkippedOne(s: Spec): seq<string> {
    if Supported(s) then [] else [s.kind]
  }

  lemma ChosenNext(specs: seq<Spec>, s: Spec)
    ensures Chosen(specs + [s]) == Chosen(specs) + ChosenOne(s)
    ensures SkippedKinds(specs + [s]) == SkippedKinds(specs) + SkippedOne(s)
  {
    assert (specs + [s])[..|specs|] == specs;
  }

  /** One of the results of sorting by ID; the sort used is not stable. */
  predicate IsSortOf(sorted: seq<Spec>, nodes: seq<Spec>) {
    SortedBy(sorted, IDOf()) && multiset(sorted) == multiset(nodes)
  }

  // --- the tree -----------------------------------------------------------------------------------------------

  function IDs(nodes: seq<Spec>): seq<string> {
    seq(|nodes|, i requires 0 <= i < |nodes| => nodes[i].id)
  }

  function AccountsOf(nodes: seq<Spec>, pass: string): seq<Account> {
    seq(|nodes|, i requires 0 <= i < |nodes| => Account(nodes[i].id, pass))
  }

  function NodeRule(id: string): Rule {
    Rule("field", [INBOUND_TAG], Some([id]), id)
  }

  function NodeRules(nodes: seq<Spec>): seq<Rule> {
    seq(|nodes|, i requires 0 <= i < |nodes| => NodeRule(nodes[i].id))
  }

  predicate AllSupported(nodes: seq<Spec>) {
    forall i :: 0 <= i < |nodes| ==> Supported(nodes[i])
  }

  function NodeOutbounds(nodes: seq<Spec>, mode: Mode): seq<Outbound>
    requires AllSupported(nodes)
  {
    seq(|nodes|, i requires 0 <= i < |nodes| => BuildOutbound(nodes[i], mode).value)
  }

  const CATCH_ALL := Rule("field", [INBOUND_TAG], None, DIRECT_TAG)
  const DIRECT := Outbound(DIRECT_TAG, "freedom", Freedom, None)

  const NANOSECONDS := 1_000_000_000

  /** A number of seconds, through 64-bit nanoseconds and back, with its unit. */
  function DurationString(v: int, fallback: int): string {
    var d := Wrap((if v <= 0 then fallback else v) * NANOSECONDS);
    Itoa(if d >= 0 then d / NANOSECONDS else -(-d / NANOSECONDS)) + "s"
  }

  // --- listen addresses --------------------------------------------------------------------------------------

  /** The position of the last colon, -1 if there is none. */
  function LastColon(s: string): (c: int)
    ensures -1 <= c < |s| && (c >= 0 ==> s[c] == ':') && (forall i :: c < i < |s| ==> s[i] != ':')
  {
    if s == "" then -1 else if s[|s| - 1] == ':' then |s| - 1 else LastColon(s[..|s| - 1])
  }

  function HostPart(addr: string): string {
    var c := LastColon(addr);
    if c < 0 then addr else addr[..c]
  }

  predicate AllDigits(s: string) {
    forall i :: 0 <= i < |s| ==> '0' <= s[i] <= '9'
  }

  function ReadDigits(s: string): nat
    requires AllDigits(s)
  {
    if s == "" then 0 else 10 * ReadDigits(s[..|s| - 1]) + (s[|s| - 1] as int - '0' as int)
  }

  function Clamp(x: int): int {
    if x >= TWO_TO_THE_63 then TWO_TO_THE_63 - 1 else if x < -TWO_TO_THE_63 then -TWO_TO_THE_63 else x
  }

  /** strconv.Atoi with its error ignored: 0 for what is no number, the nearest one for what does not fit. */
  function Atoi(s: string): int {
    var signed := s != "" && (s[0] == '-' || s[0] == '+');
    var digits := if signed then s[1..] else s;
    if digits == "" || !AllDigits(digits) then 0
    else if signed && s[0] == '-' then Clamp(0 - ReadDigits(digits))
    else Clamp(ReadDigits(digits))
  }

  function PortPart(addr: string): int {
    var c := LastColon(addr);
    if c < 0 then 0 else Atoi(addr[c + 1..])
  }

  // --- the whole tree ------------------------------------------------------------------------------------------

  function ObservatoryOf(o: ObservatoryOptions): (r: Observatory)
    ensures r.selector == [NODE_PREFIX]
  {
    if ToLower(TrimSpace(o.mode)) == "observatory"
    then Plain([NODE_PREFIX], o.destination, DurationString(o.intervalSeconds, 30))
    else Burst([NODE_PREFIX], o.destination, DurationString(o.intervalSeconds, 30), o.sampling,
               DurationString(o.timeoutSeconds, 5), NonBlank(o.connectivity))
  }

  function SocksInbound(opt: Options, accounts: seq<Account>): Inbound {
    Inbound(HostPart(opt.socksListen), PortPart(opt.socksListen), "socks", INBOUND_TAG, "password", true, accounts)
  }

  /** The configuration for nodes already chosen and sorted. */
  function Tree(nodes: seq<Spec>, opt: Options): Config
    requires AllSupported(nodes)
  {
    Config("warning", SocksInbound(opt, AccountsOf(nodes, opt.userPassword)), "AsIs", NodeRules(nodes) + [CATCH_ALL],
           NodeOutbounds(nodes, opt.mode) + [DIRECT], "metrics", opt.metricsListen, ObservatoryOf(opt.observatory))
  }

  function Limit(opt: Options): int {
    if opt.maxNodes <= 0 then DEFAULT_MAX_NODES else opt.maxNodes
  }

  predicate Misconfigured(opt: Options) {
    Blank(opt.socksListen) || Blank(opt.metricsListen) || Blank(opt.userPassword)
  }

  function Complaint(opt: Options): Error
    requires Misconfigured(opt)
  {
    if Blank(opt.socksListen) then MissingSocksListen
    else if Blank(opt.metricsListen) then MissingMetricsListen
    else MissingUserPassword
  }

  /** The whole result for specs that have their identifiers, given one result of sorting. */
  function ResultOf(specs: seq<Spec>, sorted: seq<Spec>, opt: Options, digest: Config -> string): Result
    requires AllSupported(sorted)
  {
    if Misconfigured(opt) then Err(Complaint(opt))
    else if |Chosen(specs)| > Limit(opt) then Err(TooManyNodes(|Chosen(specs)|, Limit(opt)))
    else
      var config := Tree(sorted, opt);
      Ok(Generated(config, digest(config), IDs(sorted), Tally(SkippedKinds(specs))))
  }

  lemma {:induction false} ChosenSupported(specs: seq<Spec>)
    ensures AllSupported(Chosen(specs))
    ensures forall s :: s in Chosen(specs) <==> s in specs && Supported(s)
  {
    if specs != [] {
      var n := |specs| - 1;
      ChosenSupported(specs[..n]);
      assert specs == specs[..n] + [specs[n]];
    }
  }

  lemma SortSupported(sorted: seq<Spec>, specs: seq<Spec>)
    requires IsSortOf(sorted, Chosen(specs))
    ensures AllSupported(sorted)
    ensures forall s :: s in sorted <==> s in specs && Supported(s)
  {
    ChosenSupported(specs);
    forall s ensures s in sorted <==> s in Chosen(specs) {
      assert s in sorted <==> s in multiset(sorted);
      assert s in Chosen(specs) <==> s in multiset(Chosen(specs));
    }
    forall i | 0 <= i < |sorted| ensures Supported(sorted[i]) {
      assert sorted[i] in sorted;
    }
  }

  /** What Generate may return, for the results sorting may have. */
  ghost predicate Generates(specs: seq<Spec>, opt: Options, hash12: string -> string, digest: Config -> string, r: Result)
    requires AllIdentifiable(specs)
  {
    var all := IdentifiedAll(specs, hash12);
    exists sorted ::
      IsSortOf(sorted, Chosen(all)) && AllSupported(sorted) && r == ResultOf(all, sorted, opt, digest)
  }

  /** There always is one. */
  lemma AnyResult(specs: seq<Spec>, opt: Options, hash12: string -> string, digest: Config -> string) returns (r: Result)
    requires AllIdentifiable(specs)
    ensures Generates(specs, opt, hash12, digest, r)
  {
    var all := IdentifiedAll(specs, hash12);
    var sorted := Sort(Chosen(all), IDOf());
    SortSorts(Chosen(all), IDOf());
    SortSupported(sorted, all);
    r := ResultOf(all, sorted, opt, digest);
  }

  /** digest stands for the twelve-digit hash of the encoded tree. */
  method Generate(specs: seq<Spec>, opt: Options, hash12: string -> string, digest: Config -> string) returns (r: Result)
    requires AllIdentifiable(specs)
    ensures Generates(specs, opt, hash12, digest, r)
  {
    ghost var all := IdentifiedAll(specs, hash12);
    ghost var anySort := Sort(Chosen(all), IDOf());
    SortSorts(Chosen(all), IDOf());
    SortSupported(anySort, all);
    if Blank(opt.socksListen) {
      return Err(MissingSocksListen);
    }
    if Blank(opt.metricsListen) {
      return Err(MissingMetricsListen);
    }
    if Blank(opt.userPassword) {
      return Err(MissingUserPassword);
    }
    var maxNodes := if opt.maxNodes <= 0 then DEFAULT_MAX_NODES else opt.maxNodes;
    var nodes, skipped := Choose(specs, opt.mode, hash12);
    if |nodes| > maxNodes {
      return Err(TooManyNodes(|nodes|, maxNodes));
    }
    nodes := Sort(nodes, IDOf());
    var accounts, outbounds, rules, included := Emit(nodes, opt);
    outbounds := outbounds + [Outbound(DIRECT_TAG, "freedom", Freedom, None)];
    rules := rules + [Rule("field", [INBOUND_TAG], None, DIRECT_TAG)];
    var config := Config("warning", SocksInbound(opt, accounts), "AsIs", rules, outbounds,
                         "metrics", opt.metricsListen, ObservatoryOf(opt.observatory));
    assert config == Tree(nodes, opt);
    r := Ok(Generated(config, digest(config), included, skipped));
  }

  /** The first loop: give identifiers, drop what is not supported and count it. */
  method Choose(specs: seq<Spec>, mode: Mode, hash12: string -> string) returns (nodes: seq<Spec>, skipped: Counter)
    requires AllIdentifiable(specs)
    ensures nodes == Chosen(IdentifiedAll(specs, hash12))
    ensures skipped == Tally(SkippedKinds(IdentifiedAll(specs, hash12)))
  {
    nodes, skipped := [], map[];
    ghost var all := IdentifiedAll(specs, hash12);
    var i := 0;
    while i < |specs|
      invariant 0 <= i <= |specs| && nodes == Chosen(all[..i]) && skipped == Tally(SkippedKinds(all[..i]))
    {
      var s := Identified(specs[i], hash12);
      assert all[..i + 1] == all[..i] + [s];
      ChosenNext(all[..i], s);
      if BuildOutbound(s, mode).None? {
        TallyNext(SkippedKinds(all[..i]), s.kind);
        skipped := Add(skipped, s.kind, 1);
      } else {
        nodes := nodes + [s];
      }
      i := i + 1;
    }
    assert all[..i] == all;
  }

  /** The second loop: one account, outbound, rule and identifier per node. */
  method Emit(nodes: seq<Spec>, opt: Options)
    returns (accounts: seq<Account>, outbounds: seq<Outbound>, rules: seq<Rule>, included: seq<string>)
    requires AllSupported(nodes)
    ensures accounts == AccountsOf(nodes, opt.userPassword) && outbounds == NodeOutbounds(nodes, opt.mode)
    ensures rules == NodeRules(nodes) && included == IDs(nodes)
  {
    accounts, outbounds, rules, included := [], [], [], [];
    var i := 0;
    while i < |nodes|
      invariant 0 <= i <= |nodes|
      invariant accounts == AccountsOf(nodes, opt.userPassword)[..i] && outbounds == NodeOutbounds(nodes, opt.mode)[..i]
      invariant rules == NodeRules(nodes)[..i] && included == IDs(nodes)[..i]
    {
      accounts := accounts + [Account(nodes[i].id, opt.userPassword)];
      outbounds := outbounds + [BuildOutbound(nodes[i], opt.mode).value];
      rules := rules + [Rule("field", [INBOUND_TAG], Some([nodes[i].id]), nodes[i].id)];
      included := included + [nodes[i].id];
      i := i + 1;
    }
  }
}
