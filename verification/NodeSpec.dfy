/** Upstream node specifications: canonical form, stable identifier, deduplication. */
module NodeSpec {
  import opened Base
  import opened GoText
  import opened Sorting
  import opened Dedup
  import opened Permutations

  const TYPE_SOCKS5 := "socks5"
  const TYPE_HTTP := "http"
  const TYPE_SHADOWSOCKS := "shadowsocks"
  const TYPE_VMESS := "vmess"
  const TYPE_VLESS := "vless"
  const TYPE_TROJAN := "trojan"

  type Headers = map<string, string>

  datatype Login = Login(username: string, password: string)
  datatype Shadowsocks = Shadowsocks(cipher: string, password: string)
  datatype Stream = Stream(tls: bool, skipCertVerify: bool, serverName: string, network: string, wsPath: string, headers: Headers)
  datatype VMess = VMess(uuid: string, alterID: int, security: string, stream: Stream)
  datatype VLESS = VLESS(uuid: string, flow: string, stream: Stream)
  datatype Trojan = Trojan(password: string, stream: Stream)

  /** kind is the source's Type; a nil configuration is None. */
  datatype Spec = Spec(
    id: string, name: string, kind: string, server: string, port: int,
    socks5: Option<Login>, http: Option<Login>, shadowsocks: Option<Shadowsocks>,
    vmess: Option<VMess>, vless: Option<VLESS>, trojan: Option<Trojan>)

  // --- text pieces ------------------------------------------------------------------------------------

  function Join(parts: seq<string>, sep: string): string {
    if parts == [] then "" else if |parts| == 1 then parts[0] else parts[0] + sep + Join(parts[1..], sep)
  }

  function Digits(n: nat): string {
    if n < 10 then [('0' as int + n) as char] else Digits(n / 10) + [('0' as int + n % 10) as char]
  }

  /** strconv.Itoa */
  function Itoa(n: int): string {
    if n < 0 then "-" + Digits(-n) else Digits(n)
  }

  function FormatBool(b: bool): string {
    if b then "true" else "false"
  }

  // --- headers ------------------------------------------------------------------------------------------

  function Identity(): string -> string {
    (s: string) => s
  }

  function LowerAll(keys: seq<string>): seq<string> {
    seq(|keys|, i requires 0 <= i < |keys| => ToLower(keys[i]))
  }

  /** h[k], which is "" for a missing key. */
  function Lookup(h: Headers, k: string): string {
    if k in h then h[k] else ""
  }

  function Render(h: Headers, keys: seq<string>): string {
    if keys == [] then ""
    else
      var n := |keys| - 1;
      Render(h, keys[..n]) + (if n > 0 then "&" else "") + keys[n] + "=" + Lookup(h, keys[n])
  }

  /** One of the orders in which a loop can visit the keys. */
  predicate Enumerates(order: seq<string>, keys: set<string>) {
    Distinct(order) && Elements(order) == keys
  }

  predicate IsLeast(m: string, s: set<string>) {
    m in s && forall k :: k in s ==> !Less(k, m)
  }

  lemma {:induction false} LeastExists(s: set<string>) returns (m: string)
    requires s != {}
    ensures IsLeast(m, s)
  {
    var x :| x in s;
    if s == {x} {
      m := x;
      if Less(m, m) {
        LessAsymmetric(m, m);
      }
    } else {
      var rest := s - {x};
      var least := LeastExists(rest);
      m := if Less(x, least) then x else least;
      forall k | k in s ensures !Less(k, m) {
        if k == x {
          if Less(x, x) {
            LessAsymmetric(x, x);
          }
        } else if m == x {
          NotLessAfter(x, least, k);
        }
      }
    }
  }

  lemma NotLessAfter(x: string, least: string, k: string)
    requires Less(x, least) && !Less(k, least)
    ensures !Less(k, x)
  {
    if Less(k, x) {
      LessTransitive(k, x, least);
    }
  }

  lemma OneLeast(s: set<string>)
    requires s != {}
    ensures exists m :: IsLeast(m, s)
    ensures forall a, b :: IsLeast(a, s) && IsLeast(b, s) ==> a == b
  {
    var m := LeastExists(s);
    forall a, b | IsLeast(a, s) && IsLeast(b, s) ensures a == b {
      LessTotal(a, b);
    }
  }

  lemma EnumeratesCons(m: string, rest: seq<string>, s: set<string>)
    requires m in s && Enumerates(rest, s - {m})
    ensures Enumerates([m] + rest, s)
  {
    assert m !in Elements(rest);
    assert Elements([m] + rest) == {m} + Elements(rest);
  }

  /** The keys of a set in ascending order. */
  function Ascending(s: set<string>): (order: seq<string>)
    ensures Enumerates(order, s)
  {
    if s == {} then []
    else
      OneLeast(s);
      var m :| IsLeast(m, s);
      EnumeratesCons(m, Ascending(s - {m}), s);
      [m] + Ascending(s - {m})
  }

  /** Lower-cased keys in order, each with the value under the lower-cased key. */
  function HeaderText(h: Headers): string {
    Render(h, Sort(LowerAll(Ascending(h.Keys)), Identity()))
  }

  lemma LowerAllPermuted(a: seq<string>, b: seq<string>)
    requires multiset(a) == multiset(b)
    ensures multiset(LowerAll(a)) == multiset(LowerAll(b))
  {
    ImagesPermuted(a, LowerAll(a), b, LowerAll(b));
  }

  lemma EnumerationsArePermutations(a: seq<string>, b: seq<string>, s: set<string>)
    requires Enumerates(a, s) && Enumerates(b, s)
    ensures multiset(a) == multiset(b)
  {
    forall x ensures x in a <==> x in b {
      assert x in a <==> x in Elements(a);
      assert x in b <==> x in Elements(b);
    }
    SameMembers(a, b);
  }

  /** Sorting forgets which order the keys were visited in. */
  lemma AnyOrderSortsAlike(order: seq<string>, s: set<string>)
    requires Enumerates(order, s)
    ensures Sort(LowerAll(order), Identity()) == Sort(LowerAll(Ascending(s)), Identity())
  {
    EnumerationsArePermutations(order, Ascending(s), s);
    LowerAllPermuted(order, Ascending(s));
    SortOfPermutation(LowerAll(order), LowerAll(Ascending(s)), Identity());
  }

  lemma NoHeadersNoText(h: Headers)
    requires |h| == 0
    ensures HeaderText(h) == ""
  {
    assert h.Keys == {};
    assert LowerAll(Ascending({})) == [];
  }

  /** The loop over a map gives one text, whatever order the map yields its keys in. */
  method CanonicalHeaders(h: Headers, order: seq<string>) returns (text: string)
    requires Enumerates(order, h.Keys)
    ensures text == HeaderText(h)
  {
    if |h| == 0 {
      NoHeadersNoText(h);
      return "";
    }
    var keys := LowerKeys(order);
    AnyOrderSortsAlike(order, h.Keys);
    keys := Sort(keys, Identity());
    text := RenderHeaders(h, keys);
  }

  method LowerKeys(order: seq<string>) returns (keys: seq<string>)
    ensures keys == LowerAll(order)
  {
    keys := [];
    var i := 0;
    while i < |order|
      invariant 0 <= i <= |order| && keys == LowerAll(order)[..i]
    {
      keys := keys + [ToLower(order[i])];
      i := i + 1;
    }
  }

  method RenderHeaders(h: Headers, keys: seq<string>) returns (text: string)
    ensures text == Render(h, keys)
  {
    text := "";
    var i := 0;
    while i < |keys|
      invariant 0 <= i <= |keys| && text == Render(h, keys[..i])
    {
      assert keys[..i + 1][..i] == keys[..i];
      text := text + (if i > 0 then "&" else "") + keys[i] + "=" + Lookup(h, keys[i]);
      i := i + 1;
    }
    assert keys[..i] == keys;
  }

  lemma {:induction false} RenderSame(h: Headers, g: Headers, keys: seq<string>)
    requires forall k :: k in keys ==> Lookup(h, k) == Lookup(g, k)
    ensures Render(h, keys) == Render(g, keys)
  {
    if keys != [] {
      var n := |keys| - 1;
      assert forall k :: k in keys[..n] ==> k in keys;
      RenderSame(h, g, keys[..n]);
      assert keys[n] in keys;
    }
  }

  /** Values under names that are not all lower case never reach the text: lookups use the lower-cased name. */
  lemma CapitalizedValuesIgnored(h: Headers, g: Headers)
    requires h.Keys == g.Keys && forall k :: k in h && ToLower(k) == k ==> h[k] == g[k]
    ensures HeaderText(h) == HeaderText(g)
  {
    var order := Ascending(h.Keys);
    var keys := Sort(LowerAll(order), Identity());
    forall k | k in keys ensures Lookup(h, k) == Lookup(g, k) {
      SortedNameIsLower(order, k);
    }
    RenderSame(h, g, keys);
  }

  lemma SortedNameIsLower(order: seq<string>, k: string)
    requires k in Sort(LowerAll(order), Identity())
    ensures ToLower(k) == k
  {
    var names := LowerAll(order);
    SortSorts(names, Identity());
    assert k in multiset(names);
    var i :| 0 <= i < |names| && names[i] == k;
    assert k == ToLower(order[i]);
  }

  // --- the canonical string -------------------------------------------------------------------------------

  function StreamParts(s: Stream): seq<string> {
    ["tls=" + FormatBool(s.tls), "skip=" + FormatBool(s.skipCertVerify), "sni=" + s.serverName,
     "net=" + s.network, "wspath=" + s.wsPath, "hdr=" + HeaderText(s.headers)]
  }

  /** A VMess, VLESS or Trojan spec without its configuration makes the source dereference nil. */
  predicate Normalizable(s: Spec) {
    && (s.kind == TYPE_VMESS ==> s.vmess.Some?)
    && (s.kind == TYPE_VLESS ==> s.vless.Some?)
    && (s.kind == TYPE_TROJAN ==> s.trojan.Some?)
  }

  function NormalServer(s: Spec): string {
    TrimSpace(ToLower(s.server))
  }

  function NormalCipher(c: Shadowsocks): string {
    ToLower(TrimSpace(c.cipher))
  }

  function LoginParts(login: Option<Login>): seq<string> {
    if login.Some? then ["user=" + login.value.username, "pass=" + login.value.password] else []
  }

  function KindParts(s: Spec): seq<string>
    requires Normalizable(s)
  {
    if s.kind == TYPE_SOCKS5 then LoginParts(s.socks5)
    else if s.kind == TYPE_HTTP then LoginParts(s.http)
    else if s.kind == TYPE_SHADOWSOCKS then
      if s.shadowsocks.Some?
      then ["method=" + NormalCipher(s.shadowsocks.value), "pass=" + s.shadowsocks.value.password] else []
    else if s.kind == TYPE_VMESS then
      var c := s.vmess.value;
      [Join(["vmess", "uuid=" + c.uuid, "aid=" + Itoa(c.alterID), "sec=" + c.security] + StreamParts(c.stream), ",")]
    else if s.kind == TYPE_VLESS then
      var c := s.vless.value;
      [Join(["vless", "uuid=" + c.uuid, "flow=" + c.flow] + StreamParts(c.stream), ",")]
    else if s.kind == TYPE_TROJAN then
      var c := s.trojan.value;
      [Join(["trojan", "pass=" + c.password] + StreamParts(c.stream), ",")]
    else []
  }

  function Parts(s: Spec): seq<string>
    requires Normalizable(s)
  {
    ["type=" + s.kind, "server=" + NormalServer(s), "port=" + Itoa(s.port)] + KindParts(s)
  }

  function CanonicalString(s: Spec): string
    requires Normalizable(s)
  {
    Join(Parts(s), "|")
  }

  // --- identifiers and deduplication --------------------------------------------------------------------------

  /** hash12 stands for the first twelve hexadecimal digits of SHA-256. */
  function StableNodeID(s: Spec, hash12: string -> string): string
    requires Normalizable(s)
  {
    "n-" + hash12(CanonicalString(s))
  }

  function Normalize(s: Spec, hash12: string -> string): Spec
    requires Normalizable(s)
  {
    s.(id := StableNodeID(s, hash12))
  }

  /** A spec that can be given an identifier where it has none. */
  predicate Identifiable(s: Spec) {
    Blank(s.id) ==> Normalizable(s)
  }

  function Identified(s: Spec, hash12: string -> string): Spec
    requires Identifiable(s)
  {
    if Blank(s.id) then Normalize(s, hash12) else s
  }

  predicate AllIdentifiable(specs: seq<Spec>) {
    forall i :: 0 <= i < |specs| ==> Identifiable(specs[i])
  }

  function IdentifiedAll(specs: seq<Spec>, hash12: string -> string): seq<Spec>
    requires AllIdentifiable(specs)
  {
    seq(|specs|, i requires 0 <= i < |specs| => Identified(specs[i], hash12))
  }

  function IDOf(): Spec -> string {
    (s: Spec) => s.id
  }

  function DeduplicateOf(specs: seq<Spec>, hash12: string -> string): seq<Spec>
    requires AllIdentifiable(specs)
  {
    KeepFirst(IdentifiedAll(specs, hash12), IDOf())
  }

  method Deduplicate(specs: seq<Spec>, hash12: string -> string) returns (out: seq<Spec>)
    requires AllIdentifiable(specs)
    ensures out == DeduplicateOf(specs, hash12)
  {
    out := [];
    var seen := {};
    ghost var all := IdentifiedAll(specs, hash12);
    var i := 0;
    while i < |specs|
      invariant 0 <= i <= |specs|
      invariant out == KeepFirst(all[..i], IDOf()) && seen == KeysOf(out, IDOf())
    {
      var s := Identified(specs[i], hash12);
      DeduplicateNext(all, i, out);
      if s.id !in seen {
        seen := seen + {s.id};
        out := out + [s];
      }
      i := i + 1;
    }
    assert all[..i] == all;
  }

  lemma DeduplicateNext(all: seq<Spec>, i: nat, out: seq<Spec>)
    requires i < |all| && out == KeepFirst(all[..i], IDOf())
    ensures KeepFirst(all[..i + 1], IDOf()) == if all[i].id in KeysOf(out, IDOf()) then out else out + [all[i]]
    ensures KeysOf(out + [all[i]], IDOf()) == KeysOf(out, IDOf()) + {all[i].id}
  {
    assert all[..i + 1] == all[..i] + [all[i]];
    KeepFirstAppended(all[..i], all[i], IDOf());
    KeysOfAppended(out, all[i], IDOf());
  }

  lemma IdentifiedNotBlank(s: Spec, hash12: string -> string)
    requires Identifiable(s)
    ensures !Blank(Identified(s, hash12).id)
    ensures Identifiable(Identified(s, hash12)) && Identified(Identified(s, hash12), hash12) == Identified(s, hash12)
  {
    if Blank(s.id) {
      assert Normalize(s, hash12).id[0] == 'n' && 'n' in Normalize(s, hash12).id;
    }
  }

  /** Every element of a deduplicated list is an identified element of the input. */
  lemma {:induction false} KeptWasThere(xs: seq<Spec>)
    ensures forall s :: s in KeepFirst(xs, IDOf()) ==> s in xs
  {
    if xs != [] {
      KeptWasThere(xs[..|xs| - 1]);
    }
  }

  lemma DeduplicateIdentified(specs: seq<Spec>, hash12: string -> string)
    requires AllIdentifiable(specs)
    ensures forall s :: s in DeduplicateOf(specs, hash12) ==> !Blank(s.id)
    ensures DistinctBy(DeduplicateOf(specs, hash12), IDOf())
    ensures KeysOf(DeduplicateOf(specs, hash12), IDOf()) == KeysOf(IdentifiedAll(specs, hash12), IDOf())
  {
    var all := IdentifiedAll(specs, hash12);
    KeepFirstKeys(all, IDOf());
    KeptWasThere(all);
    forall s | s in all ensures !Blank(s.id) {
      var i :| 0 <= i < |all| && all[i] == s;
      IdentifiedNotBlank(specs[i], hash12);
    }
  }

  lemma IdentifiedConcat(a: seq<Spec>, b: seq<Spec>, hash12: string -> string)
    requires AllIdentifiable(a) && AllIdentifiable(b)
    ensures AllIdentifiable(a + b)
    ensures IdentifiedAll(a + b, hash12) == IdentifiedAll(a, hash12) + IdentifiedAll(b, hash12)
  {
  }

  lemma DeduplicatedStaysIdentified(a: seq<Spec>, hash12: string -> string)
    requires AllIdentifiable(a)
    ensures var out := DeduplicateOf(a, hash12); AllIdentifiable(out) && IdentifiedAll(out, hash12) == out
  {
    var out := DeduplicateOf(a, hash12);
    DeduplicateIdentified(a, hash12);
    forall i | 0 <= i < |out| ensures !Blank(out[i].id) {
      assert out[i] in out;
    }
  }

  /**
   * Staged deduplication is deduplication at once: the loader's own pass changes nothing in what the
   * updater's pass makes of everything together.
   */
  lemma DeduplicateStaged(a: seq<Spec>, b: seq<Spec>, hash12: string -> string)
    requires AllIdentifiable(a) && AllIdentifiable(b)
    ensures AllIdentifiable(DeduplicateOf(a, hash12) + b) && AllIdentifiable(a + b)
    ensures DeduplicateOf(DeduplicateOf(a, hash12) + b, hash12) == DeduplicateOf(a + b, hash12)
  {
    var first := DeduplicateOf(a, hash12);
    DeduplicatedStaysIdentified(a, hash12);
    IdentifiedConcat(first, b, hash12);
    IdentifiedConcat(a, b, hash12);
    KeepFirstStaged(IdentifiedAll(a, hash12), IdentifiedAll(b, hash12), IDOf());
  }

  /** Deduplicating twice changes nothing. */
  lemma DeduplicateIdempotent(specs: seq<Spec>, hash12: string -> string)
    requires AllIdentifiable(specs)
    ensures AllIdentifiable(DeduplicateOf(specs, hash12))
    ensures DeduplicateOf(DeduplicateOf(specs, hash12), hash12) == DeduplicateOf(specs, hash12)
  {
    DeduplicateStaged(specs, [], hash12);
    assert DeduplicateOf(specs, hash12) + [] == DeduplicateOf(specs, hash12) && specs + [] == specs;
  }
}
