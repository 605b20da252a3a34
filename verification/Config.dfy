/** Resolving a ClusterConnection spec into the cluster the daemon acts on. */
module Config {
  import opened Text
  import opened Api

  const DEFAULT_API_PORT := "6443"
  const DEFAULT_TOKEN_TTL := 2592000
  const DEFAULT_SELF_TOKEN_TTL := 7776000
  const DEFAULT_EXPIRY_WARN_THRESHOLD := 7776000
  const DEFAULT_SERVICE_ACCOUNT_NAME := "argocd-manager"
  const DEFAULT_SERVICE_ACCOUNT_NS := "kube-system"
  const DEFAULT_SELF_SERVICE_ACCOUNT := "k2a-token-sync"
  const DEFAULT_CLUSTER_ROLE := "cluster-admin"
  const MIN_TOKEN_TTL := 3600
  const MAX_CLUSTER_NAME_LENGTH := 63

  datatype Result<+T> = Ok(value: T) | Err(message: string)

  datatype ServiceAccountRef = ServiceAccountRef(name: string, namespace: string)

  datatype Cluster = Cluster(
    name: string,
    endpoint: string,
    displayName: string,
    serviceAccount: ServiceAccountRef,
    selfServiceAccountName: string,
    secretName: string,
    tokenTTL: int,
    selfTokenTTL: int,
    expiryWarnThreshold: int,
    labels: map<Key, string>,
    annotations: map<Key, string>,
    project: string,
    clusterRole: string,
    namespaces: seq<string>,
    clusterResources: Option<bool>,
    adoptedRegistration: bool)
  {
    function CredentialsSecretName(): string { name + "-credentials" }

    function ServerURL(): string { "https://" + endpoint }
  }

  /** What is left of a Cluster whose spec did not resolve: its object's name. */
  function Unresolved(name: string): Cluster {
    Cluster(name, "", "", ServiceAccountRef("", ""), "", "", 0, 0, 0, map[], map[], "", "", [], None, false)
  }

  // ---- strings and net, as far as endpoints use them --------------------------------

  predicate IsSpace(c: char) {
    c == ' ' || '\t' <= c <= '\r' || c == '\U{85}' || c == '\U{A0}' || c == '\U{1680}'
    || '\U{2000}' <= c <= '\U{200A}' || c == '\U{2028}' || c == '\U{2029}' || c == '\U{202F}'
    || c == '\U{205F}' || c == '\U{3000}'
  }

  function TrimSpace(s: string): string {
    if s != "" && IsSpace(s[0]) then TrimSpace(s[1..])
    else if s != "" && IsSpace(s[|s| - 1]) then TrimSpace(s[..|s| - 1])
    else s
  }

  function TrimPrefix(s: string, prefix: string): string {
    if prefix <= s then s[|prefix|..] else s
  }

  function TrimSuffix(s: string, suffix: string): string {
    if |suffix| <= |s| && s[|s| - |suffix|..] == suffix then s[..|s| - |suffix|] else s
  }

  /** The first index of c at or after `from`, or |s|. */
  function IndexFrom(s: string, c: char, from: nat): (i: nat)
    requires from <= |s|
    ensures from <= i <= |s|
    ensures i < |s| ==> s[i] == c
    ensures c !in s[from..i]
    decreases |s| - from
  {
    if from == |s| || s[from] == c then from else IndexFrom(s, c, from + 1)
  }

  /** The last index of c below `to`, or -1. */
  function LastIndexBelow(s: string, c: char, to: nat): (i: int)
    requires to <= |s|
    ensures -1 <= i < to
    ensures i >= 0 ==> s[i] == c
    ensures c !in s[i + 1..to]
  {
    if to == 0 then -1
    else if s[to - 1] == c then to - 1
    else LastIndexBelow(s, c, to - 1)
  }

  datatype HostPort = HostPort(host: string, port: string)

  /** net.SplitHostPort; its several errors are one here. */
  function SplitHostPort(s: string): Option<HostPort> {
    var i := LastIndexBelow(s, ':', |s|);
    if i < 0 then None
    else if s[0] == '[' then
      var end := IndexFrom(s, ']', 0);
      if end == |s| || end + 1 != i then None
      else if '[' in s[1..] || ']' in s[end + 1..] then None
      else Some(HostPort(s[1..end], s[i + 1..]))
    else if ':' in s[..i] || '[' in s || ']' in s then None
    else Some(HostPort(s[..i], s[i + 1..]))
  }

  /** net.JoinHostPort. */
  function JoinHostPort(host: string, port: string): string {
    if ':' in host then "[" + host + "]:" + port else host + ":" + port
  }

  /** Whether strconv.Atoi accepts a string: an optional sign, digits, and a 64-bit value. */
  predicate AtoiAccepts(s: string) {
    var signed := s != "" && (s[0] == '+' || s[0] == '-');
    var digits := if signed then s[1..] else s;
    digits != "" && AllDigits(digits)
    && Number(digits) <= 0x7FFF_FFFF_FFFF_FFFF + (if signed && s[0] == '-' then 1 else 0)
  }

  function NormaliseEndpoint(raw: string): (r: Result<string>)
    ensures r.Ok? ==> r.value != ""
  {
    var trimmed := TrimSpace(raw);
    if trimmed == "" then Err("endpoint must not be empty")
    else
      var endpoint := TrimSuffix(TrimPrefix(trimmed, "https://"), "/");
      if '/' in endpoint then Err("endpoint must be a host or host:port, not a URL path")
      else match SplitHostPort(endpoint)
        case None =>
          if ':' !in endpoint then Ok(JoinHostPort(endpoint, DEFAULT_API_PORT))
          else Err("endpoint is not a valid host:port")
        case Some(HostPort(host, port)) =>
          if host == "" then Err("endpoint has no host")
          else if port == "" then Ok(JoinHostPort(host, DEFAULT_API_PORT))
          else if !AtoiAccepts(port) then Err("endpoint has a non-numeric port")
          else Ok(JoinHostPort(host, port))
  }

  // ---- What resolves ----------------------------------------------------------------

  predicate NoBrackets(s: string) { '[' !in s && ']' !in s }

  /** A host and a port as one text: apart at the colon, or the host in brackets, where it may have
      colons of its own. */
  predicate Spells(s: string, host: string, port: string) {
    && ':' !in port && NoBrackets(host) && NoBrackets(port)
    && ((':' !in host && s == host + ":" + port) || s == "[" + host + "]:" + port)
  }

  /** Splitting finds what was put together, and nothing else. */
  lemma SplitsExactly(s: string, host: string, port: string)
    ensures SplitHostPort(s) == Some(HostPort(host, port)) <==> Spells(s, host, port)
  {
    if Spells(s, host, port) {
      if ':' !in host && s == host + ":" + port {
        PlainSplits(s, host, port);
      } else {
        BracketedSplits(s, host, port);
      }
    }
    if SplitHostPort(s) == Some(HostPort(host, port)) {
      SplitSpells(s, host, port);
    }
  }

  lemma SplitSpells(s: string, host: string, port: string)
    requires SplitHostPort(s) == Some(HostPort(host, port))
    ensures Spells(s, host, port)
  {
    var i := LastIndexBelow(s, ':', |s|);
    assert s[i + 1..] == s[i + 1..|s|];
    if s[0] == '[' {
      BracketsSpell(s, IndexFrom(s, ']', 0), i);
    } else {
      assert s == s[..i] + ":" + s[i + 1..];
      forall c: char | c !in s ensures c !in s[..i] && c !in s[i + 1..] {
        assert s == s[..i] + s[i..] && s == s[..i + 1] + s[i + 1..];
      }
    }
  }

  lemma BracketsSpell(s: string, end: nat, i: nat)
    requires 0 < end && end + 1 == i < |s| && s[0] == '[' && s[end] == ']' && s[i] == ':'
    requires ':' !in s[i + 1..] && ']' !in s[0..end] && '[' !in s[1..] && ']' !in s[end + 1..]
    ensures Spells(s, s[1..end], s[i + 1..])
  {
    assert s == "[" + s[1..end] + "]:" + s[i + 1..];
    assert s[0..end] == [s[0]] + s[1..end] && s[1..] == s[1..end] + s[end..] && s[1..] == s[1..i + 1] + s[i + 1..];
    assert s[end + 1..] == [s[i]] + s[i + 1..];
  }

  lemma PlainSplits(s: string, host: string, port: string)
    requires ':' !in port && NoBrackets(host) && NoBrackets(port) && ':' !in host && s == host + ":" + port
    ensures SplitHostPort(s) == Some(HostPort(host, port))
  {
    assert s[|host|] == ':' && s[|host| + 1..] == port && s[..|host|] == host;
    LastIndexIs(s, ':', |host|);
    assert s[0] == (host + ":")[0];
  }

  lemma BracketedSplits(s: string, host: string, port: string)
    requires ':' !in port && NoBrackets(host) && NoBrackets(port) && s == "[" + host + "]:" + port
    ensures SplitHostPort(s) == Some(HostPort(host, port))
  {
    var end := |host| + 1;
    assert s[0] == '[' && s[end] == ']' && s[end + 1] == ':' && s[1..end] == host && s[end + 2..] == port;
    LastIndexIs(s, ':', end + 1);
    FirstIndexIs(s, ']', 0, end);
    assert s[1..] == host + "]:" + port && s[end + 1..] == ":" + port;
  }

  lemma FirstIndexIs(s: string, c: char, from: nat, k: nat)
    requires from <= k < |s| && s[k] == c && c !in s[from..k]
    ensures IndexFrom(s, c, from) == k
  {
    var i := IndexFrom(s, c, from);
    assert forall j :: from <= j < k ==> s[from..k][j - from] == s[j];
    assert forall j :: from <= j < i ==> s[from..i][j - from] == s[j];
  }

  /** The text an endpoint is read from: trimmed, and without the scheme and a final slash. */
  function Core(raw: string): string { TrimSuffix(TrimPrefix(TrimSpace(raw), "https://"), "/") }

  /** A host that is not empty, with a port that is empty, which means 6443, or a number. */
  predicate HostAndPort(core: string, host: string, port: string, value: string) {
    && Spells(core, host, port) && host != "" && (port == "" || AtoiAccepts(port))
    && value == (if ':' in host then "[" + host + "]" else host) + ":" + (if port == "" then "6443" else port)
  }

  /** A written endpoint resolves exactly if anything is left of it, no slash among that, and it is a
      host alone or a host with a port; and then to its host and its port, or 6443. (What is left
      may be empty, of the scheme alone: that resolves to a port of no host, which the schema's
      pattern keeps from ever being written.) */
  lemma ResolvesExactly(raw: string, value: string)
    ensures NormaliseEndpoint(raw) == Ok(value) <==>
      && TrimSpace(raw) != "" && '/' !in Core(raw)
      && (|| (':' !in Core(raw) && value == Core(raw) + ":" + "6443")
          || exists host: string, port: string :: HostAndPort(Core(raw), host, port, value))
  {
    var split := SplitHostPort(Core(raw));
    if split.Some? {
      SplitResolves(raw, split.value.host, split.value.port, value);
      SplitsExactly(Core(raw), split.value.host, split.value.port);
    } else {
      UnsplitResolves(raw, value);
    }
    if host: string, port: string :| HostAndPort(Core(raw), host, port, value) {
      SplitsExactly(Core(raw), host, port);
    }
  }

  lemma SplitResolves(raw: string, host: string, port: string, value: string)
    requires SplitHostPort(Core(raw)) == Some(HostPort(host, port))
    ensures ':' in Core(raw)
    ensures NormaliseEndpoint(raw) == Ok(value)
      <==> TrimSpace(raw) != "" && '/' !in Core(raw) && HostAndPort(Core(raw), host, port, value)
  {
    SplitsExactly(Core(raw), host, port);
    JoinIs(host, if port == "" then "6443" else port);
  }

  lemma UnsplitResolves(raw: string, value: string)
    requires SplitHostPort(Core(raw)).None?
    ensures NormaliseEndpoint(raw) == Ok(value)
      <==> TrimSpace(raw) != "" && '/' !in Core(raw) && ':' !in Core(raw) && value == Core(raw) + ":" + "6443"
  {
    JoinIs(Core(raw), "6443");
  }

  lemma JoinIs(host: string, port: string)
    ensures JoinHostPort(host, port) == (if ':' in host then "[" + host + "]" else host) + ":" + port
  {
    assert "[" + host + "]:" + port == "[" + host + "]" + ":" + port;
  }

  // ---- Endpoint spellings -------------------------------------------------------------

  predicate AlphaNumeric(c: char) { 'a' <= c <= 'z' || IsDigit(c) }

  /** The host and port halves of the schema's pattern for spec.endpoint. */
  predicate SchemaHost(h: string) {
    h != "" && AlphaNumeric(h[0]) && AlphaNumeric(h[|h| - 1])
    && forall i :: 0 <= i < |h| ==> AlphaNumeric(h[i]) || h[i] == '-' || h[i] == '.'
  }

  predicate SchemaPort(p: string) { 1 <= |p| <= 5 && AllDigits(p) }

  /** One way of writing an endpoint: the schema's own two, with or without the https://
      and trailing slash bootstrap's flag also takes. */
  datatype Spelling = Spelling(host: string, port: Option<string>, scheme: bool, slash: bool)
  {
    predicate Valid() { SchemaHost(host) && (port.Some? ==> SchemaPort(port.value)) }

    function Bare(): string {
      match port
      case None => host
      case Some(p) => host + ":" + p
    }

    function Written(): string {
      (if scheme then "https://" else "") + Bare() + (if slash then "/" else "")
    }

    function PortText(): string {
      match port
      case None => DEFAULT_API_PORT
      case Some(p) => p
    }

    predicate LeadingZero() { port.Some? && port.value != "" && port.value[0] == '0' && |port.value| > 1 }
  }

  /** What a written endpoint claims: two connections with one claim contend. */
  function Claim(s: Spelling): Result<string> { NormaliseEndpoint(s.Written()) }

  function PortNumber(s: Spelling): nat {
    if AllDigits(s.PortText()) then Number(s.PortText()) else 0
  }

  /** The two spellings reach one API server: the same host, the same TCP port number. */
  predicate SameServer(a: Spelling, b: Spelling) {
    a.host == b.host && PortNumber(a) == PortNumber(b)
  }

  lemma BareHasNoPunctuation(s: Spelling)
    requires s.Valid()
    ensures s.Bare() != ""
    ensures forall i :: 0 <= i < |s.Bare()| ==> s.Bare()[i] != '/' && s.Bare()[i] != '[' && s.Bare()[i] != ']'
    ensures !IsSpace(s.Bare()[0]) && !IsSpace(s.Bare()[|s.Bare()| - 1])
    ensures ':' !in s.host
    ensures s.port.Some? ==> ':' !in s.port.value
  {
  }

  lemma SchemeIsStripped(s: Spelling, tail: string)
    requires s.Valid() && tail == s.Bare() + (if s.slash then "/" else "")
    ensures TrimPrefix((if s.scheme then "https://" else "") + tail, "https://") == tail
  {
    BareHasNoPunctuation(s);
    if s.scheme {
      assert ("https://" + tail)[8..] == tail;
    } else {
      assert "" + tail == tail;
      assert "https://"[6] == '/' && "https://"[7] == '/';
      assert forall i :: 0 <= i < |tail| - 1 ==> tail[i] == s.Bare()[i];
    }
  }

  lemma SlashIsStripped(bare: string, slash: bool)
    requires bare != "" && bare[|bare| - 1] != '/'
    ensures TrimSuffix(bare + (if slash then "/" else ""), "/") == bare
  {
    var tail := bare + (if slash then "/" else "");
    if slash {
      assert tail[|tail| - 1..] == "/" && tail[..|tail| - 1] == bare;
    } else {
      assert tail[|tail| - 1..] == [bare[|bare| - 1]];
    }
  }

  lemma WrittenTrims(s: Spelling)
    requires s.Valid()
    ensures TrimSpace(s.Written()) == s.Written()
    ensures TrimSuffix(TrimPrefix(s.Written(), "https://"), "/") == s.Bare()
  {
    BareHasNoPunctuation(s);
    var bare := s.Bare();
    var tail := bare + (if s.slash then "/" else "");
    var w := s.Written();
    assert w == (if s.scheme then "https://" else "") + tail;
    assert w[0] == (if s.scheme then 'h' else bare[0]);
    assert w[|w| - 1] == (if s.slash then '/' else bare[|bare| - 1]);
    SchemeIsStripped(s, tail);
    SlashIsStripped(bare, s.slash);
  }

  lemma LastIndexIs(s: string, c: char, k: nat)
    requires k < |s| && s[k] == c && c !in s[k + 1..]
    ensures LastIndexBelow(s, c, |s|) == k
  {
    var i := LastIndexBelow(s, c, |s|);
    assert forall j :: k < j < |s| ==> s[k + 1..][j - k - 1] == s[j];
    assert forall j :: i < j < |s| ==> s[i + 1..|s|][j - i - 1] == s[j];
  }

  lemma BareSplits(s: Spelling)
    requires s.Valid()
    ensures s.port.None? ==> SplitHostPort(s.Bare()) == None && ':' !in s.Bare()
    ensures s.port.Some? ==> SplitHostPort(s.Bare()) == Some(HostPort(s.host, s.port.value))
  {
    BareHasNoPunctuation(s);
    var bare := s.Bare();
    if s.port.Some? {
      assert bare[|s.host|] == ':' && bare[|s.host| + 1..] == s.port.value;
      LastIndexIs(bare, ':', |s.host|);
      assert bare[..|s.host|] == s.host;
      assert bare[0] == s.host[0];
    }
  }

  /** Every spelling resolves, to its host and its port text or the default port. */
  lemma SpellingResolves(s: Spelling)
    requires s.Valid()
    ensures Claim(s) == Ok(s.host + ":" + s.PortText())
  {
    WrittenTrims(s);
    BareSplits(s);
    BareHasNoPunctuation(s);
    assert s.Written() != "";
    assert '/' !in s.Bare();
    if s.port.Some? {
      SchemaPortsAreAccepted(s.port.value);
    }
  }

  lemma SchemaPortsAreAccepted(p: string)
    requires SchemaPort(p)
    ensures AtoiAccepts(p)
  {
    FiveDigitsFit(p);
    assert IsDigit(p[0]);
  }

  lemma {:induction false} FiveDigitsFit(p: string)
    requires |p| <= 5 && AllDigits(p)
    ensures Number(p) <= 99999
    ensures |p| <= 4 ==> Number(p) <= 9999
    ensures |p| <= 3 ==> Number(p) <= 999
    ensures |p| <= 2 ==> Number(p) <= 99
    ensures |p| <= 1 ==> Number(p) <= 9
  {
    if p != "" { FiveDigitsFit(p[..|p| - 1]); }
  }

  lemma ClaimSplits(h: string, p: string, h': string, p': string)
    requires ':' !in h && ':' !in h' && h + ":" + p == h' + ":" + p'
    ensures h == h' && p == p'
  {
    var a, b := h + ":" + p, h' + ":" + p';
    assert a[|h|] == ':' && b[|h'|] == ':';
    assert forall k :: 0 <= k < |h| ==> a[k] == h[k] != ':';
    assert forall k :: 0 <= k < |h'| ==> b[k] == h'[k] != ':';
    assert a[..|h|] == h && b[..|h'|] == h';
    assert a[|h| + 1..] == p && b[|h'| + 1..] == p';
  }

  /** Two spellings count as one claim exactly when they name one host and write the same
      port, the scheme, the slash and a defaulted port making no difference. */
  lemma SpellingsShareAClaim(a: Spelling, b: Spelling)
    requires a.Valid() && b.Valid()
    ensures (Claim(a) == Claim(b)) == (a.host == b.host && a.PortText() == b.PortText())
  {
    SpellingResolves(a);
    SpellingResolves(b);
    BareHasNoPunctuation(a);
    BareHasNoPunctuation(b);
    if Claim(a) == Claim(b) {
      ClaimSplits(a.host, a.PortText(), b.host, b.PortText());
    }
  }

  lemma PortTextIsCanonical(s: Spelling)
    requires s.Valid() && !s.LeadingZero()
    ensures AllDigits(s.PortText()) && Decimal(PortNumber(s)) == s.PortText()
  {
    var p := s.PortText();
    assert p[0] == '0' ==> |p| == 1;
    CanonicalDigitsAreDecimal(p);
  }

  /** What the claim is for: one claim per API server. It holds of every pair of spellings
      neither of which writes its port with a leading zero, ... */
  lemma OneClaimPerServer(a: Spelling, b: Spelling)
    requires a.Valid() && b.Valid() && !a.LeadingZero() && !b.LeadingZero()
    ensures (Claim(a) == Claim(b)) == SameServer(a, b)
  {
    SpellingsShareAClaim(a, b);
    PortTextIsCanonical(a);
    PortTextIsCanonical(b);
  }

  /** ... and a port that is written with one, which the schema permits, always has another
      spelling of the same server that resolves to a different claim. */
  lemma LeadingZeroSplitsAServer(a: Spelling) returns (b: Spelling)
    requires a.Valid() && a.LeadingZero()
    ensures b.Valid() && SameServer(a, b)
    ensures Claim(a) != Claim(b)
  {
    var p := a.port.value;
    b := Spelling(a.host, Some(p[1..]), a.scheme, a.slash);
    LeadingZeroAddsNothing(p);
    SpellingsShareAClaim(a, b);
  }

  lemma {:induction false} LeadingZeroAddsNothing(p: string)
    requires p != "" && AllDigits(p) && p[0] == '0'
    ensures Number(p) == Number(p[1..])
  {
    if |p| > 1 {
      var front := p[..|p| - 1];
      LeadingZeroAddsNothing(front);
      assert p[1..][..|p[1..]| - 1] == front[1..];
    } else {
      assert p[..0] == "" && p[1..] == "";
    }
  }

  // ---- FromSpec ------------------------------------------------------------------------

  /** A duration field as time.ParseDuration reads it. */
  datatype RawDuration = Blank | Unparsable | Seconds(value: int)

  datatype Spec = Spec(
    endpoint: string,
    displayName: string,
    secretName: string,
    project: string,
    clusterRole: string,
    namespaces: seq<string>,
    clusterResources: Option<bool>,
    serviceAccount: Option<ServiceAccountRef>,
    selfServiceAccountName: string,
    tokenTTL: RawDuration,
    selfTokenTTL: RawDuration,
    expiryWarnThreshold: RawDuration,
    labels: map<Key, string>,
    annotations: map<Key, string>)

  function OrDefault(value: string, fallback: string): string {
    if value != "" then value else fallback
  }

  function ParseDuration(raw: RawDuration, fallback: int, lowerBound: int): Result<int> {
    match raw
    case Blank => Ok(fallback)
    case Unparsable => Err("not a valid duration")
    case Seconds(d) =>
      if d <= 0 then Err("must be positive")
      else if lowerBound > 0 && d < lowerBound then Err("must be at least the lower bound")
      else Ok(d)
  }

  function ResolveServiceAccount(ref: Option<ServiceAccountRef>): ServiceAccountRef {
    match ref
    case None => ServiceAccountRef(DEFAULT_SERVICE_ACCOUNT_NAME, DEFAULT_SERVICE_ACCOUNT_NS)
    case Some(r) => ServiceAccountRef(OrDefault(r.name, DEFAULT_SERVICE_ACCOUNT_NAME),
                                      OrDefault(r.namespace, DEFAULT_SERVICE_ACCOUNT_NS))
  }

  /** A duration field that says something FromSpec takes. */
  predicate Fit(raw: RawDuration, least: int) { raw.Blank? || (raw.Seconds? && raw.value > 0 && raw.value >= least) }

  /** A duration field as it was written, or else its default. */
  predicate Written(raw: RawDuration, fallback: int, value: int) {
    match raw
    case Blank => value == fallback
    case Seconds(d) => value == d
    case Unparsable => false
  }

  /** A text field as it was written, or else its default. */
  predicate Chosen(written: string, fallback: string, value: string) {
    (written != "" ==> value == written) && (written == "" ==> value == fallback)
  }

  /** Field by field, the cluster this spec asks for; the defaults are those the documentation
      gives: 30 days for ArgoCD's token, 90 for the daemon's own and for the notice of a serving
      certificate's end, ArgoCD's usual names and cluster-admin. */
  predicate AsWritten(name: string, spec: Spec, c: Cluster) {
    && c.name == name
    && Chosen(spec.displayName, name, c.displayName)
    && Chosen(spec.secretName, "cluster-" + name, c.secretName)
    && Chosen(spec.selfServiceAccountName, "k2a-token-sync", c.selfServiceAccountName)
    && Chosen(spec.clusterRole, "cluster-admin", c.clusterRole)
    && Chosen(if spec.serviceAccount.Some? then spec.serviceAccount.value.name else "", "argocd-manager", c.serviceAccount.name)
    && Chosen(if spec.serviceAccount.Some? then spec.serviceAccount.value.namespace else "", "kube-system", c.serviceAccount.namespace)
    && Written(spec.tokenTTL, 30 * 86400, c.tokenTTL)
    && Written(spec.selfTokenTTL, 90 * 86400, c.selfTokenTTL)
    && Written(spec.expiryWarnThreshold, 90 * 86400, c.expiryWarnThreshold)
    && c.labels == spec.labels && c.annotations == spec.annotations && c.project == spec.project
    && c.namespaces == spec.namespaces && c.clusterResources == spec.clusterResources && !c.adoptedRegistration
  }

  /** Nothing in the spec but its endpoint stands against it. */
  predicate FitSpec(spec: Spec) {
    && (spec.clusterResources.Some? ==> spec.namespaces != [])
    && Fit(spec.tokenTTL, 3600) && Fit(spec.selfTokenTTL, 3600) && Fit(spec.expiryWarnThreshold, 0)
  }

  /** FromSpec once the name and the endpoint are known good. */
  function Assemble(name: string, spec: Spec, endpoint: string): (r: Result<Cluster>)
    requires name != "" && endpoint != ""
    ensures r.Ok? <==> FitSpec(spec)
    ensures r.Ok? ==> r.value.endpoint == endpoint && AsWritten(name, spec, r.value)
  {
    if spec.clusterResources.Some? && |spec.namespaces| == 0 then
      Err("clusterResources has no meaning without namespaces")
    else match ParseDuration(spec.tokenTTL, DEFAULT_TOKEN_TTL, MIN_TOKEN_TTL)
      case Err(e) => Err(e)
      case Ok(tokenTTL) =>
        match ParseDuration(spec.selfTokenTTL, DEFAULT_SELF_TOKEN_TTL, MIN_TOKEN_TTL)
        case Err(e) => Err(e)
        case Ok(selfTokenTTL) =>
          match ParseDuration(spec.expiryWarnThreshold, DEFAULT_EXPIRY_WARN_THRESHOLD, 0)
          case Err(e) => Err(e)
          case Ok(threshold) =>
            Ok(Cluster(name, endpoint, OrDefault(spec.displayName, name),
                       ResolveServiceAccount(spec.serviceAccount),
                       OrDefault(spec.selfServiceAccountName, DEFAULT_SELF_SERVICE_ACCOUNT),
                       OrDefault(spec.secretName, "cluster-" + name),
                       tokenTTL, selfTokenTTL, threshold, spec.labels, spec.annotations,
                       spec.project, OrDefault(spec.clusterRole, DEFAULT_CLUSTER_ROLE),
                       spec.namespaces, spec.clusterResources, false))
  }

  /** A spec resolves exactly if its name, its endpoint, its three durations and its scoping are fit,
      and then to what it says, field by field, or the default where it says nothing. So no name is
      left unset, every lifetime asked for is at least an hour, and scoping of cluster resources
      never appears on a registration that is not restricted to namespaces. */
  function FromSpec(name: string, spec: Spec): (r: Result<Cluster>)
    ensures r.Ok? <==> 0 < |name| <= 63 && NormaliseEndpoint(spec.endpoint).Ok? && FitSpec(spec)
    ensures r.Ok? ==> AsWritten(name, spec, r.value) && Ok(r.value.endpoint) == NormaliseEndpoint(spec.endpoint)
    ensures r.Ok? ==>
      var c := r.value;
      && c.endpoint != "" && c.secretName != "" && c.clusterRole != "" && c.displayName != ""
      && c.serviceAccount.name != "" && c.serviceAccount.namespace != "" && c.selfServiceAccountName != ""
      && c.tokenTTL >= MIN_TOKEN_TTL && c.selfTokenTTL >= MIN_TOKEN_TTL && c.expiryWarnThreshold > 0
      && (c.clusterResources.Some? ==> c.namespaces != [])
  {
    if name == "" then Err("name must not be empty")
    else if |name| > MAX_CLUSTER_NAME_LENGTH then Err("name is too long for the Secret names derived from it")
    else match NormaliseEndpoint(spec.endpoint)
      case Err(e) => Err(e)
      case Ok(endpoint) => Assemble(name, spec, endpoint)
  }

  /** What a spec resolves to is the endpoint it spells. */
  lemma ResolvedFromEndpoint(name: string, spec: Spec)
    requires FromSpec(name, spec).Ok?
    ensures NormaliseEndpoint(spec.endpoint) == Ok(FromSpec(name, spec).value.endpoint)
  {
  }

  lemma AssembledElsewhere(name: string, spec: Spec, endpoint: string, name': string, spec': Spec, endpoint': string)
    requires name != "" && endpoint != "" && name' != "" && endpoint' != ""
    requires Assemble(name, spec, endpoint).Ok?
    requires spec' == spec.(endpoint := spec'.endpoint, secretName := spec'.secretName)
    ensures Assemble(name', spec', endpoint').Ok?
  {
  }

  lemma ResolvedElsewhere(name: string, spec: Spec, name': string, spec': Spec, resolved: Result<string>)
    requires FromSpec(name, spec).Ok? && 1 <= |name'| <= MAX_CLUSTER_NAME_LENGTH
    requires resolved == NormaliseEndpoint(spec'.endpoint) && resolved.Ok? && spec'.secretName != ""
    requires spec' == spec.(endpoint := spec'.endpoint, secretName := spec'.secretName)
    ensures FromSpec(name', spec').Ok?
    ensures FromSpec(name', spec').value.endpoint == resolved.value
    ensures FromSpec(name', spec').value.secretName == spec'.secretName
  {
    var first := NormaliseEndpoint(spec.endpoint).value;
    AssembledElsewhere(name, spec, first, name', spec', resolved.value);
  }
}
