/** The cluster Secrets ArgoCD watches: what is written in them, by which of two field
    managers, and when the credential in one is replaced. */
module ArgoCD {
  import opened Text
  import opened Api
  import opened ServerSideApply

  const CLUSTER := Plain("cluster")
  const MANAGED_BY := Plain("k2a-token-sync")
  const OPAQUE := Plain("Opaque")

  /** The key ArgoCD reads the credential from. */
  const CONFIG: Field := Data(ConfigKey)

  datatype ClusterSecret = ClusterSecret(
    displayName: string,
    server: string,
    bearerToken: string,
    caData: string,
    project: string,
    namespaces: seq<string>,
    clusterResources: Option<bool>,
    tokenExpiresAt: int,
    servingCertExpiresAt: int,
    tokenIssuedAt: int,
    clusterName: string,
    extraLabels: map<Key, string>,
    extraAnnotations: map<Key, string>)

  // ---- The two apply configurations ---------------------------------------------------

  /** A date-time, as an encoding that is told apart from every other. */
  function Rfc3339(t: int): string { if t >= 0 then Decimal(t) else "-" + Decimal(-t) }

  function JoinComma(names: seq<string>): string {
    if names == [] then "" else if |names| == 1 then names[0] else names[0] + "," + JoinComma(names[1..])
  }

  function When(wanted: bool, value: string): Option<Bytes> {
    if wanted then Some(Plain(value)) else None
  }

  function Extra(extra: map<Key, string>, k: Key): Option<Bytes> {
    if k in extra then Some(Plain(extra[k])) else None
  }

  /** What the registration says of one field, or None where it says nothing. */
  function RegistrationValue(c: ClusterSecret, f: Field): Option<Bytes> {
    match f
    case SecretType => Some(OPAQUE)
    case Label(SecretTypeLabel) => Some(CLUSTER)
    case Label(ManagedByLabel) => Some(MANAGED_BY)
    case Label(k) => Extra(c.extraLabels, k)
    case Annotation(ClusterName) => Some(Plain(c.clusterName))
    case Annotation(TokenExpiry) => When(c.tokenExpiresAt != 0, Rfc3339(c.tokenExpiresAt))
    case Annotation(ServingCertExpiry) => When(c.servingCertExpiresAt != 0, Rfc3339(c.servingCertExpiresAt))
    case Annotation(k) => Extra(c.extraAnnotations, k)
    case Data(NameKey) => Some(Plain(c.displayName))
    case Data(ServerKey) => Some(Plain(c.server))
    case Data(ProjectKey) => When(c.project != "", c.project)
    case Data(NamespacesKey) => When(c.namespaces != [], JoinComma(c.namespaces))
    case Data(ClusterResourcesKey) =>
      When(c.clusterResources.Some?, if c.clusterResources == Some(true) then "true" else "false")
    case Data(_) => None
  }

  function Candidates(c: ClusterSecret): set<Field> {
    (set k | k in c.extraLabels.Keys :: Label(k)) + (set k | k in c.extraAnnotations.Keys :: Annotation(k))
    + {SecretType, Label(SecretTypeLabel), Label(ManagedByLabel)}
    + {Annotation(ClusterName), Annotation(TokenExpiry), Annotation(ServingCertExpiry)}
    + {Data(NameKey), Data(ServerKey), Data(ProjectKey), Data(NamespacesKey), Data(ClusterResourcesKey)}
  }

  lemma OnlyCandidatesHaveValues(c: ClusterSecret, f: Field)
    requires RegistrationValue(c, f).Some?
    ensures f in Candidates(c)
  {
    match f {
      case Label(k) => assert k in c.extraLabels.Keys || k in {SecretTypeLabel, ManagedByLabel};
      case Annotation(k) => assert k in c.extraAnnotations.Keys || k in {ClusterName, TokenExpiry, ServingCertExpiry};
      case Data(k) =>
      case SecretType =>
    }
  }

  /** Everything but the credential. */
  function RegistrationFields(c: ClusterSecret): (r: Config)
    ensures forall f :: f in r <==> RegistrationValue(c, f).Some?
    ensures forall f :: f in r ==> r[f] == RegistrationValue(c, f).value
  {
    assert forall f :: RegistrationValue(c, f).Some? ==> f in Candidates(c) by {
      forall f | RegistrationValue(c, f).Some? ensures f in Candidates(c) { OnlyCandidatesHaveValues(c, f); }
    }
    map f | f in Candidates(c) && RegistrationValue(c, f).Some? :: RegistrationValue(c, f).value
  }

  function Payload(c: ClusterSecret): Bytes { ClusterConfig(c.bearerToken, c.caData, "") }

  function CredentialFields(c: ClusterSecret): Config {
    map[SecretType := OPAQUE, CONFIG := Payload(c)]
  }

  method BuildLabels(c: ClusterSecret) returns (labels: Config)
    ensures forall f :: f in labels <==> f.Label? && RegistrationValue(c, f).Some?
    ensures forall f :: f in labels ==> labels[f] == RegistrationValue(c, f).value
  {
    labels := map[];
    var remaining := c.extraLabels.Keys;
    while remaining != {}
      invariant remaining <= c.extraLabels.Keys
      invariant forall f :: f in labels <==> f.Label? && f.key in c.extraLabels && f.key !in remaining
      invariant forall f :: f in labels ==> labels[f] == Plain(c.extraLabels[f.key])
    {
      var k :| k in remaining;
      labels := labels[Label(k) := Plain(c.extraLabels[k])];
      remaining := remaining - {k};
    }
    labels := labels[Label(SecretTypeLabel) := CLUSTER];
    labels := labels[Label(ManagedByLabel) := MANAGED_BY];
  }

  /** The user's annotations, minus the two whose value is only ever an observed expiry. */
  method CopyAnnotations(extra: map<Key, string>) returns (annotations: Config)
    ensures forall f :: f in annotations <==>
      f.Annotation? && f.key in extra && f.key != TokenExpiry && f.key != ServingCertExpiry
    ensures forall f :: f in annotations ==> annotations[f] == Plain(extra[f.key])
  {
    annotations := map[];
    var remaining := extra.Keys;
    while remaining != {}
      invariant remaining <= extra.Keys
      invariant forall f :: f in annotations <==>
        f.Annotation? && f.key in extra && f.key !in remaining && f.key != TokenExpiry && f.key != ServingCertExpiry
      invariant forall f :: f in annotations ==> annotations[f] == Plain(extra[f.key])
    {
      var k :| k in remaining;
      remaining := remaining - {k};
      if k == TokenExpiry || k == ServingCertExpiry {
        continue;
      }
      annotations := annotations[Annotation(k) := Plain(extra[k])];
    }
  }

  method BuildAnnotations(c: ClusterSecret) returns (annotations: Config)
    ensures forall f :: f in annotations <==> f.Annotation? && RegistrationValue(c, f).Some?
    ensures forall f :: f in annotations ==> annotations[f] == RegistrationValue(c, f).value
  {
    annotations := CopyAnnotations(c.extraAnnotations);
    annotations := annotations[Annotation(ClusterName) := Plain(c.clusterName)];
    if c.tokenExpiresAt != 0 {
      annotations := annotations[Annotation(TokenExpiry) := Plain(Rfc3339(c.tokenExpiresAt))];
    }
    if c.servingCertExpiresAt != 0 {
      annotations := annotations[Annotation(ServingCertExpiry) := Plain(Rfc3339(c.servingCertExpiresAt))];
    }
  }

  method BuildData(c: ClusterSecret) returns (data: Config)
    ensures forall f :: f in data <==> f.Data? && RegistrationValue(c, f).Some?
    ensures forall f :: f in data ==> data[f] == RegistrationValue(c, f).value
  {
    data := map[Data(NameKey) := Plain(c.displayName), Data(ServerKey) := Plain(c.server)];
    if c.project != "" {
      data := data[Data(ProjectKey) := Plain(c.project)];
    }
    if |c.namespaces| > 0 {
      data := data[Data(NamespacesKey) := Plain(JoinComma(c.namespaces))];
    }
    if c.clusterResources.Some? {
      data := data[Data(ClusterResourcesKey) := Plain(if c.clusterResources.value then "true" else "false")];
    }
  }

  /** The registration half as it is assembled, one map after the other. */
  method RegistrationConfig(c: ClusterSecret) returns (config: Config)
    ensures config == RegistrationFields(c)
  {
    var labels := BuildLabels(c);
    var annotations := BuildAnnotations(c);
    var data := BuildData(c);
    config := map[SecretType := OPAQUE] + labels + annotations + data;
    forall f
      ensures (f in config) == RegistrationValue(c, f).Some?
      ensures f in config ==> config[f] == RegistrationValue(c, f).value
    {
      match f {
        case Label(_) => assert (f in config) == (f in labels);
        case Annotation(_) => assert (f in config) == (f in annotations);
        case Data(_) => assert (f in config) == (f in data);
        case SecretType => assert f in config;
      }
    }
  }

  /** Whatever labels and annotations the connection supplies, the ones this tool stands
      behind carry its own values, an expiry it does not know is not claimed, and no user
      value can reach the data ArgoCD reads. */
  lemma ControllerOwnedFieldsWin(c: ClusterSecret)
    ensures var r := RegistrationFields(c);
      && Label(SecretTypeLabel) in r && r[Label(SecretTypeLabel)] == CLUSTER
      && Label(ManagedByLabel) in r && r[Label(ManagedByLabel)] == MANAGED_BY
      && Annotation(ClusterName) in r && r[Annotation(ClusterName)] == Plain(c.clusterName)
      && (if c.tokenExpiresAt == 0 then Annotation(TokenExpiry) !in r
          else Annotation(TokenExpiry) in r && r[Annotation(TokenExpiry)] == Plain(Rfc3339(c.tokenExpiresAt)))
      && (if c.servingCertExpiresAt == 0 then Annotation(ServingCertExpiry) !in r
          else Annotation(ServingCertExpiry) in r
               && r[Annotation(ServingCertExpiry)] == Plain(Rfc3339(c.servingCertExpiresAt)))
      && Data(ServerKey) in r && r[Data(ServerKey)] == Plain(c.server)
      && Data(NameKey) in r && r[Data(NameKey)] == Plain(c.displayName)
      && (if c.project == "" then Data(ProjectKey) !in r else Data(ProjectKey) in r && r[Data(ProjectKey)] == Plain(c.project))
      && (if c.namespaces == [] then Data(NamespacesKey) !in r
          else Data(NamespacesKey) in r && r[Data(NamespacesKey)] == Plain(JoinComma(c.namespaces)))
      && (match c.clusterResources
          case None => Data(ClusterResourcesKey) !in r
          case Some(yes) => Data(ClusterResourcesKey) in r
                            && r[Data(ClusterResourcesKey)] == Plain(if yes then "true" else "false"))
  {
  }

  /** What is the user's alone is carried over as it is. */
  lemma UserFieldsAreCarried(c: ClusterSecret, k: Key)
    requires k.Custom?
    ensures var r := RegistrationFields(c);
      && (Label(k) in r <==> k in c.extraLabels) && (k in c.extraLabels ==> r[Label(k)] == Plain(c.extraLabels[k]))
      && (Annotation(k) in r <==> k in c.extraAnnotations)
      && (k in c.extraAnnotations ==> r[Annotation(k)] == Plain(c.extraAnnotations[k]))
  {
  }

  /** The names between the commas. */
  function SplitComma(s: string): (names: seq<string>)
    ensures names != []
  {
    if s == "" then [""]
    else
      var rest := SplitComma(s[1..]);
      if s[0] == ',' then [""] + rest else [[s[0]] + rest[0]] + rest[1..]
  }

  /** ArgoCD, which splits the list at commas, finds the namespaces in it that were asked for. */
  lemma {:induction false} NamespacesAreFoundAgain(names: seq<string>)
    requires names != [] && forall i :: 0 <= i < |names| ==> ',' !in names[i]
    ensures SplitComma(JoinComma(names)) == names
  {
    if |names| == 1 {
      SplitPrefix(names[0], "");
      assert names[0] + "" == names[0];
    } else {
      NamespacesAreFoundAgain(names[1..]);
      SplitPrefix(names[0], "," + JoinComma(names[1..]));
      assert names[0] + "," + JoinComma(names[1..]) == names[0] + ("," + JoinComma(names[1..]));
      assert ("," + JoinComma(names[1..]))[1..] == JoinComma(names[1..]);
      assert SplitComma("," + JoinComma(names[1..])) == [""] + names[1..];
      assert names[0] + "" == names[0];
      assert [names[0]] + names[1..] == names;
    }
  }

  lemma {:induction false} SplitPrefix(name: string, rest: string)
    requires ',' !in name
    ensures SplitComma(name + rest) == [name + SplitComma(rest)[0]] + SplitComma(rest)[1..]
  {
    if name == "" {
      var parts := SplitComma(rest);
      assert name + rest == rest && name + parts[0] == parts[0];
      assert [parts[0]] + parts[1..] == parts;
    } else {
      SplitPrefix(name[1..], rest);
      assert (name + rest)[1..] == name[1..] + rest;
      assert [name[0]] + (name[1..] + SplitComma(rest)[0]) == name + SplitComma(rest)[0];
    }
  }

  lemma RegistrationCarriesNoCredential(c: ClusterSecret)
    ensures CONFIG !in RegistrationFields(c)
    ensures SecretType in RegistrationFields(c) && RegistrationFields(c)[SecretType] == OPAQUE
  {
  }

  /** The registration does not depend on the credential or on when it was minted, which is
      what lets it be applied on every pass without one in hand. */
  lemma RegistrationIgnoresTheCredential(c: ClusterSecret, token: string, ca: string, issuedAt: int)
    ensures RegistrationFields(c) == RegistrationFields(c.(bearerToken := token, caData := ca, tokenIssuedAt := issuedAt))
  {
    var d := c.(bearerToken := token, caData := ca, tokenIssuedAt := issuedAt);
    assert forall f :: RegistrationValue(c, f) == RegistrationValue(d, f);
  }

  // ---- What an apply shows --------------------------------------------------------------

  function ApplyRegistration(live: Option<Object>, c: ClusterSecret): Object {
    Apply(live, Registration, RegistrationFields(c))
  }

  function ApplyCredential(live: Option<Object>, c: ClusterSecret): Object {
    Apply(live, Credential, CredentialFields(c))
  }

  /** The digest of the credential a Secret carries; NoDigest when there is effectively none. */
  function HashCredential(o: Object): Digest {
    if CONFIG !in o.fields then NoDigest
    else match o.fields[CONFIG]
      case Plain(_) => NoDigest
      case ClusterConfig(token, _, _) => if token == "" then NoDigest else Sha256(o.fields[CONFIG])
  }

  /** ArgoCD takes a Secret for a cluster exactly when it carries the label. */
  predicate VisibleToArgoCD(live: Option<Object>) {
    live.Some? && Label(SecretTypeLabel) in live.value.fields
    && live.value.fields[Label(SecretTypeLabel)] == CLUSTER
  }

  predicate HasCredential(live: Option<Object>) {
    live.Some? && HashCredential(live.value) != NoDigest
  }

  predicate Ours(m: Manager) { m == Registration || m == Credential }

  function ForeignManagersOf(o: Object): set<string> {
    set m | m in o.owners && m.Named? :: m.name
  }

  /** The managers named in managedFields that are not this tool's, each once, sorted. */
  method ForeignManagers(managedFields: seq<Manager>) returns (foreign: seq<string>)
    ensures forall name :: name in foreign <==> Named(name) in managedFields
    ensures StrictlySorted(foreign)
  {
    foreign := [];
    for i := 0 to |managedFields|
      invariant forall name :: name in foreign <==> Named(name) in managedFields[..i]
      invariant forall j, k :: 0 <= j < k < |foreign| ==> foreign[j] != foreign[k]
    {
      var manager := managedFields[i];
      assert managedFields[..i + 1] == managedFields[..i] + [manager];
      if Ours(manager) || manager == Unnamed {
        continue;
      }
      if manager.name !in foreign {
        foreign := foreign + [manager.name];
      }
    }
    assert managedFields[..|managedFields|] == managedFields;
    SortKeepsMembers(foreign);
    foreign := Sort(foreign);
  }

  // ---- Two managers, one Secret ------------------------------------------------------------

  /** Neither half's manager owns any of the other half. */
  ghost predicate Split(live: Option<Object>) {
    var o := Live(live);
    o.WellFormed() && CONFIG !in o.Owned(Registration) && o.Owned(Credential) <= {SecretType, CONFIG}
  }

  ghost predicate Foreign(ws: seq<ForeignWrite>) {
    forall w :: w in ws ==> !By(w, Registration) && !By(w, Credential)
  }

  lemma ForeignWritesKeepSplit(ws: seq<ForeignWrite>, live: Option<Object>)
    requires Foreign(ws) && Split(live)
    ensures Split(Writes(ws, live))
  {
    WritesOnlyShrinkOthers(ws, live, Registration);
    WritesOnlyShrinkOthers(ws, live, Credential);
  }

  /** A registration apply leaves the credential exactly as it found it, there or not. */
  lemma RegistrationKeepsTheCredential(live: Option<Object>, c: ClusterSecret)
    requires Split(live)
    ensures var o, r := Live(live), ApplyRegistration(live, c);
      && Split(Some(r))
      && (CONFIG in r.fields <==> CONFIG in o.fields)
      && (CONFIG in r.fields ==> r.fields[CONFIG] == o.fields[CONFIG])
      && VisibleToArgoCD(Some(r))
  {
    var config := RegistrationFields(c);
    ControllerOwnedFieldsWin(c);
    ApplyFieldwise(live, Registration, config, CONFIG);
    ApplyKeepsWellFormed(live, Registration, config);
    ApplyOnlyShrinksOthers(live, Registration, config, Credential);
  }

  /** A credential apply puts its payload in place and touches nothing the registration, or
      anyone else, keeps in the Secret. */
  lemma CredentialKeepsTheRegistration(live: Option<Object>, c: ClusterSecret, f: Field)
    requires Split(live) && f != CONFIG && f != SecretType
    ensures var o, r := Live(live), ApplyCredential(live, c);
      && Split(Some(r))
      && CONFIG in r.fields && r.fields[CONFIG] == Payload(c)
      && (f in r.fields <==> f in o.fields)
      && (f in r.fields ==> r.fields[f] == o.fields[f])
  {
    var config := CredentialFields(c);
    ApplyFieldwise(live, Credential, config, f);
    ApplyKeepsWellFormed(live, Credential, config);
    ApplyOnlyShrinksOthers(live, Credential, config, Registration);
  }

  /** The applies of one tool, in any order. */
  datatype ToolWrite = Register(c: ClusterSecret) | Publish(c: ClusterSecret)

  function Applying(live: Option<Object>, op: ToolWrite): Object {
    match op
    case Register(c) => ApplyRegistration(live, c)
    case Publish(c) => ApplyCredential(live, c)
  }

  function Run(live: Option<Object>, ops: seq<ToolWrite>): Option<Object> {
    if ops == [] then live else Some(Applying(Run(live, ops[..|ops| - 1]), ops[|ops| - 1]))
  }

  function LastRegistered(ops: seq<ToolWrite>): Option<ClusterSecret> {
    if ops == [] then None
    else if ops[|ops| - 1].Register? then Some(ops[|ops| - 1].c)
    else LastRegistered(ops[..|ops| - 1])
  }

  function LastPublished(ops: seq<ToolWrite>): Option<ClusterSecret> {
    if ops == [] then None
    else if ops[|ops| - 1].Publish? then Some(ops[|ops| - 1].c)
    else LastPublished(ops[..|ops| - 1])
  }

  function Registered(c: Option<ClusterSecret>): Config {
    if c.Some? then RegistrationFields(c.value) else map[]
  }

  function Published(c: Option<ClusterSecret>): Config {
    if c.Some? then CredentialFields(c.value) else map[]
  }

  /** The Secret two configurations describe, put together without any history. */
  function Assembled(registered: Option<ClusterSecret>, published: Option<ClusterSecret>): Object {
    Halves(Registration, Registered(registered), Credential, Published(published))
  }

  lemma HalvesAgree(registered: Option<ClusterSecret>, published: Option<ClusterSecret>)
    ensures Agree(Registered(registered), Published(published))
    ensures Agree(Published(published), Registered(registered))
    ensures Assembled(registered, published)
      == Halves(Credential, Published(published), Registration, Registered(registered))
  {
    if registered.Some? { RegistrationCarriesNoCredential(registered.value); }
    var a, b := Registered(registered), Published(published);
    assert a + b == b + a;
    assert Holding(Registration, a) + Holding(Credential, b) == Holding(Credential, b) + Holding(Registration, a);
  }

  /** After any sequence of applies that creates it the Secret is the last registration and the
      last credential, nothing older: optional keys of earlier registrations are gone and neither
      half has disturbed the other. */
  lemma {:induction false} AppliesCompose(ops: seq<ToolWrite>)
    ensures Live(Run(None, ops)) == Assembled(LastRegistered(ops), LastPublished(ops))
  {
    if ops != [] {
      var front := ops[..|ops| - 1];
      AppliesCompose(front);
      var registered, published := LastRegistered(front), LastPublished(front);
      HalvesAgree(registered, published);
      match ops[|ops| - 1] {
        case Register(c) =>
          HalvesAgree(Some(c), published);
          assert SecretType in RegistrationFields(c);
          OwnHalfIsReplaced(Registration, Registered(registered), RegistrationFields(c), Credential, Published(published));
        case Publish(c) =>
          HalvesAgree(registered, Some(c));
          assert SecretType in CredentialFields(c);
          OwnHalfIsReplaced(Credential, Published(published), CredentialFields(c), Registration, Registered(registered));
      }
    } else {
      assert Assembled(None, None) == Absent;
    }
  }

  // ---- ... and over a Secret that others made ---------------------------------------------------

  function ConfigOf(op: ToolWrite): Config {
    match op
    case Register(c) => RegistrationFields(c)
    case Publish(c) => CredentialFields(c)
  }

  /** Some apply has set this field. */
  predicate Touched(ops: seq<ToolWrite>, f: Field) {
    ops != [] && (f in ConfigOf(ops[|ops| - 1]) || Touched(ops[..|ops| - 1], f))
  }

  /** No apply has set this field to anything but what it was. */
  predicate Undisputed(o: Object, ops: seq<ToolWrite>, f: Field) {
    ops != [] ==> Undisputed(o, ops[..|ops| - 1], f) && SetAlike(o, ConfigOf(ops[|ops| - 1]), f)
  }

  /** Neither of this tool's managers owns anything yet. */
  ghost predicate Adopted(o: Object) {
    o.WellFormed() && o.Owned(Registration) == {} && o.Owned(Credential) == {}
  }

  lemma {:induction false} LatestAreConsistent(o: Object, ops: seq<ToolWrite>, f: Field)
    ensures Consistent(o, Registered(LastRegistered(ops)), Published(LastPublished(ops)), Touched(ops, f), Undisputed(o, ops, f), f)
  {
    if ops != [] {
      LatestAreConsistent(o, ops[..|ops| - 1], f);
    }
  }

  /** Applies over a Secret somebody else made, and goes on owning, compose in the same way, field
      by field: the last registration and the last credential, nothing older, and of what was there
      whatever no apply has set, or somebody else owns and every apply has set as it was. */
  lemma {:induction false} AppliesComposeOverOthers(o: Object, ops: seq<ToolWrite>, f: Field)
    requires Adopted(o)
    ensures Composed(o, Live(Run(Some(o), ops)), Registration, Registered(LastRegistered(ops)),
                     Credential, Published(LastPublished(ops)), Touched(ops, f), Undisputed(o, ops, f), f)
  {
    if ops != [] {
      var front, last := ops[..|ops| - 1], ops[|ops| - 1];
      var live, mine, theirs := Run(Some(o), front), Registered(LastRegistered(front)), Published(LastPublished(front));
      AppliesComposeOverOthers(o, front, f);
      LatestAreConsistent(o, front, f);
      if last.Register? {
        HalvesAgree(Some(last.c), LastPublished(front));
        HalfComposes(o, live, Registration, mine, Credential, theirs, Touched(front, f), Undisputed(o, front, f), ConfigOf(last), f);
      } else {
        HalvesAgree(LastRegistered(front), Some(last.c));
        Swapped(o, Live(live), mine, theirs, Touched(front, f), Undisputed(o, front, f), f);
        HalfComposes(o, live, Credential, theirs, Registration, mine, Touched(front, f), Undisputed(o, front, f), ConfigOf(last), f);
        Swapped(o, ApplyCredential(live, last.c), mine, ConfigOf(last), Touched(ops, f), Undisputed(o, ops, f), f);
      }
    }
  }

  lemma Swapped(o: Object, r: Object, mine: Config, theirs: Config, touched: bool, undisputed: bool, f: Field)
    ensures Composed(o, r, Registration, mine, Credential, theirs, touched, undisputed, f)
      == Composed(o, r, Credential, theirs, Registration, mine, touched, undisputed, f)
  {
    assert Shared(o, Registration, Credential, f) == Shared(o, Credential, Registration, f);
  }

  // ---- Reissuing ------------------------------------------------------------------------------

  datatype Fingerprint = Fingerprint(
    server: string,
    displayName: string,
    project: string,
    caHash: Digest,
    tokenExpiresAt: int,
    tokenIssuedAt: int,
    credentialHash: Digest)

  const NoFingerprint := Fingerprint("", "", "", NoDigest, 0, 0, NoDigest)

  function HashCA(ca: string): Digest {
    if ca == "" then NoDigest else Sha256(Plain(ca))
  }

  function FingerprintOf(c: ClusterSecret): Fingerprint {
    Fingerprint(c.server, c.displayName, c.project, HashCA(c.caData), c.tokenExpiresAt, c.tokenIssuedAt, NoDigest)
  }

  function Half(d: int): int { Truncated(d, 2) }

  function ReissueAt(applied: Fingerprint, requested: int): int {
    if applied.tokenIssuedAt == 0 then applied.tokenExpiresAt + Half(-requested)
    else applied.tokenIssuedAt + Half(applied.tokenExpiresAt - applied.tokenIssuedAt)
  }

  function NeedsRefresh(applied: Fingerprint, published: Digest, desired: ClusterSecret, ttl: int, now: int): RefreshReason {
    if applied == NoFingerprint then Unrecorded
    else if published == NoDigest then NoToken
    else if applied.credentialHash != NoDigest && published != applied.credentialHash then Replaced
    else if applied.server != desired.server then ServerDrift
    else if applied.displayName != desired.displayName then NameDrift
    else if applied.project != desired.project then ProjectDrift
    else if desired.caData != "" && applied.caHash != HashCA(desired.caData) then CADrift
    else if applied.tokenExpiresAt == 0 then UnknownExpiry
    else if now >= ReissueAt(applied, ttl) then Expiring
    else NotDue
  }

  /** A credential is left in place only when the server holds the one that was recorded, for
      the registration that is wanted, before half the life it was granted. */
  lemma LeftInPlaceMeansCurrent(applied: Fingerprint, published: Digest, desired: ClusterSecret, ttl: int, now: int)
    ensures NeedsRefresh(applied, published, desired, ttl, now) == NotDue <==>
      && published != NoDigest
      && (applied.credentialHash == NoDigest || published == applied.credentialHash)
      && applied.server == desired.server && applied.displayName == desired.displayName
      && applied.project == desired.project
      && (desired.caData == "" || applied.caHash == HashCA(desired.caData))
      && applied.tokenExpiresAt != 0
      && now < ReissueAt(applied, ttl)
  {
  }
}
