/** What ArgoCD finds in the Secret after a pass, in terms of the spec the pass was for. */
module PassPublications {
  import opened Text
  import opened Api
  import opened Config
  import opened ServerSideApply
  import opened ArgoCD
  import opened SelfRenewal
  import opened Pass
  import opened PassProperties
  import opened PassStates
  import Credentials
  import D = Downstream

  // ---- The registration the spec asks for --------------------------------------------------------

  function Given(extra: map<Key, string>, k: Key): Option<Bytes> {
    if k in extra then Some(Plain(extra[k])) else None
  }

  function Known(at: int): Option<Bytes> { if at == 0 then None else Some(Plain(Rfc3339(at))) }

  function Worded(yes: bool): string { if yes then "true" else "false" }

  /** What a registration of this cluster says under each field, where its token and its serving
      certificate end then. */
  function Asked(c: Cluster, token: int, certificate: int, f: Field): Option<Bytes> {
    match f
    case SecretType => Some(Plain("Opaque"))
    case Label(SecretTypeLabel) => Some(Plain("cluster"))
    case Label(ManagedByLabel) => Some(Plain("k2a-token-sync"))
    case Label(k) => Given(c.labels, k)
    case Annotation(ClusterName) => Some(Plain(c.name))
    case Annotation(TokenExpiry) => Known(token)
    case Annotation(ServingCertExpiry) => Known(certificate)
    case Annotation(k) => Given(c.annotations, k)
    case Data(NameKey) => Some(Plain(c.displayName))
    case Data(ServerKey) => Some(Plain("https://" + c.endpoint))
    case Data(ProjectKey) => if c.project == "" then None else Some(Plain(c.project))
    case Data(NamespacesKey) => if c.namespaces == [] then None else Some(Plain(JoinComma(c.namespaces)))
    case Data(ClusterResourcesKey) => if c.clusterResources.None? then None else Some(Plain(Worded(c.clusterResources.value)))
    case Data(ConfigKey) => None
    case Data(_) => None
  }

  /** The registration's manager owns exactly what is asked for, and all of it is there. */
  ghost predicate AsAsked(o: Object, c: Cluster, token: int, certificate: int) {
    forall f: Field ::
      && (f in o.Owned(Registration) <==> Asked(c, token, certificate, f).Some?)
      && (Asked(c, token, certificate, f).Some? ==> f in o.fields && o.fields[f] == Asked(c, token, certificate, f).value)
  }

  ghost predicate SecretAsAsked(w: World, st: Status, c: Cluster) {
    w.secret.Some? && AsAsked(w.secret.value, c, TimeOf(st.tokenExpiresAt), TimeOf(st.servingCertExpiresAt))
  }

  lemma DesiredIsAsked(c: Cluster, st: Status, ca: string, f: Field)
    ensures RegistrationValue(Desired(c, st, ca), f) == Asked(c, TimeOf(st.tokenExpiresAt), TimeOf(st.servingCertExpiresAt), f)
  {
  }

  lemma RegisteringOwns(live: Option<Object>, d: ClusterSecret, f: Field)
    ensures var o := ApplyRegistration(live, d);
      && (f in o.Owned(Registration) <==> RegistrationValue(d, f).Some?)
      && (RegistrationValue(d, f).Some? ==> f in o.fields && o.fields[f] == RegistrationValue(d, f).value)
  {
    ApplyFieldwise(live, Registration, RegistrationFields(d), f);
  }

  lemma RegisteringAsks(live: Option<Object>, c: Cluster, st: Status, ca: string)
    ensures AsAsked(ApplyRegistration(live, Desired(c, st, ca)), c, TimeOf(st.tokenExpiresAt), TimeOf(st.servingCertExpiresAt))
  {
    forall f: Field
      ensures var o, asked := ApplyRegistration(live, Desired(c, st, ca)), Asked(c, TimeOf(st.tokenExpiresAt), TimeOf(st.servingCertExpiresAt), f);
        (f in o.Owned(Registration) <==> asked.Some?) && (asked.Some? ==> f in o.fields && o.fields[f] == asked.value)
    {
      RegisteringOwns(live, Desired(c, st, ca), f);
      DesiredIsAsked(c, st, ca, f);
    }
  }

  // ---- ... is there after every pass that succeeds ----------------------------------------------------

  lemma OwnershipSparesTheSecret(w: World, st: Status, c: Cluster, o: Object)
    ensures var (w1, st1) := ReportOwnership(w, st, c, o);
      w1.secret == w.secret && st1.tokenExpiresAt == st.tokenExpiresAt && st1.servingCertExpiresAt == st.servingCertExpiresAt
  {
  }

  lemma InspectedAsAsked(w: World, st: Status, c: Cluster, env: PassEnv)
    requires Inspect(w, st, c, env).Inspected? && !First(st)
    ensures SecretAsAsked(Inspect(w, st, c, env).w, Inspect(w, st, c, env).st, c)
  {
    var w1 := OthersWrite(w, env.beforeRegistration);
    var o := ApplyRegistration(w1.secret, Desired(c, st, env.ca));
    RegisteringAsks(w1.secret, c, st, env.ca);
    OwnershipSparesTheSecret(ToolWrites(w1, Registration, o, env.registration), st, c, o);
  }

  /** As far as the registration goes, a minted secret is the desired one, with the new expiry. */
  lemma MintingAsks(live: Option<Object>, c: Cluster, st: Status, env: PassEnv)
    requires env.Mints()
    ensures AsAsked(ApplyRegistration(live, Minted(c, st, env)), c, env.mint.value.expiresAt, TimeOf(st.servingCertExpiresAt))
  {
    var renewed := st.(tokenExpiresAt := Some(env.mint.value.expiresAt));
    RegisteringAsks(live, c, renewed, env.ca);
    RegistrationIgnoresTheCredential(Desired(c, renewed, env.ca), env.mint.value.value, env.ca, env.now);
    assert Desired(c, renewed, env.ca).(bearerToken := env.mint.value.value, caData := env.ca, tokenIssuedAt := env.now) == Minted(c, st, env);
  }

  lemma NotedAsAsked(w: World, st: Status, c: Cluster, why: RefreshReason, desired: ClusterSecret, observed: Object)
    ensures var r := Noted(w, st, c, why, desired, observed);
      && r.w.secret == w.secret && TimeOf(r.st.tokenExpiresAt) == desired.tokenExpiresAt
      && r.st.servingCertExpiresAt == st.servingCertExpiresAt
  {
    OwnershipSparesTheSecret(w, st, c, observed);
  }

  lemma ReissuedAsAsked(w: World, st: Status, c: Cluster, why: RefreshReason, env: PassEnv)
    requires Reissue(w, st, c, why, env).failure == None
    ensures SecretAsAsked(Reissue(w, st, c, why, env).w, Reissue(w, st, c, why, env).st, c)
  {
    var w2 := AfterPublishing(w, st, c, env);
    MintingAsks(OthersWrite(w2, env.beforeObservation).secret, c, st, env);
    NotedAsAsked(AfterObserving(w, st, c, env), st, c, why, Minted(c, st, env), ObservedBy(w2, st, c, env));
  }

  lemma ReconciledAsAsked(w: World, st: Status, c: Cluster, env: PassEnv)
    requires Reconcile(w, st, c, env).failure == None
    ensures SecretAsAsked(Reconcile(w, st, c, env).w, Reconcile(w, st, c, env).st, c)
  {
    var (p, recreated) := Prepare(w, st, c, env);
    var i := Inspect(p.w, p.st, c, env);
    var why := Why(i.st, i.published, c, recreated, env);
    if why == NotDue {
      InspectedAsAsked(p.w, p.st, c, env);
    } else {
      ReissuedAsAsked(i.w, i.st, c, why, env);
    }
  }

  lemma ConcludingKeepsExpiries(f: Finished, c: Cluster, env: PassEnv)
    ensures var r := Concluded(f, c, env);
      r.w == f.w && r.st.tokenExpiresAt == f.st.tokenExpiresAt && r.st.servingCertExpiresAt == f.st.servingCertExpiresAt
  {
  }

  /** Whether it reissued or found nothing due, and whoever else writes the Secret: a pass that
      succeeds leaves in it, under its registration's manager, exactly what the spec asks for --
      labels, annotations, project, namespaces and all -- and nothing of an earlier spec. */
  lemma SuccessPublishesTheSpec(w: World, ns: string, c: Cluster, prior: Status, generation: int, env: PassEnv)
    requires ClusterPass(w, ns, c, prior, generation, env).failure == None
    ensures var r := ClusterPass(w, ns, c, prior, generation, env); SecretAsAsked(r.w, r.st, c)
  {
    var st := Begun(prior, ns, c, generation);
    ReconciledAsAsked(w, st, c, env);
    ConcludingKeepsExpiries(Reconcile(w, st, c, env), c, env);
  }

  // ---- ... and so is the identity ------------------------------------------------------------------------

  /** The account the spec names, and the binding of its name to the role the spec names. */
  predicate IdentityAsAsked(o: D.Objects, c: Cluster) {
    var who, binding := D.AccountName(c.serviceAccount.namespace, c.serviceAccount.name), c.serviceAccount.name + "-role-binding";
    && who in o.accounts && binding in o.bindings
    && o.bindings[binding].role == c.clusterRole && who in o.bindings[binding].subjects
  }

  /** A pass that succeeds has left ArgoCD's identity on the cluster as the spec has it, unless
      somebody made another binding of that name under its hands. */
  lemma SuccessLeavesTheIdentity(w: World, ns: string, c: Cluster, prior: Status, generation: int, env: PassEnv)
    requires ClusterPass(w, ns, c, prior, generation, env).failure == None
    ensures c.serviceAccount.name + "-role-binding" in w.downstream.bindings || env.binding.rival.None? ==>
      IdentityAsAsked(ClusterPass(w, ns, c, prior, generation, env).w.downstream, c)
  {
    var st := Begun(prior, ns, c, generation);
    ConcludingKeepsMemory(Reconcile(w, st, c, env), c, env);
    ReconcilingKeepsDownstream(w, st, c, env);
    PreparedMeansInPlace(w, st, c, env);
  }

  // ---- Why a credential is replaced ----------------------------------------------------------------------

  predicate NothingRecorded(st: Status) {
    && st.appliedServer == "" && st.appliedDisplayName == "" && st.appliedProject == "" && st.appliedCAHash == NoDigest
    && st.appliedCredentialHash == NoDigest && TimeOf(st.tokenExpiresAt) == 0 && TimeOf(st.tokenIssuedAt) == 0
  }

  /** This reason, by itself, calls for a new credential. */
  predicate CallsFor(why: RefreshReason, st: Status, published: Digest, c: Cluster, recreated: bool, env: PassEnv) {
    var until, since := TimeOf(st.tokenExpiresAt), TimeOf(st.tokenIssuedAt);
    match why
    case IdentityRecreated => recreated
    case Unrecorded => NothingRecorded(st)
    case NoToken => published == NoDigest
    case Replaced => st.appliedCredentialHash != NoDigest && published != st.appliedCredentialHash
    case ServerDrift => st.appliedServer != "https://" + c.endpoint
    case NameDrift => st.appliedDisplayName != c.displayName
    case ProjectDrift => st.appliedProject != c.project
    case CADrift => env.ca != "" && st.appliedCAHash != HashCA(env.ca)
    case UnknownExpiry => until == 0
    case Expiring => env.now >= if since == 0 then until - Truncated(c.tokenTTL, 2) else since + Truncated(until - since, 2)
    case NotDue => false
  }

  /** Their order of precedence. */
  function Rank(why: RefreshReason): (rank: nat)
    ensures rank <= 10 && (rank == 10 <==> why == NotDue)
  {
    match why
    case IdentityRecreated => 0
    case Unrecorded => 1
    case NoToken => 2
    case Replaced => 3
    case ServerDrift => 4
    case NameDrift => 5
    case ProjectDrift => 6
    case CADrift => 7
    case UnknownExpiry => 8
    case Expiring => 9
    case NotDue => 10
  }

  /** It calls for a new credential, or nothing does, and nothing that goes before it does. */
  ghost predicate Foremost(why: RefreshReason, st: Status, published: Digest, c: Cluster, recreated: bool, env: PassEnv) {
    && (why != NotDue ==> CallsFor(why, st, published, c, recreated, env))
    && forall other :: Rank(other) < Rank(why) ==> !CallsFor(other, st, published, c, recreated, env)
  }

  lemma GivenIsForemost(st: Status, published: Digest, c: Cluster, recreated: bool, env: PassEnv)
    ensures Foremost(Why(st, published, c, recreated, env), st, published, c, recreated, env)
  {
    assert Truncated(-c.tokenTTL, 2) == -Truncated(c.tokenTTL, 2);
  }

  /** A credential is left in place exactly if nothing calls for another, and where something does
      the reason given is the first that applies. */
  lemma TheForemostReasonIsGiven(st: Status, published: Digest, c: Cluster, recreated: bool, env: PassEnv, why: RefreshReason)
    ensures Why(st, published, c, recreated, env) == why <==> Foremost(why, st, published, c, recreated, env)
  {
    GivenIsForemost(st, published, c, recreated, env);
    var given := Why(st, published, c, recreated, env);
    if Foremost(why, st, published, c, recreated, env) {
      assert Rank(given) == Rank(why);
    }
  }
}
