/** One reconciliation pass as a value: what a pass does to the world and to the status, for
    every way its calls can be answered and everything others may write in between. */
module Pass {
  import opened Text
  import opened Api
  import opened Config
  import opened ServerSideApply
  import opened ArgoCD
  import opened SelfRenewal
  import Credentials
  import D = Downstream

  /** A state of ArgoCD's Secret, and who left it so: this tool, applying one of its halves, or
      others. */
  datatype Seen = ByTool(half: Manager, state: Option<Object>) | ByOthers(state: Option<Object>)

  datatype World = World(
    secret: Option<Object>,
    stored: Option<Credentials.Data>,
    downstream: D.Objects,
    events: seq<Event>,
    trace: seq<Seen>)

  datatype ApiError = Forbidden | Unreachable | OtherError

  /** reasonFor, for errors that are not this tool's own sentinels. */
  function ReasonFor(e: ApiError): Reason {
    match e
    case Forbidden => PermissionDenied
    case Unreachable => EndpointUnreachable
    case OtherError => ReconcileFailed
  }

  /** How the calls of one pass are answered. `error` is what a call that fails reports. */
  datatype PassEnv = PassEnv(
    now: int,
    error: ApiError,
    readable: bool,
    connects: bool,
    ca: string,
    renew: RenewEnv,
    account: D.CallEnv,
    binding: D.BindingEnv,
    probes: bool,
    notAfter: int,
    daysRemaining: int,
    hostnameOk: bool,
    trusted: bool,
    beforeRegistration: seq<ForeignWrite>,
    registration: Credentials.Reply,
    mint: Option<Token>,
    newClient: bool,
    accepted: bool,
    beforeCredential: seq<ForeignWrite>,
    credential: Credentials.Reply,
    beforeObservation: seq<ForeignWrite>,
    observation: Credentials.Reply)
  {
    predicate Mints() { mint.Some? && mint.value.value != "" }

    /** A token was minted and the API server accepted it from the endpoint and CA published. */
    predicate Proves() { Mints() && newClient && accepted }

    ghost predicate OthersAreForeign() {
      Foreign(beforeRegistration) && Foreign(beforeCredential) && Foreign(beforeObservation)
    }

    predicate Undisturbed() {
      beforeRegistration == [] && beforeCredential == [] && beforeObservation == []
    }
  }

  datatype Stage = Continue(w: World, st: Status) | Stop(w: World, st: Status, reason: Reason)

  function Set(st: Status, kind: ConditionType, truth: Truth, reason: Reason): Status {
    st.SetCondition(kind, Condition(truth, reason, "", st.observedGeneration))
  }

  // ---- Up to the registration ---------------------------------------------------------------

  /** Reaching the cluster, mirroring the credential in use, and keeping it fresh. */
  function Reach(w: World, st: Status, c: Cluster, env: PassEnv): Stage {
    if !env.readable then Stop(w, st, ReasonFor(env.error))
    else match Credentials.ReadCredentials(w.stored)
      case NotFound => Stop(w, st, AwaitingCredential)
      case Found(creds) =>
        if creds.expiresAt != 0 && creds.expiresAt <= env.now then Stop(w, st, CredentialExpired)
        else if !env.connects then Stop(w, st, ReasonFor(env.error))
        else
          var mirrored := Mirrored(st, creds);
          if env.ca == "" then Stop(w, mirrored, ReasonFor(env.error))
          else
            var s := Maintain(SelfState(w.stored, mirrored, w.events), c.selfTokenTTL, creds, env.renew, env.now);
            Continue(w.(stored := s.stored, events := s.events), s.status)
  }

  function Who(c: Cluster): D.AccountName {
    D.AccountName(c.serviceAccount.namespace, c.serviceAccount.name)
  }

  function IdentityReason(e: D.EnsureError, env: PassEnv): Reason {
    match e
    case RoleRefMismatch => RoleRefImmutable
    case CallFailed => ReasonFor(env.error)
    case _ => ReconcileFailed
  }

  function EnsureIdentity(w: World, st: Status, c: Cluster, env: PassEnv): (Stage, bool) {
    var (objects, result) := D.EnsureArgoCDIdentity(w.downstream, Who(c), c.clusterRole, env.account, env.binding);
    match result
    case Err(e) => (Stop(w.(downstream := objects), st, IdentityReason(e, env)), false)
    case Ok(repairs) =>
      (Continue(w.(downstream := objects,
                   events := if repairs.Any() then w.events + [Warning(IdentityRestored)] else w.events), st),
       repairs.serviceAccount)
  }

  function Probe(w: World, st: Status, c: Cluster, env: PassEnv): Stage {
    if !env.probes then Stop(w, st, ReasonFor(env.error))
    else
      var seen := st.(servingCertExpiresAt := Some(env.notAfter), servingCertDaysRemaining := env.daysRemaining);
      if !env.hostnameOk || !env.trusted then
        Stop(w, Set(seen, ServingCertificateValid, No, CertificateInvalid), CertificateInvalid)
      else if env.notAfter - env.now < c.expiryWarnThreshold then
        Continue(w, Set(seen, ServingCertificateValid, No, CertificateInvalid))
      else Continue(w, Set(seen, ServingCertificateValid, Yes, ReasonReady))
  }

  /** Everything before the Secret is touched; and whether the ServiceAccount was recreated. */
  function Prepare(w: World, st: Status, c: Cluster, env: PassEnv): (Stage, bool) {
    match Reach(w, st, c, env)
    case Stop(w1, st1, reason) => (Stop(w1, st1, reason), false)
    case Continue(w1, st1) =>
      match EnsureIdentity(w1, st1, c, env)
      case (Stop(w2, st2, reason), _) => (Stop(w2, st2, reason), false)
      case (Continue(w2, st2), recreated) => (Probe(w2, st2, c, env), recreated)
  }

  // ---- The Secret ------------------------------------------------------------------------------

  function FingerprintFrom(st: Status): Fingerprint {
    Fingerprint(st.appliedServer, st.appliedDisplayName, st.appliedProject, st.appliedCAHash,
                TimeOf(st.tokenExpiresAt), TimeOf(st.tokenIssuedAt), st.appliedCredentialHash)
  }

  function RecordFingerprint(st: Status, f: Fingerprint): Status {
    st.(appliedServer := f.server, appliedDisplayName := f.displayName, appliedProject := f.project,
        appliedCAHash := f.caHash, appliedCredentialHash := f.credentialHash,
        tokenExpiresAt := Some(f.tokenExpiresAt), tokenIssuedAt := Some(f.tokenIssuedAt))
  }

  /** Reading back what was recorded gives it back. */
  lemma FingerprintRoundTrip(st: Status, f: Fingerprint)
    ensures FingerprintFrom(RecordFingerprint(st, f)) == f
  {
  }

  function First(st: Status): bool { FingerprintFrom(st) == NoFingerprint }

  function Desired(c: Cluster, st: Status, ca: string): ClusterSecret {
    ClusterSecret(c.displayName, c.ServerURL(), "", ca, c.project, c.namespaces, c.clusterResources,
                  TimeOf(st.tokenExpiresAt), TimeOf(st.servingCertExpiresAt), TimeOf(st.tokenIssuedAt),
                  c.name, c.labels, c.annotations)
  }

  function OthersWrite(w: World, ws: seq<ForeignWrite>): World {
    if ws == [] then w
    else w.(secret := Writes(ws, w.secret), trace := w.trace + [ByOthers(Writes(ws, w.secret))])
  }

  function ToolWrites(w: World, half: Manager, o: Object, reply: Credentials.Reply): World {
    if reply == Credentials.Refused then w
    else w.(secret := Some(o), trace := w.trace + [ByTool(half, Some(o))])
  }

  function ReportOwnership(w: World, st: Status, c: Cluster, o: Object): (World, Status) {
    if ForeignManagersOf(o) == {} then (w, Set(st, SecretExclusivelyOwned, Yes, ReasonReady))
    else if c.adoptedRegistration then (w, Set(st, SecretExclusivelyOwned, Yes, AdoptedRegistration))
    else
      var noticed := SecretExclusivelyOwned in st.conditions
        && st.conditions[SecretExclusivelyOwned].reason == ForeignFieldManager;
      (w.(events := if noticed then w.events else w.events + [Warning(ForeignFieldManager)]),
       Set(st, SecretExclusivelyOwned, No, ForeignFieldManager))
  }

  datatype Inspection = Inspected(w: World, st: Status, published: Digest) | Unseen(w: World, st: Status, reason: Reason)

  /** Applying the registration, which is the only way the Secret is ever looked at. */
  function Inspect(w: World, st: Status, c: Cluster, env: PassEnv): Inspection {
    if First(st) then Inspected(w, st, NoDigest)
    else
      var w1 := OthersWrite(w, env.beforeRegistration);
      var o := ApplyRegistration(w1.secret, Desired(c, st, env.ca));
      var w2 := ToolWrites(w1, Registration, o, env.registration);
      if env.registration != Credentials.Done then Unseen(w2, st, ReasonFor(env.error))
      else
        var (w3, st3) := ReportOwnership(w2, st, c, o);
        Inspected(w3, st3, HashCredential(o))
  }

  function Why(st: Status, published: Digest, c: Cluster, recreated: bool, env: PassEnv): RefreshReason {
    if recreated then IdentityRecreated
    else NeedsRefresh(FingerprintFrom(st), published, Desired(c, st, env.ca), c.tokenTTL, env.now)
  }

  datatype Finished = Finished(w: World, st: Status, failure: Option<Reason>)

  function Minted(c: Cluster, st: Status, env: PassEnv): ClusterSecret
    requires env.Mints()
  {
    Desired(c, st, env.ca).(bearerToken := env.mint.value.value, tokenExpiresAt := env.mint.value.expiresAt,
                            tokenIssuedAt := env.now)
  }

  /** The world after the credential has been applied, and after the registration has. */
  function AfterPublishing(w: World, st: Status, c: Cluster, env: PassEnv): World
    requires env.Mints()
  {
    var w1 := OthersWrite(w, env.beforeCredential);
    ToolWrites(w1, Credential, ApplyCredential(w1.secret, Minted(c, st, env)), env.credential)
  }

  /** The object the registration apply comes back with. */
  function ObservedBy(w: World, st: Status, c: Cluster, env: PassEnv): Object
    requires env.Mints()
  {
    ApplyRegistration(OthersWrite(w, env.beforeObservation).secret, Minted(c, st, env))
  }

  function AfterObserving(w: World, st: Status, c: Cluster, env: PassEnv): World
    requires env.Mints()
  {
    var w2 := AfterPublishing(w, st, c, env);
    ToolWrites(OthersWrite(w2, env.beforeObservation), Registration, ObservedBy(w2, st, c, env), env.observation)
  }

  /** What is recorded is what was written, never what came back; and what came back must be it. */
  function Noted(w: World, st: Status, c: Cluster, why: RefreshReason, desired: ClusterSecret, observed: Object): Finished {
    var (w1, st1) := ReportOwnership(w, st, c, observed);
    var written := Sha256(Payload(desired));
    var st2 := RecordFingerprint(st1, FingerprintOf(desired).(credentialHash := written));
    if HashCredential(observed) != written then Finished(w1, st2, Some(CredentialReplaced))
    else Finished(w1.(events := w1.events + [Normal(CredentialReissued)]), st2.(lastAction := Reissued(why)), None)
  }

  /** Mint, prove, publish the credential, then the registration, and record what was sent. */
  function Reissue(w: World, st: Status, c: Cluster, why: RefreshReason, env: PassEnv): Finished {
    if !env.Mints() || !env.newClient then Finished(w, st, Some(ReasonFor(env.error)))
    else if !env.accepted then Finished(w, st, Some(CredentialRejected))
    else
      var w2 := AfterPublishing(w, st, c, env);
      if env.credential != Credentials.Done then Finished(w2, st, Some(ReasonFor(env.error)))
      else
        var w4 := AfterObserving(w, st, c, env);
        if env.observation != Credentials.Done then Finished(w4, st, Some(ReasonFor(env.error)))
        else Noted(w4, st, c, why, Minted(c, st, env), ObservedBy(w2, st, c, env))
  }

  function Reconcile(w: World, st: Status, c: Cluster, env: PassEnv): Finished {
    match Prepare(w, st, c, env)
    case (Stop(w1, st1, reason), _) => Finished(w1, st1, Some(reason))
    case (Continue(w1, st1), recreated) =>
      match Inspect(w1, st1, c, env)
      case Unseen(w2, st2, reason) => Finished(w2, st2, Some(reason))
      case Inspected(w2, st2, published) =>
        var why := Why(st2, published, c, recreated, env);
        if why == NotDue then Finished(w2, st2.(lastAction := UpToDate), None)
        else Reissue(w2, st2, c, why, env)
  }

  /** A failing renewal is what Ready reports once the credential is running out. */
  function ThreatensAccess(c: Cluster, st: Status, now: int): bool {
    FailingRenewal(st).Some?
    && SelfCredentialCritical(c.selfTokenTTL, TimeOf(st.selfCredentialIssuedAt), TimeOf(st.selfCredentialExpiresAt), now)
  }

  function Begun(prior: Status, argocdNamespace: string, c: Cluster, generation: int): Status {
    prior.(observedGeneration := generation, secret := argocdNamespace + "/" + c.secretName)
  }

  function Concluded(f: Finished, c: Cluster, env: PassEnv): Finished {
    match f.failure
    case Some(reason) => f.(st := Set(f.st, Ready, No, reason).(lastAction := Failed))
    case None =>
      var synced := f.st.(lastSyncTime := Some(env.now));
      if ThreatensAccess(c, synced, env.now) then f.(st := Set(synced, Ready, No, SelfCredentialExpiring))
      else f.(st := Set(synced, Ready, Yes, ReasonReady))
  }

  /** A whole pass: what Cluster returns, and the world it leaves. */
  function ClusterPass(w: World, argocdNamespace: string, c: Cluster, prior: Status, generation: int, env: PassEnv): Finished {
    Concluded(Reconcile(w, Begun(prior, argocdNamespace, c, generation), c, env), c, env)
  }
}
