/** What a pass reports: Ready, the reason of a failure, and the other conditions, each in terms of
    what the pass met. */
module PassReports {
  import opened Text
  import opened Api
  import opened Config
  import opened ServerSideApply
  import opened ArgoCD
  import opened SelfRenewal
  import opened Pass
  import opened PassProperties
  import opened PassStates
  import Credentials
  import D = Downstream
  import SelfRuns

  // ---- Ready ---------------------------------------------------------------------------------------

  /** What no stage of a pass touches before its end. */
  predicate SameFrame(a: Status, b: Status) {
    a.observedGeneration == b.observedGeneration && a.secret == b.secret && a.lastSyncTime == b.lastSyncTime
  }

  lemma MaintainingKeepsTheFrame(s: SelfState, requested: int, access: Credentials.Creds, env: RenewEnv, now: int)
    ensures SameFrame(Maintain(s, requested, access, env, now).status, s.status)
  {
  }

  lemma PreparingKeepsTheFrame(w: World, st: Status, c: Cluster, env: PassEnv)
    ensures SameFrame(Prepare(w, st, c, env).0.st, st)
  {
    var read := Credentials.ReadCredentials(w.stored);
    if read.Found? {
      var mirrored := Mirrored(st, read.creds);
      MaintainingKeepsTheFrame(SelfState(w.stored, mirrored, w.events), c.selfTokenTTL, read.creds, env.renew, env.now);
      assert SameFrame(mirrored, st);
    }
    assert SameFrame(Reach(w, st, c, env).st, st);
  }

  lemma InspectingKeepsTheFrame(w: World, st: Status, c: Cluster, env: PassEnv)
    ensures SameFrame(Inspect(w, st, c, env).st, st)
  {
  }

  lemma NotingKeepsTheFrame(w: World, st: Status, c: Cluster, why: RefreshReason, desired: ClusterSecret, observed: Object)
    ensures SameFrame(Noted(w, st, c, why, desired, observed).st, st)
  {
    assert SameFrame(ReportOwnership(w, st, c, observed).1, st);
  }

  lemma ReissuingKeepsTheFrame(w: World, st: Status, c: Cluster, why: RefreshReason, env: PassEnv)
    ensures SameFrame(Reissue(w, st, c, why, env).st, st)
  {
    if env.Proves() {
      NotingKeepsTheFrame(AfterObserving(w, st, c, env), st, c, why, Minted(c, st, env),
                          ObservedBy(AfterPublishing(w, st, c, env), st, c, env));
    }
  }

  lemma ReconcilingKeepsTheFrame(w: World, st: Status, c: Cluster, env: PassEnv)
    ensures SameFrame(Reconcile(w, st, c, env).st, st)
    ensures var f := Reconcile(w, st, c, env); f.failure == None ==> f.st.lastAction == UpToDate || f.st.lastAction.Reissued?
  {
    PreparingKeepsTheFrame(w, st, c, env);
    var (p, recreated) := Prepare(w, st, c, env);
    if p.Continue? {
      InspectingKeepsTheFrame(p.w, p.st, c, env);
      var i := Inspect(p.w, p.st, c, env);
      if i.Inspected? {
        var why := Why(i.st, i.published, c, recreated, env);
        ReissuingKeepsTheFrame(i.w, i.st, c, why, env);
        ReissueRecords(i.w, i.st, c, why, env);
      }
    }
  }

  /** The status says that renewal is failing, and what is left of the daemon's own credential is
      less than a day, less than a quarter of what was granted -- or requested, where the issue time
      is unknown -- or unknown. */
  predicate RunningOut(st: Status, requested: int, now: int) {
    && SelfCredentialValid in st.conditions && st.conditions[SelfCredentialValid].status == No
    && var expiresAt, issuedAt := TimeOf(st.selfCredentialExpiresAt), TimeOf(st.selfCredentialIssuedAt);
       || expiresAt == 0 || expiresAt - now < 86400
       || expiresAt - now < Truncated(if issuedAt != 0 then expiresAt - issuedAt else requested, 4)
  }

  /** A pass reports Ready exactly if it did not fail and no failing renewal is running out; a failure
      with its own reason, and never a success as one. It says of what generation it speaks, where the
      Secret is, and since when it is in sync. */
  lemma ReportsHonestly(w: World, ns: string, c: Cluster, prior: Status, generation: int, env: PassEnv)
    ensures var r := ClusterPass(w, ns, c, prior, generation, env);
      && Ready in r.st.conditions
      && var ready := r.st.conditions[Ready];
      && (ready.status == Yes <==> r.failure == None && !RunningOut(r.st, c.selfTokenTTL, env.now))
      && (ready.status == Yes || ready.status == No)
      && ready.reason == (if r.failure.Some? then r.failure.value
                          else if RunningOut(r.st, c.selfTokenTTL, env.now) then SelfCredentialExpiring else ReasonReady)
      && ready.observedGeneration == generation && r.st.observedGeneration == generation
      && r.st.secret == ns + "/" + c.secretName
      && (r.st.lastAction == Failed <==> r.failure.Some?)
      && r.st.lastSyncTime == if r.failure == None then Some(env.now) else prior.lastSyncTime
  {
    var st := Begun(prior, ns, c, generation);
    ReconcilingKeepsTheFrame(w, st, c, env);
    Concluding(Reconcile(w, st, c, env), c, env);
  }

  lemma Concluding(f: Finished, c: Cluster, env: PassEnv)
    ensures var r := Concluded(f, c, env);
      && r.failure == f.failure && Ready in r.st.conditions
      && r.st.conditions[Ready] == Condition(
           if f.failure == None && !RunningOut(r.st, c.selfTokenTTL, env.now) then Yes else No,
           if f.failure.Some? then f.failure.value
           else if RunningOut(r.st, c.selfTokenTTL, env.now) then SelfCredentialExpiring else ReasonReady,
           "", f.st.observedGeneration)
      && r.st.observedGeneration == f.st.observedGeneration && r.st.secret == f.st.secret
      && r.st.lastAction == (if f.failure.Some? then Failed else f.st.lastAction)
      && r.st.lastSyncTime == if f.failure == None then Some(env.now) else f.st.lastSyncTime
  {
  }

  // ---- The reason of a failure -----------------------------------------------------------------------

  /** What an unclassified error is reported as. */
  function Unclassified(e: ApiError): Reason {
    if e == Forbidden then PermissionDenied else if e == Unreachable then EndpointUnreachable else ReconcileFailed
  }

  function ReachObstacle(stored: Option<Credentials.Data>, env: PassEnv): Option<Reason> {
    var read := Credentials.ReadCredentials(stored);
    if !env.readable then Some(Unclassified(env.error))
    else if read.NotFound? then Some(AwaitingCredential)
    else if 0 != read.creds.expiresAt <= env.now then Some(CredentialExpired)
    else if !env.connects || env.ca == "" then Some(Unclassified(env.error))
    else None
  }

  function IdentityObstacle(o: D.Objects, c: Cluster, env: PassEnv): Option<Reason> {
    var name := Who(c).name + "-role-binding";
    if c.clusterRole == "" then Some(ReconcileFailed)
    else if !D.AccountWorks(o, Who(c), env.account) || env.binding.get != Credentials.Done then Some(Unclassified(env.error))
    else if name !in o.bindings then if env.binding.create != Credentials.Done then Some(Unclassified(env.error)) else None
    else if o.bindings[name].role != c.clusterRole then Some(RoleRefImmutable)
    else if Who(c) !in o.bindings[name].subjects then Some(ReconcileFailed)
    else None
  }

  function ProbeObstacle(env: PassEnv): Option<Reason> {
    if !env.probes then Some(Unclassified(env.error))
    else if !env.hostnameOk || !env.trusted then Some(CertificateInvalid)
    else None
  }

  /** The first thing that stops a pass on its way to the Secret. */
  function FirstObstacle(w: World, c: Cluster, env: PassEnv): Option<Reason> {
    if ReachObstacle(w.stored, env).Some? then ReachObstacle(w.stored, env)
    else if IdentityObstacle(w.downstream, c, env).Some? then IdentityObstacle(w.downstream, c, env)
    else ProbeObstacle(env)
  }

  lemma ReachingReports(w: World, st: Status, c: Cluster, env: PassEnv)
    ensures var r := Reach(w, st, c, env);
      ReachObstacle(w.stored, env) == if r.Stop? then Some(r.reason) else None
  {
  }

  lemma IdentityReports(w: World, st: Status, c: Cluster, env: PassEnv)
    ensures var r := EnsureIdentity(w, st, c, env).0;
      IdentityObstacle(w.downstream, c, env) == if r.Stop? then Some(r.reason) else None
  {
    D.AccountEnsured(w.downstream, Who(c), env.account);
  }

  lemma ProbingReports(w: World, st: Status, c: Cluster, env: PassEnv)
    ensures var r := Probe(w, st, c, env); ProbeObstacle(env) == if r.Stop? then Some(r.reason) else None
  {
  }

  lemma PreparingReports(w: World, st: Status, c: Cluster, env: PassEnv)
    ensures var p := Prepare(w, st, c, env).0; FirstObstacle(w, c, env) == if p.Stop? then Some(p.reason) else None
  {
    ReachingReports(w, st, c, env);
    ReachLeavesTheSecret(w, st, c, env);
    var r := Reach(w, st, c, env);
    if r.Continue? {
      IdentityReports(r.w, r.st, c, env);
      var e := EnsureIdentity(r.w, r.st, c, env).0;
      if e.Continue? { ProbingReports(e.w, e.st, c, env); }
    }
  }

  /** What stops a reissue that is due. */
  function ReissueObstacle(env: PassEnv): Option<Reason> {
    if !env.Mints() || !env.newClient then Some(Unclassified(env.error))
    else if !env.accepted then Some(CredentialRejected)
    else if env.credential != Credentials.Done || env.observation != Credentials.Done then Some(Unclassified(env.error))
    else None
  }

  lemma ReissuingReports(w: World, st: Status, c: Cluster, why: RefreshReason, env: PassEnv)
    ensures var r := Reissue(w, st, c, why, env);
      if ReissueObstacle(env).Some? then r.failure == ReissueObstacle(env)
      else r.failure == if HasDigest(r.w.secret, r.st.appliedCredentialHash) then None else Some(CredentialReplaced)
  {
    if env.Proves() && env.credential == Credentials.Done && env.observation == Credentials.Done {
      var observed := ObservedBy(AfterPublishing(w, st, c, env), st, c, env);
      NotedReports(AfterObserving(w, st, c, env), st, c, why, Minted(c, st, env), observed);
    }
  }

  lemma NotedReports(w: World, st: Status, c: Cluster, why: RefreshReason, desired: ClusterSecret, observed: Object)
    requires w.secret == Some(observed)
    ensures var r := Noted(w, st, c, why, desired, observed);
      r.w.secret == w.secret
      && r.failure == if HasDigest(r.w.secret, r.st.appliedCredentialHash) then None else Some(CredentialReplaced)
  {
    assert ReportOwnership(w, st, c, observed).0.secret == w.secret;
  }

  /** Every failure carries the reason of the first thing that stopped the pass: on the way to the
      Secret; looking at it; or, if it is not content with what it sees, reissuing -- where, with
      nothing in the way, what is left to fail is that the Secret does not carry what was recorded. */
  lemma FailuresNameTheirCause(w: World, ns: string, c: Cluster, prior: Status, generation: int, env: PassEnv)
    ensures var r := ClusterPass(w, ns, c, prior, generation, env);
      if FirstObstacle(w, c, env).Some? then r.failure == FirstObstacle(w, c, env)
      else if !First(prior) && env.registration != Credentials.Done then r.failure == Some(Unclassified(env.error))
      else || (r.failure == None && r.st.lastAction == UpToDate)
           || (r.failure == ReissueObstacle(env) && r.failure.Some?)
           || (ReissueObstacle(env) == None
               && r.failure == if HasDigest(r.w.secret, r.st.appliedCredentialHash) then None else Some(CredentialReplaced))
  {
    var st := Begun(prior, ns, c, generation);
    PrepareLeavesTheSecret(w, st, c, env);
    PreparingReports(w, st, c, env);
    var (p, recreated) := Prepare(w, st, c, env);
    if p.Continue? {
      var i := Inspect(p.w, p.st, c, env);
      if i.Inspected? {
        ReissuingReports(i.w, i.st, c, Why(i.st, i.published, c, recreated, env), env);
      }
    }
    ConcludingKeepsMemory(Reconcile(w, st, c, env), c, env);
  }

  // ---- The serving certificate --------------------------------------------------------------------------

  /** Whether there is a valid certificate condition, and what it says. */
  predicate Says(st: Status, kind: ConditionType, truth: Truth, reason: Reason) {
    kind in st.conditions && st.conditions[kind].status == truth && st.conditions[kind].reason == reason
  }

  /** Two statuses that say the same of the serving certificate. */
  predicate SameCertificate(a: Status, b: Status) {
    && a.servingCertExpiresAt == b.servingCertExpiresAt && a.servingCertDaysRemaining == b.servingCertDaysRemaining
    && (ServingCertificateValid in a.conditions <==> ServingCertificateValid in b.conditions)
    && (ServingCertificateValid in a.conditions ==>
          a.conditions[ServingCertificateValid] == b.conditions[ServingCertificateValid])
  }

  lemma ReachingKeepsTheCertificate(w: World, st: Status, c: Cluster, env: PassEnv)
    ensures SameCertificate(Reach(w, st, c, env).st, st)
  {
    var read := Credentials.ReadCredentials(w.stored);
    if read.Found? {
      var mirrored := Mirrored(st, read.creds);
      MaintainingKeepsTheCertificate(SelfState(w.stored, mirrored, w.events), c.selfTokenTTL, read.creds, env.renew, env.now);
      assert SameCertificate(mirrored, st);
    }
  }

  lemma MaintainingKeepsTheCertificate(s: SelfState, requested: int, access: Credentials.Creds, env: RenewEnv, now: int)
    ensures SameCertificate(Maintain(s, requested, access, env, now).status, s.status)
  {
  }

  lemma OwnershipKeepsTheCertificate(w: World, st: Status, c: Cluster, o: Object)
    ensures SameCertificate(ReportOwnership(w, st, c, o).1, st)
  {
  }

  lemma InspectingKeepsTheCertificate(w: World, st: Status, c: Cluster, env: PassEnv)
    ensures SameCertificate(Inspect(w, st, c, env).st, st)
  {
    var w1 := OthersWrite(w, env.beforeRegistration);
    var o := ApplyRegistration(w1.secret, Desired(c, st, env.ca));
    OwnershipKeepsTheCertificate(ToolWrites(w1, Registration, o, env.registration), st, c, o);
  }

  lemma NotingKeepsTheCertificate(w: World, st: Status, c: Cluster, why: RefreshReason, desired: ClusterSecret, observed: Object)
    ensures SameCertificate(Noted(w, st, c, why, desired, observed).st, st)
  {
    OwnershipKeepsTheCertificate(w, st, c, observed);
  }

  lemma ReissuingKeepsTheCertificate(w: World, st: Status, c: Cluster, why: RefreshReason, env: PassEnv)
    ensures SameCertificate(Reissue(w, st, c, why, env).st, st)
  {
    if env.Proves() {
      NotingKeepsTheCertificate(AfterObserving(w, st, c, env), st, c, why, Minted(c, st, env),
                                ObservedBy(AfterPublishing(w, st, c, env), st, c, env));
    }
  }

  lemma AfterProbingTheCertificateStays(w: World, st: Status, c: Cluster, env: PassEnv)
    ensures var p := Prepare(w, st, c, env).0; SameCertificate(Reconcile(w, st, c, env).st, p.st)
  {
    var (p, recreated) := Prepare(w, st, c, env);
    if p.Continue? {
      InspectingKeepsTheCertificate(p.w, p.st, c, env);
      var i := Inspect(p.w, p.st, c, env);
      if i.Inspected? {
        ReissuingKeepsTheCertificate(i.w, i.st, c, Why(i.st, i.published, c, recreated, env), env);
      }
    }
  }

  /** The certificate as this probe finds it. */
  predicate AsProbed(st: Status, c: Cluster, env: PassEnv) {
    && st.servingCertExpiresAt == Some(env.notAfter) && st.servingCertDaysRemaining == env.daysRemaining
    && if env.hostnameOk && env.trusted && env.notAfter - env.now >= c.expiryWarnThreshold
       then Says(st, ServingCertificateValid, Yes, ReasonReady)
       else Says(st, ServingCertificateValid, No, CertificateInvalid)
  }

  /** The endpoint is asked. */
  predicate Asks(w: World, c: Cluster, env: PassEnv) {
    ReachObstacle(w.stored, env).None? && IdentityObstacle(w.downstream, c, env).None? && env.probes
  }

  lemma PreparingProbes(w: World, st: Status, c: Cluster, env: PassEnv)
    ensures var p := Prepare(w, st, c, env).0; if Asks(w, c, env) then AsProbed(p.st, c, env) else SameCertificate(p.st, st)
  {
    ReachingReports(w, st, c, env);
    ReachingKeepsTheCertificate(w, st, c, env);
    ReachLeavesTheSecret(w, st, c, env);
    var r := Reach(w, st, c, env);
    if r.Continue? {
      IdentityReports(r.w, r.st, c, env);
    }
  }

  /** A pass that probes the endpoint says the serving certificate is valid exactly if it covers the
      endpoint, is trusted, and has at least the notice asked for left; and records when it ends. One
      that does not get so far says of it what was said before. */
  lemma ReportsTheCertificate(w: World, ns: string, c: Cluster, prior: Status, generation: int, env: PassEnv)
    ensures var r := ClusterPass(w, ns, c, prior, generation, env);
      if Asks(w, c, env) then AsProbed(r.st, c, env) else SameCertificate(r.st, prior)
  {
    var st := Begun(prior, ns, c, generation);
    PreparingProbes(w, st, c, env);
    AfterProbingTheCertificateStays(w, st, c, env);
    ConcludingKeepsTheCertificate(Reconcile(w, st, c, env), c, env);
  }

  lemma ConcludingKeepsTheCertificate(f: Finished, c: Cluster, env: PassEnv)
    ensures SameCertificate(Concluded(f, c, env).st, f.st)
  {
  }

  // ---- Who else owns the Secret ------------------------------------------------------------------------------

  /** What is to be said of the owners of an object. */
  predicate SaysWhoOwns(st: Status, c: Cluster, o: Object) {
    if ForeignManagersOf(o) == {} then Says(st, SecretExclusivelyOwned, Yes, ReasonReady)
    else if c.adoptedRegistration then Says(st, SecretExclusivelyOwned, Yes, AdoptedRegistration)
    else Says(st, SecretExclusivelyOwned, No, ForeignFieldManager)
  }

  /** Ownership is said as it is, with an Event exactly when a co-owner nobody asked for was not
      reported before. */
  lemma OwnershipIsReported(w: World, st: Status, c: Cluster, o: Object)
    ensures var (w1, st1) := ReportOwnership(w, st, c, o);
      && SaysWhoOwns(st1, c, o)
      && w1 == w.(events := w1.events)
      && w1.events == w.events
           + if ForeignManagersOf(o) != {} && !c.adoptedRegistration
                && !(SecretExclusivelyOwned in st.conditions && st.conditions[SecretExclusivelyOwned].reason == ForeignFieldManager)
             then [Warning(ForeignFieldManager)] else []
  {
  }

  /** A pass that succeeds says who owns the Secret as it has left it. */
  lemma ReportsWhoOwnsTheSecret(w: World, ns: string, c: Cluster, prior: Status, generation: int, env: PassEnv)
    requires ClusterPass(w, ns, c, prior, generation, env).failure == None
    ensures var r := ClusterPass(w, ns, c, prior, generation, env);
      r.w.secret.Some? && SaysWhoOwns(r.st, c, r.w.secret.value)
  {
    var st := Begun(prior, ns, c, generation);
    ReconciledOwners(w, st, c, env);
    ConcludingKeepsOwners(Reconcile(w, st, c, env), c, env);
  }

  lemma ReconciledOwners(w: World, st: Status, c: Cluster, env: PassEnv)
    requires Reconcile(w, st, c, env).failure == None
    ensures var r := Reconcile(w, st, c, env); r.w.secret.Some? && SaysWhoOwns(r.st, c, r.w.secret.value)
  {
    var (p, recreated) := Prepare(w, st, c, env);
    var i := Inspect(p.w, p.st, c, env);
    var why := Why(i.st, i.published, c, recreated, env);
    if why == NotDue {
      InspectedOwners(p.w, p.st, c, env);
    } else {
      ReissuedOwners(i.w, i.st, c, why, env);
    }
  }

  lemma InspectedOwners(w: World, st: Status, c: Cluster, env: PassEnv)
    requires Inspect(w, st, c, env).Inspected? && !First(st)
    ensures var i := Inspect(w, st, c, env); i.w.secret.Some? && SaysWhoOwns(i.st, c, i.w.secret.value)
  {
    var w1 := OthersWrite(w, env.beforeRegistration);
    var o := ApplyRegistration(w1.secret, Desired(c, st, env.ca));
    OwnershipIsReported(ToolWrites(w1, Registration, o, env.registration), st, c, o);
  }

  lemma NotedOwners(w: World, st: Status, c: Cluster, why: RefreshReason, desired: ClusterSecret, observed: Object)
    requires w.secret == Some(observed) && Noted(w, st, c, why, desired, observed).failure == None
    ensures var r := Noted(w, st, c, why, desired, observed); r.w.secret.Some? && SaysWhoOwns(r.st, c, r.w.secret.value)
  {
    OwnershipIsReported(w, st, c, observed);
  }

  lemma ReissuedOwners(w: World, st: Status, c: Cluster, why: RefreshReason, env: PassEnv)
    requires Reissue(w, st, c, why, env).failure == None
    ensures var r := Reissue(w, st, c, why, env); r.w.secret.Some? && SaysWhoOwns(r.st, c, r.w.secret.value)
  {
    var observed := ObservedBy(AfterPublishing(w, st, c, env), st, c, env);
    NotedOwners(AfterObserving(w, st, c, env), st, c, why, Minted(c, st, env), observed);
  }

  lemma ConcludingKeepsOwners(f: Finished, c: Cluster, env: PassEnv)
    requires f.w.secret.Some? && SaysWhoOwns(f.st, c, f.w.secret.value)
    ensures SaysWhoOwns(Concluded(f, c, env).st, c, f.w.secret.value)
  {
  }

  // ---- The daemon's own credential, and what a pass does not speak of ----------------------------------------

  predicate SameOf(a: Status, b: Status, kind: ConditionType) {
    && (kind in a.conditions <==> kind in b.conditions)
    && (kind in a.conditions ==> a.conditions[kind] == b.conditions[kind])
  }

  lemma OwnershipSpeaksOfItself(w: World, st: Status, c: Cluster, o: Object, kind: ConditionType)
    requires kind != SecretExclusivelyOwned
    ensures SameOf(ReportOwnership(w, st, c, o).1, st, kind)
  {
  }

  lemma NotingSpeaksOfOwnership(w: World, st: Status, c: Cluster, why: RefreshReason, desired: ClusterSecret, observed: Object, kind: ConditionType)
    requires kind != SecretExclusivelyOwned
    ensures SameOf(Noted(w, st, c, why, desired, observed).st, st, kind)
  {
    OwnershipSpeaksOfItself(w, st, c, observed, kind);
  }

  lemma InspectingSpeaksOfOwnership(w: World, st: Status, c: Cluster, env: PassEnv, kind: ConditionType)
    requires kind != SecretExclusivelyOwned
    ensures SameOf(Inspect(w, st, c, env).st, st, kind)
  {
    var w1 := OthersWrite(w, env.beforeRegistration);
    var o := ApplyRegistration(w1.secret, Desired(c, st, env.ca));
    OwnershipSpeaksOfItself(ToolWrites(w1, Registration, o, env.registration), st, c, o, kind);
  }

  lemma ReissuingSpeaksOfOwnership(w: World, st: Status, c: Cluster, why: RefreshReason, env: PassEnv, kind: ConditionType)
    requires kind != SecretExclusivelyOwned
    ensures SameOf(Reissue(w, st, c, why, env).st, st, kind)
  {
    if env.Proves() {
      NotingSpeaksOfOwnership(AfterObserving(w, st, c, env), st, c, why, Minted(c, st, env),
                              ObservedBy(AfterPublishing(w, st, c, env), st, c, env), kind);
    }
  }

  lemma AfterReachingNothingElse(w: World, st: Status, c: Cluster, env: PassEnv, kind: ConditionType)
    requires kind != SecretExclusivelyOwned && kind != ServingCertificateValid
    ensures SameOf(Reconcile(w, st, c, env).st, Reach(w, st, c, env).st, kind)
  {
    var (p, recreated) := Prepare(w, st, c, env);
    assert SameOf(p.st, Reach(w, st, c, env).st, kind);
    if p.Continue? {
      InspectingSpeaksOfOwnership(p.w, p.st, c, env, kind);
      var i := Inspect(p.w, p.st, c, env);
      if i.Inspected? {
        ReissuingSpeaksOfOwnership(i.w, i.st, c, Why(i.st, i.published, c, recreated, env), env, kind);
      }
    }
  }

  /** What stops a renewal that is due. */
  function RenewalObstacle(env: RenewEnv): Option<Reason> {
    if env.mint.None? || env.mint.value.value == "" then Some(RenewalMintFailed)
    else if !env.client || !env.verify then Some(RenewalUnverified)
    else if env.store != Credentials.Done then Some(RenewalNotStored)
    else None
  }

  /** Whether a pass that gets as far finds its own credential due. */
  predicate FindsItDue(w: World, prior: Status, c: Cluster, env: PassEnv)
    requires Credentials.ReadCredentials(w.stored).Found?
  {
    var expiresAt := Credentials.ReadCredentials(w.stored).creds.expiresAt;
    expiresAt == 0 || SelfCredentialDue(c.selfTokenTTL, TimeOf(prior.selfCredentialIssuedAt), expiresAt, env.now)
  }

  lemma ReachingReportsRenewal(w: World, st: Status, c: Cluster, env: PassEnv)
    ensures var r := Reach(w, st, c, env).st;
      if ReachObstacle(w.stored, env).Some? then SameOf(r, st, SelfCredentialValid)
      else if !FindsItDue(w, st, c, env) || RenewalObstacle(env.renew).None? then Says(r, SelfCredentialValid, Yes, ReasonReady)
      else Says(r, SelfCredentialValid, No, RenewalObstacle(env.renew).value)
  {
  }

  lemma ReachingSpeaksOfRenewal(w: World, st: Status, c: Cluster, env: PassEnv, kind: ConditionType)
    requires kind != SelfCredentialValid
    ensures SameOf(Reach(w, st, c, env).st, st, kind)
  {
    var read := Credentials.ReadCredentials(w.stored);
    if read.Found? {
      var mirrored := Mirrored(st, read.creds);
      MaintainingSpeaksOfRenewal(SelfState(w.stored, mirrored, w.events), c.selfTokenTTL, read.creds, env.renew, env.now, kind);
      assert SameOf(mirrored, st, kind);
    }
  }

  lemma MaintainingSpeaksOfRenewal(s: SelfState, requested: int, access: Credentials.Creds, env: RenewEnv, now: int, kind: ConditionType)
    requires kind != SelfCredentialValid
    ensures SameOf(Maintain(s, requested, access, env, now).status, s.status, kind)
  {
  }

  lemma ConcludingSpeaksOfReady(f: Finished, c: Cluster, env: PassEnv, kind: ConditionType)
    requires kind != Ready
    ensures SameOf(Concluded(f, c, env).st, f.st, kind)
  {
  }

  /** A pass that gets as far says its own credential is valid exactly if it is not due or was renewed,
      and otherwise names the step renewal failed at; one that does not says of it what was said. */
  lemma ReportsItsOwnCredential(w: World, ns: string, c: Cluster, prior: Status, generation: int, env: PassEnv)
    ensures var st := ClusterPass(w, ns, c, prior, generation, env).st;
      if ReachObstacle(w.stored, env).Some? then SameOf(st, prior, SelfCredentialValid)
      else if !FindsItDue(w, prior, c, env) || RenewalObstacle(env.renew).None? then Says(st, SelfCredentialValid, Yes, ReasonReady)
      else Says(st, SelfCredentialValid, No, RenewalObstacle(env.renew).value)
  {
    var st := Begun(prior, ns, c, generation);
    ReachingReportsRenewal(w, st, c, env);
    AfterReachingNothingElse(w, st, c, env, SelfCredentialValid);
    ConcludingSpeaksOfReady(Reconcile(w, st, c, env), c, env, SelfCredentialValid);
  }

  /** Of a conflict and of the schema a pass says nothing. */
  lemma LeavesOtherConditions(w: World, ns: string, c: Cluster, prior: Status, generation: int, env: PassEnv, kind: ConditionType)
    requires kind == Conflict || kind == SchemaCurrent
    ensures SameOf(ClusterPass(w, ns, c, prior, generation, env).st, prior, kind)
  {
    var st := Begun(prior, ns, c, generation);
    ReachingSpeaksOfRenewal(w, st, c, env, kind);
    AfterReachingNothingElse(w, st, c, env, kind);
    ConcludingSpeaksOfReady(Reconcile(w, st, c, env), c, env, kind);
  }

  // ---- Events ----------------------------------------------------------------------------------------------------

  function Times(events: seq<Event>, e: Event): nat { multiset(events)[e] }

  lemma MoreEvents(a: seq<Event>, b: seq<Event>, e: Event)
    ensures Times(a + b, e) == Times(a, e) + Times(b, e)
  {
  }

  lemma ReachingSaysNothingElse(w: World, st: Status, c: Cluster, env: PassEnv, e: Event)
    requires e == Warning(IdentityRestored) || e == Normal(CredentialReissued)
    ensures Times(Reach(w, st, c, env).w.events, e) == Times(w.events, e)
  {
    SelfRuns.ReachIsASelfPass(w, st, c, env);
    var s, access := SelfState(w.stored, st, w.events), SelfRuns.AccessOf(env);
    MaintainStep(s, c.selfTokenTTL, access, env.renew, env.now);
    MoreEvents(w.events, Said(FailingRenewal(st), OutcomeOf(s, c.selfTokenTTL, access, env.renew, env.now)), e);
  }

  /** The pass makes the account or the binding itself. */
  predicate Repairs(w: World, c: Cluster, env: PassEnv) {
    && ReachObstacle(w.stored, env).None? && IdentityObstacle(w.downstream, c, env).None?
    && (|| (Who(c) !in w.downstream.accounts && !env.account.rival)
        || (Who(c).name + "-role-binding" !in w.downstream.bindings && env.binding.rival.None?))
  }

  lemma PreparingSays(w: World, st: Status, c: Cluster, env: PassEnv, e: Event)
    requires e == Warning(IdentityRestored) || e == Normal(CredentialReissued)
    ensures var p := Prepare(w, st, c, env).0;
      Times(p.w.events, e) == Times(w.events, e) + if e == Warning(IdentityRestored) && Repairs(w, c, env) then 1 else 0
  {
    ReachingSaysNothingElse(w, st, c, env, e);
    ReachingReports(w, st, c, env);
    ReachLeavesTheSecret(w, st, c, env);
    var r := Reach(w, st, c, env);
    if r.Continue? {
      IdentitySays(r.w, r.st, c, env, e);
      ProbeLeavesTheSecret(EnsureIdentity(r.w, r.st, c, env).0.w, EnsureIdentity(r.w, r.st, c, env).0.st, c, env);
    }
  }

  lemma IdentitySays(w: World, st: Status, c: Cluster, env: PassEnv, e: Event)
    requires e == Warning(IdentityRestored) || e == Normal(CredentialReissued)
    ensures var made := IdentityObstacle(w.downstream, c, env).None?
        && (|| (Who(c) !in w.downstream.accounts && !env.account.rival)
            || (Who(c).name + "-role-binding" !in w.downstream.bindings && env.binding.rival.None?));
      Times(EnsureIdentity(w, st, c, env).0.w.events, e)
        == Times(w.events, e) + if e == Warning(IdentityRestored) && made then 1 else 0
  {
    IdentityReports(w, st, c, env);
    if IdentityObstacle(w.downstream, c, env).None? {
      D.AccountEnsured(w.downstream, Who(c), env.account);
      D.BindingEnsured(D.EnsureServiceAccount(w.downstream, Who(c), env.account).0, Who(c).name + "-role-binding",
                       c.clusterRole, Who(c), env.binding);
      MoreEvents(w.events, [Warning(IdentityRestored)], e);
    }
  }

  lemma OwnershipSaysNothingElse(w: World, st: Status, c: Cluster, o: Object, e: Event)
    requires e == Warning(IdentityRestored) || e == Normal(CredentialReissued)
    ensures Times(ReportOwnership(w, st, c, o).0.events, e) == Times(w.events, e)
  {
    MoreEvents(w.events, [Warning(ForeignFieldManager)], e);
  }

  lemma InspectingSaysNothingElse(w: World, st: Status, c: Cluster, env: PassEnv, e: Event)
    requires e == Warning(IdentityRestored) || e == Normal(CredentialReissued)
    ensures Times(Inspect(w, st, c, env).w.events, e) == Times(w.events, e)
  {
    var w1 := OthersWrite(w, env.beforeRegistration);
    var o := ApplyRegistration(w1.secret, Desired(c, st, env.ca));
    OwnershipSaysNothingElse(ToolWrites(w1, Registration, o, env.registration), st, c, o, e);
  }

  lemma NotingSays(w: World, st: Status, c: Cluster, why: RefreshReason, desired: ClusterSecret, observed: Object, e: Event)
    requires e == Warning(IdentityRestored) || e == Normal(CredentialReissued)
    ensures var r := Noted(w, st, c, why, desired, observed);
      Times(r.w.events, e) == Times(w.events, e) + if e == Normal(CredentialReissued) && r.failure == None then 1 else 0
  {
    OwnershipSaysNothingElse(w, st, c, observed, e);
    MoreEvents(ReportOwnership(w, st, c, observed).0.events, [Normal(CredentialReissued)], e);
  }

  lemma ReissuingSays(w: World, st: Status, c: Cluster, why: RefreshReason, env: PassEnv, e: Event)
    requires e == Warning(IdentityRestored) || e == Normal(CredentialReissued)
    ensures var r := Reissue(w, st, c, why, env);
      Times(r.w.events, e) == Times(w.events, e) + if e == Normal(CredentialReissued) && r.failure == None then 1 else 0
  {
    if env.Proves() {
      NotingSays(AfterObserving(w, st, c, env), st, c, why, Minted(c, st, env),
                 ObservedBy(AfterPublishing(w, st, c, env), st, c, env), e);
    }
  }

  lemma OncePreparedSays(w: World, st: Status, c: Cluster, recreated: bool, env: PassEnv, e: Event)
    requires e == Warning(IdentityRestored) || e == Normal(CredentialReissued)
    requires Inspect(w, st, c, env).Inspected?
    ensures var i := Inspect(w, st, c, env);
      var r := Reissue(i.w, i.st, c, Why(i.st, i.published, c, recreated, env), env);
      && Times(i.w.events, e) == Times(w.events, e)
      && Times(r.w.events, e) == Times(w.events, e) + (if e == Normal(CredentialReissued) && r.failure == None then 1 else 0)
      && (r.failure == None ==> r.st.lastAction.Reissued?)
  {
    InspectingSaysNothingElse(w, st, c, env, e);
    var i := Inspect(w, st, c, env);
    var why := Why(i.st, i.published, c, recreated, env);
    ReissuingSays(i.w, i.st, c, why, env, e);
    ReissueRecords(i.w, i.st, c, why, env);
  }

  /** A pass records that it restored ArgoCD's identity exactly if it ensured it and made a part of it
      itself, even if it fails afterwards; and that it reissued the credential exactly if it did. */
  lemma RecordsWhatItDid(w: World, ns: string, c: Cluster, prior: Status, generation: int, env: PassEnv, e: Event)
    requires e == Warning(IdentityRestored) || e == Normal(CredentialReissued)
    ensures var r := ClusterPass(w, ns, c, prior, generation, env);
      Times(r.w.events, e) == Times(w.events, e)
        + if e == Warning(IdentityRestored) then if Repairs(w, c, env) then 1 else 0
          else if r.failure == None && r.st.lastAction.Reissued? then 1 else 0
  {
    var st := Begun(prior, ns, c, generation);
    PreparingSays(w, st, c, env, e);
    var (p, recreated) := Prepare(w, st, c, env);
    if p.Continue? {
      InspectingSaysNothingElse(p.w, p.st, c, env, e);
      if Inspect(p.w, p.st, c, env).Inspected? {
        OncePreparedSays(p.w, p.st, c, recreated, env, e);
      }
    }
    ConcludingKeepsMemory(Reconcile(w, st, c, env), c, env);
  }
}
