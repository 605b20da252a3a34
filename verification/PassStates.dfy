/** What ArgoCD can see while a pass runs, what a settled connection looks like, and what a
    pass does about a credential that was taken away. */
module PassStates {
  import opened Text
  import opened Api
  import opened Config
  import opened ServerSideApply
  import opened ArgoCD
  import opened SelfRenewal
  import opened Pass
  import opened PassProperties
  import Credentials
  import D = Downstream

  // ---- Every state of the Secret -----------------------------------------------------------

  /** The state the Secret was in just before the one at `i`. */
  function Previous(w: World, trace: seq<Seen>, i: nat): Option<Object>
    requires |w.trace| <= i < |trace|
  {
    if i == |w.trace| then w.secret else trace[i - 1].state
  }

  function CredentialIn(live: Option<Object>): Option<Bytes> {
    if live.Some? && CONFIG in live.value.fields then Some(live.value.fields[CONFIG]) else None
  }

  /** What one write of this tool's does: a registration goes on with the credential as it was, and
      a credential is one that was proved, with the label as it was. */
  predicate Wrote(was: Option<Object>, half: Manager, now: Option<Object>, env: PassEnv) {
    if half == Registration then CredentialIn(now) == CredentialIn(was) && VisibleToArgoCD(now)
    else && half == Credential && env.Proves()
         && CredentialIn(now) == Some(ClusterConfig(env.mint.value.value, env.ca, ""))
         && VisibleToArgoCD(now) == VisibleToArgoCD(was)
  }

  ghost predicate Extends(w: World, r: World, env: PassEnv) {
    && |w.trace| <= |r.trace| && r.trace[..|w.trace|] == w.trace
    && r.secret == (if |r.trace| == |w.trace| then w.secret else r.trace[|r.trace| - 1].state)
    && Split(r.secret)
    && (forall i :: |w.trace| <= i < |r.trace| && r.trace[i].ByTool? ==>
          Wrote(Previous(w, r.trace, i), r.trace[i].half, r.trace[i].state, env))
  }

  lemma OthersExtend(w: World, r: World, ws: seq<ForeignWrite>, env: PassEnv)
    requires Extends(w, r, env) && Foreign(ws)
    ensures Extends(w, OthersWrite(r, ws), env)
  {
    ForeignWritesKeepSplit(ws, r.secret);
    var n := OthersWrite(r, ws);
    forall i | |w.trace| <= i < |n.trace| && n.trace[i].ByTool?
      ensures Wrote(Previous(w, n.trace, i), n.trace[i].half, n.trace[i].state, env)
    {
      assert i < |r.trace| && n.trace[i] == r.trace[i] && Previous(w, n.trace, i) == Previous(w, r.trace, i);
    }
  }

  lemma ToolExtends(w: World, r: World, half: Manager, o: Object, reply: Credentials.Reply, env: PassEnv)
    requires Extends(w, r, env) && Split(Some(o)) && Wrote(r.secret, half, Some(o), env)
    ensures Extends(w, ToolWrites(r, half, o, reply), env)
  {
    var n := ToolWrites(r, half, o, reply);
    forall i | |w.trace| <= i < |n.trace| && n.trace[i].ByTool?
      ensures Wrote(Previous(w, n.trace, i), n.trace[i].half, n.trace[i].state, env)
    {
      if i < |r.trace| {
        assert n.trace[i] == r.trace[i] && Previous(w, n.trace, i) == Previous(w, r.trace, i);
      } else {
        assert Previous(w, n.trace, i) == r.secret;
      }
    }
  }

  lemma RegistrationExtends(w: World, r: World, c: ClusterSecret, reply: Credentials.Reply, env: PassEnv)
    requires Extends(w, r, env)
    ensures Extends(w, ToolWrites(r, Registration, ApplyRegistration(r.secret, c), reply), env)
  {
    RegistrationKeepsTheCredential(r.secret, c);
    ToolExtends(w, r, Registration, ApplyRegistration(r.secret, c), reply, env);
  }

  lemma InspectExtends(w: World, r: World, st: Status, c: Cluster, env: PassEnv)
    requires Extends(w, r, env) && env.OthersAreForeign()
    ensures Extends(w, Inspect(r, st, c, env).w, env)
  {
    if !First(st) {
      OthersExtend(w, r, env.beforeRegistration, env);
      RegistrationExtends(w, OthersWrite(r, env.beforeRegistration), Desired(c, st, env.ca), env.registration, env);
    }
  }

  lemma PublishingExtends(w: World, r: World, st: Status, c: Cluster, env: PassEnv)
    requires Extends(w, r, env) && env.OthersAreForeign() && env.Proves()
    ensures Extends(w, AfterPublishing(r, st, c, env), env)
  {
    var desired := Minted(c, st, env);
    OthersExtend(w, r, env.beforeCredential, env);
    var w1 := OthersWrite(r, env.beforeCredential);
    CredentialKeepsTheRegistration(w1.secret, desired, Label(SecretTypeLabel));
    ToolExtends(w, w1, Credential, ApplyCredential(w1.secret, desired), env.credential, env);
  }

  lemma ReissueExtends(w: World, r: World, st: Status, c: Cluster, why: RefreshReason, env: PassEnv)
    requires Extends(w, r, env) && env.OthersAreForeign()
    ensures Extends(w, Reissue(r, st, c, why, env).w, env)
  {
    ReissueWrites(r, st, c, why, env);
    if env.Proves() {
      PublishingExtends(w, r, st, c, env);
      var w2 := AfterPublishing(r, st, c, env);
      OthersExtend(w, w2, env.beforeObservation, env);
      RegistrationExtends(w, OthersWrite(w2, env.beforeObservation), Minted(c, st, env), env.observation, env);
    }
  }

  /** However calls fail and whatever others write in between, every single write a pass makes
      to the Secret either applies the registration and leaves the credential exactly as the write
      found it, or publishes a token this pass minted and saw accepted and leaves the label as it
      was. */
  lemma EveryWriteKeepsOrProves(w: World, ns: string, c: Cluster, prior: Status, generation: int, env: PassEnv)
    requires Split(w.secret) && env.OthersAreForeign()
    ensures Extends(w, ClusterPass(w, ns, c, prior, generation, env).w, env)
  {
    var st := Begun(prior, ns, c, generation);
    PrepareLeavesTheSecret(w, st, c, env);
    var (p, recreated) := Prepare(w, st, c, env);
    assert Extends(w, p.w, env);
    if p.Continue? {
      InspectExtends(w, p.w, p.st, c, env);
      var i := Inspect(p.w, p.st, c, env);
      if i.Inspected? {
        ReissueExtends(w, i.w, i.st, c, Why(i.st, i.published, c, recreated, env), env);
      }
    }
    ConcludingKeepsMemory(Reconcile(w, st, c, env), c, env);
  }

  // ---- The label never goes on without a credential behind it ----------------------------------

  predicate Safe(live: Option<Object>) { VisibleToArgoCD(live) ==> HasCredential(live) }

  ghost predicate AllSafe(w: World, r: World) {
    |w.trace| <= |r.trace| && forall i :: |w.trace| <= i < |r.trace| ==> Safe(r.trace[i].state)
  }

  lemma CredentialDecides(a: Option<Object>, b: Option<Object>)
    requires CredentialIn(a) == CredentialIn(b)
    ensures HasCredential(a) == HasCredential(b)
  {
  }

  lemma InspectSafety(w: World, r: World, st: Status, c: Cluster, env: PassEnv)
    requires r.secret == w.secret && r.trace == w.trace && Split(w.secret) && Safe(w.secret) && env.Undisturbed()
    ensures var n := Inspect(r, st, c, env).w;
      && Safe(n.secret) == (AllSafe(w, n))
      && AllSafe(w, n) == (First(st) || HasCredential(w.secret) || env.registration == Credentials.Refused)
      && |n.trace| >= |w.trace| && n.trace[..|w.trace|] == w.trace
      && Split(n.secret)
  {
    if !First(st) {
      var d := Desired(c, st, env.ca);
      RegistrationKeepsTheCredential(r.secret, d);
      CredentialDecides(r.secret, Some(ApplyRegistration(r.secret, d)));
      var n := Inspect(r, st, c, env).w;
      if env.registration != Credentials.Refused {
        assert n.trace == w.trace + [ByTool(Registration, Some(ApplyRegistration(r.secret, d)))];
        assert n.trace[|w.trace|].state == n.secret;
      }
    }
  }

  lemma SafeStep(w: World, r: World, half: Manager, o: Object, reply: Credentials.Reply)
    requires |w.trace| <= |r.trace| && HasCredential(Some(o))
    ensures AllSafe(w, ToolWrites(r, half, o, reply)) == AllSafe(w, r)
    ensures |w.trace| <= |ToolWrites(r, half, o, reply).trace|
  {
    var n := ToolWrites(r, half, o, reply);
    assert forall i :: 0 <= i < |r.trace| ==> n.trace[i] == r.trace[i];
  }

  lemma ReissueSafety(w: World, r: World, st: Status, c: Cluster, why: RefreshReason, env: PassEnv)
    requires |w.trace| <= |r.trace| && Split(r.secret) && env.Undisturbed()
    ensures AllSafe(w, Reissue(r, st, c, why, env).w) == AllSafe(w, r)
  {
    ReissueWrites(r, st, c, why, env);
    if env.Proves() {
      var d := Minted(c, st, env);
      CredentialKeepsTheRegistration(r.secret, d, Label(SecretTypeLabel));
      var o1 := ApplyCredential(r.secret, d);
      SafeStep(w, r, Credential, o1, env.credential);
      if env.credential == Credentials.Done {
        RegistrationKeepsTheCredential(Some(o1), d);
        var o2 := ApplyRegistration(Some(o1), d);
        CredentialDecides(Some(o1), Some(o2));
        SafeStep(w, AfterPublishing(r, st, c, env), Registration, o2, env.observation);
      }
    }
  }

  /** Whatever fails and whoever interferes, of every single write of a pass: it leaves ArgoCD a
      labelled Secret without a credential exactly if it applies the registration to a Secret that
      has none at that moment. */
  lemma LabelImpliesCredential(w: World, ns: string, c: Cluster, prior: Status, generation: int, env: PassEnv, i: nat)
    requires Split(w.secret) && env.OthersAreForeign()
    requires var trace := ClusterPass(w, ns, c, prior, generation, env).w.trace; |w.trace| <= i < |trace| && trace[i].ByTool?
    ensures var trace := ClusterPass(w, ns, c, prior, generation, env).w.trace;
      !Safe(trace[i].state) <==> trace[i].half == Registration && !HasCredential(Previous(w, trace, i))
  {
    EveryWriteKeepsOrProves(w, ns, c, prior, generation, env);
    var trace := ClusterPass(w, ns, c, prior, generation, env).w.trace;
    if trace[i].half == Registration {
      CredentialDecides(Previous(w, trace, i), trace[i].state);
    }
  }

  /** That can happen to any pass, a first one included: if the Secret is deleted between its two
      applies, the second makes it again, labelled and empty. */
  lemma FirstPassShowsALabel(w: World, ns: string, c: Cluster, prior: Status, generation: int, env: PassEnv)
    requires Split(w.secret) && First(prior) && Prepare(w, Begun(prior, ns, c, generation), c, env).0.Continue?
    requires env.beforeCredential == [] && env.beforeObservation == [Deleted] && env.Proves()
    requires env.credential == Credentials.Done && env.observation != Credentials.Refused
    ensures var r := ClusterPass(w, ns, c, prior, generation, env).w;
      && !Safe(r.secret) && |r.trace| == |w.trace| + 3 && |r.trace| > 2
      && r.trace[|r.trace| - 1] == ByTool(Registration, r.secret)
  {
    var st := Begun(prior, ns, c, generation);
    PrepareLeavesTheSecret(w, st, c, env);
    var (p, recreated) := Prepare(w, st, c, env);
    var i := Inspect(p.w, p.st, c, env);
    var why := Why(i.st, i.published, c, recreated, env);
    assert i.w == p.w && why != NotDue;
    ReissueWrites(i.w, i.st, c, why, env);
    DeletedMeansEmpty(i.w, i.st, c, env);
    ConcludingKeepsMemory(Reconcile(w, st, c, env), c, env);
  }

  lemma DeletedMeansEmpty(w: World, st: Status, c: Cluster, env: PassEnv)
    requires env.Mints() && env.beforeCredential == [] && env.beforeObservation == [Deleted]
    requires env.credential == Credentials.Done && env.observation != Credentials.Refused
    ensures var r := AfterObserving(w, st, c, env);
      && !Safe(r.secret)
      && r.trace == w.trace + [ByTool(Credential, AfterPublishing(w, st, c, env).secret), ByOthers(None), ByTool(Registration, r.secret)]
  {
    var w2 := AfterPublishing(w, st, c, env);
    assert Writes(env.beforeObservation, w2.secret) == None by {
      assert env.beforeObservation[1..] == [];
    }
    RegistrationKeepsTheCredential(None, Minted(c, st, env));
  }

  /** Left to itself a pass shows ArgoCD a labelled Secret without a credential in exactly one
      case: it is not the first, and the Secret it registers has lost its credential. */
  lemma LeftAloneTheLabelIsSafe(w: World, ns: string, c: Cluster, prior: Status, generation: int, env: PassEnv)
    requires Split(w.secret) && Safe(w.secret) && env.Undisturbed()
    requires Prepare(w, Begun(prior, ns, c, generation), c, env).0.Continue? && env.registration != Credentials.Refused
    ensures AllSafe(w, ClusterPass(w, ns, c, prior, generation, env).w) == (First(prior) || HasCredential(w.secret))
  {
    var st := Begun(prior, ns, c, generation);
    PrepareLeavesTheSecret(w, st, c, env);
    var (p, recreated) := Prepare(w, st, c, env);
    InspectSafety(w, p.w, p.st, c, env);
    var i := Inspect(p.w, p.st, c, env);
    if i.Inspected? {
      ReissueSafety(w, i.w, i.st, c, Why(i.st, i.published, c, recreated, env), env);
    }
    ConcludingKeepsMemory(Reconcile(w, st, c, env), c, env);
  }

  /** ... and a pass that does not get as far as the Secret shows nothing at all. */
  lemma StoppedPassesShowNothing(w: World, ns: string, c: Cluster, prior: Status, generation: int, env: PassEnv)
    requires Prepare(w, Begun(prior, ns, c, generation), c, env).0.Stop?
    ensures var r := ClusterPass(w, ns, c, prior, generation, env);
      r.w.secret == w.secret && r.w.trace == w.trace && r.failure.Some? && SameMemory(r.st, prior)
  {
    PrepareLeavesTheSecret(w, Begun(prior, ns, c, generation), c, env);
    ConcludingKeepsMemory(Reconcile(w, Begun(prior, ns, c, generation), c, env), c, env);
  }

  // ---- A settled connection stays as it is ------------------------------------------------------

  function DesiredOnceProbed(c: Cluster, st: Status, ca: string, notAfter: int): ClusterSecret {
    Desired(c, st.(servingCertExpiresAt := Some(notAfter)), ca)
  }

  /** Somebody else's entry on the Secret has been noticed, if there is one. */
  predicate Noticed(o: Object, st: Status, c: Cluster) {
    || ForeignManagersOf(o) == {} || c.adoptedRegistration
    || (SecretExclusivelyOwned in st.conditions && st.conditions[SecretExclusivelyOwned].reason == ForeignFieldManager)
  }

  /** The Secret carries the recorded credential and the wanted registration, and the identity
      behind it is whole. */
  predicate Settled(w: World, st: Status, c: Cluster, ca: string, notAfter: int) {
    && w.secret.Some?
    && ApplyRegistration(w.secret, DesiredOnceProbed(c, st, ca, notAfter)) == w.secret.value
    && st.appliedCredentialHash != NoDigest && HashCredential(w.secret.value) == st.appliedCredentialHash
    && st.appliedServer == c.ServerURL() && st.appliedDisplayName == c.displayName
    && st.appliedProject == c.project && st.appliedCAHash == HashCA(ca)
    && TimeOf(st.tokenExpiresAt) != 0
    && Noticed(w.secret.value, st, c)
    && c.clusterRole != "" && D.IdentityInPlace(w.downstream, Who(c), c.clusterRole)
  }

  /** Every call works, nobody interferes, and neither credential is due. */
  predicate Quiet(w: World, st: Status, c: Cluster, ca: string, notAfter: int, env: PassEnv) {
    && env.readable && env.connects && env.ca == ca && ca != ""
    && env.account.get == Credentials.Done && env.binding.get == Credentials.Done
    && env.probes && env.notAfter == notAfter && env.hostnameOk && env.trusted
    && env.Undisturbed() && env.registration == Credentials.Done
    && Connects(w.stored, env.now)
    && !SelfCredentialDue(c.selfTokenTTL, TimeOf(st.selfCredentialIssuedAt),
                          Credentials.ReadCredentials(w.stored).creds.expiresAt, env.now)
    && env.now < ReissueAt(FingerprintFrom(st), c.tokenTTL)
  }

  lemma QuietReach(w: World, st: Status, c: Cluster, ca: string, notAfter: int, env: PassEnv)
    requires Quiet(w, st, c, ca, notAfter, env)
    ensures var r := Reach(w, st, c, env);
      && r.Continue? && r.w == w && SameMemory(r.st, st)
      && r.st.selfCredentialIssuedAt == st.selfCredentialIssuedAt
      && (SecretExclusivelyOwned in r.st.conditions) == (SecretExclusivelyOwned in st.conditions)
      && (SecretExclusivelyOwned in st.conditions ==>
            r.st.conditions[SecretExclusivelyOwned] == st.conditions[SecretExclusivelyOwned])
  {
  }

  lemma QuietIdentity(w: World, st: Status, c: Cluster, ca: string, notAfter: int, env: PassEnv)
    requires Settled(w, st, c, ca, notAfter) && Quiet(w, st, c, ca, notAfter, env)
    ensures EnsureIdentity(w, st, c, env) == (Continue(w, st), false)
  {
    D.EnsuringIsIdempotent(w.downstream, Who(c), c.clusterRole, env.account, env.binding);
  }

  lemma QuietProbe(w: World, st: Status, c: Cluster, ca: string, notAfter: int, env: PassEnv)
    requires Settled(w, st, c, ca, notAfter) && Quiet(w, st, c, ca, notAfter, env)
    ensures var r := Probe(w, st, c, env);
      r.Continue? && r.w == w && SameMemory(r.st, st) && r.st.servingCertExpiresAt == Some(notAfter)
      && Settled(w, r.st, c, ca, notAfter)
  {
  }

  lemma ReachedIsSettled(w: World, st: Status, c: Cluster, ca: string, notAfter: int, env: PassEnv)
    requires Settled(w, st, c, ca, notAfter) && Quiet(w, st, c, ca, notAfter, env)
    ensures var r := Reach(w, st, c, env);
      && r.Continue? && r.w == w && SameMemory(r.st, st)
      && Settled(w, r.st, c, ca, notAfter) && Quiet(w, r.st, c, ca, notAfter, env)
  {
    QuietReach(w, st, c, ca, notAfter, env);
  }

  lemma QuietPrepare(w: World, st: Status, c: Cluster, ca: string, notAfter: int, env: PassEnv)
    requires Settled(w, st, c, ca, notAfter) && Quiet(w, st, c, ca, notAfter, env)
    ensures var (r, recreated) := Prepare(w, st, c, env);
      && r.Continue? && !recreated && r.w == w && SameMemory(r.st, st)
      && r.st.servingCertExpiresAt == Some(notAfter) && Settled(w, r.st, c, ca, notAfter)
  {
    ReachedIsSettled(w, st, c, ca, notAfter, env);
    var reached := Reach(w, st, c, env).st;
    QuietIdentity(w, reached, c, ca, notAfter, env);
    QuietProbe(w, reached, c, ca, notAfter, env);
  }

  lemma QuietInspect(w: World, st: Status, c: Cluster, ca: string, notAfter: int, env: PassEnv)
    requires Settled(w, st, c, ca, notAfter) && Quiet(w, st, c, ca, notAfter, env)
    requires st.servingCertExpiresAt == Some(notAfter)
    ensures var i := Inspect(w, st, c, env);
      && i.Inspected? && i.w == w.(trace := w.trace + [ByTool(Registration, w.secret)]) && SameMemory(i.st, st)
      && i.published == st.appliedCredentialHash && Settled(i.w, i.st, c, ca, notAfter)
      && Why(i.st, i.published, c, false, env) == NotDue
  {
    assert st.(servingCertExpiresAt := Some(notAfter)) == st;
    assert !First(st);
  }

  lemma QuietReconcile(w: World, st: Status, c: Cluster, ca: string, notAfter: int, env: PassEnv)
    requires Settled(w, st, c, ca, notAfter) && Quiet(w, st, c, ca, notAfter, env)
    ensures var f := Reconcile(w, st, c, env);
      && f.w == w.(trace := w.trace + [ByTool(Registration, w.secret)]) && f.failure == None && f.st.lastAction == UpToDate
      && SameMemory(f.st, st) && Settled(f.w, f.st, c, ca, notAfter)
  {
    QuietPrepare(w, st, c, ca, notAfter, env);
    var p := Prepare(w, st, c, env).0;
    QuietInspect(w, p.st, c, ca, notAfter, env);
  }

  lemma BeginningStaysSettled(w: World, prior: Status, ns: string, c: Cluster, generation: int, ca: string, notAfter: int, env: PassEnv)
    requires Settled(w, prior, c, ca, notAfter) && Quiet(w, prior, c, ca, notAfter, env)
    ensures var st := Begun(prior, ns, c, generation);
      Settled(w, st, c, ca, notAfter) && Quiet(w, st, c, ca, notAfter, env) && SameMemory(st, prior)
  {
  }

  /** A pass over a settled connection changes no object and records no Event, says it is up
      to date, and leaves the connection settled, so that any number of them do the same. */
  lemma SettledIsAFixedPoint(w: World, ns: string, c: Cluster, prior: Status, generation: int, ca: string, notAfter: int, env: PassEnv)
    requires Settled(w, prior, c, ca, notAfter) && Quiet(w, prior, c, ca, notAfter, env)
    ensures var r := ClusterPass(w, ns, c, prior, generation, env);
      && r.w == w.(trace := w.trace + [ByTool(Registration, w.secret)])
      && r.failure == None && r.st.lastAction == UpToDate && SameMemory(r.st, prior)
      && Settled(r.w, r.st, c, ca, notAfter)
  {
    var st := Begun(prior, ns, c, generation);
    BeginningStaysSettled(w, prior, ns, c, generation, ca, notAfter, env);
    QuietReconcile(w, st, c, ca, notAfter, env);
    ConcludingKeepsMemory(Reconcile(w, st, c, env), c, env);
    ConcludingKeepsSettled(Reconcile(w, st, c, env), c, env, ca, notAfter);
  }

  lemma EnsuredMeansInPlace(o: D.Objects, who: D.AccountName, role: string, account: D.CallEnv, binding: D.BindingEnv)
    ensures var (r, result) := D.EnsureArgoCDIdentity(o, who, role, account, binding);
      result.Ok? ==> role != "" && (D.IdentityInPlace(r, who, role) <==> D.Unspoilt(o, who, role, binding))
  {
    if role != "" {
      D.AccountEnsured(o, who, account);
      D.BindingEnsured(D.EnsureServiceAccount(o, who, account).0, who.name + "-role-binding", role, who, binding);
    }
  }

  lemma PreparedMeansInPlace(w: World, st: Status, c: Cluster, env: PassEnv)
    requires Prepare(w, st, c, env).0.Continue?
    ensures var p := Prepare(w, st, c, env).0;
      && c.clusterRole != "" && p.st.servingCertExpiresAt == Some(env.notAfter) && env.ca != ""
      && (D.IdentityInPlace(p.w.downstream, Who(c), c.clusterRole)
          <==> D.Unspoilt(w.downstream, Who(c), c.clusterRole, env.binding))
  {
    PreparedDownstream(w, st, c, env);
    EnsuredMeansInPlace(w.downstream, Who(c), c.clusterRole, env.account, env.binding);
  }

  lemma RegisteringAgain(live: Option<Object>, desired: ClusterSecret)
    requires Live(live).WellFormed()
    ensures ApplyRegistration(Some(ApplyRegistration(live, desired)), desired.(bearerToken := "")) == ApplyRegistration(live, desired)
  {
    RegistrationIgnoresTheCredential(desired, "", desired.caData, desired.tokenIssuedAt);
    RegistrationCarriesNoCredential(desired);
    ReapplyIsANoOp(live, Registration, RegistrationFields(desired));
  }

  lemma NotedSettles(w: World, st: Status, c: Cluster, why: RefreshReason, env: PassEnv, observed: Object)
    requires env.Mints() && env.mint.value.expiresAt != 0 && st.servingCertExpiresAt == Some(env.notAfter)
    requires c.clusterRole != "" && D.IdentityInPlace(w.downstream, Who(c), c.clusterRole)
    requires w.secret == Some(observed)
    requires ApplyRegistration(w.secret, Minted(c, st, env).(bearerToken := "")) == observed
    requires Noted(w, st, c, why, Minted(c, st, env), observed).failure == None
    ensures var r := Noted(w, st, c, why, Minted(c, st, env), observed); Settled(r.w, r.st, c, env.ca, env.notAfter)
  {
    var r := Noted(w, st, c, why, Minted(c, st, env), observed);
    assert DesiredOnceProbed(c, r.st, env.ca, env.notAfter) == Minted(c, st, env).(bearerToken := "");
  }

  lemma ReissueSettles(w: World, st: Status, c: Cluster, why: RefreshReason, env: PassEnv)
    requires Split(w.secret) && env.OthersAreForeign()
    requires st.servingCertExpiresAt == Some(env.notAfter)
    requires c.clusterRole != "" && D.IdentityInPlace(w.downstream, Who(c), c.clusterRole)
    requires Reissue(w, st, c, why, env).failure == None && env.mint.value.expiresAt != 0
    ensures var r := Reissue(w, st, c, why, env); Settled(r.w, r.st, c, env.ca, env.notAfter)
  {
    PublishingKeepsSplit(w, st, c, env);
    var w2 := AfterPublishing(w, st, c, env);
    ForeignWritesKeepSplit(env.beforeObservation, w2.secret);
    RegisteringAgain(OthersWrite(w2, env.beforeObservation).secret, Minted(c, st, env));
    WritesLeaveDownstream(w, st, c, env);
    NotedSettles(AfterObserving(w, st, c, env), st, c, why, env, ObservedBy(w2, st, c, env));
  }

  /** A successful reissue settles the connection, whatever was written to the Secret while it ran:
      the next pass over it, and the one after that, has nothing to do -- exactly unless somebody
      made another binding under its hands. */
  lemma ReissuingSettles(w: World, ns: string, c: Cluster, prior: Status, generation: int, env: PassEnv)
    requires Split(w.secret) && env.OthersAreForeign()
    requires var r := ClusterPass(w, ns, c, prior, generation, env);
      r.failure == None && r.st.lastAction.Reissued?
    requires env.Mints() && env.mint.value.expiresAt != 0
    ensures var r := ClusterPass(w, ns, c, prior, generation, env);
      Settled(r.w, r.st, c, env.ca, env.notAfter) <==> D.Unspoilt(w.downstream, Who(c), c.clusterRole, env.binding)
  {
    var st := Begun(prior, ns, c, generation);
    PrepareLeavesTheSecret(w, st, c, env);
    var f := Reconcile(w, st, c, env);
    ConcludingKeepsMemory(f, c, env);
    var (p, recreated) := Prepare(w, st, c, env);
    PreparedMeansInPlace(w, st, c, env);
    InspectExtends(p.w, p.w, p.st, c, env);
    InspectKeepsDownstream(p.w, p.st, c, env);
    var i := Inspect(p.w, p.st, c, env);
    ReconcilingKeepsDownstream(w, st, c, env);
    if D.Unspoilt(w.downstream, Who(c), c.clusterRole, env.binding) {
      ReissueSettles(i.w, i.st, c, Why(i.st, i.published, c, recreated, env), env);
      ConcludingKeepsSettled(f, c, env, env.ca, env.notAfter);
    }
  }

  lemma ConcludingKeepsSettled(f: Finished, c: Cluster, env: PassEnv, ca: string, notAfter: int)
    requires Settled(f.w, f.st, c, ca, notAfter) && f.failure == None
    ensures var r := Concluded(f, c, env); Settled(r.w, r.st, c, ca, notAfter)
  {
  }

  // ---- A credential that was taken away is put back --------------------------------------------

  /** A pass that looks, alone, at a Secret without the recorded credential in it does not leave
      it at that. */
  lemma AnotherCredentialIsDue(w: World, st: Status, c: Cluster, env: PassEnv)
    requires Split(w.secret) && env.Undisturbed() && w.secret.Some?
    requires st.appliedCredentialHash != NoDigest && !HasDigest(w.secret, st.appliedCredentialHash)
    ensures var r := Reconcile(w, st, c, env);
      r.failure == None ==> r.st.lastAction.Reissued? && env.Proves() && Records(r.st, MintOf(c, env, r.w.downstream))
  {
    PrepareLeavesTheSecret(w, st, c, env);
    var (p, recreated) := Prepare(w, st, c, env);
    if p.Continue? {
      var i := Inspect(p.w, p.st, c, env);
      InspectKeepsMemory(p.w, p.st, c, env);
      if i.Inspected? {
        RegistrationKeepsTheCredential(p.w.secret, Desired(c, p.st, env.ca));
        ReissueRecords(i.w, i.st, c, Why(i.st, i.published, c, recreated, env), env);
      }
    }
  }

  /** A pass that finds its credential overwritten fails with it recorded, and no later pass
      calls a Secret carrying any other credential up to date. */
  lemma OverwrittenIsReissued(w: World, ns: string, c: Cluster, prior: Status, generation: int, env: PassEnv,
                              w2: World, c2: Cluster, generation2: int, env2: PassEnv)
    requires ClusterPass(w, ns, c, prior, generation, env).failure == Some(CredentialReplaced)
    requires w2.secret == ClusterPass(w, ns, c, prior, generation, env).w.secret
    requires Split(w2.secret) && env2.Undisturbed()
    ensures var r := ClusterPass(w, ns, c, prior, generation, env);
      var r2 := ClusterPass(w2, ns, c2, r.st, generation2, env2);
      && env.Proves() && Records(r.st, MintOf(c, env, r.w.downstream))
      && !HasDigest(r.w.secret, r.st.appliedCredentialHash)
      && (r2.failure == None ==> r2.st.lastAction.Reissued? && env2.Proves() && Records(r2.st, MintOf(c2, env2, r2.w.downstream)))
  {
    var r := ClusterPass(w, ns, c, prior, generation, env);
    ReplacedWasObserved(w, Begun(prior, ns, c, generation), c, env);
    var st2 := Begun(r.st, ns, c2, generation2);
    AnotherCredentialIsDue(w2, st2, c2, env2);
    ConcludingKeepsMemory(Reconcile(w2, st2, c2, env2), c2, env2);
  }

  predicate HasDigest(live: Option<Object>, digest: Digest) {
    live.Some? && HashCredential(live.value) == digest
  }

  lemma OnlyReissuingReplaces(w: World, st: Status, c: Cluster, env: PassEnv)
    ensures var p := Prepare(w, st, c, env).0; p.Stop? ==> p.reason != CredentialReplaced
  {
  }

  lemma InspectingNeverReplaces(w: World, st: Status, c: Cluster, env: PassEnv)
    ensures var i := Inspect(w, st, c, env); i.Unseen? ==> i.reason != CredentialReplaced
  {
  }

  lemma ReissueReplaced(w: World, st: Status, c: Cluster, why: RefreshReason, env: PassEnv)
    requires Reissue(w, st, c, why, env).failure == Some(CredentialReplaced)
    ensures var r := Reissue(w, st, c, why, env);
      && env.Proves() && Records(r.st, MintOf(c, env, r.w.downstream))
      && r.w.secret.Some? && !HasDigest(r.w.secret, r.st.appliedCredentialHash)
  {
  }

  lemma ReplacedWasObserved(w: World, st: Status, c: Cluster, env: PassEnv)
    requires Concluded(Reconcile(w, st, c, env), c, env).failure == Some(CredentialReplaced)
    ensures var r := Concluded(Reconcile(w, st, c, env), c, env);
      env.Proves() && Records(r.st, MintOf(c, env, r.w.downstream)) && r.w.secret.Some? && !HasDigest(r.w.secret, r.st.appliedCredentialHash)
  {
    var (p, recreated) := Prepare(w, st, c, env);
    OnlyReissuingReplaces(w, st, c, env);
    InspectingNeverReplaces(p.w, p.st, c, env);
    var i := Inspect(p.w, p.st, c, env);
    ConcludingKeepsMemory(Reconcile(w, st, c, env), c, env);
    ReissueReplaced(i.w, i.st, c, Why(i.st, i.published, c, recreated, env), env);
  }

  // ---- A ServiceAccount that was replaced -------------------------------------------------------------

  /** Tokens of an account that had to be recreated are dead. A pass that finds the account missing
      and succeeds, whatever others write, has reissued for that reason unless somebody else made it
      first; and what it reissued is bound to the account there is. */
  lemma RecreatedMeansReissued(w: World, ns: string, c: Cluster, prior: Status, generation: int, env: PassEnv)
    requires ClusterPass(w, ns, c, prior, generation, env).failure == None && Who(c) !in w.downstream.accounts
    ensures var r := ClusterPass(w, ns, c, prior, generation, env);
      && r.w.downstream.accounts == D.WithAccount(w.downstream, Who(c), !env.account.rival).accounts
      && (r.st.lastAction == Reissued(IdentityRecreated) <==> !env.account.rival)
      && (r.st.lastAction.Reissued? ==>
            && env.Proves() && Records(r.st, MintOf(c, env, r.w.downstream))
            && Alive(MintOf(c, env, r.w.downstream), r.w.downstream))
  {
    var st := Begun(prior, ns, c, generation);
    PreparingExactly(w, st, c, env);
    ReconcilingKeepsDownstream(w, st, c, env);
    var (p, recreated) := Prepare(w, st, c, env);
    var i := Inspect(p.w, p.st, c, env);
    InspectKeepsDownstream(p.w, p.st, c, env);
    OnlyRecreatingSaysSo(i.st, i.published, c, recreated, env);
    ReissueRecords(i.w, i.st, c, Why(i.st, i.published, c, recreated, env), env);
    ConcludingKeepsMemory(Reconcile(w, st, c, env), c, env);
  }

  lemma OnlyRecreatingSaysSo(st: Status, published: Digest, c: Cluster, recreated: bool, env: PassEnv)
    ensures Why(st, published, c, recreated, env) == IdentityRecreated <==> recreated
  {
  }

  /** The Secret carries the recorded credential, and nothing the status remembers is out of date
      before `until`. */
  ghost predicate Current(w: World, st: Status, c: Cluster, ca: string, until: int) {
    && Split(w.secret) && st.appliedCredentialHash != NoDigest && HasDigest(w.secret, st.appliedCredentialHash)
    && st.appliedServer == c.ServerURL() && st.appliedDisplayName == c.displayName
    && st.appliedProject == c.project && st.appliedCAHash == HashCA(ca)
    && TimeOf(st.tokenExpiresAt) != 0 && until < ReissueAt(FingerprintFrom(st), c.tokenTTL)
  }

  /** The cluster is reached. */
  predicate Reaches(w: World, env: PassEnv) {
    env.readable && Connects(w.stored, env.now) && env.connects && env.ca != ""
  }

  /** Nothing stops the pass before the Secret. */
  predicate Prepared(w: World, c: Cluster, env: PassEnv) {
    && Reaches(w, env) && c.clusterRole != ""
    && D.AccountWorks(w.downstream, Who(c), env.account)
    && D.BindingWorks(w.downstream, Who(c), c.clusterRole, env.binding)
    && env.probes && env.hostnameOk && env.trusted
  }

  /** Nothing stops the pass before it has looked at the Secret. */
  predicate Unhindered(w: World, c: Cluster, env: PassEnv) { Prepared(w, c, env) && env.registration == Credentials.Done }

  /** The pass finds no ServiceAccount and makes one, by itself or with a rival. */
  predicate Recreates(w: World, c: Cluster, env: PassEnv) {
    && Reaches(w, env) && c.clusterRole != ""
    && Who(c) !in w.downstream.accounts && env.account.get == Credentials.Done && env.account.create != Credentials.Refused
  }

  /** It makes it by itself, and nothing stops it before its credential write may have landed. */
  predicate Replaces(w: World, c: Cluster, env: PassEnv) {
    && !env.account.rival && env.account.create == Credentials.Done
    && D.BindingWorks(w.downstream, Who(c), c.clusterRole, env.binding)
    && env.probes && env.hostnameOk && env.trusted && env.registration == Credentials.Done
    && env.Proves() && env.credential != Credentials.Refused
  }

  lemma ReachingExactly(w: World, st: Status, c: Cluster, env: PassEnv)
    ensures Reach(w, st, c, env).Continue? <==> Reaches(w, env)
  {
  }

  /** Exactly when a pass gets as far as the Secret, and what it has then made of the accounts. */
  lemma PreparingExactly(w: World, st: Status, c: Cluster, env: PassEnv)
    ensures var (p, recreated) := Prepare(w, st, c, env);
      && (p.Continue? <==> Prepared(w, c, env))
      && (p.Continue? ==> (recreated <==> Who(c) !in w.downstream.accounts && !env.account.rival))
      && p.w.downstream.accounts
         == if Recreates(w, c, env) then D.WithAccount(w.downstream, Who(c), !env.account.rival).accounts else w.downstream.accounts
  {
    ReachingExactly(w, st, c, env);
    PreparedDownstream(w, st, c, env);
    D.EnsuringExactly(w.downstream, Who(c), c.clusterRole, env.account, env.binding);
    ReachLeavesTheSecret(w, st, c, env);
  }

  lemma SameMemoryStaysCurrent(w: World, st: Status, w2: World, st2: Status, c: Cluster, ca: string, until: int)
    requires Current(w, st, c, ca, until) && SameMemory(st, st2)
    requires Split(w2.secret) && w2.secret.Some? && CredentialIn(w2.secret) == CredentialIn(w.secret)
    ensures Current(w2, st2, c, ca, until)
  {
    assert HashCredential(w2.secret.value) == HashCredential(w.secret.value);
  }

  lemma InspectingKeepsCurrent(w: World, st: Status, c: Cluster, until: int, env: PassEnv)
    requires Current(w, st, c, env.ca, until) && env.Undisturbed()
    ensures var i := Inspect(w, st, c, env);
      && Current(i.w, i.st, c, env.ca, until) && CredentialIn(i.w.secret) == CredentialIn(w.secret)
      && (i.Inspected? <==> env.registration == Credentials.Done)
      && (i.Inspected? && env.now <= until ==> Why(i.st, i.published, c, false, env) == NotDue)
  {
    RegistrationKeepsTheCredential(w.secret, Desired(c, st, env.ca));
    InspectKeepsMemory(w, st, c, env);
    var i := Inspect(w, st, c, env);
    SameMemoryStaysCurrent(w, st, i.w, i.st, c, env.ca, until);
  }

  /** What a reissue leaves as the credential in the Secret. */
  lemma ReissuePublishes(w: World, st: Status, c: Cluster, why: RefreshReason, env: PassEnv)
    requires Split(w.secret) && env.Undisturbed()
    ensures var r := Reissue(w, st, c, why, env);
      if env.Proves() && env.credential != Credentials.Refused
      then CredentialIn(r.w.secret) == Some(ClusterConfig(env.mint.value.value, env.ca, ""))
      else r.w.secret == w.secret && SameMemory(r.st, st) && r.failure.Some?
  {
    ReissueWrites(w, st, c, why, env);
    if env.Proves() && env.credential != Credentials.Refused {
      var d := Minted(c, st, env);
      CredentialKeepsTheRegistration(w.secret, d, Label(SecretTypeLabel));
      var o := ApplyCredential(w.secret, d);
      if env.credential == Credentials.Done {
        RegistrationKeepsTheCredential(Some(o), d);
      }
    }
  }

  lemma ReissueSucceedsExactly(w: World, st: Status, c: Cluster, why: RefreshReason, env: PassEnv)
    requires Split(w.secret) && env.Undisturbed()
    ensures var r := Reissue(w, st, c, why, env);
      && (r.failure == None <==> env.Proves() && env.credential == Credentials.Done && env.observation == Credentials.Done)
      && (r.failure == None ==> r.st.lastAction == Reissued(why))
  {
    if env.Proves() && env.credential == Credentials.Done {
      var d := Minted(c, st, env);
      CredentialKeepsTheRegistration(w.secret, d, Label(SecretTypeLabel));
      RegistrationKeepsTheCredential(Some(ApplyCredential(w.secret, d)), d);
    }
  }

  lemma InspectedExactly(w: World, st: Status, c: Cluster, env: PassEnv)
    requires Split(w.secret) && env.Undisturbed()
    ensures var i := Inspect(w, st, c, env);
      Split(i.w.secret) && (i.Inspected? <==> First(st) || env.registration == Credentials.Done)
  {
    InspectKeepsSplit(w, st, c, env);
  }

  /** Whether every call from the inspection on works. */
  predicate AllGoesWell(st: Status, env: PassEnv) {
    && (First(st) || env.registration == Credentials.Done)
    && env.Proves() && env.credential == Credentials.Done && env.observation == Credentials.Done
  }

  lemma RecreatedOncePrepared(w: World, st: Status, c: Cluster, env: PassEnv)
    requires var p := Prepare(w, st, c, env).0; p.Continue? && Split(p.w.secret)
    requires env.Undisturbed()
    ensures var (p, recreated) := Prepare(w, st, c, env);
      var r := Reconcile(w, st, c, env);
      (r.failure == None && r.st.lastAction == Reissued(IdentityRecreated)) <==> recreated && AllGoesWell(p.st, env)
  {
    var (p, recreated) := Prepare(w, st, c, env);
    InspectedExactly(p.w, p.st, c, env);
    var i := Inspect(p.w, p.st, c, env);
    if i.Inspected? {
      OnlyRecreatingSaysSo(i.st, i.published, c, recreated, env);
      ReissueSucceedsExactly(i.w, i.st, c, Why(i.st, i.published, c, recreated, env), env);
    }
  }

  /** Left to itself, a pass ends in a reissue because the account was missing exactly if it was,
      nobody makes it first, and each of its calls works. */
  lemma RecreatingSucceedsExactly(w: World, ns: string, c: Cluster, prior: Status, generation: int, env: PassEnv)
    requires Split(w.secret) && env.Undisturbed()
    ensures var r := ClusterPass(w, ns, c, prior, generation, env);
      (r.failure == None && r.st.lastAction == Reissued(IdentityRecreated)) <==>
        Who(c) !in w.downstream.accounts && !env.account.rival && Prepared(w, c, env) && AllGoesWell(prior, env)
  {
    var st := Begun(prior, ns, c, generation);
    PrepareLeavesTheSecret(w, st, c, env);
    PreparingExactly(w, st, c, env);
    if Prepare(w, st, c, env).0.Continue? {
      RecreatedOncePrepared(w, st, c, env);
    }
    ConcludingKeepsMemory(Reconcile(w, st, c, env), c, env);
  }

  predicate UpToDateNow(f: Finished) { f.failure == None && f.st.lastAction == UpToDate }

  /** On a current record a pass, left to itself, says up to date exactly if nothing stops it before
      it has looked and it has not made the account itself; and unless it has it leaves the
      credential and its memory of it as they were. */
  lemma UpToDateExactly(w: World, st: Status, c: Cluster, until: int, env: PassEnv)
    requires Current(w, st, c, env.ca, until) && env.now <= until && env.Undisturbed()
    ensures var r := Reconcile(w, st, c, env);
      && (UpToDateNow(r) <==> Unhindered(w, c, env) && (Who(c) in w.downstream.accounts || env.account.rival))
      && (!(Prepared(w, c, env) && Who(c) !in w.downstream.accounts && !env.account.rival) ==>
            Current(r.w, r.st, c, env.ca, until) && CredentialIn(r.w.secret) == CredentialIn(w.secret))
  {
    PrepareLeavesTheSecret(w, st, c, env);
    PreparingExactly(w, st, c, env);
    var (p, recreated) := Prepare(w, st, c, env);
    SameMemoryStaysCurrent(w, st, p.w, p.st, c, env.ca, until);
    if p.Continue? {
      InspectingKeepsCurrent(p.w, p.st, c, until, env);
      var i := Inspect(p.w, p.st, c, env);
      if i.Inspected? && recreated {
        ReissueRecords(i.w, i.st, c, IdentityRecreated, env);
      } else if i.Inspected? {
        var r := Reconcile(w, st, c, env);
        SameMemoryStaysCurrent(i.w, i.st, r.w, r.st, c, env.ca, until);
      }
    }
  }

  /** The pass that makes the account puts another credential in the Secret exactly if it makes it
      by itself and nothing stops it first; otherwise Secret and memory are as they were. */
  lemma RecreatingReplaces(w: World, st: Status, c: Cluster, until: int, env: PassEnv)
    requires Current(w, st, c, env.ca, until) && env.now <= until && env.Undisturbed() && Recreates(w, c, env)
    ensures var r := Reconcile(w, st, c, env);
      if Replaces(w, c, env) then CredentialIn(r.w.secret) == Some(ClusterConfig(env.mint.value.value, env.ca, ""))
      else Current(r.w, r.st, c, env.ca, until) && CredentialIn(r.w.secret) == CredentialIn(w.secret)
  {
    if Prepared(w, c, env) && !env.account.rival {
      PrepareLeavesTheSecret(w, st, c, env);
      PreparingExactly(w, st, c, env);
      var (p, recreated) := Prepare(w, st, c, env);
      SameMemoryStaysCurrent(w, st, p.w, p.st, c, env.ca, until);
      InspectingKeepsCurrent(p.w, p.st, c, until, env);
      RecreatedInspection(w, st, c, until, env);
    } else {
      UpToDateExactly(w, st, c, until, env);
    }
  }

  lemma RecreatedInspection(w: World, st: Status, c: Cluster, until: int, env: PassEnv)
    requires var (p, recreated) := Prepare(w, st, c, env);
      p.Continue? && recreated && Current(p.w, p.st, c, env.ca, until) && CredentialIn(p.w.secret) == CredentialIn(w.secret)
    requires env.Undisturbed()
    ensures var r := Reconcile(w, st, c, env);
      if env.registration == Credentials.Done && env.Proves() && env.credential != Credentials.Refused
      then CredentialIn(r.w.secret) == Some(ClusterConfig(env.mint.value.value, env.ca, ""))
      else Current(r.w, r.st, c, env.ca, until) && CredentialIn(r.w.secret) == CredentialIn(w.secret)
  {
    var p := Prepare(w, st, c, env).0;
    InspectingKeepsCurrent(p.w, p.st, c, until, env);
    var i := Inspect(p.w, p.st, c, env);
    if i.Inspected? {
      ReissuePublishes(i.w, i.st, c, IdentityRecreated, env);
      var r := Reissue(i.w, i.st, c, IdentityRecreated, env);
      if !(env.Proves() && env.credential != Credentials.Refused) {
        SameMemoryStaysCurrent(i.w, i.st, r.w, r.st, c, env.ca, until);
      }
    }
  }

  lemma InspectingKeepsTheCredential(w: World, st: Status, c: Cluster, env: PassEnv)
    requires Split(w.secret) && w.secret.Some? && env.Undisturbed()
    ensures CredentialIn(Inspect(w, st, c, env).w.secret) == CredentialIn(w.secret)
  {
    RegistrationKeepsTheCredential(w.secret, Desired(c, st, env.ca));
  }

  /** Any pass, left to itself, that says it is up to date has left the credential there. */
  lemma UpToDateLeavesTheCredential(w: World, st: Status, c: Cluster, env: PassEnv)
    requires Split(w.secret) && env.Undisturbed() && w.secret.Some? && UpToDateNow(Reconcile(w, st, c, env))
    ensures CredentialIn(Reconcile(w, st, c, env).w.secret) == CredentialIn(w.secret)
  {
    PrepareLeavesTheSecret(w, st, c, env);
    var (p, recreated) := Prepare(w, st, c, env);
    InspectingKeepsTheCredential(p.w, p.st, c, env);
    var i := Inspect(p.w, p.st, c, env);
    ReissueRecords(i.w, i.st, c, Why(i.st, i.published, c, recreated, env), env);
  }

  /** What a pass says is up to date may be dead. On a current record, with m the credential it
      records, a pass left to itself says so of a token whose account is no longer the one it is bound
      to exactly if it was dead before -- the account deleted, or made again under another UID, by
      whomever and whenever -- nothing stops the pass before it has looked, and it finds the account
      it is to use, or somebody else makes it under its hands. */
  lemma UpToDateOnADeadToken(w: World, ns: string, c: Cluster, prior: Status, generation: int, env: PassEnv, m: Mint)
    requires Current(w, prior, c, env.ca, env.now) && env.Undisturbed()
    requires Records(prior, m) && m.uid < w.downstream.nextUid
    ensures var r := ClusterPass(w, ns, c, prior, generation, env);
      && (UpToDateNow(r) && !Alive(m, r.w.downstream) <==>
            !Alive(m, w.downstream) && Unhindered(w, c, env) && (Who(c) in w.downstream.accounts || env.account.rival))
      && (UpToDateNow(r) ==> CredentialIn(r.w.secret) == CredentialIn(w.secret) && Records(r.st, m))
  {
    var st := Begun(prior, ns, c, generation);
    SameMemoryStaysCurrent(w, prior, w, st, c, env.ca, env.now);
    UpToDateExactly(w, st, c, env.now, env);
    PassesDecideNoLife(w, ns, c, prior, generation, env, m);
    var f := Reconcile(w, st, c, env);
    ConcludingKeepsMemory(f, c, env);
    if UpToDateNow(f) {
      UpToDateLeavesTheCredential(w, st, c, env);
      UpToDateRemembers(w, st, c, env);
    }
  }

  /** No pass ends a token's life, and none gives it back. */
  lemma PassesDecideNoLife(w: World, ns: string, c: Cluster, prior: Status, generation: int, env: PassEnv, m: Mint)
    requires m.uid < w.downstream.nextUid
    ensures Alive(m, ClusterPass(w, ns, c, prior, generation, env).w.downstream) <==> Alive(m, w.downstream)
  {
    PassAccounts(w, ns, c, prior, generation, env);
  }

  lemma UpToDateRemembers(w: World, st: Status, c: Cluster, env: PassEnv)
    requires UpToDateNow(Reconcile(w, st, c, env))
    ensures SameMemory(Reconcile(w, st, c, env).st, st)
  {
    PrepareLeavesTheSecret(w, st, c, env);
    var (p, recreated) := Prepare(w, st, c, env);
    InspectKeepsMemory(p.w, p.st, c, env);
    var i := Inspect(p.w, p.st, c, env);
    ReissueRecords(i.w, i.st, c, Why(i.st, i.published, c, recreated, env), env);
  }

  /** Provisioning does it: run again where the account is gone, it makes the account and says
      nothing of that to anybody, and the next pass that nothing stops calls the dead token up to
      date. */
  lemma ProvisionedAndForgotten(w: World, ns: string, c: Cluster, prior: Status, generation: int, env: PassEnv, m: Mint,
                                account: D.CallEnv, binding: D.BindingEnv)
    requires Current(w, prior, c, env.ca, env.now) && env.Undisturbed() && c.clusterRole != ""
    requires Records(prior, m) && m.account == Who(c) && m.uid < w.downstream.nextUid
    requires Who(c) !in w.downstream.accounts && account.Clean()
    requires var o := D.EnsureArgoCDIdentity(w.downstream, Who(c), c.clusterRole, account, binding).0;
      Unhindered(w.(downstream := o), c, env)
    ensures var o := D.EnsureArgoCDIdentity(w.downstream, Who(c), c.clusterRole, account, binding).0;
      var r := ClusterPass(w.(downstream := o), ns, c, prior, generation, env);
      UpToDateNow(r) && !Alive(m, r.w.downstream) && CredentialIn(r.w.secret) == CredentialIn(w.secret)
  {
    D.EnsuringExactly(w.downstream, Who(c), c.clusterRole, account, binding);
    var o := D.EnsureArgoCDIdentity(w.downstream, Who(c), c.clusterRole, account, binding).0;
    UpToDateOnADeadToken(w.(downstream := o), ns, c, prior, generation, env, m);
  }

  /** So does a pass that makes the account and stops. Wherever that is, and also if somebody else
      makes it under its hands, the next pass that gets as far as the Secret calls the connection up
      to date on the old credential -- unless the first made the account itself and nothing stopped
      it before its credential write landed. (A token minted for the new account is not the old
      one.) */
  lemma RecreatedAndForgotten(w: World, ns: string, c: Cluster, prior: Status, generation: int, env: PassEnv,
                              generation2: int, later: PassEnv)
    requires Current(w, prior, c, env.ca, later.now) && env.now <= later.now
    requires Recreates(w, c, env) && env.Undisturbed()
    requires env.Mints() ==> CredentialIn(w.secret) != Some(ClusterConfig(env.mint.value.value, env.ca, ""))
    requires Unhindered(ClusterPass(w, ns, c, prior, generation, env).w, c, later) && later.Undisturbed() && later.ca == env.ca
    ensures var r := ClusterPass(w, ns, c, prior, generation, env);
      var r2 := ClusterPass(r.w, ns, c, r.st, generation2, later);
      && r2.w.downstream.accounts == D.WithAccount(w.downstream, Who(c), !env.account.rival).accounts
      && (UpToDateNow(r2) && CredentialIn(r2.w.secret) == CredentialIn(w.secret) <==> !Replaces(w, c, env))
  {
    var st := Begun(prior, ns, c, generation);
    SameMemoryStaysCurrent(w, prior, w, st, c, env.ca, later.now);
    RecreatingReplaces(w, st, c, later.now, env);
    PassKeepsSplit(w, ns, c, prior, generation, env);
    ConcludingKeepsMemory(Reconcile(w, st, c, env), c, env);
    PassAccounts(w, ns, c, prior, generation, env);
    var r := ClusterPass(w, ns, c, prior, generation, env);
    PassAccounts(r.w, ns, c, r.st, generation2, later);
    var st2 := Begun(r.st, ns, c, generation2);
    var f2 := Reconcile(r.w, st2, c, later);
    if !Replaces(w, c, env) {
      SameMemoryStaysCurrent(r.w, Reconcile(w, st, c, env).st, r.w, st2, c, env.ca, later.now);
      UpToDateExactly(r.w, st2, c, later.now, later);
    }
    if UpToDateNow(f2) {
      UpToDateLeavesTheCredential(r.w, st2, c, later);
    }
    ConcludingKeepsMemory(f2, c, later);
  }

  lemma PassAccounts(w: World, ns: string, c: Cluster, prior: Status, generation: int, env: PassEnv)
    ensures ClusterPass(w, ns, c, prior, generation, env).w.downstream.accounts
      == if Recreates(w, c, env) then D.WithAccount(w.downstream, Who(c), !env.account.rival).accounts else w.downstream.accounts
  {
    var st := Begun(prior, ns, c, generation);
    PreparingExactly(w, st, c, env);
    ReconcilingKeepsDownstream(w, st, c, env);
    ConcludingKeepsMemory(Reconcile(w, st, c, env), c, env);
  }
}
