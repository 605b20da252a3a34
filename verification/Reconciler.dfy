/** The pass as the daemon runs it: one step after another on the stores it reaches and on the
    status it is filling in. Each method is held to the value-level pass. */
module Reconciler {
  import opened Text
  import opened Api
  import opened Config
  import opened ServerSideApply
  import opened ArgoCD
  import opened SelfRenewal
  import opened Pass
  import Credentials
  import D = Downstream

  datatype Result = Proceeds | Fails(reason: Reason)

  function Failure(r: Result): Option<Reason> {
    match r
    case Proceeds => None
    case Fails(reason) => Some(reason)
  }

  class Reconciler {
    var secret: Option<Object>
    var stored: Option<Credentials.Data>
    const cluster: D.Cluster
    var events: seq<Event>
    ghost var trace: seq<Seen>
    var status: Status

    constructor (secret: Option<Object>, stored: Option<Credentials.Data>, cluster: D.Cluster)
      ensures this.secret == secret && this.stored == stored && this.cluster == cluster
      ensures events == [] && trace == []
    {
      this.secret, this.stored, this.cluster := secret, stored, cluster;
      events, trace, status := [], [], EmptyStatus;
    }

    ghost function View(): World
      reads this, cluster
    {
      World(secret, stored, cluster.View(), events, trace)
    }

    method SetCondition(kind: ConditionType, truth: Truth, reason: Reason)
      modifies this`status
      ensures status == Set(old(status), kind, truth, reason)
    {
      status := status.(conditions := status.conditions[kind := Condition(truth, reason, "", status.observedGeneration)]);
    }

    // ---- The daemon's own credential ------------------------------------------------------------

    method RenewSelfCredential(ca: string, env: RenewEnv, now: int) returns (reason: Reason)
      modifies this`stored, this`status
      ensures (SelfState(stored, status, events), reason) == Renew(old(SelfState(stored, status, events)), ca, env, now)
    {
      if env.mint.None? || env.mint.value.value == "" {
        return RenewalMintFailed;
      }
      var token := env.mint.value;
      if !env.client {
        return RenewalUnverified;
      }
      if !env.verify {
        return RenewalUnverified;
      }
      if env.store != Credentials.Refused {
        stored := Some(Credentials.Merged(stored, Credentials.CredentialData(Credentials.Creds(token.value, ca, token.expiresAt))));
      }
      if env.store != Credentials.Done {
        return RenewalNotStored;
      }
      status := status.(selfCredentialExpiresAt := Some(token.expiresAt), selfCredentialIssuedAt := Some(now));
      return NoReason;
    }

    method MaintainSelfCredential(requested: int, access: Credentials.Creds, env: RenewEnv, now: int)
      modifies this`stored, this`status, this`events
      ensures SelfState(stored, status, events) == Maintain(old(SelfState(stored, status, events)), requested, access, env, now)
    {
      var issuedAt := 0;
      if status.selfCredentialIssuedAt.Some? {
        issuedAt := status.selfCredentialIssuedAt.value;
      }
      var wasFailing := FailingRenewal(status);
      if !SelfCredentialDue(requested, issuedAt, access.expiresAt, now) {
        SetCondition(SelfCredentialValid, Yes, ReasonReady);
        return;
      }
      var reason := RenewSelfCredential(access.ca, env, now);
      if reason == NoReason {
        SetCondition(SelfCredentialValid, Yes, ReasonReady);
        if wasFailing.Some? {
          events := events + [Normal(RenewalRecovered)];
        }
        return;
      }
      SetCondition(SelfCredentialValid, No, reason);
      if wasFailing != Some(reason) {
        events := events + [Warning(reason)];
      }
    }

    // ---- Up to the registration -----------------------------------------------------------------

    method Access(env: PassEnv) returns (result: Result, creds: Credentials.Creds)
      ensures result.Proceeds? ==>
        && env.readable && env.connects && Credentials.ReadCredentials(stored) == Credentials.Found(creds)
        && (creds.expiresAt == 0 || creds.expiresAt > env.now)
      ensures result.Fails? ==>
        (forall st: Status, c: Cluster :: Reach(View(), st, c, env) == Stop(View(), st, result.reason))
    {
      creds := Credentials.Creds("", "", 0);
      if !env.readable {
        return Fails(ReasonFor(env.error)), creds;
      }
      var read := Credentials.ReadCredentials(stored);
      if read.NotFound? {
        return Fails(AwaitingCredential), creds;
      }
      creds := read.creds;
      if creds.expiresAt != 0 && creds.expiresAt <= env.now {
        return Fails(CredentialExpired), creds;
      }
      if !env.connects {
        return Fails(ReasonFor(env.error)), creds;
      }
      return Proceeds, creds;
    }

    /** What is left of a stage when its outcome is a plain result. */
    ghost function AsStage(r: Result): Stage
      reads this, cluster
    {
      match r
      case Proceeds => Continue(View(), status)
      case Fails(reason) => Stop(View(), status, reason)
    }

    method ReachCluster(c: Cluster, env: PassEnv) returns (result: Result)
      modifies this`stored, this`status, this`events
      ensures AsStage(result) == old(Reach(View(), status, c, env))
    {
      var ok, creds := Access(env);
      if ok.Fails? {
        return ok;
      }
      if creds.expiresAt == 0 {
        status := status.(selfCredentialExpiresAt := None, selfCredentialIssuedAt := None);
      } else {
        status := status.(selfCredentialExpiresAt := Some(creds.expiresAt));
      }
      if env.ca == "" {
        return Fails(ReasonFor(env.error));
      }
      MaintainSelfCredential(c.selfTokenTTL, creds, env.renew, env.now);
      return Proceeds;
    }

    method RestoreIdentity(c: Cluster, env: PassEnv) returns (result: Result, recreated: bool)
      modifies this`events, cluster
      ensures (AsStage(result), recreated) == old(EnsureIdentity(View(), status, c, env))
    {
      var ensured := cluster.ArgoCDIdentity(Who(c), c.clusterRole, env.account, env.binding);
      if ensured.Err? {
        return Fails(IdentityReason(ensured.error, env)), false;
      }
      if ensured.value.Any() {
        events := events + [Warning(IdentityRestored)];
      }
      return Proceeds, ensured.value.serviceAccount;
    }

    method ProbeEndpoint(c: Cluster, env: PassEnv) returns (result: Result)
      modifies this`status
      ensures AsStage(result) == old(Probe(View(), status, c, env))
    {
      if !env.probes {
        return Fails(ReasonFor(env.error));
      }
      status := status.(servingCertExpiresAt := Some(env.notAfter), servingCertDaysRemaining := env.daysRemaining);
      if !env.hostnameOk {
        SetCondition(ServingCertificateValid, No, CertificateInvalid);
        return Fails(CertificateInvalid);
      }
      if !env.trusted {
        SetCondition(ServingCertificateValid, No, CertificateInvalid);
        return Fails(CertificateInvalid);
      }
      if env.notAfter - env.now < c.expiryWarnThreshold {
        SetCondition(ServingCertificateValid, No, CertificateInvalid);
      } else {
        SetCondition(ServingCertificateValid, Yes, ReasonReady);
      }
      return Proceeds;
    }

    // ---- The Secret --------------------------------------------------------------------------------

    method Others(ws: seq<ForeignWrite>)
      modifies this`secret, this`trace
      ensures View() == OthersWrite(old(View()), ws)
    {
      if ws != [] {
        secret := Writes(ws, secret);
        trace := trace + [ByOthers(secret)];
      }
    }

    /** One apply: what the server answers with is the object as it then stands. */
    method ApplyObject(half: Manager, o: Object, reply: Credentials.Reply)
      modifies this`secret, this`trace
      ensures View() == ToolWrites(old(View()), half, o, reply)
    {
      if reply != Credentials.Refused {
        secret := Some(o);
        trace := trace + [ByTool(half, secret)];
      }
    }

    method ReportSecretOwnership(c: Cluster, o: Object)
      modifies this`status, this`events
      ensures (View(), status) == old(ReportOwnership(View(), status, c, o))
    {
      if ForeignManagersOf(o) == {} {
        SetCondition(SecretExclusivelyOwned, Yes, ReasonReady);
        return;
      }
      if c.adoptedRegistration {
        SetCondition(SecretExclusivelyOwned, Yes, AdoptedRegistration);
        return;
      }
      var firstNotice := SecretExclusivelyOwned !in status.conditions
        || status.conditions[SecretExclusivelyOwned].reason != ForeignFieldManager;
      SetCondition(SecretExclusivelyOwned, No, ForeignFieldManager);
      if !firstNotice {
        return;
      }
      events := events + [Warning(ForeignFieldManager)];
    }

    method InspectSecret(c: Cluster, env: PassEnv) returns (result: Result, published: Digest)
      modifies this`secret, this`trace, this`status, this`events
      ensures match result
        case Proceeds => Inspected(View(), status, published) == old(Inspect(View(), status, c, env))
        case Fails(reason) => Unseen(View(), status, reason) == old(Inspect(View(), status, c, env))
    {
      published := NoDigest;
      if FingerprintFrom(status) == NoFingerprint {
        return Proceeds, published;
      }
      Others(env.beforeRegistration);
      var config := RegistrationConfig(Desired(c, status, env.ca));
      var o := Apply(secret, Registration, config);
      ApplyObject(Registration, o, env.registration);
      if env.registration != Credentials.Done {
        return Fails(ReasonFor(env.error)), published;
      }
      ReportSecretOwnership(c, o);
      return Proceeds, HashCredential(o);
    }

    method ProveCredential(env: PassEnv) returns (result: Result)
      ensures result == (if !env.Mints() || !env.newClient then Fails(ReasonFor(env.error))
                         else if !env.accepted then Fails(CredentialRejected) else Proceeds)
    {
      if env.mint.None? || env.mint.value.value == "" {
        return Fails(ReasonFor(env.error));
      }
      if !env.newClient {
        return Fails(ReasonFor(env.error));
      }
      if !env.accepted {
        return Fails(CredentialRejected);
      }
      return Proceeds;
    }

    method PublishCredential(desired: ClusterSecret, env: PassEnv) returns (result: Result)
      modifies this`secret, this`trace
      ensures var w1 := OthersWrite(old(View()), env.beforeCredential);
        && View() == ToolWrites(w1, Credential, ApplyCredential(w1.secret, desired), env.credential)
        && result == (if env.credential != Credentials.Done then Fails(ReasonFor(env.error)) else Proceeds)
    {
      Others(env.beforeCredential);
      ApplyObject(Credential, ApplyCredential(secret, desired), env.credential);
      if env.credential != Credentials.Done {
        return Fails(ReasonFor(env.error));
      }
      return Proceeds;
    }

    method Publish(c: Cluster, why: RefreshReason, env: PassEnv) returns (result: Result)
      modifies this`secret, this`trace, this`status, this`events
      ensures Finished(View(), status, Failure(result)) == old(Pass.Reissue(View(), status, c, why, env))
    {
      result := ProveCredential(env);
      if result.Fails? {
        return;
      }
      var desired := Minted(c, status, env);
      result := PublishCredential(desired, env);
      if result.Fails? {
        return;
      }
      Others(env.beforeObservation);
      var config := RegistrationConfig(desired);
      var o := Apply(secret, Registration, config);
      ApplyObject(Registration, o, env.observation);
      if env.observation != Credentials.Done {
        return Fails(ReasonFor(env.error));
      }
      result := NotePublished(c, why, desired, o);
    }

    method NotePublished(c: Cluster, why: RefreshReason, desired: ClusterSecret, observed: Object) returns (result: Result)
      modifies this`status, this`events
      ensures Finished(View(), status, Failure(result)) == old(Noted(View(), status, c, why, desired, observed))
    {
      ReportSecretOwnership(c, observed);
      var written := Sha256(Payload(desired));
      status := RecordFingerprint(status, FingerprintOf(desired).(credentialHash := written));
      if HashCredential(observed) != written {
        return Fails(CredentialReplaced);
      }
      status := status.(lastAction := Reissued(why));
      events := events + [Normal(CredentialReissued)];
      return Proceeds;
    }

    // ---- The pass ----------------------------------------------------------------------------------

    method PreparePass(c: Cluster, env: PassEnv) returns (result: Result, recreated: bool)
      modifies this`stored, this`status, this`events, cluster
      ensures (AsStage(result), recreated) == old(Prepare(View(), status, c, env))
    {
      result := ReachCluster(c, env);
      if result.Fails? {
        return result, false;
      }
      result, recreated := RestoreIdentity(c, env);
      if result.Fails? {
        return result, false;
      }
      result := ProbeEndpoint(c, env);
    }

    method ReconcileCluster(c: Cluster, env: PassEnv) returns (result: Result)
      modifies this, cluster
      ensures Finished(View(), status, Failure(result)) == old(Reconcile(View(), status, c, env))
    {
      var recreated;
      result, recreated := PreparePass(c, env);
      if result.Fails? {
        return;
      }
      var published;
      result, published := InspectSecret(c, env);
      if result.Fails? {
        return;
      }
      var reason := NeedsRefresh(FingerprintFrom(status), published, Desired(c, status, env.ca), c.tokenTTL, env.now);
      if recreated {
        reason := IdentityRecreated;
      }
      if reason == NotDue {
        status := status.(lastAction := UpToDate);
        return Proceeds;
      }
      result := Publish(c, reason, env);
    }

    /** One pass for one connection. A status is returned even on failure. */
    method RunPass(argocdNamespace: string, c: Cluster, prior: Status, generation: int, env: PassEnv)
      returns (next: Status, result: Result)
      modifies this, cluster
      ensures Finished(View(), next, Failure(result)) == old(ClusterPass(View(), argocdNamespace, c, prior, generation, env))
    {
      status := prior.(observedGeneration := generation, secret := argocdNamespace + "/" + c.secretName);
      result := ReconcileCluster(c, env);
      if result.Fails? {
        SetCondition(Ready, No, result.reason);
        status := status.(lastAction := Failed);
        return status, result;
      }
      status := status.(lastSyncTime := Some(env.now));
      if ThreatensAccess(c, status, env.now) {
        SetCondition(Ready, No, SelfCredentialExpiring);
        return status, result;
      }
      SetCondition(Ready, Yes, ReasonReady);
      return status, result;
    }
  }
}
