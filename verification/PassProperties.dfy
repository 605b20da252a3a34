/** What every pass guarantees, and what runs of them do. */
module PassProperties {
  import opened Text
  import opened Api
  import opened Config
  import opened ServerSideApply
  import opened ArgoCD
  import opened SelfRenewal
  import opened Pass
  import Credentials
  import D = Downstream

  // ---- What each stage leaves alone -----------------------------------------------------------

  /** The two statuses remember the same publication. */
  predicate SameMemory(a: Status, b: Status) {
    && a.appliedServer == b.appliedServer && a.appliedDisplayName == b.appliedDisplayName
    && a.appliedProject == b.appliedProject && a.appliedCAHash == b.appliedCAHash
    && a.appliedCredentialHash == b.appliedCredentialHash
    && a.tokenExpiresAt == b.tokenExpiresAt && a.tokenIssuedAt == b.tokenIssuedAt
  }

  lemma MaintainingKeepsMemory(s: SelfState, requested: int, access: Credentials.Creds, env: RenewEnv, now: int)
    ensures SameMemory(Maintain(s, requested, access, env, now).status, s.status)
  {
  }

  lemma ReachLeavesTheSecret(w: World, st: Status, c: Cluster, env: PassEnv)
    ensures var r := Reach(w, st, c, env);
      r.w.secret == w.secret && r.w.trace == w.trace && r.w.downstream == w.downstream && SameMemory(r.st, st)
  {
    var read := Credentials.ReadCredentials(w.stored);
    if read.Found? {
      var mirrored := Mirrored(st, read.creds);
      MaintainingKeepsMemory(SelfState(w.stored, mirrored, w.events), c.selfTokenTTL, read.creds, env.renew, env.now);
      assert SameMemory(mirrored, st);
    }
  }

  lemma ProbeLeavesTheSecret(w: World, st: Status, c: Cluster, env: PassEnv)
    ensures var r := Probe(w, st, c, env); r.w == w && SameMemory(r.st, st)
  {
  }

  lemma IdentityLeavesTheSecret(w: World, st: Status, c: Cluster, env: PassEnv)
    ensures var (r, _) := EnsureIdentity(w, st, c, env); r.w.secret == w.secret && r.w.trace == w.trace && r.st == st
  {
  }

  lemma PrepareLeavesTheSecret(w: World, st: Status, c: Cluster, env: PassEnv)
    ensures var (r, _) := Prepare(w, st, c, env);
      r.w.secret == w.secret && r.w.trace == w.trace && SameMemory(r.st, st)
  {
    ReachLeavesTheSecret(w, st, c, env);
    var reached := Reach(w, st, c, env);
    if reached.Continue? {
      IdentityLeavesTheSecret(reached.w, reached.st, c, env);
      var ensured := EnsureIdentity(reached.w, reached.st, c, env).0;
      ProbeLeavesTheSecret(ensured.w, ensured.st, c, env);
    }
  }

  lemma InspectKeepsMemory(w: World, st: Status, c: Cluster, env: PassEnv)
    ensures SameMemory(Inspect(w, st, c, env).st, st)
  {
  }

  /** What an inspection saw: nothing on a first pass, and otherwise exactly the credential
      the Secret carries, which the apply that looked at it has not touched. */
  lemma InspectionIsFaithful(w: World, st: Status, c: Cluster, env: PassEnv)
    requires Split(w.secret) && Foreign(env.beforeRegistration)
    requires Inspect(w, st, c, env).Inspected? && !First(st)
    ensures var r := Inspect(w, st, c, env);
      && r.w.secret.Some? && Split(r.w.secret) && VisibleToArgoCD(r.w.secret)
      && r.published == HashCredential(r.w.secret.value)
      && Data(ServerKey) in r.w.secret.value.fields
      && r.w.secret.value.fields[Data(ServerKey)] == Plain(c.ServerURL())
  {
    ForeignWritesKeepSplit(env.beforeRegistration, w.secret);
    var w1 := OthersWrite(w, env.beforeRegistration);
    RegistrationKeepsTheCredential(w1.secret, Desired(c, st, env.ca));
    ControllerOwnedFieldsWin(Desired(c, st, env.ca));
    ApplyFieldwise(w1.secret, Registration, RegistrationFields(Desired(c, st, env.ca)), Data(ServerKey));
  }

  // ---- The recorded digest ---------------------------------------------------------------------

  /** A credential this tool minted for ArgoCD and saw accepted: where and by which CA, and the
      account it is bound to, by UID. */
  datatype Mint = Mint(token: string, ca: string, server: string, account: D.AccountName, uid: nat, issuedAt: int, expiresAt: int)

  function MintOf(c: Cluster, env: PassEnv, o: D.Objects): Mint
    requires env.Mints()
  {
    Mint(env.mint.value.value, env.ca, c.ServerURL(), Who(c), if Who(c) in o.accounts then o.accounts[Who(c)].uid else 0,
         env.now, env.mint.value.expiresAt)
  }

  /** Its account is still the one it is bound to. */
  predicate Alive(m: Mint, o: D.Objects) { m.account in o.accounts && o.accounts[m.account].uid == m.uid }

  predicate Records(st: Status, m: Mint) {
    && st.appliedCredentialHash == Sha256(ClusterConfig(m.token, m.ca, ""))
    && st.appliedServer == m.server && st.appliedCAHash == HashCA(m.ca)
    && st.tokenIssuedAt == Some(m.issuedAt) && st.tokenExpiresAt == Some(m.expiresAt)
  }

  lemma ReissueRecords(w: World, st: Status, c: Cluster, why: RefreshReason, env: PassEnv)
    ensures var r := Reissue(w, st, c, why, env);
      && (SameMemory(r.st, st) || (env.Proves() && Records(r.st, MintOf(c, env, w.downstream))))
      && (r.failure == None ==> env.Proves() && Records(r.st, MintOf(c, env, w.downstream)) && r.st.lastAction == Reissued(why))
  {
  }

  lemma ConcludingKeepsMemory(f: Finished, c: Cluster, env: PassEnv)
    ensures SameMemory(Concluded(f, c, env).st, f.st) && Concluded(f, c, env).failure == f.failure
    ensures Concluded(f, c, env).w == f.w
    ensures f.failure == None ==> Concluded(f, c, env).st.lastAction == f.st.lastAction
  {
  }

  lemma PreparedHasAnAccount(w: World, st: Status, c: Cluster, env: PassEnv)
    requires Prepare(w, st, c, env).0.Continue?
    ensures Who(c) in Prepare(w, st, c, env).0.w.downstream.accounts
  {
    var r := Reach(w, st, c, env);
    D.AccountEnsured(r.w.downstream, Who(c), env.account);
  }

  lemma InspectKeepsDownstream(w: World, st: Status, c: Cluster, env: PassEnv)
    ensures var i := Inspect(w, st, c, env); i.w.downstream == w.downstream && i.st.servingCertExpiresAt == st.servingCertExpiresAt
  {
  }

  lemma ReconcilingKeepsDownstream(w: World, st: Status, c: Cluster, env: PassEnv)
    ensures Reconcile(w, st, c, env).w.downstream == Prepare(w, st, c, env).0.w.downstream
  {
    var (p, recreated) := Prepare(w, st, c, env);
    if p.Continue? {
      InspectKeepsDownstream(p.w, p.st, c, env);
      var i := Inspect(p.w, p.st, c, env);
      if i.Inspected? {
        ReissueWrites(i.w, i.st, c, Why(i.st, i.published, c, recreated, env), env);
      }
    }
  }

  /** Whatever happens in a pass, it leaves the recorded publication alone or replaces it whole
      with one it minted for the account that is there and saw accepted: no digest of a response is
      ever recorded. */
  lemma OnlyOwnMintsAreRecorded(w: World, ns: string, c: Cluster, prior: Status, generation: int, env: PassEnv)
    ensures var r := ClusterPass(w, ns, c, prior, generation, env);
      || SameMemory(r.st, prior)
      || (env.Proves() && Records(r.st, MintOf(c, env, r.w.downstream)) && Alive(MintOf(c, env, r.w.downstream), r.w.downstream))
  {
    var st := Begun(prior, ns, c, generation);
    PrepareLeavesTheSecret(w, st, c, env);
    var (p, recreated) := Prepare(w, st, c, env);
    ReconcilingKeepsDownstream(w, st, c, env);
    if p.Continue? {
      PreparedHasAnAccount(w, st, c, env);
      InspectKeepsMemory(p.w, p.st, c, env);
      var i := Inspect(p.w, p.st, c, env);
      if i.Inspected? {
        ReissueRecords(i.w, i.st, c, Why(i.st, i.published, c, recreated, env), env);
      }
    }
    ConcludingKeepsMemory(Reconcile(w, st, c, env), c, env);
  }

  lemma PrepareKeepsGeneration(w: World, st: Status, c: Cluster, env: PassEnv)
    ensures Prepare(w, st, c, env).0.st.observedGeneration == st.observedGeneration
  {
    assert Reach(w, st, c, env).st.observedGeneration == st.observedGeneration;
  }

  lemma InspectKeepsGeneration(w: World, st: Status, c: Cluster, env: PassEnv)
    ensures Inspect(w, st, c, env).st.observedGeneration == st.observedGeneration
  {
  }

  lemma ReissueKeepsGeneration(w: World, st: Status, c: Cluster, why: RefreshReason, env: PassEnv)
    ensures Reissue(w, st, c, why, env).st.observedGeneration == st.observedGeneration
  {
  }

  /** Success or failure, a pass reports the generation it was given, which is what keeps an edit
      that lands while it runs visible. */
  lemma ReportsItsGeneration(w: World, ns: string, c: Cluster, prior: Status, generation: int, env: PassEnv)
    ensures ClusterPass(w, ns, c, prior, generation, env).st.observedGeneration == generation
  {
    var st := Begun(prior, ns, c, generation);
    PrepareKeepsGeneration(w, st, c, env);
    var (p, recreated) := Prepare(w, st, c, env);
    InspectKeepsGeneration(p.w, p.st, c, env);
    var i := Inspect(p.w, p.st, c, env);
    if i.Inspected? {
      ReissueKeepsGeneration(i.w, i.st, c, Why(i.st, i.published, c, recreated, env), env);
    }
    assert Reconcile(w, st, c, env).st.observedGeneration == generation;
  }

  // ---- Up to date means what it says ---------------------------------------------------------------

  ghost predicate Ledgered(st: Status, mints: set<Mint>) {
    st.appliedCredentialHash == NoDigest || exists m :: m in mints && m.issuedAt > 0 && Records(st, m)
  }

  /** The Secret holds credential m, registered at the server it was minted for. */
  predicate Publishes(live: Option<Object>, m: Mint) {
    && VisibleToArgoCD(live)
    && CONFIG in live.value.fields && live.value.fields[CONFIG] == ClusterConfig(m.token, m.ca, "")
    && Data(ServerKey) in live.value.fields && live.value.fields[Data(ServerKey)] == Plain(m.server)
  }

  predicate BeforeHalfLife(m: Mint, now: int) {
    now < m.issuedAt + Truncated(m.expiresAt - m.issuedAt, 2)
  }

  lemma NotDueMeansPublished(w: World, st: Status, c: Cluster, env: PassEnv, mints: set<Mint>) returns (m: Mint)
    requires Split(w.secret) && Foreign(env.beforeRegistration)
    requires Ledgered(st, mints) && st.appliedCredentialHash != NoDigest && env.ca != ""
    requires var i := Inspect(w, st, c, env); i.Inspected? && Why(i.st, i.published, c, false, env) == NotDue
    ensures m in mints && Publishes(Inspect(w, st, c, env).w.secret, m)
    ensures m.server == c.ServerURL() && m.ca == env.ca && BeforeHalfLife(m, env.now)
  {
    var i := Inspect(w, st, c, env);
    InspectKeepsMemory(w, st, c, env);
    m :| m in mints && m.issuedAt > 0 && Records(st, m);
    InspectionIsFaithful(w, st, c, env);
    LeftInPlaceMeansCurrent(FingerprintFrom(i.st), i.published, Desired(c, i.st, env.ca), c.tokenTTL, env.now);
  }

  /** A pass that ends up to date saw, in the Secret, a credential this tool minted and proved
      earlier, for the server and CA it would publish now, and not past half its life. */
  lemma UpToDateIsSound(w: World, ns: string, c: Cluster, prior: Status, generation: int, env: PassEnv, mints: set<Mint>)
    returns (m: Mint)
    requires Split(w.secret) && Foreign(env.beforeRegistration)
    requires Ledgered(prior, mints) && prior.appliedCredentialHash != NoDigest
    requires var r := ClusterPass(w, ns, c, prior, generation, env);
      r.failure == None && r.st.lastAction == UpToDate
    ensures m in mints && Publishes(ClusterPass(w, ns, c, prior, generation, env).w.secret, m)
    ensures m.server == c.ServerURL() && m.ca == env.ca && BeforeHalfLife(m, env.now)
  {
    var st := Begun(prior, ns, c, generation);
    PrepareLeavesTheSecret(w, st, c, env);
    var f := Reconcile(w, st, c, env);
    ConcludingKeepsMemory(f, c, env);
    var (p, recreated) := Prepare(w, st, c, env);
    CAIsKnown(w, st, c, env);
    var i := Inspect(p.w, p.st, c, env);
    var why := Why(i.st, i.published, c, recreated, env);
    ReissueRecords(i.w, i.st, c, why, env);
    assert Ledgered(p.st, mints);
    m := NotDueMeansPublished(p.w, p.st, c, env, mints);
  }

  lemma CAIsKnown(w: World, st: Status, c: Cluster, env: PassEnv)
    requires var (p, _) := Prepare(w, st, c, env); p.Continue?
    ensures env.ca != ""
  {
  }

  // ---- ... over whole runs ----------------------------------------------------------------------------

  /** One connection over time: the world, the status on its object, every status that was ever
      there, and every credential a pass minted, proved, published and recorded. */
  datatype History = History(w: World, status: Status, recorded: set<Status>, mints: set<Mint>)

  /** A pass, whose status write may be lost; somebody writing the Secret; the downstream objects
      changing under other hands; or the object's status going back to what it remembered before,
      or to remembering nothing. */
  datatype Happening =
    | Passes(c: Cluster, generation: int, env: PassEnv, written: bool)
    | OthersAct(ws: seq<ForeignWrite>)
    | DownstreamMoves(objects: D.Objects)
    | Rewound(to: Status)

  /** Accounts come and go, and no UID comes back. */
  ghost predicate UidsMoveOn(o: D.Objects, to: D.Objects) {
    && o.nextUid <= to.nextUid
    && forall a :: a in to.accounts ==>
         && to.accounts[a].uid < to.nextUid
         && (to.accounts[a].uid >= o.nextUid || (a in o.accounts && o.accounts[a].uid == to.accounts[a].uid))
  }

  ghost predicate UidsBelow(o: D.Objects) { forall a :: a in o.accounts ==> o.accounts[a].uid < o.nextUid }

  ghost predicate Possible(h: History, e: Happening) {
    match e
    case Passes(_, _, env, _) => env.OthersAreForeign() && env.now > 0
    case OthersAct(ws) => Foreign(ws)
    case DownstreamMoves(to) => UidsMoveOn(h.w.downstream, to)
    case Rewound(to) => to.appliedCredentialHash == NoDigest || exists st :: st in h.recorded && SameMemory(st, to)
  }

  function Next(h: History, ns: string, e: Happening): History {
    match e
    case OthersAct(ws) => h.(w := OthersWrite(h.w, ws))
    case DownstreamMoves(to) => h.(w := h.w.(downstream := to))
    case Rewound(to) => h.(status := to, recorded := h.recorded + {to})
    case Passes(c, generation, env, written) =>
      var r := ClusterPass(h.w, ns, c, h.status, generation, env);
      History(r.w, if written then r.st else h.status, h.recorded + {r.st},
              h.mints + if env.Proves() && !SameMemory(r.st, h.status) then {MintOf(c, env, r.w.downstream)} else {})
  }

  ghost predicate Sound(h: History) {
    && Split(h.w.secret) && h.status in h.recorded && (forall st :: st in h.recorded ==> Ledgered(st, h.mints))
    && UidsBelow(h.w.downstream) && (forall m :: m in h.mints ==> m.uid < h.w.downstream.nextUid)
  }

  lemma LedgerGrows(st: Status, mints: set<Mint>, more: set<Mint>)
    requires Ledgered(st, mints) && mints <= more
    ensures Ledgered(st, more)
  {
  }

  /** As far as the Secret goes, all a reissue does. */
  function AfterReissuing(w: World, st: Status, c: Cluster, env: PassEnv): World {
    if !env.Proves() then w
    else if env.credential != Credentials.Done then AfterPublishing(w, st, c, env)
    else AfterObserving(w, st, c, env)
  }

  lemma NotedWrites(w: World, st: Status, c: Cluster, why: RefreshReason, desired: ClusterSecret, observed: Object)
    ensures var r := Noted(w, st, c, why, desired, observed).w;
      r.secret == w.secret && r.trace == w.trace && r.downstream == w.downstream
  {
  }

  lemma WritesLeaveDownstream(w: World, st: Status, c: Cluster, env: PassEnv)
    ensures AfterReissuing(w, st, c, env).downstream == w.downstream
  {
  }

  lemma ReissueWrites(w: World, st: Status, c: Cluster, why: RefreshReason, env: PassEnv)
    ensures var r := Reissue(w, st, c, why, env).w;
      var n := AfterReissuing(w, st, c, env);
      r.secret == n.secret && r.trace == n.trace && r.downstream == w.downstream
  {
    WritesLeaveDownstream(w, st, c, env);
    if env.Proves() && env.credential == Credentials.Done {
      NotedWrites(AfterObserving(w, st, c, env), st, c, why, Minted(c, st, env),
                  ObservedBy(AfterPublishing(w, st, c, env), st, c, env));
    }
  }

  lemma PublishingKeepsSplit(w: World, st: Status, c: Cluster, env: PassEnv)
    requires Split(w.secret) && Foreign(env.beforeCredential) && env.Mints()
    ensures Split(AfterPublishing(w, st, c, env).secret)
  {
    ForeignWritesKeepSplit(env.beforeCredential, w.secret);
    CredentialKeepsTheRegistration(OthersWrite(w, env.beforeCredential).secret, Minted(c, st, env), Label(SecretTypeLabel));
  }

  lemma ObservingKeepsSplit(w: World, st: Status, c: Cluster, env: PassEnv)
    requires env.Mints() && Split(AfterPublishing(w, st, c, env).secret) && Foreign(env.beforeObservation)
    ensures Split(AfterObserving(w, st, c, env).secret)
  {
    var w1 := AfterPublishing(w, st, c, env);
    ForeignWritesKeepSplit(env.beforeObservation, w1.secret);
    RegistrationKeepsTheCredential(OthersWrite(w1, env.beforeObservation).secret, Minted(c, st, env));
  }

  lemma ReissueKeepsSplit(w: World, st: Status, c: Cluster, why: RefreshReason, env: PassEnv)
    requires Split(w.secret) && env.OthersAreForeign()
    ensures Split(Reissue(w, st, c, why, env).w.secret)
  {
    ReissueWrites(w, st, c, why, env);
    if env.Proves() {
      PublishingKeepsSplit(w, st, c, env);
      ObservingKeepsSplit(w, st, c, env);
    }
  }

  lemma InspectKeepsSplit(w: World, st: Status, c: Cluster, env: PassEnv)
    requires Split(w.secret) && Foreign(env.beforeRegistration)
    ensures Split(Inspect(w, st, c, env).w.secret)
  {
    ForeignWritesKeepSplit(env.beforeRegistration, w.secret);
    RegistrationKeepsTheCredential(OthersWrite(w, env.beforeRegistration).secret, Desired(c, st, env.ca));
  }

  lemma PassKeepsSplit(w: World, ns: string, c: Cluster, prior: Status, generation: int, env: PassEnv)
    requires Split(w.secret) && env.OthersAreForeign()
    ensures Split(ClusterPass(w, ns, c, prior, generation, env).w.secret)
  {
    var st := Begun(prior, ns, c, generation);
    PrepareLeavesTheSecret(w, st, c, env);
    var (p, recreated) := Prepare(w, st, c, env);
    if p.Continue? {
      InspectKeepsSplit(p.w, p.st, c, env);
      var i := Inspect(p.w, p.st, c, env);
      if i.Inspected? {
        ReissueKeepsSplit(i.w, i.st, c, Why(i.st, i.published, c, recreated, env), env);
      }
    }
    ConcludingKeepsMemory(Reconcile(w, st, c, env), c, env);
  }

  /** A pass makes at most one account, takes none away, and gives it a UID of its own. */
  lemma PassMovesUidsOn(w: World, ns: string, c: Cluster, prior: Status, generation: int, env: PassEnv)
    requires UidsBelow(w.downstream)
    ensures var o := ClusterPass(w, ns, c, prior, generation, env).w.downstream;
      UidsMoveOn(w.downstream, o) && forall a :: a in w.downstream.accounts ==> a in o.accounts && o.accounts[a] == w.downstream.accounts[a]
  {
    var st := Begun(prior, ns, c, generation);
    ReconcilingKeepsDownstream(w, st, c, env);
    ConcludingKeepsMemory(Reconcile(w, st, c, env), c, env);
    PreparingMovesUidsOn(w, st, c, env);
  }

  lemma EnsuringMovesUidsOn(o: D.Objects, who: D.AccountName, role: string, account: D.CallEnv, binding: D.BindingEnv)
    requires UidsBelow(o)
    ensures var r := D.EnsureArgoCDIdentity(o, who, role, account, binding).0;
      UidsMoveOn(o, r) && forall a :: a in o.accounts ==> a in r.accounts && r.accounts[a] == o.accounts[a]
  {
    if role != "" {
      D.AccountEnsured(o, who, account);
      D.BindingEnsured(D.EnsureServiceAccount(o, who, account).0, who.name + "-role-binding", role, who, binding);
    }
  }

  lemma PreparedDownstream(w: World, st: Status, c: Cluster, env: PassEnv)
    ensures Prepare(w, st, c, env).0.w.downstream
      == if Reach(w, st, c, env).Stop? then w.downstream
         else D.EnsureArgoCDIdentity(w.downstream, Who(c), c.clusterRole, env.account, env.binding).0
  {
    ReachLeavesTheSecret(w, st, c, env);
  }

  lemma PreparingMovesUidsOn(w: World, st: Status, c: Cluster, env: PassEnv)
    requires UidsBelow(w.downstream)
    ensures var o := Prepare(w, st, c, env).0.w.downstream;
      UidsMoveOn(w.downstream, o) && forall a :: a in w.downstream.accounts ==> a in o.accounts && o.accounts[a] == w.downstream.accounts[a]
  {
    PreparedDownstream(w, st, c, env);
    EnsuringMovesUidsOn(w.downstream, Who(c), c.clusterRole, env.account, env.binding);
  }

  lemma NextKeepsSound(h: History, ns: string, e: Happening)
    requires Sound(h) && Possible(h, e)
    ensures Sound(Next(h, ns, e))
  {
    var n := Next(h, ns, e);
    match e {
      case OthersAct(ws) => ForeignWritesKeepSplit(ws, h.w.secret);
      case DownstreamMoves(to) =>
      case Rewound(to) =>
        if to.appliedCredentialHash != NoDigest {
          var st :| st in h.recorded && SameMemory(st, to);
          assert Ledgered(st, h.mints);
          var m :| m in h.mints && m.issuedAt > 0 && Records(st, m);
          assert Records(to, m);
        }
        assert Ledgered(to, h.mints);
      case Passes(c, generation, env, written) =>
        PassKeepsSplit(h.w, ns, c, h.status, generation, env);
        PassMovesUidsOn(h.w, ns, c, h.status, generation, env);
        OnlyOwnMintsAreRecorded(h.w, ns, c, h.status, generation, env);
        var r := ClusterPass(h.w, ns, c, h.status, generation, env);
        assert Ledgered(h.status, h.mints);
        if SameMemory(r.st, h.status) {
          if r.st.appliedCredentialHash != NoDigest {
            var m :| m in h.mints && m.issuedAt > 0 && Records(h.status, m);
            assert m in n.mints && Records(r.st, m);
          }
        } else {
          assert MintOf(c, env, r.w.downstream) in n.mints && Records(r.st, MintOf(c, env, r.w.downstream));
        }
        assert Ledgered(r.st, n.mints);
        forall st | st in h.recorded ensures Ledgered(st, n.mints) {
          LedgerGrows(st, h.mints, n.mints);
        }
    }
  }

  function Run(h: History, ns: string, events: seq<Happening>): History {
    if events == [] then h else Next(Run(h, ns, events[..|events| - 1]), ns, events[|events| - 1])
  }

  ghost predicate PossibleRun(h: History, ns: string, events: seq<Happening>) {
    events != [] ==>
      PossibleRun(h, ns, events[..|events| - 1])
      && Possible(Run(h, ns, events[..|events| - 1]), events[|events| - 1])
  }

  lemma {:induction false} RunsStaySound(h: History, ns: string, events: seq<Happening>)
    requires Sound(h) && PossibleRun(h, ns, events)
    ensures Sound(Run(h, ns, events))
  {
    if events != [] {
      RunsStaySound(h, ns, events[..|events| - 1]);
      NextKeepsSound(Run(h, ns, events[..|events| - 1]), ns, events[|events| - 1]);
    }
  }

  // ---- A token that is dead stays dead --------------------------------------------------------------

  lemma DeadStaysDead(h: History, ns: string, e: Happening, m: Mint)
    requires Sound(h) && Possible(h, e) && m.uid < h.w.downstream.nextUid && !Alive(m, h.w.downstream)
    ensures !Alive(m, Next(h, ns, e).w.downstream) && m.uid < Next(h, ns, e).w.downstream.nextUid
  {
    if e.Passes? {
      PassMovesUidsOn(h.w, ns, e.c, h.status, e.generation, e.env);
    }
  }

  ghost predicate AliveAfter(h: History, ns: string, events: seq<Happening>, m: Mint)
    requires PossibleRun(h, ns, events)
  {
    Alive(m, Run(h, ns, events).w.downstream)
  }

  ghost predicate AliveAllAlong(h: History, ns: string, events: seq<Happening>, m: Mint)
    requires PossibleRun(h, ns, events)
  {
    AliveAfter(h, ns, events, m) && (events != [] ==> AliveAllAlong(h, ns, events[..|events| - 1], m))
  }

  /** However accounts are deleted and made again, by passes, provisioning or anybody else: a token
      is alive at the end of a run exactly if its account was its own all along. */
  lemma {:induction false} AliveMeansAllAlong(h: History, ns: string, events: seq<Happening>, m: Mint)
    requires Sound(h) && PossibleRun(h, ns, events) && m.uid < h.w.downstream.nextUid
    ensures m.uid < Run(h, ns, events).w.downstream.nextUid
    ensures AliveAfter(h, ns, events, m) <==> AliveAllAlong(h, ns, events, m)
  {
    if events != [] {
      var front := events[..|events| - 1];
      AliveMeansAllAlong(h, ns, front, m);
      RunsStaySound(h, ns, front);
      OneMoreHappening(Run(h, ns, front), ns, events[|events| - 1], m);
    }
  }

  lemma OneMoreHappening(h: History, ns: string, e: Happening, m: Mint)
    requires Sound(h) && Possible(h, e) && m.uid < h.w.downstream.nextUid
    ensures m.uid < Next(h, ns, e).w.downstream.nextUid
    ensures Alive(m, Next(h, ns, e).w.downstream) ==> Alive(m, h.w.downstream)
  {
    if !Alive(m, h.w.downstream) {
      DeadStaysDead(h, ns, e, m);
    } else if e.Passes? {
      PassMovesUidsOn(h.w, ns, e.c, h.status, e.generation, e.env);
    }
  }

  /** Start with a Secret in any state and a status that remembers nothing. Through any run of
      passes, failed calls, foreign writes, lost status writes and rollbacks, a pass that ends
      up to date on a recorded digest has seen a credential of this tool's own in the Secret. It
      neither saves nor ends it: whether its account is still the one it is bound to is as it was. */
  lemma UpToDateIsSoundOverRuns(w: World, ns: string, events: seq<Happening>, c: Cluster, generation: int, env: PassEnv)
    returns (m: Mint)
    requires Live(w.secret).WellFormed() && Live(w.secret).Owned(Registration) == Live(w.secret).Owned(Credential) == {}
    requires UidsBelow(w.downstream)
    requires PossibleRun(History(w, EmptyStatus, {EmptyStatus}, {}), ns, events) && env.OthersAreForeign()
    requires var h := Run(History(w, EmptyStatus, {EmptyStatus}, {}), ns, events);
      && h.status.appliedCredentialHash != NoDigest
      && var r := ClusterPass(h.w, ns, c, h.status, generation, env);
         r.failure == None && r.st.lastAction == UpToDate
    ensures var h := Run(History(w, EmptyStatus, {EmptyStatus}, {}), ns, events);
      && m in h.mints && m.server == c.ServerURL() && m.ca == env.ca && BeforeHalfLife(m, env.now)
      && var after := ClusterPass(h.w, ns, c, h.status, generation, env).w;
         Publishes(after.secret, m) && (Alive(m, after.downstream) <==> Alive(m, h.w.downstream))
  {
    var start := History(w, EmptyStatus, {EmptyStatus}, {});
    assert Sound(start);
    RunsStaySound(start, ns, events);
    m := UpToDateFromHere(Run(start, ns, events), ns, c, generation, env);
  }

  lemma UpToDateFromHere(h: History, ns: string, c: Cluster, generation: int, env: PassEnv) returns (m: Mint)
    requires Sound(h) && env.OthersAreForeign() && h.status.appliedCredentialHash != NoDigest
    requires var r := ClusterPass(h.w, ns, c, h.status, generation, env); r.failure == None && r.st.lastAction == UpToDate
    ensures m in h.mints && m.server == c.ServerURL() && m.ca == env.ca && BeforeHalfLife(m, env.now)
    ensures var after := ClusterPass(h.w, ns, c, h.status, generation, env).w;
      Publishes(after.secret, m) && (Alive(m, after.downstream) <==> Alive(m, h.w.downstream))
  {
    m := UpToDateIsSound(h.w, ns, c, h.status, generation, env, h.mints);
    PassMovesUidsOn(h.w, ns, c, h.status, generation, env);
  }
}
