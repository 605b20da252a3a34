/** Passes of the reconciler, as far as the daemon's own credential goes, are the passes of
    SelfRenewal, and so what holds of those over whole runs holds of these. */
module SelfRuns {
  import opened Text
  import opened Api
  import opened Config
  import opened ServerSideApply
  import opened ArgoCD
  import opened SelfRenewal
  import opened Pass
  import Credentials
  import D = Downstream

  function AccessOf(env: PassEnv): Access {
    if !env.readable || !env.connects then Barred else if env.ca == "" then Blind else Granted
  }

  /** Reaching the cluster is a pass of SelfRenewal, outcome and all. */
  lemma ReachIsASelfPass(w: World, st: Status, c: Cluster, env: PassEnv)
    ensures var s := SelfPass(SelfState(w.stored, st, w.events), c.selfTokenTTL, AccessOf(env), env.renew, env.now);
      var r := Reach(w, st, c, env);
      && r.w == w.(stored := s.stored, events := s.events) && r.st == s.status
      && (r.Continue? <==> AccessOf(env).Granted? && Connects(w.stored, env.now))
  {
  }

  // ---- The rest of a pass leaves the credential alone ----------------------------------------

  predicate SameSelf(a: Status, b: Status) {
    && a.selfCredentialIssuedAt == b.selfCredentialIssuedAt && a.selfCredentialExpiresAt == b.selfCredentialExpiresAt
    && FailingRenewal(a) == FailingRenewal(b)
  }

  predicate OfRenewal(e: Event) {
    e in {Warning(RenewalMintFailed), Warning(RenewalUnverified), Warning(RenewalNotStored), Normal(RenewalRecovered)}
  }

  function Renewals(events: seq<Event>): seq<Event> {
    if events == [] then []
    else
      var e := events[|events| - 1];
      Renewals(events[..|events| - 1]) + if OfRenewal(e) then [e] else []
  }

  lemma OneMoreEvent(events: seq<Event>, e: Event)
    ensures Renewals(events + [e]) == Renewals(events) + if OfRenewal(e) then [e] else []
  {
    assert (events + [e])[..|events|] == events;
  }

  predicate LeavesSelf(w: World, st: Status, w2: World, st2: Status) {
    w2.stored == w.stored && Renewals(w2.events) == Renewals(w.events) && SameSelf(st2, st)
  }

  lemma IdentityLeavesSelf(w: World, st: Status, c: Cluster, env: PassEnv)
    ensures var (r, _) := EnsureIdentity(w, st, c, env); LeavesSelf(w, st, r.w, r.st)
  {
    OneMoreEvent(w.events, Warning(IdentityRestored));
  }

  lemma ProbeLeavesSelf(w: World, st: Status, c: Cluster, env: PassEnv)
    ensures var r := Probe(w, st, c, env); LeavesSelf(w, st, r.w, r.st)
  {
  }

  lemma OwnershipLeavesSelf(w: World, st: Status, c: Cluster, o: Object)
    ensures var (w1, st1) := ReportOwnership(w, st, c, o); LeavesSelf(w, st, w1, st1)
  {
    OneMoreEvent(w.events, Warning(ForeignFieldManager));
  }

  lemma InspectLeavesSelf(w: World, st: Status, c: Cluster, env: PassEnv)
    ensures var i := Inspect(w, st, c, env); LeavesSelf(w, st, i.w, i.st)
  {
    var w1 := OthersWrite(w, env.beforeRegistration);
    var o := ApplyRegistration(w1.secret, Desired(c, st, env.ca));
    OwnershipLeavesSelf(ToolWrites(w1, Registration, o, env.registration), st, c, o);
  }

  lemma NotedLeavesSelf(w: World, st: Status, c: Cluster, why: RefreshReason, desired: ClusterSecret, observed: Object)
    ensures var r := Noted(w, st, c, why, desired, observed); LeavesSelf(w, st, r.w, r.st)
  {
    OwnershipLeavesSelf(w, st, c, observed);
    OneMoreEvent(ReportOwnership(w, st, c, observed).0.events, Normal(CredentialReissued));
  }

  lemma ReissueLeavesSelf(w: World, st: Status, c: Cluster, why: RefreshReason, env: PassEnv)
    ensures var r := Reissue(w, st, c, why, env); LeavesSelf(w, st, r.w, r.st)
  {
    if env.Proves() {
      var w2 := AfterPublishing(w, st, c, env);
      NotedLeavesSelf(AfterObserving(w, st, c, env), st, c, why, Minted(c, st, env), ObservedBy(w2, st, c, env));
    }
  }

  lemma PreparingLeavesSelf(w: World, st: Status, c: Cluster, env: PassEnv)
    ensures var r, p := Reach(w, st, c, env), Prepare(w, st, c, env).0; LeavesSelf(r.w, r.st, p.w, p.st)
  {
    var r := Reach(w, st, c, env);
    if r.Continue? {
      IdentityLeavesSelf(r.w, r.st, c, env);
      var e := EnsureIdentity(r.w, r.st, c, env).0;
      ProbeLeavesSelf(e.w, e.st, c, env);
    }
  }

  lemma AfterReachLeavesSelf(w: World, st: Status, c: Cluster, env: PassEnv)
    ensures var r, f := Reach(w, st, c, env), Reconcile(w, st, c, env); LeavesSelf(r.w, r.st, f.w, f.st)
  {
    PreparingLeavesSelf(w, st, c, env);
    var (p, recreated) := Prepare(w, st, c, env);
    if p.Continue? {
      InspectLeavesSelf(p.w, p.st, c, env);
      var i := Inspect(p.w, p.st, c, env);
      if i.Inspected? {
        ReissueLeavesSelf(i.w, i.st, c, Why(i.st, i.published, c, recreated, env), env);
      }
    }
  }

  lemma ConcludingLeavesSelf(f: Finished, c: Cluster, env: PassEnv)
    ensures var r := Concluded(f, c, env); LeavesSelf(f.w, f.st, r.w, r.st)
  {
  }

  // ---- A pass of SelfRenewal depends on no more than this ---------------------------------------

  predicate Agree(a: SelfState, b: SelfState) { a.stored == b.stored && SameSelf(a.status, b.status) }

  lemma RenewRespects(a: SelfState, b: SelfState, ca: string, env: RenewEnv, now: int)
    requires Agree(a, b)
    ensures var (r, why), (q, why2) := Renew(a, ca, env, now), Renew(b, ca, env, now); Agree(r, q) && why == why2
  {
  }

  lemma SettingRespects(a: SelfState, b: SelfState, truth: Truth, reason: Reason)
    requires Agree(a, b)
    ensures Agree(a.(status := SetValid(a.status, truth, reason)), b.(status := SetValid(b.status, truth, reason)))
  {
  }

  lemma MaintainRespects(a: SelfState, b: SelfState, requested: int, creds: Credentials.Creds, env: RenewEnv, now: int)
    requires Agree(a, b)
    ensures Agree(Maintain(a, requested, creds, env, now), Maintain(b, requested, creds, env, now))
  {
    RenewRespects(a, b, creds.ca, env, now);
    var (r, why) := Renew(a, creds.ca, env, now);
    var (q, _) := Renew(b, creds.ca, env, now);
    SettingRespects(a, b, Yes, ReasonReady);
    SettingRespects(r, q, Yes, ReasonReady);
    SettingRespects(r, q, No, why);
  }

  lemma SelfPassRespects(a: SelfState, b: SelfState, requested: int, access: Access, env: RenewEnv, now: int)
    requires Agree(a, b)
    ensures Agree(SelfPass(a, requested, access, env, now), SelfPass(b, requested, access, env, now))
    ensures OutcomeOf(a, requested, access, env, now) == OutcomeOf(b, requested, access, env, now)
  {
    if Connects(a.stored, now) {
      var creds := Credentials.ReadCredentials(a.stored).creds;
      var x, y := a.(status := Mirrored(a.status, creds)), b.(status := Mirrored(b.status, creds));
      assert Agree(x, y);
      RenewRespects(x, y, creds.ca, env, now);
      MaintainRespects(x, y, requested, creds, env, now);
    }
  }

  lemma SaidIsOfRenewal(s: SelfState, requested: int, access: Access, env: RenewEnv, now: int, events: seq<Event>, standing: Option<Reason>)
    ensures var said := Said(standing, OutcomeOf(s, requested, access, env, now)); Renewals(events + said) == Renewals(events) + said
  {
    var said := Said(standing, OutcomeOf(s, requested, access, env, now));
    if said == [] {
      assert events + said == events;
    } else {
      OneMoreEvent(events, said[0]);
    }
  }

  /** A pass does to the daemon's own credential, to what the status says of it and to the Events
      about it exactly what a pass of SelfRenewal does that starts from the same. */
  lemma PassIsASelfPass(w: World, ns: string, c: Cluster, prior: Status, generation: int, env: PassEnv, s: SelfState)
    requires Agree(s, SelfState(w.stored, prior, w.events)) && s.events == Renewals(w.events)
    ensures var n := SelfPass(s, c.selfTokenTTL, AccessOf(env), env.renew, env.now);
      var r := ClusterPass(w, ns, c, prior, generation, env);
      Agree(n, SelfState(r.w.stored, r.st, r.w.events)) && n.events == Renewals(r.w.events)
  {
    var st := Begun(prior, ns, c, generation);
    var t := SelfState(w.stored, st, w.events);
    ReachIsASelfPass(w, st, c, env);
    SelfPassRespects(s, t, c.selfTokenTTL, AccessOf(env), env.renew, env.now);
    MaintainStep(s, c.selfTokenTTL, AccessOf(env), env.renew, env.now);
    MaintainStep(t, c.selfTokenTTL, AccessOf(env), env.renew, env.now);
    SaidIsOfRenewal(t, c.selfTokenTTL, AccessOf(env), env.renew, env.now, w.events, FailingRenewal(st));
    AfterReachLeavesSelf(w, st, c, env);
    ConcludingLeavesSelf(Reconcile(w, st, c, env), c, env);
  }

  // ---- Runs of passes -----------------------------------------------------------------------------

  /** One pass, on whatever it finds the rest of the world to be; and what may have happened to the
      daemon's stored credential or to the status before it. */
  datatype Turn = Turn(rewritten: Credentials.Rival, status: Option<Status>, found: World, c: Cluster, generation: int, env: PassEnv)

  /** What is carried from one pass to the next. */
  datatype Thread = Thread(stored: Option<Credentials.Data>, status: Status, events: seq<Event>)

  function Starting(t: Thread, turn: Turn): Thread {
    t.(stored := if turn.rewritten.Some? then turn.rewritten.value else t.stored,
       status := if turn.status.Some? then turn.status.value else t.status)
  }

  function Follow(t: Thread, ns: string, turns: seq<Turn>): Thread {
    if turns == [] then t
    else
      var last := turns[|turns| - 1];
      var before := Starting(Follow(t, ns, turns[..|turns| - 1]), last);
      var r := ClusterPass(last.found.(stored := before.stored, events := before.events), ns, last.c, before.status,
                           last.generation, last.env);
      Thread(r.w.stored, r.st, r.w.events)
  }

  function RoundsOf(turns: seq<Turn>): (rounds: seq<Round>)
    ensures |rounds| == |turns|
  {
    seq(|turns|, i requires 0 <= i < |turns| =>
      Round(turns[i].rewritten, turns[i].status, AccessOf(turns[i].env), turns[i].env.renew, turns[i].env.now))
  }

  /** The same object keeps asking for the same life. */
  ghost predicate AskFor(turns: seq<Turn>, requested: int) {
    forall k :: 0 <= k < |turns| ==> turns[k].c.selfTokenTTL == requested
  }

  function SelfOf(t: Thread): SelfState { SelfState(t.stored, t.status, Renewals(t.events)) }

  /** A run of passes is a run of SelfRenewal, as far as that goes. */
  lemma {:induction false} RunsOfPassesAreRuns(t: Thread, ns: string, requested: int, turns: seq<Turn>)
    requires AskFor(turns, requested)
    ensures var r, p := Follow(t, ns, turns), Play(SelfOf(t), requested, RoundsOf(turns));
      Agree(p, SelfOf(r)) && p.events == Renewals(r.events)
  {
    if turns != [] {
      var front, last := turns[..|turns| - 1], turns[|turns| - 1];
      RunsOfPassesAreRuns(t, ns, requested, front);
      assert RoundsOf(turns)[..|turns| - 1] == RoundsOf(front);
      var before := Starting(Follow(t, ns, front), last);
      var s := Before(Play(SelfOf(t), requested, RoundsOf(front)), RoundsOf(turns)[|turns| - 1]);
      PassIsASelfPass(last.found.(stored := before.stored, events := before.events), ns, last.c, before.status,
                      last.generation, last.env, s);
    }
  }

  /** Through any run of passes the stored credential is the initial one, one somebody else put
      there, or one a pass renewed to: never one that was not verified. */
  lemma PassesNeverLoseTheCredential(t: Thread, ns: string, requested: int, turns: seq<Turn>)
    requires AskFor(turns, requested)
    ensures var stored, rounds := Follow(t, ns, turns).stored, RoundsOf(turns);
      || stored == t.stored
      || (exists k :: 0 <= k < |turns| && turns[k].rewritten == Some(stored))
      || (exists k :: 0 <= k < |turns| && StoredBy(SelfOf(t), requested, rounds, k, stored))
  {
    RunsOfPassesAreRuns(t, ns, requested, turns);
    NeverLosesAWorkingCredential(SelfOf(t), requested, RoundsOf(turns));
    assert forall k :: 0 <= k < |turns| ==> RoundsOf(turns)[k].rewritten == turns[k].rewritten;
  }

  /** The Events about renewal in a run of passes are the outcomes with repetitions left out. */
  lemma PassesReportRenewalOnce(t: Thread, ns: string, requested: int, turns: seq<Turn>)
    requires AskFor(turns, requested)
    ensures Renewals(Follow(t, ns, turns).events)
      == Renewals(t.events) + Compressed(FailingRenewal(t.status), Outcomes(SelfOf(t), requested, RoundsOf(turns)))
  {
    RunsOfPassesAreRuns(t, ns, requested, turns);
    EventsAreTheCompressedHistory(SelfOf(t), requested, RoundsOf(turns));
  }

  /** Passes that get as far as renewing, at most D apart, and renew when it is due never find
      less than the headroom less D on the credential, whatever else they fail at; nor, until it is
      renewed, less than its own headroom less D on the one bootstrap leaves with its issue time
      unknown, if D is short of that. */
  lemma PassesAreNeverLockedOut(t: Thread, ns: string, requested: int, granted: int, at: int, D: int, turns: seq<Turn>, now: int)
    requires AskFor(turns, requested) && granted >= 2 && at > 0 && 0 <= D <= Headroom(granted)
    requires || Fresh(SelfOf(t), requested, granted, at)
             || (Undated(SelfOf(t)) && D < UndatedHeadroom(SelfOf(t), requested, at))
    requires AllSucceed(RoundsOf(turns), granted) && Spaced(RoundsOf(turns), at, D)
    requires LastAt(RoundsOf(turns), at) <= now <= LastAt(RoundsOf(turns), at) + D
    ensures var stored := Follow(t, ns, turns).stored;
      && Connects(stored, now)
      && var left := Credentials.ReadCredentials(stored).creds.expiresAt - now;
         || left > Headroom(granted) - D
         || (stored == t.stored && Undated(SelfOf(t)) && left >= UndatedHeadroom(SelfOf(t), requested, at) - D)
  {
    RunsOfPassesAreRuns(t, ns, requested, turns);
    NeverLockedOut(SelfOf(t), requested, granted, at, D, RoundsOf(turns), now);
  }

  /** ... and passes of a connection that asks for a day or less never renew what bootstrap left. */
  lemma PassesNeverRenewShortRequests(t: Thread, ns: string, requested: int, turns: seq<Turn>, now: int)
    requires AskFor(turns, requested) && Undated(SelfOf(t)) && requested <= SELF_RENEW_INTERVAL && LeftAlone(RoundsOf(turns))
    ensures var stored := Follow(t, ns, turns).stored;
      stored == t.stored && (now >= ExpiryOf(SelfOf(t)) ==> !Connects(stored, now))
  {
    RunsOfPassesAreRuns(t, ns, requested, turns);
    ShortRequestsAreNeverRenewed(SelfOf(t), requested, RoundsOf(turns), now);
  }
}
