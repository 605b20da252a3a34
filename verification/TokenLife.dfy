/** ArgoCD's token over whole runs: it is replaced while a quarter of its life is left, and not
    more often than every half life. */
module TokenLife {
  import opened Text
  import opened Api
  import opened Config
  import opened ArgoCD
  import opened Clocks
  import opened Pass
  import opened PassProperties
  import D = Downstream

  /** One pass: when the scheduler started it, when it read the clock to decide, whether it
      reissued and what life it was granted. */
  datatype Beat = Beat(startedAt: int, decidedAt: int, reissued: bool, granted: int)

  /** The token in use and when the next pass is due. */
  datatype Token = Token(issuedAt: int, expiresAt: int, dueAt: int)

  predicate Overdue(t: Token, now: int) { now >= t.issuedAt + Half(t.expiresAt - t.issuedAt) }

  function StatusOf(expiresAt: int): Status { EmptyStatus.(tokenExpiresAt := Some(expiresAt)) }

  function Step(t: Token, b: Beat): Token {
    var issuedAt := if b.reissued then b.decidedAt else t.issuedAt;
    var expiresAt := if b.reissued then b.decidedAt + b.granted else t.expiresAt;
    Token(issuedAt, expiresAt, DueAfterPass(b.startedAt, StatusOf(expiresAt)))
  }

  /** A pass that decides at most `late` after it was due, reissues once half the life is over --
      it may reissue sooner, on drift -- and is granted at least `granted`. */
  predicate Timely(t: Token, b: Beat, granted: int, late: int) {
    && b.startedAt <= b.decidedAt <= t.dueAt + late
    && (Overdue(t, b.decidedAt) ==> b.reissued)
    && (b.reissued ==> b.granted >= granted)
  }

  /** What is left at any moment up to `late` after the next pass is due. */
  predicate Safe(t: Token, granted: int, late: int) {
    t.expiresAt > 0 && t.expiresAt - t.issuedAt >= granted && 4 * (t.expiresAt - t.dueAt) > granted
  }

  lemma IntervalLeavesAQuarter(t: Token, startedAt: int, granted: int)
    requires granted >= 240 && t.expiresAt > 0 && t.expiresAt - t.issuedAt >= granted
    requires startedAt < t.issuedAt + Half(t.expiresAt - t.issuedAt)
    ensures 4 * (t.expiresAt - DueAfterPass(startedAt, StatusOf(t.expiresAt))) > granted
  {
  }

  lemma StepStaysSafe(t: Token, b: Beat, granted: int, late: int)
    requires granted >= 240 && Safe(t, granted, late) && Timely(t, b, granted, late) && b.startedAt > 0
    ensures Safe(Step(t, b), granted, late)
  {
    IntervalLeavesAQuarter(Step(t, b), b.startedAt, granted);
  }

  // ---- The passes of the reconciler are such passes -------------------------------------------------------

  /** A pass that succeeds on a recorded publication does one of two things: it leaves it alone,
      and then half the life is not over; or it records one issued at the moment it decided. */
  lemma SuccessIsABeat(w: World, ns: string, c: Cluster, prior: Status, generation: int, env: PassEnv, startedAt: int) returns (b: Beat)
    requires TimeOf(prior.tokenIssuedAt) > 0 && prior.tokenExpiresAt.Some? && startedAt <= env.now
    requires ClusterPass(w, ns, c, prior, generation, env).failure == None
    ensures var r := ClusterPass(w, ns, c, prior, generation, env);
      var t := Token(prior.tokenIssuedAt.value, prior.tokenExpiresAt.value, 0);
      && b.startedAt == startedAt && b.decidedAt == env.now
      && (Overdue(t, env.now) ==> b.reissued)
      && (r.st.lastAction == Reissued(Expiring) ==> b.reissued && Overdue(t, env.now))
      && (b.reissued <==> r.st.lastAction.Reissued?)
      && (b.reissued ==> env.Mints() && b.granted == env.mint.value.expiresAt - env.now)
      && r.st.tokenIssuedAt == Some(Step(t, b).issuedAt) && r.st.tokenExpiresAt == Some(Step(t, b).expiresAt)
  {
    var st := Begun(prior, ns, c, generation);
    var f := Reconcile(w, st, c, env);
    ConcludingKeepsMemory(f, c, env);
    var why := SuccessDecides(w, st, c, env);
    b := BeatOf(st, Concluded(f, c, env).st, why, c, env, f.w.downstream, startedAt);
  }

  lemma BeatOf(st: Status, after: Status, why: RefreshReason, c: Cluster, env: PassEnv, o: D.Objects, startedAt: int) returns (b: Beat)
    requires st.tokenIssuedAt.Some? && st.tokenExpiresAt.Some?
    requires why == NotDue ==> SameMemory(after, st)
    requires why != NotDue ==> env.Mints() && Records(after, MintOf(c, env, o))
    ensures b.startedAt == startedAt && b.decidedAt == env.now && (b.reissued <==> why != NotDue)
    ensures b.reissued ==> env.Mints() && b.granted == env.mint.value.expiresAt - env.now
    ensures var t := Token(st.tokenIssuedAt.value, st.tokenExpiresAt.value, 0);
      after.tokenIssuedAt == Some(Step(t, b).issuedAt) && after.tokenExpiresAt == Some(Step(t, b).expiresAt)
  {
    b := if why == NotDue then Beat(startedAt, env.now, false, 0)
         else Beat(startedAt, env.now, true, env.mint.value.expiresAt - env.now);
  }

  /** What a successful pass decided, and what it recorded accordingly. */
  lemma SuccessDecides(w: World, st: Status, c: Cluster, env: PassEnv) returns (why: RefreshReason)
    requires Reconcile(w, st, c, env).failure == None && TimeOf(st.tokenIssuedAt) > 0 && st.tokenExpiresAt.Some?
    ensures var r := Reconcile(w, st, c, env);
      && (why == NotDue ==> SameMemory(r.st, st) && r.st.lastAction == UpToDate)
      && (why != NotDue ==> env.Proves() && Records(r.st, MintOf(c, env, r.w.downstream)) && r.st.lastAction == Reissued(why))
    ensures var t := Token(st.tokenIssuedAt.value, st.tokenExpiresAt.value, 0);
      (why == Expiring ==> Overdue(t, env.now)) && (Overdue(t, env.now) ==> why != NotDue)
  {
    PrepareLeavesTheSecret(w, st, c, env);
    var (p, recreated) := Prepare(w, st, c, env);
    InspectKeepsMemory(p.w, p.st, c, env);
    var i := Inspect(p.w, p.st, c, env);
    why := Why(i.st, i.published, c, recreated, env);
    ExpiringMeansOverdue(i.st, i.published, c, recreated, env);
    ReissueRecords(i.w, i.st, c, why, env);
  }

  lemma ExpiringMeansOverdue(st: Status, published: Digest, c: Cluster, recreated: bool, env: PassEnv)
    requires TimeOf(st.tokenIssuedAt) > 0 && st.tokenExpiresAt.Some?
    ensures var why := Why(st, published, c, recreated, env);
      var t := Token(st.tokenIssuedAt.value, st.tokenExpiresAt.value, 0);
      (why == Expiring ==> Overdue(t, env.now)) && (Overdue(t, env.now) ==> why != NotDue)
  {
  }

  /** The interval after a pass depends on the status only through the expiry it records. */
  lemma IntervalFollowsTheToken(st: Status, startedAt: int, expiresAt: int)
    requires st.tokenExpiresAt == Some(expiresAt)
    ensures DueAfterPass(startedAt, st) == DueAfterPass(startedAt, StatusOf(expiresAt))
  {
  }

  /** One pass of the reconciler, on whatever world it finds and for whatever the spec then says. */
  datatype Turn = Turn(w: World, c: Cluster, generation: int, env: PassEnv, startedAt: int)

  /** What is carried from one pass to the next: the status, and when the scheduler is due; and
      how many passes have reissued. */
  datatype Thread = Thread(st: Status, dueAt: int, reissues: nat)

  function Outcome(t: Thread, ns: string, turn: Turn): Finished {
    ClusterPass(turn.w, ns, turn.c, t.st, turn.generation, turn.env)
  }

  function Take(t: Thread, ns: string, turn: Turn): Thread {
    var st := Outcome(t, ns, turn).st;
    Thread(st, DueAfterPass(turn.startedAt, st), t.reissues + if st.lastAction.Reissued? then 1 else 0)
  }

  function Follow(t: Thread, ns: string, turns: seq<Turn>): Thread {
    if turns == [] then t else Take(Follow(t, ns, turns[..|turns| - 1]), ns, turns[|turns| - 1])
  }

  /** A pass that succeeds, in time, and is granted enough if it mints. */
  ghost predicate Succeeds(t: Thread, ns: string, turn: Turn, granted: int, late: int) {
    && Outcome(t, ns, turn).failure == None
    && 0 < turn.startedAt <= turn.env.now <= t.dueAt + late
    && (turn.env.Mints() ==> turn.env.mint.value.expiresAt - turn.env.now >= granted)
  }

  ghost predicate AllSucceed(t: Thread, ns: string, turns: seq<Turn>, granted: int, late: int) {
    turns != [] ==>
      AllSucceed(t, ns, turns[..|turns| - 1], granted, late)
      && Succeeds(Follow(t, ns, turns[..|turns| - 1]), ns, turns[|turns| - 1], granted, late)
  }

  ghost predicate Carries(t: Thread, granted: int, late: int) {
    && TimeOf(t.st.tokenIssuedAt) > 0 && t.st.tokenExpiresAt.Some?
    && Safe(Token(t.st.tokenIssuedAt.value, t.st.tokenExpiresAt.value, t.dueAt), granted, late)
  }

  /** The beat does not depend on when it was due. */
  lemma DueIsImmaterial(t: Token, dueAt: int, b: Beat)
    ensures Step(t.(dueAt := dueAt), b) == Step(t, b) && Overdue(t.(dueAt := dueAt), b.decidedAt) == Overdue(t, b.decidedAt)
  {
  }

  lemma BeatCarriesOn(t: Thread, st: Status, b: Beat, granted: int, late: int)
    requires granted >= 240 && late >= 0 && Carries(t, granted, late) && b.startedAt > 0
    requires var token := Token(t.st.tokenIssuedAt.value, t.st.tokenExpiresAt.value, t.dueAt);
      && Timely(token, b, granted, late)
      && st.tokenIssuedAt == Some(Step(token, b).issuedAt) && st.tokenExpiresAt == Some(Step(token, b).expiresAt)
    ensures forall n :: Carries(Thread(st, DueAfterPass(b.startedAt, st), n), granted, late)
  {
    var token := Token(t.st.tokenIssuedAt.value, t.st.tokenExpiresAt.value, t.dueAt);
    IntervalFollowsTheToken(st, b.startedAt, Step(token, b).expiresAt);
    StepStaysSafe(token, b, granted, late);
  }

  lemma TurnCarriesOn(t: Thread, ns: string, turn: Turn, granted: int, late: int)
    requires granted >= 240 && late >= 0 && Carries(t, granted, late) && Succeeds(t, ns, turn, granted, late)
    ensures Carries(Take(t, ns, turn), granted, late)
  {
    var b := SuccessIsABeat(turn.w, ns, turn.c, t.st, turn.generation, turn.env, turn.startedAt);
    DueIsImmaterial(Token(t.st.tokenIssuedAt.value, t.st.tokenExpiresAt.value, 0), t.dueAt, b);
    BeatCarriesOn(t, Outcome(t, ns, turn).st, b, granted, late);
  }

  /** At the moment a pass decides, more than a quarter of the least life granted is left, less
      `late`. */
  predicate InTime(t: Thread, turn: Turn, granted: int, late: int) {
    4 * (TimeOf(t.st.tokenExpiresAt) - turn.env.now + late) > granted
  }

  ghost predicate AllInTime(t: Thread, ns: string, turns: seq<Turn>, granted: int, late: int) {
    turns != [] ==>
      AllInTime(t, ns, turns[..|turns| - 1], granted, late)
      && InTime(Follow(t, ns, turns[..|turns| - 1]), turns[|turns| - 1], granted, late)
  }

  /** Through any run of successful passes that decide at most `late` after they were due -- specs
      edited, Secrets and identities tampered with in between -- every pass decides in time, and
      so ArgoCD's token is replaced before it expires. How far below what is requested the API
      server caps the life it grants does not matter. */
  lemma {:induction false} PassesKeepTheTokenAlive(t: Thread, ns: string, turns: seq<Turn>, granted: int, late: int)
    requires granted >= 240 && late >= 0 && Carries(t, granted, late) && AllSucceed(t, ns, turns, granted, late)
    ensures Carries(Follow(t, ns, turns), granted, late) && AllInTime(t, ns, turns, granted, late)
  {
    if turns != [] {
      var front := turns[..|turns| - 1];
      PassesKeepTheTokenAlive(t, ns, front, granted, late);
      TurnCarriesOn(Follow(t, ns, front), ns, turns[|turns| - 1], granted, late);
    }
  }

  lemma FirstDecision(w: World, st: Status, c: Cluster, env: PassEnv)
    requires First(st) && Reconcile(w, st, c, env).failure == None
    ensures env.Proves() && Records(Reconcile(w, st, c, env).st, MintOf(c, env, Reconcile(w, st, c, env).w.downstream))
  {
    PrepareLeavesTheSecret(w, st, c, env);
    var (p, recreated) := Prepare(w, st, c, env);
    InspectKeepsMemory(p.w, p.st, c, env);
    var i := Inspect(p.w, p.st, c, env);
    var why := Why(i.st, i.published, c, recreated, env);
    assert FingerprintFrom(i.st) == NoFingerprint && why != NotDue;
    ReissueRecords(i.w, i.st, c, why, env);
  }

  /** A pass that succeeds on a status that remembers no publication records the token it minted,
      and the run is carried from there. */
  lemma FirstSuccessCarries(t: Thread, ns: string, turn: Turn, granted: int, late: int)
    requires granted >= 240 && late >= 0 && First(t.st) && Outcome(t, ns, turn).failure == None
    requires 0 < turn.startedAt <= turn.env.now
    requires turn.env.Mints() ==> turn.env.mint.value.expiresAt - turn.env.now >= granted
    ensures Carries(Take(t, ns, turn), granted, late)
  {
    var st := Begun(t.st, ns, turn.c, turn.generation);
    assert First(st);
    FirstDecision(turn.w, st, turn.c, turn.env);
    ConcludingKeepsMemory(Reconcile(turn.w, st, turn.c, turn.env), turn.c, turn.env);
    var after, expiresAt := Outcome(t, ns, turn).st, turn.env.mint.value.expiresAt;
    IntervalFollowsTheToken(after, turn.startedAt, expiresAt);
    IntervalLeavesAQuarter(Token(turn.env.now, expiresAt, 0), turn.startedAt, granted);
  }

  /** From a status that remembers nothing: once a first pass has succeeded, every pass of the run
      that follows decides in time. */
  lemma AliveFromTheStart(t: Thread, ns: string, first: Turn, rest: seq<Turn>, granted: int, late: int)
    requires granted >= 240 && late >= 0 && First(t.st) && Outcome(t, ns, first).failure == None
    requires 0 < first.startedAt <= first.env.now
    requires first.env.Mints() ==> first.env.mint.value.expiresAt - first.env.now >= granted
    requires AllSucceed(Take(t, ns, first), ns, rest, granted, late)
    ensures var begun := Take(t, ns, first);
      Carries(Follow(begun, ns, rest), granted, late) && AllInTime(begun, ns, rest, granted, late)
  {
    FirstSuccessCarries(t, ns, first, granted, late);
    PassesKeepTheTokenAlive(Take(t, ns, first), ns, rest, granted, late);
  }

  // ---- Not more often than needed --------------------------------------------------------------------

  /** A pass that succeeds and is granted enough, and that reissues only because half the life is
      over: nothing drifted and nobody interfered. */
  ghost predicate Undrifted(t: Thread, ns: string, turn: Turn, granted: int) {
    && Outcome(t, ns, turn).failure == None && turn.env.now > 0
    && (turn.env.Mints() ==> turn.env.mint.value.expiresAt - turn.env.now >= granted)
    && var action := Outcome(t, ns, turn).st.lastAction;
       action.Reissued? ==> action == Reissued(Expiring)
  }

  ghost predicate AllUndrifted(t: Thread, ns: string, turns: seq<Turn>, granted: int) {
    turns != [] ==>
      AllUndrifted(t, ns, turns[..|turns| - 1], granted)
      && Undrifted(Follow(t, ns, turns[..|turns| - 1]), ns, turns[|turns| - 1], granted)
  }

  /** The status records a token granted enough. */
  predicate Grants(st: Status, granted: int) {
    TimeOf(st.tokenIssuedAt) > 0 && st.tokenExpiresAt.Some? && st.tokenExpiresAt.value - st.tokenIssuedAt.value >= granted
  }

  /** The token was issued by `until`, and late enough after `first` for every reissue to have
      waited half the least life granted. */
  predicate Spread(t: Thread, granted: int, first: int, until: int) {
    Grants(t.st, granted) && t.reissues * Half(granted) <= t.st.tokenIssuedAt.value - first && t.st.tokenIssuedAt.value <= until
  }

  lemma UndriftedToken(t: Thread, ns: string, turn: Turn, granted: int)
    requires granted >= 2 && Grants(t.st, granted) && Undrifted(t, ns, turn, granted)
    ensures var st := Outcome(t, ns, turn).st;
      && Grants(st, granted)
      && if st.lastAction.Reissued? then st.tokenIssuedAt == Some(turn.env.now)
                                         && turn.env.now >= t.st.tokenIssuedAt.value + Half(granted)
         else st.tokenIssuedAt == t.st.tokenIssuedAt
  {
    var b := SuccessIsABeat(turn.w, ns, turn.c, t.st, turn.generation, turn.env, turn.env.now);
  }

  lemma SpreadsOn(t: Thread, n: Thread, granted: int, first: int, until: int)
    requires granted >= 2 && Spread(t, granted, first, until) && Grants(n.st, granted)
    requires n.st.tokenIssuedAt.value <= until
    requires || (n.reissues == t.reissues && n.st.tokenIssuedAt == t.st.tokenIssuedAt)
             || (n.reissues == t.reissues + 1 && n.st.tokenIssuedAt.value >= t.st.tokenIssuedAt.value + Half(granted))
    ensures Spread(n, granted, first, until)
  {
    assert (t.reissues + 1) * Half(granted) == t.reissues * Half(granted) + Half(granted);
  }

  lemma UndriftedStep(t: Thread, ns: string, turn: Turn, granted: int, first: int, until: int)
    requires granted >= 2 && Spread(t, granted, first, until) && Undrifted(t, ns, turn, granted) && turn.env.now <= until
    ensures Spread(Take(t, ns, turn), granted, first, until)
  {
    UndriftedToken(t, ns, turn, granted);
    SpreadsOn(t, Take(t, ns, turn), granted, first, until);
  }

  lemma {:induction false} StaysSpread(t: Thread, ns: string, turns: seq<Turn>, granted: int, first: int, until: int)
    requires granted >= 2 && Spread(t, granted, first, until) && AllUndrifted(t, ns, turns, granted)
    requires forall k :: 0 <= k < |turns| ==> turns[k].env.now <= until
    ensures Spread(Follow(t, ns, turns), granted, first, until)
  {
    if turns != [] {
      var front, last := turns[..|turns| - 1], turns[|turns| - 1];
      assert forall k :: 0 <= k < |front| ==> front[k] == turns[k];
      StaysSpread(t, ns, front, granted, first, until);
      UndriftedStep(Follow(t, ns, front), ns, last, granted, first, until);
    }
  }

  /** Through any run of passes in which nothing drifts, however often they come, each reissue is
      at least half a life granted after the issue before it: the reissues within T of a token's
      issue number at most T over half the least life granted. */
  lemma ReissuesAreRare(t: Thread, ns: string, turns: seq<Turn>, granted: int, T: nat)
    requires granted >= 2 && Grants(t.st, granted) && t.reissues == 0 && AllUndrifted(t, ns, turns, granted)
    requires forall k :: 0 <= k < |turns| ==> turns[k].env.now <= t.st.tokenIssuedAt.value + T
    ensures Follow(t, ns, turns).reissues * Half(granted) <= T
  {
    var first := t.st.tokenIssuedAt.value;
    StaysSpread(t, ns, turns, granted, first, first + T);
  }
}
