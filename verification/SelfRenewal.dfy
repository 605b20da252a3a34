/** The daemon's own credential for a cluster: when it is replaced, by what, and what the
    object says about it. */
module SelfRenewal {
  import opened Text
  import opened Api
  import opened Config
  import opened Credentials

  const SELF_RENEW_INTERVAL := 86400

  datatype Token = Token(value: string, expiresAt: int)

  /** How the calls of one renewal are answered. No token, or an empty one, is a failed mint. */
  datatype RenewEnv = RenewEnv(mint: Option<Token>, client: bool, verify: bool, store: Reply)
  {
    predicate Mints() { mint.Some? && mint.value.value != "" }

    predicate Verifies() { Mints() && client && verify }
  }

  /** What a renewal reads and writes. */
  datatype SelfState = SelfState(stored: Option<Data>, status: Status, events: seq<Event>)

  // ---- Due and critical ------------------------------------------------------------------

  function SelfCredentialDue(requested: int, issuedAt: int, expiresAt: int, now: int): bool {
    if expiresAt == 0 then true
    else if issuedAt == 0 then requested - (expiresAt - now) >= SELF_RENEW_INTERVAL
    else now - issuedAt >= SELF_RENEW_INTERVAL || now >= issuedAt + Truncated(expiresAt - issuedAt, 2)
  }

  function SelfCredentialCritical(requested: int, issuedAt: int, expiresAt: int, now: int): bool {
    if expiresAt == 0 then true
    else
      var granted := if issuedAt != 0 then expiresAt - issuedAt else requested;
      expiresAt - now < Max(Truncated(granted, 4), SELF_RENEW_INTERVAL)
  }

  /** With at least two days granted -- or, where the issue time is unknown, requested -- a
      credential is never called critical before its renewal is due. */
  lemma CriticalImpliesDue(requested: int, issuedAt: int, expiresAt: int, now: int)
    requires expiresAt == 0 || (if issuedAt != 0 then expiresAt - issuedAt else requested) >= 2 * SELF_RENEW_INTERVAL
    requires SelfCredentialCritical(requested, issuedAt, expiresAt, now)
    ensures SelfCredentialDue(requested, issuedAt, expiresAt, now)
  {
  }

  predicate CriticalNotDue(requested: int, issuedAt: int, expiresAt: int, now: int) {
    SelfCredentialCritical(requested, issuedAt, expiresAt, now) && !SelfCredentialDue(requested, issuedAt, expiresAt, now)
  }

  /** Two days is where it turns: for a shorter grant, down to two seconds, there is a moment
      at which the credential is critical and not due. (Within three seconds of two days the
      rounding to whole seconds leaves no such moment.) */
  lemma ShortGrantsAreCriticalBeforeDue(requested: int, issuedAt: int, expiresAt: int)
    requires issuedAt > 0 && expiresAt > issuedAt
    ensures (exists now :: now >= issuedAt && CriticalNotDue(requested, issuedAt, expiresAt, now))
      <==> 2 <= expiresAt - issuedAt <= 2 * SELF_RENEW_INTERVAL - 4
  {
    if 2 <= expiresAt - issuedAt <= 2 * SELF_RENEW_INTERVAL - 4 {
      var now := issuedAt + (expiresAt - issuedAt) / 2 - 1;
      assert CriticalNotDue(requested, issuedAt, expiresAt, now);
    }
  }

  /** With the issue time unknown it is what was requested that decides, whatever was granted:
      asked for less than two days, even a credential good for ninety is critical, while it still
      works, at a moment when it is not due. */
  lemma ShortRequestsAreCriticalBeforeDue(requested: int, expiresAt: int)
    requires expiresAt > 0
    ensures (exists now :: now < expiresAt && CriticalNotDue(requested, 0, expiresAt, now))
      <==> requested <= 2 * SELF_RENEW_INTERVAL - 2
  {
    if requested <= 2 * SELF_RENEW_INTERVAL - 2 {
      var now := expiresAt - Max(1, requested - SELF_RENEW_INTERVAL + 1);
      assert CriticalNotDue(requested, 0, expiresAt, now);
    }
  }

  /** ... and with the issue time unknown renewal is due at some moment before the credential
      expires exactly if more than a day was requested. */
  lemma DueBeforeItExpires(requested: int, expiresAt: int)
    requires expiresAt > 0
    ensures (exists now :: now < expiresAt && SelfCredentialDue(requested, 0, expiresAt, now)) <==> requested > SELF_RENEW_INTERVAL
  {
    if requested > SELF_RENEW_INTERVAL {
      assert SelfCredentialDue(requested, 0, expiresAt, expiresAt - 1);
    }
  }

  // ---- One renewal ------------------------------------------------------------------------

  /** Mint, prove, store; nothing is recorded unless all three succeed. */
  function Renew(s: SelfState, ca: string, env: RenewEnv, now: int): (SelfState, Reason) {
    if !env.Mints() then (s, RenewalMintFailed)
    else if !env.client || !env.verify then (s, RenewalUnverified)
    else
      var token := env.mint.value;
      var stored := if env.store == Refused then s.stored
                    else Some(Merged(s.stored, CredentialData(Creds(token.value, ca, token.expiresAt))));
      if env.store != Done then (s.(stored := stored), RenewalNotStored)
      else (s.(stored := stored,
               status := s.status.(selfCredentialExpiresAt := Some(token.expiresAt), selfCredentialIssuedAt := Some(now))),
            NoReason)
  }

  /** The renewal failure the status already reports, if it reports one. */
  function FailingRenewal(status: Status): Option<Reason> {
    if SelfCredentialValid in status.conditions && status.conditions[SelfCredentialValid].status == No
    then Some(status.conditions[SelfCredentialValid].reason) else None
  }

  function SetValid(status: Status, truth: Truth, reason: Reason): Status {
    status.SetCondition(SelfCredentialValid, Condition(truth, reason, "", status.observedGeneration))
  }

  function Maintain(s: SelfState, requested: int, access: Creds, env: RenewEnv, now: int): SelfState {
    var failing := FailingRenewal(s.status);
    if !SelfCredentialDue(requested, TimeOf(s.status.selfCredentialIssuedAt), access.expiresAt, now) then
      s.(status := SetValid(s.status, Yes, ReasonReady))
    else
      var (r, reason) := Renew(s, access.ca, env, now);
      if reason == NoReason then
        r.(status := SetValid(r.status, Yes, ReasonReady),
           events := if failing.Some? then r.events + [Normal(RenewalRecovered)] else r.events)
      else
        r.(status := SetValid(r.status, No, reason),
           events := if failing != Some(reason) then r.events + [Warning(reason)] else r.events)
  }

  // ---- A pass, as far as the credential goes ------------------------------------------------

  /** The status mirrors the credential in use, including that it says nothing. */
  function Mirrored(status: Status, creds: Creds): Status {
    if creds.expiresAt == 0 then status.(selfCredentialExpiresAt := None, selfCredentialIssuedAt := None)
    else status.(selfCredentialExpiresAt := Some(creds.expiresAt))
  }

  /** A credential this pass can connect with: readable, and not known to have expired. */
  predicate Connects(stored: Option<Data>, now: int) {
    var read := ReadCredentials(stored);
    read.Found? && (read.creds.expiresAt == 0 || read.creds.expiresAt > now)
  }

  /** Whether the Secret can be read and a client built, and whether a CA is then found. */
  datatype Access = Barred | Blind | Granted

  function SelfPass(s: SelfState, requested: int, access: Access, env: RenewEnv, now: int): SelfState {
    if access.Barred? || !Connects(s.stored, now) then s
    else
      var creds := ReadCredentials(s.stored).creds;
      var mirrored := s.(status := Mirrored(s.status, creds));
      if access.Blind? then mirrored else Maintain(mirrored, requested, creds, env, now)
  }

  /** One pass of a run, and what may have happened before it: somebody rewrote the stored
      credential, or the status was lost or put back to some other value. */
  datatype Round = Round(rewritten: Rival, status: Option<Status>, access: Access, env: RenewEnv, now: int)

  function Before(s: SelfState, round: Round): SelfState {
    s.(stored := if round.rewritten.Some? then round.rewritten.value else s.stored,
       status := if round.status.Some? then round.status.value else s.status)
  }

  function Play(s: SelfState, requested: int, rounds: seq<Round>): SelfState {
    if rounds == [] then s
    else
      var last := rounds[|rounds| - 1];
      var before := Before(Play(s, requested, rounds[..|rounds| - 1]), last);
      SelfPass(before, requested, last.access, last.env, last.now)
  }

  /** What round k of a run starts from. */
  function At(s: SelfState, requested: int, rounds: seq<Round>, k: nat): SelfState
    requires k < |rounds|
  {
    Before(Play(s, requested, rounds[..k]), rounds[k])
  }

  // ---- A working credential is never lost ----------------------------------------------------

  /** The pass gets as far as renewing, the credential is due, the new one passes verification,
      and the store is not refused outright. */
  predicate Renews(s: SelfState, requested: int, access: Access, env: RenewEnv, now: int) {
    && access.Granted? && Connects(s.stored, now) && env.Verifies() && env.store != Refused
    && var creds := ReadCredentials(s.stored).creds;
       SelfCredentialDue(requested, TimeOf(Mirrored(s.status, creds).selfCredentialIssuedAt), creds.expiresAt, now)
  }

  /** The stored data with the verified token, its expiry, and the CA it was verified against. */
  function Renewed(stored: Option<Data>, env: RenewEnv): Data
    requires env.Mints() && ReadCredentials(stored).Found?
  {
    var token := env.mint.value;
    Merged(stored, CredentialData(Creds(token.value, ReadCredentials(stored).creds.ca, token.expiresAt)))
  }

  lemma OnlyVerifiedIsStored(s: SelfState, requested: int, access: Access, env: RenewEnv, now: int)
    ensures SelfPass(s, requested, access, env, now).stored
      == if Renews(s, requested, access, env, now) then Some(Renewed(s.stored, env)) else s.stored
  {
  }

  ghost predicate StoredBy(s: SelfState, requested: int, rounds: seq<Round>, k: nat, stored: Option<Data>)
    requires k < |rounds|
  {
    var before, round := At(s, requested, rounds, k), rounds[k];
    Renews(before, requested, round.access, round.env, round.now) && stored == Some(Renewed(before.stored, round.env))
  }

  lemma SameRound(s: SelfState, requested: int, rounds: seq<Round>, k: nat, stored: Option<Data>)
    requires k < |rounds| - 1
    ensures StoredBy(s, requested, rounds[..|rounds| - 1], k, stored) == StoredBy(s, requested, rounds, k, stored)
  {
    assert rounds[..|rounds| - 1][..k] == rounds[..k];
  }

  /** Whatever fails, and whatever the status says, the stored credential is the one that was
      there to begin with, one somebody else put there, or what a round left that was due and got
      as far as renewing: the token it verified with its own expiry and the CA it was verified
      against, and all else as that round found it. */
  lemma {:induction false} NeverLosesAWorkingCredential(s: SelfState, requested: int, rounds: seq<Round>)
    ensures var stored := Play(s, requested, rounds).stored;
      || stored == s.stored
      || (exists k :: 0 <= k < |rounds| && rounds[k].rewritten == Some(stored))
      || (exists k :: 0 <= k < |rounds| && StoredBy(s, requested, rounds, k, stored))
  {
    if rounds != [] {
      var n := |rounds| - 1;
      var front, last := rounds[..n], rounds[n];
      NeverLosesAWorkingCredential(s, requested, front);
      assert forall k :: 0 <= k < |front| ==> front[k] == rounds[k];
      var stored := Play(s, requested, front).stored;
      if k :| 0 <= k < n && StoredBy(s, requested, front, k, stored) {
        SameRound(s, requested, rounds, k, stored);
      }
      var before := At(s, requested, rounds, n);
      OnlyVerifiedIsStored(before, requested, last.access, last.env, last.now);
      if Renews(before, requested, last.access, last.env, last.now) {
        assert StoredBy(s, requested, rounds, n, Play(s, requested, rounds).stored);
      } else if last.rewritten.Some? {
        assert rounds[n].rewritten == Some(before.stored);
      }
    }
  }

  /** The recorded issue and expiry times move only when a verified credential was stored and
      the store was confirmed, or to follow the credential actually in use. */
  lemma RecordedTimesFollowTheStore(s: SelfState, requested: int, access: Access, env: RenewEnv, now: int)
    ensures var r := SelfPass(s, requested, access, env, now);
      || (r.status.selfCredentialIssuedAt == s.status.selfCredentialIssuedAt
            && (r.status.selfCredentialExpiresAt == s.status.selfCredentialExpiresAt
                || (Connects(s.stored, now)
                    && r.status.selfCredentialExpiresAt == Some(ReadCredentials(s.stored).creds.expiresAt))))
      || (Renews(s, requested, access, env, now) && env.store == Done && r.stored == Some(Renewed(s.stored, env))
            && r.status.selfCredentialIssuedAt == Some(now)
            && r.status.selfCredentialExpiresAt == Some(env.mint.value.expiresAt))
      || (r.status.selfCredentialIssuedAt == None && r.status.selfCredentialExpiresAt == None
            && Connects(s.stored, now) && ReadCredentials(s.stored).creds.expiresAt == 0)
  {
  }

  // ---- Events are the history with repetitions left out ---------------------------------------

  /** How a pass came out; or that the status was replaced before it, by one that reports this. */
  datatype Outcome = NotReached | NotNeeded | Worked | Broke(reason: Reason) | Resumes(failing: Option<Reason>)

  function OutcomeOf(s: SelfState, requested: int, access: Access, env: RenewEnv, now: int): Outcome {
    if !access.Granted? || !Connects(s.stored, now) then NotReached
    else
      var creds := ReadCredentials(s.stored).creds;
      var t := s.(status := Mirrored(s.status, creds));
      if !SelfCredentialDue(requested, TimeOf(t.status.selfCredentialIssuedAt), creds.expiresAt, now) then NotNeeded
      else
        var (_, reason) := Renew(t, creds.ca, env, now);
        if reason == NoReason then Worked else Broke(reason)
  }

  function Resuming(round: Round): seq<Outcome> {
    if round.status.Some? then [Resumes(FailingRenewal(round.status.value))] else []
  }

  function Outcomes(s: SelfState, requested: int, rounds: seq<Round>): seq<Outcome> {
    if rounds == [] then []
    else
      var last := rounds[|rounds| - 1];
      var before := Before(Play(s, requested, rounds[..|rounds| - 1]), last);
      Outcomes(s, requested, rounds[..|rounds| - 1]) + Resuming(last)
      + [OutcomeOf(before, requested, last.access, last.env, last.now)]
  }

  /** The failure reported after this, if one is. */
  function StandingAfter(standing: Option<Reason>, o: Outcome): Option<Reason> {
    match o
    case NotReached => standing
    case Broke(reason) => Some(reason)
    case Resumes(failing) => failing
    case _ => None
  }

  function Standing(first: Option<Reason>, history: seq<Outcome>): Option<Reason> {
    if history == [] then first else StandingAfter(Standing(first, history[..|history| - 1]), history[|history| - 1])
  }

  function Said(standing: Option<Reason>, o: Outcome): seq<Event> {
    match o
    case Broke(reason) => if standing == Some(reason) then [] else [Warning(reason)]
    case Worked => if standing.Some? then [Normal(RenewalRecovered)] else []
    case _ => []
  }

  /** A history as an operator wants to read it: each failure once, until it changes or ends,
      and a recovery where a failure ended by renewing. */
  function Compressed(first: Option<Reason>, history: seq<Outcome>): seq<Event> {
    if history == [] then []
    else
      var front := history[..|history| - 1];
      Compressed(first, front) + Said(Standing(first, front), history[|history| - 1])
  }

  lemma CompressedStep(first: Option<Reason>, history: seq<Outcome>, o: Outcome)
    ensures Compressed(first, history + [o]) == Compressed(first, history) + Said(Standing(first, history), o)
    ensures Standing(first, history + [o]) == StandingAfter(Standing(first, history), o)
  {
    assert (history + [o])[..|history|] == history;
  }

  lemma ResumingSaysNothing(first: Option<Reason>, history: seq<Outcome>, round: Round, was: Status)
    requires FailingRenewal(was) == Standing(first, history)
    ensures Compressed(first, history + Resuming(round)) == Compressed(first, history)
    ensures FailingRenewal(if round.status.Some? then round.status.value else was) == Standing(first, history + Resuming(round))
  {
    if round.status.Some? {
      CompressedStep(first, history, Resumes(FailingRenewal(round.status.value)));
    } else {
      assert history + [] == history;
    }
  }

  /** The Events of a run are its compressed history, though no history is kept: whatever the status
      reports to begin with and whatever it is put to in between, the condition each pass leaves in
      it is all the next one needs. */
  lemma {:induction false} EventsAreTheCompressedHistory(s: SelfState, requested: int, rounds: seq<Round>)
    ensures var first, history := FailingRenewal(s.status), Outcomes(s, requested, rounds);
      var r := Play(s, requested, rounds);
      r.events == s.events + Compressed(first, history) && FailingRenewal(r.status) == Standing(first, history)
  {
    if rounds != [] {
      var first := FailingRenewal(s.status);
      var front, last := rounds[..|rounds| - 1], rounds[|rounds| - 1];
      EventsAreTheCompressedHistory(s, requested, front);
      var r, history := Play(s, requested, front), Outcomes(s, requested, front);
      ResumingSaysNothing(first, history, last, r.status);
      HistoryStep(Before(r, last), s.events, first, history + Resuming(last), requested, last.access, last.env, last.now);
    }
  }

  lemma Appending(base: seq<Event>, said: seq<Event>, more: seq<Event>)
    ensures base + said + more == base + (said + more)
  {
  }

  lemma HistoryStep(s: SelfState, base: seq<Event>, first: Option<Reason>, history: seq<Outcome>, requested: int,
                    access: Access, env: RenewEnv, now: int)
    requires s.events == base + Compressed(first, history) && FailingRenewal(s.status) == Standing(first, history)
    ensures var r, longer := SelfPass(s, requested, access, env, now), history + [OutcomeOf(s, requested, access, env, now)];
      r.events == base + Compressed(first, longer) && FailingRenewal(r.status) == Standing(first, longer)
  {
    var o := OutcomeOf(s, requested, access, env, now);
    MaintainStep(s, requested, access, env, now);
    CompressedStep(first, history, o);
    Appending(base, Compressed(first, history), Said(Standing(first, history), o));
  }

  lemma MaintainStep(s: SelfState, requested: int, access: Access, env: RenewEnv, now: int)
    ensures var r, o := SelfPass(s, requested, access, env, now), OutcomeOf(s, requested, access, env, now);
      && r.events == s.events + Said(FailingRenewal(s.status), o)
      && FailingRenewal(r.status) == StandingAfter(FailingRenewal(s.status), o)
  {
  }

  /** No failure is reported that no pass of this history reported. */
  ghost predicate Own(history: seq<Outcome>) {
    forall k :: 0 <= k < |history| && history[k].Resumes? ==> history[k].failing == None
  }

  /** A recovery is only ever reported straight after a failure that was. */
  lemma {:induction false} RecoveryFollowsAFailure(history: seq<Outcome>, i: nat)
    requires Own(history) && i < |Compressed(None, history)| && Compressed(None, history)[i] == Normal(RenewalRecovered)
    ensures i > 0 && Compressed(None, history)[i - 1].Warning?
  {
    var front := history[..|history| - 1];
    assert Own(front);
    if i < |Compressed(None, front)| {
      RecoveryFollowsAFailure(front, i);
    } else {
      LastFailureWasReported(front);
    }
  }

  lemma {:induction false} LastFailureWasReported(history: seq<Outcome>)
    requires Own(history) && Standing(None, history).Some?
    ensures var events := Compressed(None, history);
      events != [] && events[|events| - 1] == Warning(Standing(None, history).value)
  {
    var front := history[..|history| - 1];
    assert Own(front);
    if !history[|history| - 1].Broke? || Standing(None, front) == Standing(None, history) {
      LastFailureWasReported(front);
    }
  }

  // ---- The lockout bound ----------------------------------------------------------------------

  /** Headroom a grant leaves after a pass: what a renewal that was not due is still good for. */
  function Headroom(granted: int): int {
    Max(granted - SELF_RENEW_INTERVAL, granted - Truncated(granted, 2))
  }

  function ExpiryOf(s: SelfState): int
    requires ReadCredentials(s.stored).Found?
  {
    ReadCredentials(s.stored).creds.expiresAt
  }

  /** The stored credential after a pass at `at`: known expiry and issue time, at least
      `granted` between them, and not due. */
  ghost predicate Fresh(s: SelfState, requested: int, granted: int, at: int) {
    && ReadCredentials(s.stored).Found? && ExpiryOf(s) > 0
    && s.status.selfCredentialIssuedAt.Some?
    && var issuedAt := s.status.selfCredentialIssuedAt.value;
       && 0 < issuedAt <= at && ExpiryOf(s) - issuedAt >= granted
       && !SelfCredentialDue(requested, issuedAt, ExpiryOf(s), at)
  }

  /** The stored credential as bootstrap leaves it: it says when it expires, and nothing says when
      it was issued. */
  predicate Undated(s: SelfState) {
    ReadCredentials(s.stored).Found? && ExpiryOf(s) > 0 && TimeOf(s.status.selfCredentialIssuedAt) == 0
  }

  /** What such a credential is good for as long as it is left alone: what is left now, or what is
      left at the last moment at which it is not due. */
  function UndatedHeadroom(s: SelfState, requested: int, at: int): int
    requires Undated(s)
  {
    Min(ExpiryOf(s) - at, requested - SELF_RENEW_INTERVAL + 1)
  }

  /** A renewal that succeeds and is granted enough. */
  ghost predicate Succeeds(env: RenewEnv, granted: int, now: int) {
    && env.Verifies() && env.store == Done && env.mint.value.expiresAt >= now + granted
    && !IsBlank(env.mint.value.value)
  }

  lemma RemainingAfter(s: SelfState, requested: int, granted: int, at: int, D: int, now: int)
    requires granted >= 2 && Fresh(s, requested, granted, at) && at <= now <= at + D
    ensures ReadCredentials(s.stored).creds.expiresAt - now > Headroom(granted) - D
  {
  }

  /** A due renewal that succeeds leaves a dated credential that is not due. */
  lemma RenewingDates(s: SelfState, requested: int, granted: int, env: RenewEnv, now: int)
    requires granted >= 2 && Connects(s.stored, now) && Succeeds(env, granted, now) && now > 0
    requires var creds := ReadCredentials(s.stored).creds;
      SelfCredentialDue(requested, TimeOf(Mirrored(s.status, creds).selfCredentialIssuedAt), creds.expiresAt, now)
    ensures Fresh(SelfPass(s, requested, Granted, env, now), requested, granted, now)
  {
    var creds := ReadCredentials(s.stored).creds;
    TrimIdempotent(s.stored.value[CAKey]);
    ReadsBackExactly(s.stored, Creds(env.mint.value.value, creds.ca, env.mint.value.expiresAt));
  }

  lemma OneMoreRound(s: SelfState, requested: int, granted: int, at: int, D: int, env: RenewEnv, now: int)
    requires granted >= 2 && Fresh(s, requested, granted, at) && at <= now <= at + D && D <= Headroom(granted)
    requires Succeeds(env, granted, now)
    ensures Fresh(SelfPass(s, requested, Granted, env, now), requested, granted, now)
  {
    RemainingAfter(s, requested, granted, at, D, now);
    if SelfCredentialDue(requested, TimeOf(s.status.selfCredentialIssuedAt), ExpiryOf(s), now) {
      RenewingDates(s, requested, granted, env, now);
    }
  }

  /** A credential that does not say when it expires is replaced by the first renewal that succeeds. */
  lemma UnknownExpiryIsRenewed(s: SelfState, requested: int, granted: int, env: RenewEnv, now: int)
    requires granted >= 2 && ReadCredentials(s.stored).Found? && ExpiryOf(s) == 0 && Succeeds(env, granted, now) && now > 0
    ensures Fresh(SelfPass(s, requested, Granted, env, now), requested, granted, now)
  {
    RenewingDates(s, requested, granted, env, now);
  }

  /** The bound holds from here on: dated and not due, or still the undated credential there was. */
  ghost predicate Holds(s: SelfState, first: SelfState, requested: int, granted: int, floor: int, at: int) {
    || Fresh(s, requested, granted, at)
    || (Undated(s) && s.stored == first.stored && ExpiryOf(s) - at >= floor && floor <= requested - SELF_RENEW_INTERVAL + 1)
  }

  lemma HoldingOn(s: SelfState, first: SelfState, requested: int, granted: int, floor: int, at: int, D: int, env: RenewEnv, now: int)
    requires granted >= 2 && 0 < at <= now <= at + D && D <= Headroom(granted) && Succeeds(env, granted, now)
    requires Holds(s, first, requested, granted, floor, at) && (Undated(s) ==> D < floor)
    ensures Holds(SelfPass(s, requested, Granted, env, now), first, requested, granted, floor, now)
    ensures Fresh(s, requested, granted, at) ==> Fresh(SelfPass(s, requested, Granted, env, now), requested, granted, now)
  {
    if Fresh(s, requested, granted, at) {
      OneMoreRound(s, requested, granted, at, D, env, now);
    } else if SelfCredentialDue(requested, 0, ExpiryOf(s), now) {
      RenewingDates(s, requested, granted, env, now);
    }
  }

  /** When the last of the rounds was, or `at` if there was none. */
  function LastAt(rounds: seq<Round>, at: int): int {
    if rounds == [] then at else rounds[|rounds| - 1].now
  }

  /** Each round follows the one before it within D. */
  ghost predicate Spaced(rounds: seq<Round>, at: int, D: int) {
    rounds != [] ==>
      var front := rounds[..|rounds| - 1];
      Spaced(front, at, D) && LastAt(front, at) <= rounds[|rounds| - 1].now <= LastAt(front, at) + D
  }

  ghost predicate AllSucceed(rounds: seq<Round>, granted: int) {
    forall k :: 0 <= k < |rounds| ==>
      rounds[k].rewritten == None && rounds[k].status == None && rounds[k].access.Granted? && Succeeds(rounds[k].env, granted, rounds[k].now)
  }

  lemma DatedIsNotUndated(s: SelfState, requested: int, granted: int, at: int)
    ensures !(Fresh(s, requested, granted, at) && Undated(s))
  {
  }

  /** As long as passes reach renewal at most D apart and renewals that are due succeed, the
      credential always has more left than its headroom less D -- a day, or half the grant,
      short of the whole of it -- and so never runs out while D is within the headroom. The one
      bootstrap left is safe until it is renewed if D is also less than what is left at the start and
      no more than what was requested but a day. */
  lemma NeverLockedOut(s: SelfState, requested: int, granted: int, at: int, D: int, rounds: seq<Round>, now: int)
    requires granted >= 2 && at > 0 && 0 <= D <= Headroom(granted)
    requires Fresh(s, requested, granted, at) || (Undated(s) && D < UndatedHeadroom(s, requested, at))
    requires AllSucceed(rounds, granted) && Spaced(rounds, at, D)
    requires LastAt(rounds, at) <= now <= LastAt(rounds, at) + D
    ensures var r := Play(s, requested, rounds);
      && Connects(r.stored, now)
      && (|| (Fresh(r, requested, granted, LastAt(rounds, at)) && ExpiryOf(r) - now > Headroom(granted) - D)
          || (Undated(s) && Undated(r) && r.stored == s.stored && ExpiryOf(r) - now >= UndatedHeadroom(s, requested, at) - D))
  {
    var floor := if Undated(s) then UndatedHeadroom(s, requested, at) else 0;
    KeepsHolding(s, requested, granted, floor, at, D, rounds);
    var r := Play(s, requested, rounds);
    DatedIsNotUndated(s, requested, granted, at);
    if Fresh(r, requested, granted, LastAt(rounds, at)) {
      RemainingAfter(r, requested, granted, LastAt(rounds, at), D, now);
    }
  }

  lemma {:induction false} KeepsHolding(s: SelfState, requested: int, granted: int, floor: int, at: int, D: int, rounds: seq<Round>)
    requires granted >= 2 && at > 0 && 0 <= D <= Headroom(granted)
    requires Holds(s, s, requested, granted, floor, at) && (Undated(s) ==> D < floor)
    requires AllSucceed(rounds, granted) && Spaced(rounds, at, D)
    ensures LastAt(rounds, at) >= at && Holds(Play(s, requested, rounds), s, requested, granted, floor, LastAt(rounds, at))
    ensures !Undated(s) ==> Fresh(Play(s, requested, rounds), requested, granted, LastAt(rounds, at))
  {
    if rounds != [] {
      var front, last := rounds[..|rounds| - 1], rounds[|rounds| - 1];
      assert forall k :: 0 <= k < |front| ==> front[k] == rounds[k];
      KeepsHolding(s, requested, granted, floor, at, D, front);
      var r := Play(s, requested, front);
      assert Before(r, last) == r;
      DatedIsNotUndated(r, requested, granted, LastAt(front, at));
      HoldingOn(r, s, requested, granted, floor, LastAt(front, at), D, last.env, last.now);
    }
  }

  // ---- ... and where it fails --------------------------------------------------------------------------

  /** A pass every second, each with a renewal that would succeed. */
  function EverySecond(at: int, granted: int, n: nat): (rounds: seq<Round>)
    ensures |rounds| == n
  {
    seq(n, i requires 0 <= i < n =>
      Round(None, None, Granted, RenewEnv(Some(Token("t", at + i + 1 + granted)), true, true, Done), at + i + 1))
  }

  lemma {:induction false} EverySecondIsSpaced(at: int, granted: int, n: nat, D: int)
    requires D >= 1
    ensures var rounds := EverySecond(at, granted, n);
      AllSucceed(rounds, granted) && Spaced(rounds, at, D) && LastAt(rounds, at) == at + n
  {
    if n > 0 {
      EverySecondIsSpaced(at, granted, n - 1, D);
      assert EverySecond(at, granted, n)[..n - 1] == EverySecond(at, granted, n - 1);
    }
  }

  lemma {:induction false} NoneIsDue(s: SelfState, requested: int, at: int, granted: int, n: nat)
    requires Undated(s) && n < ExpiryOf(s) - at && requested - (ExpiryOf(s) - at - n) < SELF_RENEW_INTERVAL
    ensures var r := Play(s, requested, EverySecond(at, granted, n)); r.stored == s.stored && Undated(r)
  {
    if n > 0 {
      NoneIsDue(s, requested, at, granted, n - 1);
      assert EverySecond(at, granted, n)[..n - 1] == EverySecond(at, granted, n - 1);
    }
  }

  /** Where D is not that short there is a run that ends locked out, although every pass gets as far
      as renewing, no two are more than D apart, and every renewal would succeed: the last pass finds
      the credential not yet due, and D later it has expired. So the bound is exact. */
  lemma LockedOutOtherwise(s: SelfState, requested: int, granted: int, at: int, D: int) returns (rounds: seq<Round>, now: int)
    requires Undated(s) && at < ExpiryOf(s) && D >= 1 && D >= UndatedHeadroom(s, requested, at)
    ensures AllSucceed(rounds, granted) && Spaced(rounds, at, D)
    ensures LastAt(rounds, at) <= now <= LastAt(rounds, at) + D
    ensures !Connects(Play(s, requested, rounds).stored, now)
  {
    now := ExpiryOf(s);
    if D >= now - at {
      rounds := [];
    } else {
      rounds := EverySecond(at, granted, now - D - at);
      EverySecondIsSpaced(at, granted, now - D - at, D);
      NoneIsDue(s, requested, at, granted, now - D - at);
    }
  }

  ghost predicate LeftAlone(rounds: seq<Round>) {
    forall k :: 0 <= k < |rounds| ==> rounds[k].rewritten == None && rounds[k].status == None
  }

  lemma NotDueChangesNothing(s: SelfState, requested: int, access: Access, env: RenewEnv, now: int)
    requires Undated(s) && requested <= SELF_RENEW_INTERVAL
    ensures var r := SelfPass(s, requested, access, env, now); r.stored == s.stored && Undated(r)
  {
  }

  /** Asked for a day or less, a credential that bootstrap left is never renewed: its issue time is
      unknown, and while it still works less than a day is missing from what was requested. However
      many passes get as far as renewing, and although every one of them would succeed, it stays
      until it expires, and then no pass connects again. */
  lemma {:induction false} ShortRequestsAreNeverRenewed(s: SelfState, requested: int, rounds: seq<Round>, now: int)
    requires Undated(s) && requested <= SELF_RENEW_INTERVAL && LeftAlone(rounds)
    ensures var r := Play(s, requested, rounds);
      && r.stored == s.stored && Undated(r)
      && (now >= ExpiryOf(s) ==> !Connects(r.stored, now))
  {
    if rounds != [] {
      var front, last := rounds[..|rounds| - 1], rounds[|rounds| - 1];
      assert forall k :: 0 <= k < |front| ==> front[k] == rounds[k];
      ShortRequestsAreNeverRenewed(s, requested, front, now);
      NotDueChangesNothing(Play(s, requested, front), requested, last.access, last.env, last.now);
    }
  }
}
