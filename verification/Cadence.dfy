/** When passes of one cluster start: a healthy cadence that keeps to its tick, and the backoff
    of a failing one. */
module Cadence {
  import opened Text
  import opened Api
  import opened Clocks
  import opened SchedulerModel
  import opened SchedulerStructure
  import Inventory

  // ---- A healthy cluster ---------------------------------------------------------------------------

  /** What happens at the polls, one every interval: when poll j reads the clock to claim, and
      the pass it starts if the cluster is due -- which is over before the tenth poll after. */
  datatype Timeline = Timeline(claimedAt: nat -> int, pass: nat -> Pass, bookedAt: nat -> int)

  /** Polls claim, and passes start, within half an interval of their tick; passes succeed and
      leave at least ten minutes on the token. */
  ghost predicate Healthy(t: Timeline) {
    forall j: nat ::
      && POLL_INTERVAL * j <= t.claimedAt(j) <= t.pass(j).startedAt < POLL_INTERVAL * j + DUE_SLACK
      && !t.pass(j).failed && LongLived(t.pass(j))
      && t.bookedAt(j) <= t.claimedAt(j + 10)
  }

  predicate LongLived(pass: Pass) {
    TimeOf(pass.sent.tokenExpiresAt) == 0 || TimeOf(pass.sent.tokenExpiresAt) - pass.startedAt >= 2 * MAX_PASS_INTERVAL
  }

  lemma LongLivedInterval(pass: Pass)
    requires LongLived(pass)
    ensures NextInterval(pass.sent, pass.startedAt) == MAX_PASS_INTERVAL
  {
  }

  /** The cluster's state when poll j looks at it. A pass that is claimed shows as running until
      its bookkeeping; its state is the booked one by the time it could be due again. */
  function StateAt(t: Timeline, first: Cell, j: nat): Cell {
    if j == 0 then first
    else
      var cell := StateAt(t, first, j - 1);
      if Due(cell, t.claimedAt(j - 1)) then BookedCell(cell, t.pass(j - 1), t.bookedAt(j - 1)) else cell
  }

  predicate Idle(cell: Cell) { !cell.running && cell.MayRun() && !cell.rerunAfterPass }

  /** Of the ten ticks after a pass, exactly the last is late enough. */
  lemma OnlyTheTenth(j: nat, k: nat, claimedAt: int, startedAt: int)
    requires k < j <= k + 10
    requires POLL_INTERVAL * j <= claimedAt < POLL_INTERVAL * j + DUE_SLACK
    requires POLL_INTERVAL * k <= startedAt < POLL_INTERVAL * k + DUE_SLACK
    ensures startedAt + MAX_PASS_INTERVAL <= claimedAt + DUE_SLACK <==> j == k + 10
  {
  }

  /** The last tenth tick before j. */
  function LastBeat(j: nat): nat
    requires j > 0
  {
    (j - 1) / 10 * 10
  }

  lemma Beats(j: nat)
    requires j > 0
    ensures LastBeat(j) < j <= LastBeat(j) + 10 && LastBeat(j) % 10 == 0
    ensures j % 10 == 0 <==> j == LastBeat(j) + 10
    ensures (j - 1) % 10 == 0 ==> LastBeat(j) == j - 1
    ensures (j - 1) % 10 != 0 ==> j > 1 && LastBeat(j) == LastBeat(j - 1)
  {
  }

  ghost predicate OnBeat(t: Timeline, cell: Cell, j: nat) {
    && Idle(cell)
    && (j == 0 ==> cell.dueAt <= t.claimedAt(0))
    && (j > 0 ==> cell.dueAt == t.pass(LastBeat(j)).startedAt + MAX_PASS_INTERVAL)
  }

  lemma OnBeatIsDue(t: Timeline, cell: Cell, j: nat)
    requires Healthy(t) && OnBeat(t, cell, j)
    ensures Due(cell, t.claimedAt(j)) <==> j % 10 == 0
  {
    if j > 0 {
      Beats(j);
      OnlyTheTenth(j, LastBeat(j), t.claimedAt(j), t.pass(LastBeat(j)).startedAt);
    }
  }

  lemma {:induction false} StaysOnBeat(t: Timeline, first: Cell, j: nat)
    requires Healthy(t) && Idle(first) && first.dueAt <= t.claimedAt(0)
    ensures OnBeat(t, StateAt(t, first, j), j)
  {
    if j > 0 {
      StaysOnBeat(t, first, j - 1);
      OnBeatIsDue(t, StateAt(t, first, j - 1), j - 1);
      Beats(j);
      LongLivedInterval(t.pass(j - 1));
    }
  }

  /** The cadence does not drift: a healthy cluster is claimed at exactly every tenth tick, for
      as long as it stays healthy, however late within its half interval each poll or pass is. */
  lemma EveryTenthTick(t: Timeline, first: Cell, j: nat)
    requires Healthy(t) && Idle(first) && first.dueAt <= t.claimedAt(0)
    ensures Due(StateAt(t, first, j), t.claimedAt(j)) <==> j % 10 == 0
  {
    StaysOnBeat(t, first, j);
    OnBeatIsDue(t, StateAt(t, first, j), j);
  }

  /** Half an interval of slack is what does it: measured without it, the tenth tick after a pass
      is always too early, if only by the moment the pass started after its tick. */
  lemma WithoutSlackItDrifts(pass: Pass, tick: int, claimedAt: int)
    requires LongLived(pass) && tick < pass.startedAt
    requires tick + 10 * POLL_INTERVAL <= claimedAt < pass.startedAt + 10 * POLL_INTERVAL
    ensures DueAfterPass(pass.startedAt, pass.sent) > claimedAt
  {
    LongLivedInterval(pass);
  }

  // ---- ... in runs of the scheduler ---------------------------------------------------------------------

  /** Nothing in this step bears on when the cluster is due: its pass is not booked, and a poll that
      lists it finds it valid and not edited. */
  ghost predicate Calm(s: System, step: Step, r: Ref)
    requires r in s.book.cells
  {
    && (step.Bookkeep? ==> !(step.id in s.passes && s.passes[step.id].ref == r))
    && (step.Schedule? && s.poll.Read? ==> CalmList(Inventory.Listed(s.poll.objects), s.book.cells[r].cluster.name))
  }

  ghost predicate CalmList(es: seq<Inventory.Entry>, name: string) {
    forall k :: 0 <= k < |es| && es[k].cluster.name == name ==> es[k].Valid() && !es[k].Edited()
  }

  /** The cluster may run and is due then. */
  predicate Stands(b: Book, r: Ref, name: string, dueAt: int) {
    r in b.cells && b.cells[r].cluster.name == name && b.cells[r].dueAt == dueAt && b.cells[r].invalidReason == ""
  }

  lemma {:induction false} ListedCalmly(b: Book, es: seq<Inventory.Entry>, now: int, r: Ref, name: string, dueAt: int)
    requires Indexed(b) && Stands(b, r, name, dueAt) && CalmList(es, name)
    ensures Stands(UpsertAll(b, es, now), r, name, dueAt)
  {
    if es != [] {
      var front := es[..|es| - 1];
      assert forall k :: 0 <= k < |front| ==> front[k] == es[k];
      ListedCalmly(b, front, now, r, name, dueAt);
      UpsertAllPreserves(b, front, now);
    }
  }

  lemma CalmStep(s: System, step: Step, r: Ref, name: string, dueAt: int)
    requires Claims(s) && Enabled(s, step) && Stands(s.book, r, name, dueAt) && Calm(s, step, r)
    ensures Stands(Next(s, step).book, r, name, dueAt)
  {
    if step.Schedule? {
      CalmPoll(s, r, name, dueAt);
    } else if Expected(step).Some? {
      CalmPassStep(s, step, r, name, dueAt);
    } else {
      CalmOtherwise(s, step, r, name, dueAt);
    }
  }

  lemma CalmPoll(s: System, r: Ref, name: string, dueAt: int)
    requires Claims(s) && s.poll.Read? && Stands(s.book, r, name, dueAt) && Calm(s, Schedule, r)
    ensures Stands(ScheduleStep(s).book, r, name, dueAt)
  {
    ListedCalmly(s.book, Inventory.Listed(s.poll.objects), s.now, r, name, dueAt);
  }

  lemma CalmOtherwise(s: System, step: Step, r: Ref, name: string, dueAt: int)
    requires Enabled(s, step) && Expected(step).None? && !step.Schedule? && Stands(s.book, r, name, dueAt)
    ensures Stands(Next(s, step).book, r, name, dueAt)
  {
  }

  lemma CalmPassStep(s: System, step: Step, r: Ref, name: string, dueAt: int)
    requires PassEnabled(s, step) && Stands(s.book, r, name, dueAt) && (step.Bookkeep? ==> s.passes[step.id].ref != r)
    ensures Stands(PassStep(s, step).book, r, name, dueAt)
  {
  }

  ghost predicate CalmRun(s: System, steps: seq<Step>, r: Ref)
    requires Possible(s, steps)
  {
    steps != [] ==>
      var before := Run(s, steps[..|steps| - 1]);
      CalmRun(s, steps[..|steps| - 1], r) && r in before.book.cells && Calm(before, steps[|steps| - 1], r)
  }

  lemma {:induction false} DueStands(s: System, steps: seq<Step>, r: Ref, name: string, dueAt: int)
    requires Structure(s) && Possible(s, steps) && CalmRun(s, steps, r) && Stands(s.book, r, name, dueAt)
    ensures Stands(Run(s, steps).book, r, name, dueAt) && Structure(Run(s, steps))
  {
    RunsKeepStructure(s, steps);
    if steps != [] {
      var front := steps[..|steps| - 1];
      DueStands(s, front, r, name, dueAt);
      CalmStep(Run(s, front), steps[|steps| - 1], r, name, dueAt);
    }
  }

  /** Once a healthy pass that started within half a tick of tick k has set when its cluster is due,
      through any run of polls, other clusters' passes and people's edits of other connections: a
      claim that reads the clock within half a tick of one of the next ten finds the cluster due
      exactly if it is the tenth. */
  lemma ClaimedAtTheTenth(s: System, r: Ref, name: string, startedAt: int, steps: seq<Step>, k: nat, j: nat)
    requires Structure(s) && Possible(s, steps) && CalmRun(s, steps, r)
    requires Stands(s.book, r, name, startedAt + MAX_PASS_INTERVAL)
    requires POLL_INTERVAL * k <= startedAt < POLL_INTERVAL * k + DUE_SLACK
    requires var u := Run(s, steps);
      && k < j <= k + 10 && POLL_INTERVAL * j <= u.now < POLL_INTERVAL * j + DUE_SLACK
      && u.book.Has(name) && u.book.index[name] == r && !u.book.At(name).running && !u.book.At(name).departed
    ensures r in DueRefs(Run(s, steps).book, Run(s, steps).now) <==> j == k + 10
  {
    DueStands(s, steps, r, name, startedAt + MAX_PASS_INTERVAL);
    var u := Run(s, steps);
    OnlyTheTenth(j, k, u.now, startedAt);
    DueByName(u.book, name, u.now);
  }

  predicate EndsWell(pass: Pass, cell: Cell, name: string) {
    && !pass.failed && LongLived(pass)
    && cell.cluster.name == name && cell.invalidReason == "" && !cell.rerunAfterPass
  }

  /** The bookkeeping of a healthy pass sets it so. */
  lemma HealthyBooking(s: System, id: nat, name: string)
    requires PassEnabled(s, Bookkeep(id)) && EndsWell(s.passes[id], s.book.cells[s.passes[id].ref], name)
    ensures Stands(PassStep(s, Bookkeep(id)).book, s.passes[id].ref, name, s.passes[id].startedAt + MAX_PASS_INTERVAL)
  {
    LongLivedInterval(s.passes[id]);
  }

  lemma DueByName(b: Book, name: string, now: int)
    requires Indexed(b) && b.Has(name)
    ensures b.index[name] in DueRefs(b, now) <==> Due(b.At(name), now)
  {
  }

  // ---- A failing cluster -----------------------------------------------------------------------------

  function Pow2(k: nat): nat { if k == 0 then 1 else 2 * Pow2(k - 1) }

  function Backoff(k: nat): int { Min(RETRY_INTERVAL * Pow2(k), MAX_RETRY_INTERVAL) }

  lemma {:induction false} Doubling(k: nat)
    ensures Min(Backoff(k) * 2, MAX_RETRY_INTERVAL) == Backoff(k + 1)
  {
    assert Pow2(k + 1) == 2 * Pow2(k);
  }

  ghost predicate Books(s: System, step: Step, r: Ref) {
    step.Bookkeep? && PassEnabled(s, step) && s.passes[step.id].ref == r
  }

  ghost function StreakAfter(s: System, step: Step, r: Ref, streak: nat): nat {
    if !Books(s, step, r) then streak else if s.passes[step.id].failed then streak + 1 else 0
  }

  /** How many passes over this state have failed since the last that did not. */
  ghost function Streak(s: System, steps: seq<Step>, r: Ref): nat
    requires Possible(s, steps)
  {
    if steps == [] then 0
    else
      var front := steps[..|steps| - 1];
      StreakAfter(Run(s, front), steps[|steps| - 1], r, Streak(s, front, r))
  }

  /** A state new to the book starts over, and one that is there keeps its backoff. */
  predicate BackoffKept(b: Book, c: Book, r: Ref) {
    if r in b.cells then r in c.cells && c.cells[r].backoff == b.cells[r].backoff
    else r in c.cells ==> c.cells[r].backoff == RETRY_INTERVAL
  }

  lemma {:induction false} ListingKeepsBackoff(b: Book, es: seq<Inventory.Entry>, now: int, r: Ref)
    requires Indexed(b)
    ensures BackoffKept(b, UpsertAll(b, es, now), r)
  {
    if es != [] {
      var front := es[..|es| - 1];
      ListingKeepsBackoff(b, front, now, r);
      UpsertAllPreserves(b, front, now);
    }
  }

  lemma OtherStepsKeepBackoff(s: System, step: Step, r: Ref)
    requires Claims(s) && Enabled(s, step) && !Books(s, step, r)
    ensures BackoffKept(s.book, Next(s, step).book, r)
  {
    if step.Schedule? {
      PollKeepsBackoff(s, r);
    } else if Expected(step).Some? {
      PassStepKeepsBackoff(s, step, r);
    } else {
      NothingElseBacksOff(s, step, r);
    }
  }

  lemma PollKeepsBackoff(s: System, r: Ref)
    requires Claims(s) && s.poll.Read?
    ensures BackoffKept(s.book, ScheduleStep(s).book, r)
  {
    ListingKeepsBackoff(s.book, Inventory.Listed(s.poll.objects), s.now, r);
  }

  lemma NothingElseBacksOff(s: System, step: Step, r: Ref)
    requires Enabled(s, step) && Expected(step).None? && !step.Schedule?
    ensures BackoffKept(s.book, Next(s, step).book, r)
  {
  }

  lemma PassStepKeepsBackoff(s: System, step: Step, r: Ref)
    requires PassEnabled(s, step) && !Books(s, step, r)
    ensures BackoffKept(s.book, PassStep(s, step).book, r)
  {
  }

  /** What the bookkeeping of a pass makes of its state. */
  ghost predicate BackedOff(was: Cell, cell: Cell, pass: Pass, now: int, streak: nat) {
    && cell.backoff == Backoff(if pass.failed then streak + 1 else 0) && !cell.rerunAfterPass
    && cell.dueAt == if was.rerunAfterPass then now else if pass.failed then now + Backoff(streak)
                     else DueAfterPass(pass.startedAt, pass.sent)
  }

  lemma BookingBacksOff(s: System, id: nat, streak: nat)
    requires PassEnabled(s, Bookkeep(id)) && s.book.cells[s.passes[id].ref].backoff == Backoff(streak)
    ensures var r, n := s.passes[id].ref, Next(s, Bookkeep(id));
      r in n.book.cells && BackedOff(s.book.cells[r], n.book.cells[r], s.passes[id], s.now, streak)
  {
    Doubling(streak);
  }

  ghost predicate BackoffIs(s: System, r: Ref, streak: nat) {
    if r in s.book.cells then s.book.cells[r].backoff == Backoff(streak) else streak == 0
  }

  lemma StepKeepsBackoff(s: System, step: Step, r: Ref, streak: nat)
    requires Claims(s) && Enabled(s, step) && BackoffIs(s, r, streak)
    ensures BackoffIs(Next(s, step), r, StreakAfter(s, step, r, streak))
  {
    if Books(s, step, r) {
      BookingBacksOff(s, step.id, streak);
    } else {
      OtherStepsKeepBackoff(s, step, r);
    }
  }

  lemma {:induction false} RunsKeepBackoff(s: System, steps: seq<Step>, r: Ref)
    requires Structure(s) && Possible(s, steps) && s.book.cells == map[]
    ensures BackoffIs(Run(s, steps), r, Streak(s, steps, r))
  {
    if steps != [] {
      var front := steps[..|steps| - 1];
      RunsKeepBackoff(s, front, r);
      RunsKeepStructure(s, front);
      StepKeepsBackoff(Run(s, front), steps[|steps| - 1], r, Streak(s, front, r));
    }
  }

  /** In every interleaving, of a pass whose outcome is booked: the k-th failure in a row over this
      state is retried a minute times two to the k-1 after its end, at most half an hour; a success
      starts over; and a wake-up that came meanwhile outranks both. */
  lemma BackoffFollowsTheStreak(now: int, api: map<string, Inventory.Connection>, handled: set<Handled>, steps: seq<Step>, id: nat)
    requires Possible(Begin(now, api, handled), steps)
    requires PassEnabled(Run(Begin(now, api, handled), steps), Bookkeep(id))
    ensures var s := Run(Begin(now, api, handled), steps);
      var r, n := s.passes[id].ref, Next(s, Bookkeep(id));
      && r in n.book.cells
      && BackedOff(s.book.cells[r], n.book.cells[r], s.passes[id], s.now, Streak(Begin(now, api, handled), steps, r))
  {
    var begin := Begin(now, api, handled);
    assert SlotHolders(begin.passes) == {};
    var s := Run(begin, steps);
    RunsKeepBackoff(begin, steps, s.passes[id].ref);
    BookingBacksOff(s, id, Streak(begin, steps, s.passes[id].ref));
  }

  /** ... and it is that cluster's alone: no bookkeeping touches the timing of another. */
  lemma BackoffIsItsOwn(s: System, id: nat, r: Ref)
    requires PassEnabled(s, Bookkeep(id)) && r in s.book.cells && r != s.passes[id].ref
    ensures var n := PassStep(s, Bookkeep(id));
      && r in n.book.cells && n.book.cells[r] == s.book.cells[r]
      && n.book.cells[s.passes[id].ref] == BookedCell(s.book.cells[s.passes[id].ref], s.passes[id], s.now)
  {
  }
}
