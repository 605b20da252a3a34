/** Edits are noticed: an object only stops reading as edited once its spec has been taken up
    by a pass, or rejected by a poll -- or once a status lands on it that was formed for an
    earlier object of its name. */
module SchedulerEdits {
  import opened Text
  import opened Api
  import opened SchedulerModel
  import opened SchedulerIncarnations
  import opened SchedulerStructure
  import opened SchedulerEntries
  import opened SchedulerSafety
  import SchedulerWakeups
  import L = SchedulerLifecycle
  import Config
  import Inventory

  /** Some spec that this object had at this generation has been taken up or rejected. */
  ghost predicate Known(dealt: set<Dealt>, name: string, life: nat, generation: int) {
    exists d :: d in dealt && d.spec.name == name && d.spec.generation == generation && d.life == life
  }

  /** A status formed for this object claims no generation that has not been dealt with. */
  ghost predicate Honest(dealt: set<Dealt>, name: string, life: nat, st: Status) {
    st.observedGeneration == 0 || Known(dealt, name, life, st.observedGeneration)
  }

  ghost predicate HonestObject(dealt: set<Dealt>, life: nat, obj: Inventory.Connection) {
    obj.generation >= 1 && Honest(dealt, obj.name, life, Inventory.DecodeStatus(obj))
  }

  ghost predicate HonestApi(dealt: set<Dealt>, carried: map<string, nat>, api: Objects) {
    forall n :: n in api ==> api[n].name == n && HonestObject(dealt, Count(carried, n), api[n])
  }

  ghost predicate HonestPoll(t: History, poll: Poll) {
    match poll
    case Read(objects) => forall k :: 0 <= k < |objects| ==> HonestObject(t.dealt, LifeOf(t.listed, objects[k].name).status, objects[k])
    case Restamping(pending) => forall p :: p in pending ==> Honest(t.dealt, p.0, Count(t.pending, p.0), p.1)
    case Writing(_, name, desired) => Honest(t.dealt, name, t.writing, desired)
    case _ => true
  }

  /** A state's status is honest, and the generation it is blocked at has been dealt with. */
  ghost predicate HonestCell(dealt: set<Dealt>, life: Life, cell: Cell) {
    && Honest(dealt, cell.cluster.name, life.status, cell.status)
    && (cell.invalidReason != "" ==> Known(dealt, cell.cluster.name, life.origin, cell.generation))
  }

  ghost predicate HonestCells(dealt: set<Dealt>, lives: map<Ref, Life>, cells: map<Ref, Cell>) {
    forall r :: r in cells ==> HonestCell(dealt, LifeOf(lives, r), cells[r])
  }

  predicate TookUp(phase: Phase) { phase.Committed() || phase == Booked || phase == Settling || phase == Settled }

  predicate HasResult(phase: Phase) {
    phase == Returned || phase == Overlaid || phase == Wrote || phase == Booked || phase == Settling || phase == Settled
  }

  ghost predicate HonestPass(dealt: set<Dealt>, life: Life, pass: Pass) {
    && (TookUp(pass.phase) ==> Known(dealt, pass.cluster.name, life.origin, pass.generation))
    && (HasResult(pass.phase) ==> pass.result.observedGeneration == pass.generation)
    && (HasResult(pass.phase) && pass.phase != Returned ==> Honest(dealt, pass.cluster.name, life.status, pass.sent))
  }

  ghost predicate HonestPasses(dealt: set<Dealt>, lives: map<nat, Life>, passes: map<nat, Pass>) {
    forall i :: i in passes ==> HonestPass(dealt, LifeOf(lives, i), passes[i])
  }

  /** What was dealt with is on record as handled. */
  ghost predicate Recorded(dealt: set<Dealt>, handled: set<Handled>) {
    forall d :: d in dealt ==> d.spec in handled
  }

  ghost predicate AllHonest(s: System, t: History) {
    && HonestApi(t.dealt, t.carried, s.api) && HonestPoll(t, s.poll) && Recorded(t.dealt, s.handled)
    && HonestCells(t.dealt, t.cells, s.book.cells) && HonestPasses(t.dealt, t.passes, s.passes)
  }

  // ---- Writes -----------------------------------------------------------------------------------------

  lemma SendIsHonest(dealt: set<Dealt>, carried: map<string, nat>, api: Objects, name: string, life: nat, st: Status,
                     schema: Option<Condition>, reply: Reply)
    requires HonestApi(dealt, carried, api) && Honest(dealt, name, life, st)
    ensures HonestApi(dealt, Landed(carried, api, name, reply, life), Send(api, name, st, schema, reply))
  {
  }

  lemma OverlayIsHonest(dealt: set<Dealt>, life: Life, cell: Cell, otherwise: nat, st: Status)
    requires HonestCell(dealt, life, cell) && Honest(dealt, cell.cluster.name, otherwise, st)
    ensures Honest(dealt, cell.cluster.name, FormedFor(VerdictOf(cell), life, otherwise), WithVerdict(st, VerdictOf(cell)))
  {
  }

  /** The state with a verdict laid over a status. */
  lemma OverlaidIsHonest(dealt: set<Dealt>, life: Life, cell: Cell, otherwise: nat, st: Status, after: Status)
    requires HonestCell(dealt, life, cell) && Honest(dealt, cell.cluster.name, otherwise, st)
    requires after == WithVerdict(st, VerdictOf(cell))
    ensures var formed := FormedFor(VerdictOf(cell), life, otherwise);
      HonestCell(dealt, life.(status := formed), cell.(status := after)) && Honest(dealt, cell.cluster.name, formed, after)
  {
    OverlayIsHonest(dealt, life, cell, otherwise, st);
  }

  lemma OneCellMore(dealt: set<Dealt>, lives: map<Ref, Life>, cells: map<Ref, Cell>, r: Ref, life: Life, cell: Cell)
    requires HonestCells(dealt, lives, cells) && HonestCell(dealt, life, cell)
    ensures HonestCells(dealt, lives[r := life], cells[r := cell])
  {
  }

  // ---- The poll ----------------------------------------------------------------------------------------

  lemma RejectedIsKnown(es: seq<Inventory.Entry>, listed: map<string, Life>, dealt: set<Dealt>, k: nat)
    requires k < |es| && !es[k].Valid() && RejectedLives(es, listed) <= dealt
    ensures Known(dealt, es[k].cluster.name, LifeOf(listed, es[k].cluster.name).origin, es[k].generation)
  {
    var e := es[k];
    assert Dealt(Handled(e.cluster.name, e.generation, e.cluster), LifeOf(listed, e.cluster.name).origin) in RejectedLives(es, listed);
  }

  /** What an entry says is honest of the object it was read from. */
  ghost predicate HonestEntry(dealt: set<Dealt>, life: Life, e: Inventory.Entry) {
    && Honest(dealt, e.cluster.name, life.status, e.status)
    && (!e.Valid() ==> Known(dealt, e.cluster.name, life.origin, e.generation))
  }

  lemma UpsertIsHonest(b: Book, e: Inventory.Entry, now: int, dealt: set<Dealt>, lives: map<Ref, Life>, life: Life)
    requires HonestCells(dealt, lives, b.cells) && HonestEntry(dealt, life, e)
    ensures HonestCells(dealt, lives[Upserted(b, e, now).index[e.cluster.name] := life], Upserted(b, e, now).cells)
  {
  }

  lemma {:induction false} UpsertAllIsHonest(b: Book, es: seq<Inventory.Entry>, now: int, dealt: set<Dealt>,
                                             lives: map<Ref, Life>, listed: map<string, Life>)
    requires HonestCells(dealt, lives, b.cells)
    requires forall k :: 0 <= k < |es| ==> HonestEntry(dealt, LifeOf(listed, es[k].cluster.name), es[k])
    ensures HonestCells(dealt, Relisted(b, es, now, lives, listed), UpsertAll(b, es, now).cells)
  {
    if es != [] {
      var front, last := es[..|es| - 1], es[|es| - 1];
      UpsertAllIsHonest(b, front, now, dealt, lives, listed);
      UpsertIsHonest(UpsertAll(b, front, now), last, now, dealt, Relisted(b, front, now, lives, listed),
                     LifeOf(listed, last.cluster.name));
    }
  }

  lemma CellsStayHonest(dealt: set<Dealt>, more: set<Dealt>, lives: map<Ref, Life>, cells: map<Ref, Cell>)
    requires HonestCells(dealt, lives, cells) && dealt <= more
    ensures HonestCells(more, lives, cells)
  {
    forall r | r in cells ensures HonestCell(more, LifeOf(lives, r), cells[r]) {
      assert HonestCell(dealt, LifeOf(lives, r), cells[r]);
    }
  }

  lemma EntriesAreHonest(objects: seq<Inventory.Connection>, listed: map<string, Life>, dealt: set<Dealt>, more: set<Dealt>, k: nat)
    requires k < |objects| && HonestObject(dealt, LifeOf(listed, objects[k].name).status, objects[k]) && dealt <= more
    requires RejectedLives(Inventory.Listed(objects), listed) <= more
    ensures k < |Inventory.Listed(objects)|
    ensures HonestEntry(more, LifeOf(listed, Inventory.Listed(objects)[k].cluster.name), Inventory.Listed(objects)[k])
  {
    ListedKeeps(objects, k);
    if !Inventory.Listed(objects)[k].Valid() { RejectedIsKnown(Inventory.Listed(objects), listed, more, k); }
  }

  lemma HonestSubset(dealt: set<Dealt>, lives: map<Ref, Life>, a: map<Ref, Cell>, b: map<Ref, Cell>)
    requires HonestCells(dealt, lives, a) && b.Keys <= a.Keys
    requires forall r :: r in b ==> b[r] == a[r].(departed := b[r].departed)
    ensures HonestCells(dealt, lives, b)
  {
    forall r | r in b ensures HonestCell(dealt, LifeOf(lives, r), b[r]) { assert HonestCell(dealt, LifeOf(lives, r), a[r]); }
  }

  lemma AllEntriesAreHonest(objects: seq<Inventory.Connection>, t: History, more: set<Dealt>)
    requires HonestPoll(t, Read(objects)) && t.dealt <= more && RejectedLives(Inventory.Listed(objects), t.listed) <= more
    ensures var es := Inventory.Listed(objects);
      forall k :: 0 <= k < |es| ==> HonestEntry(more, LifeOf(t.listed, es[k].cluster.name), es[k])
  {
    var es := Inventory.Listed(objects);
    assert |es| == |objects|;
    forall k | 0 <= k < |es| ensures HonestEntry(more, LifeOf(t.listed, es[k].cluster.name), es[k]) {
      EntriesAreHonest(objects, t.listed, t.dealt, more, k);
    }
  }

  lemma ScheduledCells(b: Book, es: seq<Inventory.Entry>, now: int, dealt: set<Dealt>, lives: map<Ref, Life>, listed: map<string, Life>)
    requires HonestCells(dealt, lives, b.cells)
    requires forall k :: 0 <= k < |es| ==> HonestEntry(dealt, LifeOf(listed, es[k].cluster.name), es[k])
    ensures HonestCells(dealt, Relisted(b, es, now, lives, listed), UpdateSchedule(b, es, now).cells)
  {
    UpsertAllIsHonest(b, es, now, dealt, lives, listed);
    HonestSubset(dealt, Relisted(b, es, now, lives, listed), UpsertAll(b, es, now).cells, UpdateSchedule(b, es, now).cells);
  }

  lemma ScheduleCells(s: System, t: History)
    requires s.poll.Read? && HonestCells(t.dealt, t.cells, s.book.cells) && HonestPoll(t, s.poll)
    ensures var n := PollHistory(s, t, Schedule); HonestCells(n.dealt, n.cells, ScheduleStep(s).book.cells)
  {
    var n := PollHistory(s, t, Schedule);
    CellsStayHonest(t.dealt, n.dealt, t.cells, s.book.cells);
    AllEntriesAreHonest(s.poll.objects, t, n.dealt);
    ScheduledCells(s.book, Inventory.Listed(s.poll.objects), s.now, n.dealt, t.cells, t.listed);
  }

  predicate ByUsers(step: Step) { step.Create? || step.Edit? || step.Annotate? || step.Delete? }

  lemma UsersAreHonest(s: System, t: History, step: Step)
    requires HonestApi(t.dealt, t.carried, s.api) && Enabled(s, step) && ByUsers(step)
    ensures HonestApi(t.dealt, NextHistory(s, t, step).carried, UserStep(s, step).api)
  {
  }

  lemma PollLeavesTheApi(s: System, t: History, step: Step)
    requires Enabled(s, step) && Expected(step).None? && !ByUsers(step) && !step.WriteVerdict? && !step.WriteRestamp?
    ensures Next(s, step).api == s.api && NextHistory(s, t, step).carried == t.carried && t.dealt <= NextHistory(s, t, step).dealt
  {
  }

  lemma OtherStepsApi(s: System, t: History, step: Step)
    requires HonestApi(t.dealt, t.carried, s.api) && HonestPoll(t, s.poll) && Enabled(s, step) && Expected(step).None?
    ensures var n := NextHistory(s, t, step); HonestApi(n.dealt, n.carried, Next(s, step).api)
  {
    if step.WriteVerdict? {
      SendIsHonest(t.dealt, t.carried, s.api, s.poll.name, t.writing, s.poll.desired, step.schema, step.reply);
    } else if step.WriteRestamp? {
      var p := s.poll.pending[0];
      assert p in s.poll.pending;
      SendIsHonest(t.dealt, t.carried, s.api, p.0, Count(t.pending, p.0), p.1, step.schema, step.reply);
    } else if ByUsers(step) {
      UsersAreHonest(s, t, step);
    } else {
      PollLeavesTheApi(s, t, step);
      ApiStaysHonest(t.dealt, NextHistory(s, t, step).dealt, t.carried, s.api);
    }
  }

  lemma ReadVerdictCells(s: System, t: History)
    requires HonestCells(t.dealt, t.cells, s.book.cells) && s.poll.Reporting? && s.poll.todo != [] && s.poll.todo[0] in s.book.cells
    ensures var n := ReadVerdictHistory(s, t);
      HonestCells(n.dealt, n.cells, ReadVerdictStep(s).book.cells) && HonestPoll(n, ReadVerdictStep(s).poll)
  {
    var ref := s.poll.todo[0];
    var cell, life := s.book.cells[ref], LifeOf(t.cells, ref);
    var desired, formed := WithVerdict(cell.status, VerdictOf(cell)), FormedFor(VerdictOf(cell), life, life.status);
    OverlaidIsHonest(t.dealt, life, cell, life.status, cell.status, desired);
    OneCellMore(t.dealt, t.cells, s.book.cells, ref, life.(status := formed), cell.(status := desired));
    ReadVerdictIs(s, t, desired, formed);
  }

  /** The two ways reading a verdict can go. */
  lemma ReadVerdictIs(s: System, t: History, desired: Status, formed: nat)
    requires s.poll.Reporting? && s.poll.todo != [] && s.poll.todo[0] in s.book.cells
    requires var cell, life := s.book.cells[s.poll.todo[0]], LifeOf(t.cells, s.poll.todo[0]);
      desired == WithVerdict(cell.status, VerdictOf(cell)) && formed == FormedFor(VerdictOf(cell), life, life.status)
    ensures var ref := s.poll.todo[0];
      var cell, life := s.book.cells[ref], LifeOf(t.cells, ref);
      var u, n := ReadVerdictStep(s), ReadVerdictHistory(s, t);
      && n.dealt == t.dealt
      && if desired == cell.status then u.book == s.book && u.poll.Reporting? && n == t
         else && u.poll == Writing(s.poll.todo[1..], cell.cluster.name, desired) && n.writing == formed
              && u.book.cells == s.book.cells[ref := cell.(status := desired)]
              && n.cells == t.cells[ref := life.(status := formed)]
  {
  }

  lemma OtherStepsCells(s: System, t: History, step: Step)
    requires HonestCells(t.dealt, t.cells, s.book.cells) && HonestPoll(t, s.poll) && Enabled(s, step) && Expected(step).None?
    ensures var n := NextHistory(s, t, step); HonestCells(n.dealt, n.cells, Next(s, step).book.cells)
  {
    if step.Schedule? {
      ScheduleCells(s, t);
    } else if step.ReadVerdict? {
      ReadVerdictCells(s, t);
    }
  }

  lemma ListingIsHonest(s: System, t: History, objects: seq<Inventory.Connection>)
    requires HonestApi(t.dealt, t.carried, s.api) && ListOf(objects, s.api)
    ensures HonestPoll(PollHistory(s, t, ListInventory(objects)), Read(objects))
  {
    forall k | 0 <= k < |objects| ensures HonestObject(t.dealt, Count(t.carried, objects[k].name), objects[k]) {
      assert HonestObject(t.dealt, Count(t.carried, objects[k].name), s.api[objects[k].name]);
    }
  }

  lemma RestampingIsHonest(s: System, t: History, pending: seq<(string, Status)>)
    requires HonestCells(t.dealt, t.cells, s.book.cells) && Indexed(s.book) && Restamps(pending, s.book)
    ensures HonestPoll(PollHistory(s, t, Restamp(pending)), Restamping(pending))
  {
    var n := PollHistory(s, t, Restamp(pending));
    forall p | p in pending ensures Honest(n.dealt, p.0, Count(n.pending, p.0), p.1) {
      assert HonestCell(t.dealt, LifeOf(t.cells, s.book.index[p.0]), s.book.At(p.0));
    }
  }

  lemma OtherStepsPoll(s: System, t: History, step: Step)
    requires HonestApi(t.dealt, t.carried, s.api) && HonestCells(t.dealt, t.cells, s.book.cells) && HonestPoll(t, s.poll)
    requires Indexed(s.book) && Enabled(s, step) && Expected(step).None?
    ensures HonestPoll(NextHistory(s, t, step), Next(s, step).poll)
  {
    if step.ReadVerdict? {
      ReadVerdictCells(s, t);
    } else if step.Restamp? {
      RestampingIsHonest(s, t, step.pending);
    } else if step.WriteRestamp? {
      assert forall p :: p in s.poll.pending[1..] ==> p in s.poll.pending;
    } else if step.ListInventory? {
      ListingIsHonest(s, t, step.objects);
    }
  }

  /** What the poll and people leave alone of passes, handled specs and the marks beside them. */
  lemma OtherStepsFrame(s: System, t: History, step: Step)
    requires Enabled(s, step) && Expected(step).None?
    ensures var u, n := Next(s, step), NextHistory(s, t, step);
      && n.passes == t.passes && (!step.Spawn? ==> u.passes == s.passes)
      && (!step.Schedule? ==> n.dealt == t.dealt && u.handled == s.handled)
  {
  }

  lemma OtherStepsPasses(s: System, t: History, step: Step)
    requires HonestPasses(t.dealt, t.passes, s.passes) && Recorded(t.dealt, s.handled) && Enabled(s, step) && Expected(step).None?
    ensures var n := NextHistory(s, t, step);
      HonestPasses(n.dealt, n.passes, Next(s, step).passes) && Recorded(n.dealt, Next(s, step).handled)
  {
    var n := NextHistory(s, t, step);
    OtherStepsFrame(s, t, step);
    PassesStayHonest(t.dealt, n.dealt, t.passes, s.passes);
    if step.Schedule? {
      RejectedAreRecorded(Inventory.Listed(s.poll.objects), t.listed);
    } else if step.Spawn? {
      assert SpawnStep(s).passes == s.passes[s.nextPass := SpawnStep(s).passes[s.nextPass]];
    }
  }

  lemma PassesStayHonest(dealt: set<Dealt>, more: set<Dealt>, lives: map<nat, Life>, passes: map<nat, Pass>)
    requires HonestPasses(dealt, lives, passes) && dealt <= more
    ensures HonestPasses(more, lives, passes)
  {
    forall i | i in passes ensures HonestPass(more, LifeOf(lives, i), passes[i]) {
      PassStaysHonest(dealt, more, LifeOf(lives, i), passes[i]);
    }
  }

  lemma RejectedAreRecorded(es: seq<Inventory.Entry>, listed: map<string, Life>)
    ensures Recorded(RejectedLives(es, listed), RejectedSpecs(es))
  {
  }

  lemma PassStaysHonest(dealt: set<Dealt>, more: set<Dealt>, life: Life, pass: Pass)
    requires HonestPass(dealt, life, pass) && dealt <= more
    ensures HonestPass(more, life, pass)
  {
  }

  // ---- The passes ----------------------------------------------------------------------------------------

  lemma ApiStaysHonest(dealt: set<Dealt>, more: set<Dealt>, carried: map<string, nat>, api: Objects)
    requires HonestApi(dealt, carried, api) && dealt <= more
    ensures HonestApi(more, carried, api)
  {
  }

  lemma PollStaysHonest(t: History, more: set<Dealt>, poll: Poll)
    requires HonestPoll(t, poll) && t.dealt <= more
    ensures HonestPoll(t.(dealt := more), poll)
  {
  }

  /** A pass, and the state it holds. */
  ghost predicate HonestPair(dealt: set<Dealt>, own: Life, pass: Pass, life: Life, cell: Cell) {
    HonestPass(dealt, own, pass) && HonestCell(dealt, life, cell) && pass.cluster.name == cell.cluster.name
  }

  ghost predicate HonestHold(s: System, t: History, id: nat) {
    && id in s.passes && s.passes[id].ref in s.book.cells
    && HonestPair(t.dealt, LifeOf(t.passes, id), s.passes[id], LifeOf(t.cells, s.passes[id].ref), s.book.cells[s.passes[id].ref])
  }

  lemma HoldsHonestly(s: System, t: History, id: nat)
    requires Claims(s) && HonestCells(t.dealt, t.cells, s.book.cells) && HonestPasses(t.dealt, t.passes, s.passes) && id in s.passes
    ensures HonestHold(s, t, id)
  {
    assert Held(s.book, s.passes[id].ref);
  }

  lemma RecheckIsHonest(s: System, t: History, id: nat)
    requires PassEnabled(s, Recheck(id)) && HonestHold(s, t, id)
    ensures HonestHold(RecheckStep(s, id), PassHistory(s, t, Recheck(id)), id)
  {
    var n := PassHistory(s, t, Recheck(id));
    var ref := s.passes[id].ref;
    var cell, life := s.book.cells[ref], LifeOf(t.cells, ref);
    if cell.MayRun() {
      assert Dealt(Handled(cell.cluster.name, cell.generation, cell.cluster), life.origin) in n.dealt;
    }
  }

  /** Settling, as far as the pass and the state go. */
  lemma SettledPair(dealt: set<Dealt>, own: Life, pass: Pass, life: Life, cell: Cell, desired: Status, formed: nat, verdict: Option<Verdict>)
    requires HonestPair(dealt, own, pass, life, cell) && pass.phase == Booked
    requires HonestCell(dealt, life.(status := formed), cell.(status := desired)) && Honest(dealt, cell.cluster.name, formed, desired)
    ensures HonestPair(dealt, own, pass.(phase := Settled, verdict := verdict), life, cell)
    ensures HonestPair(dealt, own.(status := formed), pass.(phase := Settling, sent := desired, verdict := verdict),
                       life.(status := formed), cell.(status := desired))
  {
  }

  lemma SettleIsHonest(s: System, t: History, id: nat)
    requires HonestHold(s, t, id) && s.passes[id].phase == Booked
    ensures HonestHold(SettleStep(s, id), SettleHistory(s, t, id), id)
  {
    var pass := s.passes[id];
    var cell, life, own := s.book.cells[pass.ref], LifeOf(t.cells, pass.ref), LifeOf(t.passes, id);
    var desired, formed := WithVerdict(pass.result, VerdictOf(cell)), FormedFor(VerdictOf(cell), life, own.origin);
    OverlaidIsHonest(t.dealt, life, cell, own.origin, pass.result, desired);
    SettledPair(t.dealt, own, pass, life, cell, desired, formed, VerdictOf(cell));
    SettleIs(s, t, id, desired, formed, VerdictOf(cell));
  }

  /** The two ways settling can go. */
  lemma SettleIs(s: System, t: History, id: nat, desired: Status, formed: nat, verdict: Option<Verdict>)
    requires id in s.passes && s.passes[id].ref in s.book.cells
    requires var pass := s.passes[id];
      var cell := s.book.cells[pass.ref];
      && verdict == VerdictOf(cell) && desired == WithVerdict(pass.result, verdict)
      && formed == FormedFor(verdict, LifeOf(t.cells, pass.ref), LifeOf(t.passes, id).origin)
    ensures var pass := s.passes[id];
      var cell, life, own := s.book.cells[pass.ref], LifeOf(t.cells, pass.ref), LifeOf(t.passes, id);
      var u, n := SettleStep(s, id), SettleHistory(s, t, id);
      && id in u.passes && pass.ref in u.book.cells && n.dealt == t.dealt
      && if desired == pass.sent
         then u.passes[id] == pass.(phase := Settled, verdict := verdict) && u.book.cells[pass.ref] == cell && n == t
         else && u.passes[id] == pass.(phase := Settling, sent := desired, verdict := verdict)
              && u.book.cells[pass.ref] == cell.(status := desired)
              && LifeOf(n.passes, id) == own.(status := formed) && LifeOf(n.cells, pass.ref) == life.(status := formed)
  {
  }

  lemma OverlayStepIsHonest(s: System, t: History, id: nat)
    requires PassEnabled(s, Overlay(id)) && HonestHold(s, t, id)
    ensures HonestHold(PassStep(s, Overlay(id)), PassHistory(s, t, Overlay(id)), id)
  {
    var ref := s.passes[id].ref;
    OverlayIsHonest(t.dealt, LifeOf(t.cells, ref), s.book.cells[ref], LifeOf(t.passes, id).origin, s.passes[id].result);
  }

  /** What a pass step does to the pass itself and to the state it holds. */
  lemma PassStepIsHonest(s: System, t: History, step: Step)
    requires PassEnabled(s, step) && !step.Release? && HonestHold(s, t, Expected(step).value.0)
    ensures HonestHold(PassStep(s, step), PassHistory(s, t, step), Expected(step).value.0)
  {
    if step.Recheck? {
      RecheckIsHonest(s, t, step.id);
    } else if step.Settle? {
      SettleIsHonest(s, t, step.id);
    } else if step.Overlay? {
      OverlayStepIsHonest(s, t, step.id);
    } else {
      PlainStepIsHonest(s, t, step);
    }
  }

  lemma PlainStepIsHonest(s: System, t: History, step: Step)
    requires PassEnabled(s, step) && HonestHold(s, t, Expected(step).value.0)
    requires !step.Release? && !step.Recheck? && !step.Settle? && !step.Overlay?
    ensures HonestHold(PassStep(s, step), PassHistory(s, t, step), Expected(step).value.0)
  {
  }

  lemma PassStepApi(s: System, t: History, step: Step)
    requires PassEnabled(s, step) && HonestApi(t.dealt, t.carried, s.api) && HonestHold(s, t, Expected(step).value.0)
    ensures HonestApi(t.dealt, PassHistory(s, t, step).carried, PassStep(s, step).api)
  {
    if step.WriteResult? {
      SendIsHonest(t.dealt, t.carried, s.api, s.passes[step.id].cluster.name, LifeOf(t.passes, step.id).status,
                   s.passes[step.id].sent, step.schema, step.reply);
    } else if step.WriteSettled? {
      SendIsHonest(t.dealt, t.carried, s.api, s.passes[step.id].cluster.name, LifeOf(t.passes, step.id).status,
                   s.passes[step.id].sent, step.schema, step.reply);
    }
  }

  lemma ReleaseIsHonest(s: System, t: History, id: nat)
    requires AllHonest(s, t) && PassEnabled(s, Release(id))
    ensures AllHonest(ReleaseStep(s, id), t)
  {
    var ref := s.passes[id].ref;
    assert HonestCell(t.dealt, LifeOf(t.cells, ref), s.book.cells[ref]);
    ReleasedCells(t.dealt, t.cells, s.book.cells, ref);
    FewerPasses(t.dealt, t.passes, s.passes, id);
  }

  lemma ReleasedCells(dealt: set<Dealt>, lives: map<Ref, Life>, cells: map<Ref, Cell>, ref: Ref)
    requires HonestCells(dealt, lives, cells) && ref in cells
    ensures HonestCells(dealt, lives, cells[ref := cells[ref].(running := false)])
  {
    assert HonestCell(dealt, LifeOf(lives, ref), cells[ref]);
  }

  lemma FewerPasses(dealt: set<Dealt>, lives: map<nat, Life>, passes: map<nat, Pass>, id: nat)
    requires HonestPasses(dealt, lives, passes)
    ensures HonestPasses(dealt, lives, passes - {id})
  {
  }

  /** A pass step touches only its own pass and the state it holds, and marks only those. */
  lemma PassStepFrame(s: System, step: Step)
    requires PassEnabled(s, step) && !step.Release?
    ensures var ref, u := s.passes[Expected(step).value.0].ref, PassStep(s, step);
      u.poll == s.poll && ref in u.book.cells && u.book.cells == s.book.cells[ref := u.book.cells[ref]]
  {
    var ref := s.passes[Expected(step).value.0].ref;
    assert s.book.cells == s.book.cells[ref := s.book.cells[ref]];
  }

  lemma PassHistoryFrame(s: System, t: History, step: Step)
    requires PassEnabled(s, step)
    ensures var id := Expected(step).value.0;
      var ref, n := s.passes[id].ref, PassHistory(s, t, step);
      && (forall r :: r != ref ==> LifeOf(n.cells, r) == LifeOf(t.cells, r))
      && (forall i :: i != id ==> LifeOf(n.passes, i) == LifeOf(t.passes, i))
      && n == t.(carried := n.carried, cells := n.cells, passes := n.passes, dealt := n.dealt)
  {
  }

  lemma PassStepOnly(s: System, step: Step)
    requires PassEnabled(s, step) && !step.Release?
    ensures var id := Expected(step).value.0;
      var u := PassStep(s, step); id in u.passes && u.passes == s.passes[id := u.passes[id]]
  {
  }

  lemma PassStepRecords(s: System, t: History, step: Step)
    requires PassEnabled(s, step) && Recorded(t.dealt, s.handled)
    ensures Recorded(PassHistory(s, t, step).dealt, PassStep(s, step).handled)
  {
  }

  /** The others are as honest as they were. */
  lemma OtherHoldsStayHonest(cells: map<Ref, Cell>, after: map<Ref, Cell>, lives: map<Ref, Life>, later: map<Ref, Life>,
                             ref: Ref, dealt: set<Dealt>, more: set<Dealt>)
    requires HonestCells(dealt, lives, cells) && dealt <= more && ref in after && after == cells[ref := after[ref]]
    requires HonestCell(more, LifeOf(later, ref), after[ref]) && forall r :: r != ref ==> LifeOf(later, r) == LifeOf(lives, r)
    ensures HonestCells(more, later, after)
  {
    CellsStayHonest(dealt, more, lives, cells);
  }

  lemma OtherPassesStayHonest(passes: map<nat, Pass>, after: map<nat, Pass>, lives: map<nat, Life>, later: map<nat, Life>,
                              id: nat, dealt: set<Dealt>, more: set<Dealt>)
    requires HonestPasses(dealt, lives, passes) && dealt <= more && id in after && after == passes[id := after[id]]
    requires HonestPass(more, LifeOf(later, id), after[id]) && forall i :: i != id ==> LifeOf(later, i) == LifeOf(lives, i)
    ensures HonestPasses(more, later, after)
  {
    forall i | i in after ensures HonestPass(more, LifeOf(later, i), after[i]) {
      if i != id { PassStaysHonest(dealt, more, LifeOf(lives, i), passes[i]); }
    }
  }

  lemma PassStepHolds(s: System, t: History, step: Step)
    requires PassEnabled(s, step) && !step.Release? && HonestHold(s, t, Expected(step).value.0)
    requires HonestCells(t.dealt, t.cells, s.book.cells) && HonestPasses(t.dealt, t.passes, s.passes)
    ensures var u, n := PassStep(s, step), PassHistory(s, t, step);
      HonestCells(n.dealt, n.cells, u.book.cells) && HonestPasses(n.dealt, n.passes, u.passes)
  {
    var id := Expected(step).value.0;
    var u, n := PassStep(s, step), PassHistory(s, t, step);
    DealtOnlyGrows(s, t, step);
    PassStepFrame(s, step);
    PassStepOnly(s, step);
    PassHistoryFrame(s, t, step);
    PassStepMoves(s, step);
    PassStepIsHonest(s, t, step);
    OtherHoldsStayHonest(s.book.cells, u.book.cells, t.cells, n.cells, s.passes[id].ref, t.dealt, n.dealt);
    OtherPassesStayHonest(s.passes, u.passes, t.passes, n.passes, id, t.dealt, n.dealt);
  }

  lemma DealtOnlyGrows(s: System, t: History, step: Step)
    requires PassEnabled(s, step)
    ensures t.dealt <= PassHistory(s, t, step).dealt
  {
  }

  lemma PassStepApiAndPoll(s: System, t: History, step: Step)
    requires HonestApi(t.dealt, t.carried, s.api) && HonestPoll(t, s.poll) && PassEnabled(s, step) && !step.Release?
    requires HonestHold(s, t, Expected(step).value.0)
    ensures var u, n := PassStep(s, step), PassHistory(s, t, step); HonestApi(n.dealt, n.carried, u.api) && HonestPoll(n, u.poll)
  {
    var u, n := PassStep(s, step), PassHistory(s, t, step);
    PassStepApi(s, t, step);
    DealtOnlyGrows(s, t, step);
    ApiStaysHonest(t.dealt, n.dealt, n.carried, u.api);
    PassStepFrame(s, step);
    PassHistoryFrame(s, t, step);
    PollStaysHonest(t, n.dealt, s.poll);
  }

  lemma PassStepKeepsHonest(s: System, t: History, step: Step)
    requires AllHonest(s, t) && PassEnabled(s, step) && !step.Release? && HonestHold(s, t, Expected(step).value.0)
    ensures AllHonest(PassStep(s, step), PassHistory(s, t, step))
  {
    PassStepApiAndPoll(s, t, step);
    PassStepHolds(s, t, step);
    PassStepRecords(s, t, step);
  }

  lemma PassStepsKeepHonest(s: System, t: History, step: Step)
    requires Claims(s) && AllHonest(s, t) && PassEnabled(s, step)
    ensures AllHonest(PassStep(s, step), PassHistory(s, t, step))
  {
    HoldsHonestly(s, t, Expected(step).value.0);
    if step.Release? {
      ReleaseIsHonest(s, t, step.id);
    } else {
      PassStepKeepsHonest(s, t, step);
    }
  }

  lemma OtherStepsKeepHonest(s: System, t: History, step: Step)
    requires Indexed(s.book) && AllHonest(s, t) && Enabled(s, step) && Expected(step).None?
    ensures AllHonest(Next(s, step), NextHistory(s, t, step))
  {
    OtherStepsApi(s, t, step);
    OtherStepsCells(s, t, step);
    OtherStepsPoll(s, t, step);
    OtherStepsPasses(s, t, step);
  }

  // ---- Which spec a generation stands for ---------------------------------------------------------------

  /** The same spec: the annotation beside it moves no generation. */
  predicate SameSpec(a: Config.Cluster, b: Config.Cluster) {
    a.(adoptedRegistration := false) == b.(adoptedRegistration := false)
  }

  /** While the object it was read from is still there, the generation is an earlier one or stands
      for the spec the object has. */
  ghost predicate Agrees(api: Objects, born: map<string, nat>, name: string, life: nat, generation: int, cluster: Config.Cluster) {
    && life <= Count(born, name)
    && (life == Count(born, name) && name in api ==>
          || generation < api[name].generation
          || (generation == api[name].generation && SameSpec(cluster, Inventory.Decode(api[name]).cluster)))
  }

  ghost predicate DealtAgree(api: Objects, born: map<string, nat>, dealt: set<Dealt>) {
    forall d :: d in dealt ==> Agrees(api, born, d.spec.name, d.life, d.spec.generation, d.spec.cluster)
  }

  ghost predicate ObjectsAgree(api: Objects, born: map<string, nat>, listed: map<string, Life>, objects: seq<Inventory.Connection>) {
    forall k :: 0 <= k < |objects| ==>
      Agrees(api, born, objects[k].name, LifeOf(listed, objects[k].name).origin, objects[k].generation,
             Inventory.Decode(objects[k]).cluster)
  }

  ghost predicate CellAgrees(api: Objects, born: map<string, nat>, life: Life, cell: Cell) {
    Agrees(api, born, cell.cluster.name, life.origin, cell.generation, cell.cluster)
  }

  ghost predicate CellsAgree(api: Objects, born: map<string, nat>, lives: map<Ref, Life>, cells: map<Ref, Cell>) {
    forall r :: r in cells ==> CellAgrees(api, born, LifeOf(lives, r), cells[r])
  }

  ghost predicate AllAgree(s: System, t: History) {
    && DealtAgree(s.api, t.born, t.dealt)
    && (s.poll.Read? ==> ObjectsAgree(s.api, t.born, t.listed, s.poll.objects))
    && CellsAgree(s.api, t.born, t.cells, s.book.cells)
  }

  /** What the inventory may go through without a generation of one object changing its meaning. */
  ghost predicate Evolves(api: Objects, born: map<string, nat>, after: Objects, later: map<string, nat>) {
    forall n ::
      && Count(born, n) <= Count(later, n)
      && (Count(born, n) == Count(later, n) && n in after ==>
            && n in api
            && (api[n].generation < after[n].generation
                || (api[n].generation == after[n].generation
                    && SameSpec(Inventory.Decode(api[n]).cluster, Inventory.Decode(after[n]).cluster))))
  }

  lemma AgreesLater(api: Objects, born: map<string, nat>, after: Objects, later: map<string, nat>,
                    name: string, life: nat, generation: int, cluster: Config.Cluster)
    requires Evolves(api, born, after, later) && Agrees(api, born, name, life, generation, cluster)
    ensures Agrees(after, later, name, life, generation, cluster)
  {
    assert Count(born, name) <= Count(later, name);
  }

  lemma DealtAgreeLater(api: Objects, born: map<string, nat>, after: Objects, later: map<string, nat>, dealt: set<Dealt>)
    requires Evolves(api, born, after, later) && DealtAgree(api, born, dealt)
    ensures DealtAgree(after, later, dealt)
  {
    forall d | d in dealt ensures Agrees(after, later, d.spec.name, d.life, d.spec.generation, d.spec.cluster) {
      AgreesLater(api, born, after, later, d.spec.name, d.life, d.spec.generation, d.spec.cluster);
    }
  }

  lemma CellsAgreeLater(api: Objects, born: map<string, nat>, after: Objects, later: map<string, nat>,
                        lives: map<Ref, Life>, cells: map<Ref, Cell>)
    requires Evolves(api, born, after, later) && CellsAgree(api, born, lives, cells)
    ensures CellsAgree(after, later, lives, cells)
  {
    forall r | r in cells ensures CellAgrees(after, later, LifeOf(lives, r), cells[r]) {
      assert CellAgrees(api, born, LifeOf(lives, r), cells[r]);
      AgreesLater(api, born, after, later, cells[r].cluster.name, LifeOf(lives, r).origin, cells[r].generation, cells[r].cluster);
    }
  }

  lemma ObjectsAgreeLater(api: Objects, born: map<string, nat>, after: Objects, later: map<string, nat>,
                          listed: map<string, Life>, objects: seq<Inventory.Connection>)
    requires Evolves(api, born, after, later) && ObjectsAgree(api, born, listed, objects)
    ensures ObjectsAgree(after, later, listed, objects)
  {
    forall k | 0 <= k < |objects|
      ensures Agrees(after, later, objects[k].name, LifeOf(listed, objects[k].name).origin, objects[k].generation,
                     Inventory.Decode(objects[k]).cluster)
    {
      AgreesLater(api, born, after, later, objects[k].name, LifeOf(listed, objects[k].name).origin, objects[k].generation,
                  Inventory.Decode(objects[k]).cluster);
    }
  }

  lemma StatusKeepsSpec(obj: Inventory.Connection, status: Option<Status>)
    ensures Inventory.Decode(obj.(status := status)).cluster == Inventory.Decode(obj).cluster
  {
  }

  lemma AnnotationKeepsSpec(obj: Inventory.Connection, annotation: string)
    ensures SameSpec(Inventory.Decode(obj).cluster, Inventory.Decode(obj.(adoptedAnnotation := annotation)).cluster)
  {
  }

  lemma SendEvolves(api: Objects, born: map<string, nat>, name: string, st: Status, schema: Option<Condition>, reply: Reply)
    ensures Evolves(api, born, Send(api, name, st, schema, reply), born)
  {
    if name in api { StatusKeepsSpec(api[name], Some(Stamped(st, schema))); }
  }

  lemma UsersEvolve(s: System, t: History, step: Step)
    requires Enabled(s, step) && ByUsers(step)
    ensures Evolves(s.api, t.born, UserStep(s, step).api, NextHistory(s, t, step).born)
  {
    if step.Annotate? { AnnotationKeepsSpec(s.api[step.name], step.annotation); }
  }

  ghost predicate EntryAgrees(api: Objects, born: map<string, nat>, listed: map<string, Life>, e: Inventory.Entry) {
    Agrees(api, born, e.cluster.name, LifeOf(listed, e.cluster.name).origin, e.generation, e.cluster)
  }

  lemma EntriesAgree(api: Objects, born: map<string, nat>, listed: map<string, Life>, objects: seq<Inventory.Connection>, k: nat)
    requires ObjectsAgree(api, born, listed, objects) && k < |objects|
    ensures k < |Inventory.Listed(objects)|
    ensures EntryAgrees(api, born, listed, Inventory.Listed(objects)[k])
  {
    ListedKeeps(objects, k);
  }

  lemma UpsertAgrees(b: Book, e: Inventory.Entry, now: int, api: Objects, born: map<string, nat>, lives: map<Ref, Life>, life: Life)
    requires CellsAgree(api, born, lives, b.cells) && Agrees(api, born, e.cluster.name, life.origin, e.generation, e.cluster)
    ensures CellsAgree(api, born, lives[Upserted(b, e, now).index[e.cluster.name] := life], Upserted(b, e, now).cells)
  {
  }

  lemma {:induction false} UpsertAllAgrees(b: Book, es: seq<Inventory.Entry>, now: int, api: Objects, born: map<string, nat>,
                                           lives: map<Ref, Life>, listed: map<string, Life>)
    requires CellsAgree(api, born, lives, b.cells)
    requires forall k :: 0 <= k < |es| ==> EntryAgrees(api, born, listed, es[k])
    ensures CellsAgree(api, born, Relisted(b, es, now, lives, listed), UpsertAll(b, es, now).cells)
  {
    if es != [] {
      var front, last := es[..|es| - 1], es[|es| - 1];
      UpsertAllAgrees(b, front, now, api, born, lives, listed);
      UpsertAgrees(UpsertAll(b, front, now), last, now, api, born, Relisted(b, front, now, lives, listed),
                   LifeOf(listed, last.cluster.name));
    }
  }

  lemma RejectedAgree(api: Objects, born: map<string, nat>, listed: map<string, Life>, es: seq<Inventory.Entry>, dealt: set<Dealt>)
    requires DealtAgree(api, born, dealt)
    requires forall k :: 0 <= k < |es| ==> EntryAgrees(api, born, listed, es[k])
    ensures DealtAgree(api, born, dealt + RejectedLives(es, listed))
  {
    forall d | d in RejectedLives(es, listed) ensures Agrees(api, born, d.spec.name, d.life, d.spec.generation, d.spec.cluster) {
      var e :| e in es && d == Dealt(Handled(e.cluster.name, e.generation, e.cluster), LifeOf(listed, e.cluster.name).origin);
      assert EntryAgrees(api, born, listed, e);
    }
  }

  lemma DepartingAgrees(api: Objects, born: map<string, nat>, lives: map<Ref, Life>, cells: map<Ref, Cell>, after: map<Ref, Cell>)
    requires CellsAgree(api, born, lives, cells) && after.Keys <= cells.Keys
    requires forall r :: r in after ==>
      after[r].cluster == cells[r].cluster && after[r].generation == cells[r].generation
    ensures CellsAgree(api, born, lives, after)
  {
    forall r | r in after ensures CellAgrees(api, born, LifeOf(lives, r), after[r]) {
      assert CellAgrees(api, born, LifeOf(lives, r), cells[r]);
    }
  }

  lemma AllEntriesAgree(api: Objects, born: map<string, nat>, listed: map<string, Life>, objects: seq<Inventory.Connection>)
    requires ObjectsAgree(api, born, listed, objects)
    ensures var es := Inventory.Listed(objects); forall k :: 0 <= k < |es| ==> EntryAgrees(api, born, listed, es[k])
  {
    var es := Inventory.Listed(objects);
    assert |es| == |objects|;
    forall k | 0 <= k < |es| ensures EntryAgrees(api, born, listed, es[k]) {
      EntriesAgree(api, born, listed, objects, k);
    }
  }

  lemma ScheduledAgree(b: Book, es: seq<Inventory.Entry>, now: int, api: Objects, born: map<string, nat>,
                       lives: map<Ref, Life>, listed: map<string, Life>)
    requires CellsAgree(api, born, lives, b.cells)
    requires forall k :: 0 <= k < |es| ==> EntryAgrees(api, born, listed, es[k])
    ensures CellsAgree(api, born, Relisted(b, es, now, lives, listed), UpdateSchedule(b, es, now).cells)
  {
    UpsertAllAgrees(b, es, now, api, born, lives, listed);
    DepartingAgrees(api, born, Relisted(b, es, now, lives, listed), UpsertAll(b, es, now).cells, UpdateSchedule(b, es, now).cells);
  }

  lemma ScheduleParts(s: System, t: History)
    requires s.poll.Read?
    ensures var es := Inventory.Listed(s.poll.objects);
      var u, n := ScheduleStep(s), PollHistory(s, t, Schedule);
      && u.api == s.api && !u.poll.Read? && u.book == UpdateSchedule(s.book, es, s.now) && n.born == t.born
      && n.cells == Relisted(s.book, es, s.now, t.cells, t.listed) && n.dealt == t.dealt + RejectedLives(es, t.listed)
  {
  }

  lemma AgreementOf(u: System, n: History, api: Objects, born: map<string, nat>, dealt: set<Dealt>, lives: map<Ref, Life>,
                    cells: map<Ref, Cell>)
    requires DealtAgree(api, born, dealt) && CellsAgree(api, born, lives, cells)
    requires u.api == api && n.born == born && n.dealt == dealt && n.cells == lives && u.book.cells == cells && !u.poll.Read?
    ensures AllAgree(u, n)
  {
  }

  lemma ScheduleAgrees(s: System, t: History)
    requires AllAgree(s, t) && s.poll.Read?
    ensures AllAgree(ScheduleStep(s), PollHistory(s, t, Schedule))
  {
    var es := Inventory.Listed(s.poll.objects);
    AllEntriesAgree(s.api, t.born, t.listed, s.poll.objects);
    ScheduledAgree(s.book, es, s.now, s.api, t.born, t.cells, t.listed);
    RejectedAgree(s.api, t.born, t.listed, es, t.dealt);
    ScheduleParts(s, t);
    AgreementOf(ScheduleStep(s), PollHistory(s, t, Schedule), s.api, t.born, t.dealt + RejectedLives(es, t.listed),
                Relisted(s.book, es, s.now, t.cells, t.listed), UpdateSchedule(s.book, es, s.now).cells);
  }

  /** As far as agreement goes, states and marks have not changed. */
  ghost predicate SameOrigins(lives: map<Ref, Life>, later: map<Ref, Life>) {
    forall r :: LifeOf(later, r).origin == LifeOf(lives, r).origin
  }

  lemma SameClaimsAgree(b: Book, c: Book, api: Objects, born: map<string, nat>, lives: map<Ref, Life>, later: map<Ref, Life>)
    requires CellsAgree(api, born, lives, b.cells) && SameClaims(b, c) && SameOrigins(lives, later)
    ensures CellsAgree(api, born, later, c.cells)
  {
    forall r | r in c.cells ensures CellAgrees(api, born, LifeOf(later, r), c.cells[r]) {
      assert r in b.cells && CellAgrees(api, born, LifeOf(lives, r), b.cells[r]);
    }
  }

  lemma OtherStepsOrigins(s: System, t: History, step: Step)
    requires Enabled(s, step) && Expected(step).None? && !step.Schedule?
    ensures var n := NextHistory(s, t, step);
      SameOrigins(t.cells, n.cells) && n.dealt == t.dealt && (!step.ListInventory? ==> n.listed == t.listed)
  {
  }

  lemma OtherStepsEvolve(s: System, t: History, step: Step)
    requires Enabled(s, step) && Expected(step).None?
    ensures Evolves(s.api, t.born, Next(s, step).api, NextHistory(s, t, step).born)
  {
    if ByUsers(step) {
      UsersEvolve(s, t, step);
    } else if step.WriteVerdict? {
      SendEvolves(s.api, t.born, s.poll.name, s.poll.desired, step.schema, step.reply);
    } else if step.WriteRestamp? {
      SendEvolves(s.api, t.born, s.poll.pending[0].0, s.poll.pending[0].1, step.schema, step.reply);
    } else {
      PollLeavesTheApi(s, t, step);
    }
  }

  lemma FreshlyListedAgree(s: System, t: History, objects: seq<Inventory.Connection>)
    requires ListOf(objects, s.api)
    ensures ObjectsAgree(s.api, t.born, PollHistory(s, t, ListInventory(objects)).listed, objects)
  {
  }

  lemma OtherStepsAgree(s: System, t: History, step: Step)
    requires AllAgree(s, t) && Enabled(s, step) && Expected(step).None?
    ensures AllAgree(Next(s, step), NextHistory(s, t, step))
  {
    if step.Schedule? {
      ScheduleAgrees(s, t);
    } else {
      var u, n := Next(s, step), NextHistory(s, t, step);
      OtherStepsSameClaims(s, step);
      OtherStepsOrigins(s, t, step);
      OtherStepsEvolve(s, t, step);
      SameClaimsAgree(s.book, u.book, s.api, t.born, t.cells, n.cells);
      CellsAgreeLater(s.api, t.born, u.api, n.born, n.cells, u.book.cells);
      DealtAgreeLater(s.api, t.born, u.api, n.born, t.dealt);
      OtherStepsObjects(s, t, step);
    }
  }

  lemma OtherStepsObjects(s: System, t: History, step: Step)
    requires AllAgree(s, t) && Enabled(s, step) && Expected(step).None? && !step.Schedule?
    ensures Next(s, step).poll.Read? ==>
      ObjectsAgree(Next(s, step).api, NextHistory(s, t, step).born, NextHistory(s, t, step).listed, Next(s, step).poll.objects)
  {
    if step.ListInventory? {
      FreshlyListedAgree(s, t, step.objects);
    } else if Next(s, step).poll.Read? {
      OtherStepsOrigins(s, t, step);
      OtherStepsEvolve(s, t, step);
      ObjectsAgreeLater(s.api, t.born, Next(s, step).api, NextHistory(s, t, step).born, t.listed, s.poll.objects);
    }
  }

  lemma PassStepsEvolve(s: System, t: History, step: Step)
    requires PassEnabled(s, step)
    ensures Evolves(s.api, t.born, PassStep(s, step).api, PassHistory(s, t, step).born)
  {
    var pass := s.passes[Expected(step).value.0];
    if step.WriteResult? {
      SendEvolves(s.api, t.born, pass.cluster.name, pass.sent, step.schema, step.reply);
    } else if step.WriteSettled? {
      SendEvolves(s.api, t.born, s.book.cells[pass.ref].cluster.name, pass.sent, step.schema, step.reply);
    }
  }

  /** The specs a step of a pass takes up are ones a state holds, and of the object it was read from. */
  lemma PassStepDeals(s: System, t: History, step: Step)
    requires PassEnabled(s, step)
    ensures var ref, n := s.passes[Expected(step).value.0].ref, PassHistory(s, t, step);
      var cell := s.book.cells[ref];
      && SameOrigins(t.cells, n.cells) && n.listed == t.listed
      && (n.dealt == t.dealt
          || n.dealt == t.dealt + {Dealt(Handled(cell.cluster.name, cell.generation, cell.cluster), LifeOf(t.cells, ref).origin)})
  {
  }

  lemma PassStepDealtAgree(s: System, t: History, step: Step)
    requires AllAgree(s, t) && PassEnabled(s, step)
    ensures DealtAgree(s.api, t.born, PassHistory(s, t, step).dealt)
  {
    var ref := s.passes[Expected(step).value.0].ref;
    PassStepDeals(s, t, step);
    assert CellAgrees(s.api, t.born, LifeOf(t.cells, ref), s.book.cells[ref]);
  }

  lemma PassStepCellsAgree(s: System, t: History, step: Step)
    requires AllAgree(s, t) && PassEnabled(s, step)
    ensures CellsAgree(s.api, t.born, PassHistory(s, t, step).cells, PassStep(s, step).book.cells)
  {
    PassStepSameClaims(s, step);
    PassStepDeals(s, t, step);
    SameClaimsAgree(s.book, PassStep(s, step).book, s.api, t.born, t.cells, PassHistory(s, t, step).cells);
  }

  lemma AllAgreeLater(s: System, t: History, u: System, n: History)
    requires Evolves(s.api, t.born, u.api, n.born) && u.poll == s.poll && n.listed == t.listed
    requires DealtAgree(s.api, t.born, n.dealt) && CellsAgree(s.api, t.born, n.cells, u.book.cells)
    requires s.poll.Read? ==> ObjectsAgree(s.api, t.born, t.listed, s.poll.objects)
    ensures AllAgree(u, n)
  {
    CellsAgreeLater(s.api, t.born, u.api, n.born, n.cells, u.book.cells);
    DealtAgreeLater(s.api, t.born, u.api, n.born, n.dealt);
    if s.poll.Read? { ObjectsAgreeLater(s.api, t.born, u.api, n.born, t.listed, s.poll.objects); }
  }

  lemma PassStepKeepsAgreement(s: System, t: History, step: Step)
    requires AllAgree(s, t) && PassEnabled(s, step)
    ensures AllAgree(PassStep(s, step), PassHistory(s, t, step))
  {
    PassStepDeals(s, t, step);
    PassStepDealtAgree(s, t, step);
    PassStepCellsAgree(s, t, step);
    PassStepsEvolve(s, t, step);
    SchedulerWakeups.PassStepKeepsPoll(s, step);
    AllAgreeLater(s, t, PassStep(s, step), PassHistory(s, t, step));
  }

  // ---- Over every run -------------------------------------------------------------------------------------

  ghost predicate Kept(s: System, t: History) { AllHonest(s, t) && AllAgree(s, t) }

  lemma StepKeepsEdits(s: System, t: History, step: Step)
    requires Claims(s) && Kept(s, t) && Enabled(s, step)
    ensures Kept(Next(s, step), NextHistory(s, t, step))
  {
    if Expected(step).None? {
      OtherStepsKeepHonest(s, t, step);
      OtherStepsAgree(s, t, step);
    } else {
      PassStepsKeepHonest(s, t, step);
      PassStepKeepsAgreement(s, t, step);
    }
  }

  lemma {:induction false} RunsKeepEdits(s: System, steps: seq<Step>)
    requires Structure(s) && Kept(s, FirstHistory(s.handled)) && Possible(s, steps)
    ensures Kept(Run(s, steps), HistoryOf(s, steps))
  {
    if steps != [] {
      var front := steps[..|steps| - 1];
      RunsKeepEdits(s, front);
      RunsKeepStructure(s, front);
      StepKeepsEdits(Run(s, front), HistoryOf(s, front), steps[|steps| - 1]);
    }
  }

  /** What an earlier process left behind: objects whose statuses claim only what it handled. */
  ghost predicate Inherited(api: Objects, handled: set<Handled>) {
    && HonestApi(FirstHistory(handled).dealt, map[], api) && DealtAgree(api, map[], FirstHistory(handled).dealt)
  }

  lemma BeginsHonest(now: int, api: Objects, handled: set<Handled>)
    requires Inherited(api, handled)
    ensures Structure(Begin(now, api, handled)) && Kept(Begin(now, api, handled), FirstHistory(handled))
  {
    assert SlotHolders(Begin(now, api, handled).passes) == {};
  }

  /** The spec this very object now has was taken up by a pass or rejected by a poll. */
  ghost predicate DealtWith(s: System, t: History, name: string) {
    name in s.api && exists d :: d in t.dealt && Settles(s, t, name, d)
  }

  ghost predicate Settles(s: System, t: History, name: string, d: Dealt)
    requires name in s.api
  {
    && d.spec in s.handled && d.spec.name == name && d.life == Count(t.born, name)
    && d.spec.generation == s.api[name].generation && SameSpec(d.spec.cluster, Inventory.Decode(s.api[name]).cluster)
  }

  lemma EditedIsByGeneration(obj: Inventory.Connection)
    ensures Inventory.Decode(obj).Edited() <==> obj.generation != Inventory.DecodeStatus(obj).observedGeneration
  {
  }

  lemma FreshMeansDealtWith(s: System, t: History, name: string)
    requires Kept(s, t) && name in s.api && !Stale(t, name) && !Inventory.Decode(s.api[name]).Edited()
    ensures DealtWith(s, t, name)
  {
    assert HonestObject(t.dealt, Count(t.carried, name), s.api[name]);
    EditedIsByGeneration(s.api[name]);
    var d :| d in t.dealt && d.spec.name == name && d.spec.generation == s.api[name].generation && d.life == Count(t.born, name);
    assert Agrees(s.api, t.born, d.spec.name, d.life, d.spec.generation, d.spec.cluster);
    assert Settles(s, t, name, d);
  }

  /** In every interleaving an object that does not read as edited has had its present spec dealt
      with, unless the status it carries was formed for an earlier object of its name; that is the
      whole of the claim. Put the other way round: a spec that has not been dealt with reads as
      edited, so that an edit goes on being noticed, except while such a status stands on the object
      and happens to name its generation. Whichever write put it there: a pass's first or second, a
      verdict's, or a restamp's. */
  lemma UneditedMeansHandled(now: int, api: Objects, handled: set<Handled>, steps: seq<Step>, name: string)
    requires Inherited(api, handled) && Possible(Begin(now, api, handled), steps)
    requires name in Run(Begin(now, api, handled), steps).api
    ensures var begin := Begin(now, api, handled);
      var s, t := Run(begin, steps), HistoryOf(begin, steps);
      var named := Inventory.DecodeStatus(s.api[name]).observedGeneration;
      && (!Stale(t, name) && !Inventory.Decode(s.api[name]).Edited() ==> DealtWith(s, t, name))
      && (!DealtWith(s, t, name) ==>
            (Inventory.Decode(s.api[name]).Edited() <==> !(Stale(t, name) && named == s.api[name].generation)))
  {
    var begin := Begin(now, api, handled);
    BeginsHonest(now, api, handled);
    RunsKeepEdits(begin, steps);
    var s, t := Run(begin, steps), HistoryOf(begin, steps);
    EditedIsByGeneration(s.api[name]);
    if !Stale(t, name) && !Inventory.Decode(s.api[name]).Edited() {
      FreshMeansDealtWith(s, t, name);
    }
  }

  // ---- An edit is taken up at the first poll after the pass it landed in ------------------------------

  lemma NewsReadsAsEdited(t: History, objects: seq<Inventory.Connection>, k: nat)
    requires HonestPoll(t, Read(objects)) && k < |objects|
    requires var obj, life := objects[k], LifeOf(t.listed, objects[k].name);
      life.status == life.origin && !Known(t.dealt, obj.name, life.origin, obj.generation)
    ensures Inventory.Listed(objects)[k].Edited()
  {
    ListedKeeps(objects, k);
    EditedIsByGeneration(objects[k]);
    assert HonestObject(t.dealt, LifeOf(t.listed, objects[k].name).status, objects[k]);
  }

  lemma OwedIsDueNow(s: System, name: string)
    requires Claims(s) && SchedulerWakeups.WakeupsKept(s)
    requires s.book.Has(name) && s.book.index[name] in s.book.owed && !s.book.At(name).running
    ensures s.book.index[name] in DueRefs(s.book, s.now)
  {
    var r := s.book.index[name];
    assert SchedulerWakeups.Kept(s.book, s.passes, s.now, r);
    assert forall i :: i in s.passes ==> Held(s.book, s.passes[i].ref);
    assert Due(s.book.At(name), s.now);
  }

  lemma ScheduleStartsNothing(s: System, k: nat)
    requires Claims(s) && OwedAreKnown(s.book) && s.poll.Read? && DistinctObjects(s.poll.objects) && k < |s.poll.objects|
    requires !(s.book.Has(s.poll.objects[k].name) && s.book.At(s.poll.objects[k].name).running)
    ensures var n, name := ScheduleStep(s), s.poll.objects[k].name; n.book.Has(name) && !n.book.At(name).running
  {
    ListedDistinct(s.poll.objects);
    ListedKeeps(s.poll.objects, k);
    ScheduleListed(s.book, Inventory.Listed(s.poll.objects), s.now, k);
  }

  /** In every interleaving, of a poll that reads a spec nobody has dealt with -- a new one, or an
      edit that landed while a pass was running, whose status write then named the generation the
      pass had taken up -- and finds the pass over: the cluster is due there and then, so that the
      claim that follows takes it, or the spec is rejected. */
  lemma EditsAreTakenUpAfterThePass(now: int, api: Objects, handled: set<Handled>, steps: seq<Step>, k: nat)
    requires Inherited(api, handled) && Possible(Begin(now, api, handled), steps)
    requires var s, t := Run(Begin(now, api, handled), steps), HistoryOf(Begin(now, api, handled), steps);
      && s.poll.Read? && k < |s.poll.objects|
      && var obj, life := s.poll.objects[k], LifeOf(t.listed, s.poll.objects[k].name);
         && life.status == life.origin && !Known(t.dealt, obj.name, life.origin, obj.generation)
         && !(s.book.Has(obj.name) && s.book.At(obj.name).running)
    ensures var s, t := Run(Begin(now, api, handled), steps), HistoryOf(Begin(now, api, handled), steps);
      var obj, u := s.poll.objects[k], ScheduleStep(s);
      && k < |Inventory.Listed(s.poll.objects)|
      && if Inventory.Listed(s.poll.objects)[k].Valid()
         then u.book.Has(obj.name) && u.book.index[obj.name] in u.book.owed && u.book.index[obj.name] in DueRefs(u.book, u.now)
         else Known(PollHistory(s, t, Schedule).dealt, obj.name, LifeOf(t.listed, obj.name).origin, obj.generation)
  {
    var begin := Begin(now, api, handled);
    BeginsHonest(now, api, handled);
    RunsKeepEdits(begin, steps);
    SchedulerWakeups.RunsKeepWakeups(begin, steps);
    TakenUpOrRejected(Run(begin, steps), HistoryOf(begin, steps), k);
  }

  lemma TakenUpOrRejected(s: System, t: History, k: nat)
    requires Claims(s) && SchedulerWakeups.WakeupsKept(s) && AllHonest(s, t)
    requires s.poll.Read? && DistinctObjects(s.poll.objects) && k < |s.poll.objects|
    requires var obj, life := s.poll.objects[k], LifeOf(t.listed, s.poll.objects[k].name);
      && life.status == life.origin && !Known(t.dealt, obj.name, life.origin, obj.generation)
      && !(s.book.Has(obj.name) && s.book.At(obj.name).running)
    ensures var obj, u := s.poll.objects[k], ScheduleStep(s);
      && k < |Inventory.Listed(s.poll.objects)|
      && if Inventory.Listed(s.poll.objects)[k].Valid()
         then u.book.Has(obj.name) && u.book.index[obj.name] in u.book.owed && u.book.index[obj.name] in DueRefs(u.book, u.now)
         else Known(PollHistory(s, t, Schedule).dealt, obj.name, LifeOf(t.listed, obj.name).origin, obj.generation)
  {
    var objects := s.poll.objects;
    ListedKeeps(objects, k);
    NewsReadsAsEdited(t, objects, k);
    if Inventory.Listed(objects)[k].Valid() {
      NewsIsDueNow(s, k);
    } else {
      RejectedIsKnown(Inventory.Listed(objects), t.listed, PollHistory(s, t, Schedule).dealt, k);
    }
  }

  lemma NewsIsDueNow(s: System, k: nat)
    requires Claims(s) && SchedulerWakeups.WakeupsKept(s)
    requires s.poll.Read? && DistinctObjects(s.poll.objects) && k < |s.poll.objects|
    requires var e := Inventory.Listed(s.poll.objects)[k]; e.Valid() && e.Edited() && e.cluster.name == s.poll.objects[k].name
    requires !(s.book.Has(s.poll.objects[k].name) && s.book.At(s.poll.objects[k].name).running)
    ensures var u, name := ScheduleStep(s), s.poll.objects[k].name;
      u.book.Has(name) && u.book.index[name] in u.book.owed && u.book.index[name] in DueRefs(u.book, u.now)
  {
    SchedulerWakeups.WithdrawnVerdictIsOwed(s, k);
    SchedulerWakeups.ScheduleKeepsWakeups(s);
    StepKeepsClaims(s, Schedule);
    OwedKnown(s);
    ScheduleStartsNothing(s, k);
    OwedIsDueNow(ScheduleStep(s), s.poll.objects[k].name);
  }

  lemma OwedKnown(s: System)
    requires SchedulerWakeups.WakeupsKept(s)
    ensures OwedAreKnown(s.book)
  {
    forall r | r in s.book.owed ensures r in s.book.cells {
      assert SchedulerWakeups.Kept(s.book, s.passes, s.now, r);
    }
  }

  // ---- An edit that is lost --------------------------------------------------------------------------

  /** From an empty start: a connection is created, listed and reconciled, and as its pass is about
      to write, the object is deleted and created again with another spec. The write lands on the
      new object, which then does not read as edited, although every spec that was ever dealt with
      under this name and generation is another one. */
  lemma RecreationHidesAnEdit(now: int, name: string, spec: Option<Config.Spec>, annotation: string,
                              spec2: Option<Config.Spec>, annotation2: string, result: Status, schema: Option<Condition>)
    returns (v: System)
    requires name != "" && Inventory.Decode(L.NewObject(name, spec, annotation)).Valid() && result.observedGeneration == 1
    requires !SameSpec(Inventory.Decode(L.NewObject(name, spec, annotation)).cluster,
                       Inventory.Decode(L.NewObject(name, spec2, annotation2)).cluster)
    ensures L.Reaches(Begin(now, map[], {}), v)
    ensures name in v.api && v.api[name].spec == spec2 && !Inventory.Decode(v.api[name]).Edited()
    ensures forall h :: h in v.handled && h.name == name && h.generation == v.api[name].generation ==>
      !SameSpec(h.cluster, Inventory.Decode(v.api[name]).cluster)
  {
    var begin, obj := Begin(now, map[], {}), L.NewObject(name, spec, annotation);
    var s, pass, cell := L.GetsToWriting(now, obj, result);
    v := Recreated(begin, s, pass, cell, spec2, annotation2, schema);
    WrittenOver(L.NewObject(name, spec2, annotation2), Stamped(result, schema));
  }

  lemma WrittenOver(obj: Inventory.Connection, st: Status)
    ensures var written := Inventory.Decode(obj.(status := Some(st)));
      written.cluster == Inventory.Decode(obj).cluster && (written.Edited() <==> obj.generation != st.observedGeneration)
  {
  }

  lemma Recreated(begin: System, s: System, pass: Pass, cell: Cell, spec: Option<Config.Spec>, annotation: string,
                  schema: Option<Condition>) returns (v: System)
    requires L.Reaches(begin, L.Amid(s, pass, cell)) && pass.ref == 0 && pass.phase == Overlaid
    requires pass.cluster.name != "" && pass.cluster.name in s.api
    ensures L.Reaches(begin, v) && v.handled == s.handled
    ensures v == L.Amid(s.(api := v.api), pass.(phase := Wrote), cell)
    ensures v.api == s.api[pass.cluster.name :=
      L.NewObject(pass.cluster.name, spec, annotation).(status := Some(Stamped(pass.sent, schema)))]
  {
    var name := pass.cluster.name;
    var again := s.(api := s.api[name := L.NewObject(name, spec, annotation)]);
    Replaced(begin, s, pass, cell, name, spec, annotation);
    L.Writes(again, pass, cell, schema);
    L.OneMore(begin, L.Amid(again, pass, cell), WriteResult(0, schema, Done));
    v := Next(L.Amid(again, pass, cell), WriteResult(0, schema, Done));
  }

  lemma Replaced(begin: System, s: System, pass: Pass, cell: Cell, name: string, spec: Option<Config.Spec>, annotation: string)
    requires L.Reaches(begin, L.Amid(s, pass, cell)) && name != "" && name in s.api
    ensures L.Reaches(begin, L.Amid(s.(api := s.api[name := L.NewObject(name, spec, annotation)]), pass, cell))
  {
    L.OneMore(begin, L.Amid(s, pass, cell), Delete(name));
    L.OneMore(begin, L.Amid(s.(api := s.api - {name}), pass, cell), Create(name, spec, annotation));
    assert (s.api - {name})[name := L.NewObject(name, spec, annotation)] == s.api[name := L.NewObject(name, spec, annotation)];
  }
}
