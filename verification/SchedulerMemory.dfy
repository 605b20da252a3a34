/** What the scheduler remembers for a connection: the status its object carries, which a pass is
    started from and hands back. Whatever polls, verdicts, restamps and other clusters' passes do in
    between, a pass starts from the record some pass of its connection returned. */
module SchedulerMemory {
  import opened Text
  import opened Api
  import opened SchedulerModel
  import opened SchedulerStructure
  import opened SchedulerEntries
  import SchedulerWakeups
  import Inventory

  type Objects = map<string, Inventory.Connection>

  /** The two say the same by this condition, or nothing. */
  predicate SameCondition(a: Status, b: Status, kind: ConditionType) {
    (kind in a.conditions) == (kind in b.conditions) && (kind in a.conditions ==> a.conditions[kind] == b.conditions[kind])
  }

  /** Everything a status records of what was done and seen: all but the two conditions, the
      generation and the last action, which a verdict overwrites, and the schema's condition. */
  predicate SameRecord(a: Status, b: Status) {
    && a.secret == b.secret && a.lastSyncTime == b.lastSyncTime
    && a.tokenExpiresAt == b.tokenExpiresAt && a.tokenIssuedAt == b.tokenIssuedAt
    && a.selfCredentialExpiresAt == b.selfCredentialExpiresAt && a.selfCredentialIssuedAt == b.selfCredentialIssuedAt
    && a.servingCertExpiresAt == b.servingCertExpiresAt && a.servingCertDaysRemaining == b.servingCertDaysRemaining
    && a.appliedServer == b.appliedServer && a.appliedDisplayName == b.appliedDisplayName
    && a.appliedProject == b.appliedProject && a.appliedCAHash == b.appliedCAHash
    && a.appliedCredentialHash == b.appliedCredentialHash
    && SameCondition(a, b, ServingCertificateValid) && SameCondition(a, b, SelfCredentialValid)
    && SameCondition(a, b, SecretExclusivelyOwned)
  }

  // ---- The snapshot --------------------------------------------------------------------------------

  /** The same status, condition for condition, but for Conflict, which is not there. */
  predicate WithoutConflict(a: Status, b: Status) {
    && SameRecord(a, b) && a.observedGeneration == b.observedGeneration && a.lastAction == b.lastAction
    && Conflict !in a.conditions && a.conditions.Keys == b.conditions.Keys - {Conflict}
    && forall kind :: kind in a.conditions ==> a.conditions[kind] == b.conditions[kind]
  }

  /** The two ways a recheck can go. */
  lemma RecheckIs(s: System, id: nat)
    requires PassEnabled(s, Recheck(id))
    ensures var ref, u := s.passes[id].ref, PassStep(s, Recheck(id));
      var cell, pass := s.book.cells[ref], s.passes[id];
      && id in u.passes && ref in u.book.cells
      && if cell.MayRun() then u.passes[id] == TakenUp(pass, cell) && u.book.cells[ref] == cell.(rerunAfterPass := false)
         else u.passes[id] == pass.(phase := Leaving) && u.book.cells[ref] == cell
  {
  }

  lemma TakingUp(pass: Pass, cell: Cell)
    ensures var taken := TakenUp(pass, cell);
      && WithoutConflict(taken.prior, cell.status) && taken.cluster == cell.cluster && taken.generation == cell.generation
      && taken.phase == Snapshotted && taken.ref == pass.ref
  {
  }

  /** A pass starts exactly if its cluster may be reconciled: then from the status its state has, field
      for field and condition for condition, except that Conflict is left behind, and from its spec
      at its generation. */
  lemma SnapshotKeepsTheStatus(s: System, id: nat)
    requires PassEnabled(s, Recheck(id))
    ensures id in PassStep(s, Recheck(id)).passes
    ensures var cell, pass := s.book.cells[s.passes[id].ref], PassStep(s, Recheck(id)).passes[id];
      && (pass.phase == Snapshotted <==> cell.invalidReason == "" && !cell.departed)
      && (pass.phase == Snapshotted ==>
            WithoutConflict(pass.prior, cell.status) && pass.cluster == cell.cluster && pass.generation == cell.generation)
  {
    RecheckIs(s, id);
    TakingUp(s.passes[id], s.book.cells[s.passes[id].ref]);
  }

  // ---- What is known of one connection ------------------------------------------------------------------

  /** This status records what one of the known ones does. */
  ghost predicate Kept(known: set<Status>, st: Status) { exists q :: q in known && SameRecord(q, st) }

  ghost predicate KeptObject(known: set<Status>, name: string, obj: Inventory.Connection) {
    obj.name == name ==> Kept(known, Inventory.DecodeStatus(obj))
  }

  ghost predicate KeptApi(known: set<Status>, name: string, api: Objects) {
    (forall n :: n in api ==> api[n].name == n) && (name in api ==> Kept(known, Inventory.DecodeStatus(api[name])))
  }

  ghost predicate KeptPoll(known: set<Status>, name: string, poll: Poll) {
    match poll
    case Read(objects) => forall k :: 0 <= k < |objects| ==> KeptObject(known, name, objects[k])
    case Restamping(pending) => forall p :: p in pending && p.0 == name ==> Kept(known, p.1)
    case Writing(_, n, desired) => n == name ==> Kept(known, desired)
    case _ => true
  }

  ghost predicate KeptCell(known: set<Status>, name: string, cell: Cell) {
    cell.cluster.name == name ==> Kept(known, cell.status)
  }

  /** Of the states that names still lead to. */
  ghost predicate KeptCells(known: set<Status>, name: string, b: Book) {
    forall r :: InMap(b, r) ==> KeptCell(known, name, b.cells[r])
  }

  /** The blocked clusters a poll has yet to report on. */
  function ToReport(poll: Poll): seq<Ref> {
    if poll.Reporting? then poll.todo else if poll.Writing? then poll.rest else []
  }

  ghost predicate AllInMap(b: Book, todo: seq<Ref>) { forall r :: r in todo ==> InMap(b, r) }

  /** It is at work on what it started from. */
  predicate AtWork(phase: Phase) { phase == Snapshotted || phase == Started }

  predicate HasResult(phase: Phase) {
    phase == Returned || phase == Overlaid || phase == Wrote || phase == Booked || phase == Settling || phase == Settled
  }

  ghost predicate KeptPass(known: set<Status>, name: string, pass: Pass) {
    pass.cluster.name == name ==>
      && (AtWork(pass.phase) ==> Kept(known, pass.prior))
      && (HasResult(pass.phase) ==> Kept(known, pass.result))
      && (HasResult(pass.phase) && pass.phase != Returned ==> Kept(known, pass.sent))
  }

  ghost predicate KeptPasses(known: set<Status>, name: string, passes: map<nat, Pass>) {
    forall i :: i in passes ==> KeptPass(known, name, passes[i])
  }

  ghost predicate Remembers(s: System, name: string, known: set<Status>) {
    && KeptApi(known, name, s.api) && KeptPoll(known, name, s.poll)
    && KeptCells(known, name, s.book) && KeptPasses(known, name, s.passes)
    && AllInMap(s.book, ToReport(s.poll))
  }

  // ---- Verdicts and stamps leave the record alone ---------------------------------------------------------

  lemma OverlaysKeep(known: set<Status>, st: Status, verdict: Option<Verdict>, schema: Option<Condition>)
    requires Kept(known, st)
    ensures Kept(known, WithVerdict(st, verdict)) && Kept(known, Stamped(st, schema)) && Kept(known, st.RemoveCondition(Conflict))
  {
    if verdict.Some? { VerdictsKeep(st, verdict.value); }
    StampsKeep(st, schema);
    SameIsKept(known, st, WithVerdict(st, verdict));
    SameIsKept(known, st, Stamped(st, schema));
    SameIsKept(known, st, st.RemoveCondition(Conflict));
  }

  lemma VerdictsKeep(st: Status, v: Verdict)
    ensures SameRecord(st, Rejected(st, v))
  {
  }

  lemma StampsKeep(st: Status, schema: Option<Condition>)
    ensures SameRecord(st, Stamped(st, schema)) && SameRecord(st, st.RemoveCondition(Conflict))
  {
  }

  lemma SameIsKept(known: set<Status>, a: Status, b: Status)
    requires Kept(known, a) && SameRecord(a, b)
    ensures Kept(known, b)
  {
    var q :| q in known && SameRecord(q, a);
    assert SameRecord(q, b);
  }

  lemma SendKeeps(known: set<Status>, name: string, api: Objects, n: string, st: Status, schema: Option<Condition>, reply: Reply)
    requires KeptApi(known, name, api) && (n == name ==> Kept(known, st))
    ensures KeptApi(known, name, Send(api, n, st, schema, reply))
  {
    if n == name { OverlaysKeep(known, st, None, schema); }
  }

  // ---- The poll ------------------------------------------------------------------------------------------------

  lemma UpsertKeeps(b: Book, e: Inventory.Entry, now: int, known: set<Status>, name: string)
    requires KeptCells(known, name, b) && (e.cluster.name == name ==> Kept(known, e.status))
    ensures KeptCells(known, name, Upserted(b, e, now))
  {
  }

  lemma {:induction false} UpsertAllKeeps(b: Book, es: seq<Inventory.Entry>, now: int, known: set<Status>, name: string)
    requires KeptCells(known, name, b)
    requires forall k :: 0 <= k < |es| ==> (es[k].cluster.name == name ==> Kept(known, es[k].status))
    ensures KeptCells(known, name, UpsertAll(b, es, now))
  {
    if es != [] {
      UpsertAllKeeps(b, es[..|es| - 1], now, known, name);
      UpsertKeeps(UpsertAll(b, es[..|es| - 1], now), es[|es| - 1], now, known, name);
    }
  }

  lemma DepartingKeeps(known: set<Status>, name: string, b: Book, seen: set<string>)
    requires KeptCells(known, name, b)
    ensures KeptCells(known, name, Departed(b, seen))
  {
    var c := Departed(b, seen);
    forall r | InMap(c, r) ensures KeptCell(known, name, c.cells[r]) { assert InMap(b, r); }
  }

  lemma ScheduleKeeps(s: System, known: set<Status>, name: string)
    requires s.poll.Read? && KeptCells(known, name, s.book) && KeptPoll(known, name, s.poll)
    ensures KeptCells(known, name, ScheduleStep(s).book)
  {
    var objects := s.poll.objects;
    var es := Inventory.Listed(objects);
    assert |es| == |objects|;
    forall k | 0 <= k < |es| ensures es[k].cluster.name == name ==> Kept(known, es[k].status) {
      ListedKeeps(objects, k);
      assert KeptObject(known, name, objects[k]);
    }
    UpsertAllKeeps(s.book, es, s.now, known, name);
    DepartingKeeps(known, name, UpsertAll(s.book, es, s.now), Names(es));
  }

  lemma ReadVerdictKeeps(s: System, known: set<Status>, name: string)
    requires KeptCells(known, name, s.book) && Enabled(s, ReadVerdict) && AllInMap(s.book, s.poll.todo)
    ensures KeptCells(known, name, ReadVerdictStep(s).book) && KeptPoll(known, name, ReadVerdictStep(s).poll)
  {
    var ref := s.poll.todo[0];
    var cell := s.book.cells[ref];
    assert KeptCell(known, name, cell);
    if cell.cluster.name == name { OverlaysKeep(known, cell.status, VerdictOf(cell), None); }
    OneCellKept(known, name, s.book, ref, cell.(status := WithVerdict(cell.status, VerdictOf(cell))));
    ReadVerdictIs(s, WithVerdict(cell.status, VerdictOf(cell)));
  }

  /** The two ways reading a verdict can go. */
  lemma ReadVerdictIs(s: System, desired: Status)
    requires Enabled(s, ReadVerdict) && desired == WithVerdict(s.book.cells[s.poll.todo[0]].status, VerdictOf(s.book.cells[s.poll.todo[0]]))
    ensures var ref, u := s.poll.todo[0], ReadVerdictStep(s);
      var cell := s.book.cells[ref];
      if desired == cell.status then u.book == s.book && u.poll.Reporting?
      else u.poll == Writing(s.poll.todo[1..], cell.cluster.name, desired)
           && u.book == s.book.(cells := s.book.cells[ref := cell.(status := desired)])
  {
  }

  lemma OneCellKept(known: set<Status>, name: string, b: Book, r: Ref, cell: Cell)
    requires KeptCells(known, name, b) && r in b.cells && KeptCell(known, name, cell) && cell.cluster == b.cells[r].cluster
    ensures KeptCells(known, name, b.(cells := b.cells[r := cell]))
  {
    var c := b.(cells := b.cells[r := cell]);
    forall q | InMap(c, q) ensures KeptCell(known, name, c.cells[q]) { assert InMap(b, q); }
  }

  lemma OtherStepsKeepCells(s: System, step: Step, name: string, known: set<Status>)
    requires Remembers(s, name, known) && Enabled(s, step) && Expected(step).None?
    ensures KeptCells(known, name, Next(s, step).book)
  {
    if step.Schedule? {
      ScheduleKeeps(s, known, name);
    } else if step.ReadVerdict? {
      ReadVerdictKeeps(s, known, name);
    } else if step.Claim? {
      ClaimKeeps(s, known, name);
    } else if !step.Spawn? {
      QuietStepsTouchNothing(s, step);
    }
  }

  lemma ClaimKeeps(s: System, known: set<Status>, name: string)
    requires KeptCells(known, name, s.book)
    ensures KeptCells(known, name, Claimed(s.book, DueRefs(s.book, s.now)))
  {
    var c := Claimed(s.book, DueRefs(s.book, s.now));
    forall r | InMap(c, r) ensures KeptCell(known, name, c.cells[r]) { assert InMap(s.book, r); }
  }

  /** Another object under this name starts with nothing on record. */
  predicate Creates(step: Step, name: string) { step.Create? && step.name == name }

  lemma OtherStepsKeepApi(s: System, step: Step, name: string, known: set<Status>)
    requires KeptApi(known, name, s.api) && KeptPoll(known, name, s.poll) && Enabled(s, step) && Expected(step).None?
    requires Creates(step, name) ==> EmptyStatus in known
    ensures KeptApi(known, name, Next(s, step).api)
  {
    if step.WriteVerdict? {
      SendKeeps(known, name, s.api, s.poll.name, s.poll.desired, step.schema, step.reply);
    } else if step.WriteRestamp? {
      var p := s.poll.pending[0];
      assert p in s.poll.pending;
      SendKeeps(known, name, s.api, p.0, p.1, step.schema, step.reply);
    } else if step.Create? || step.Edit? || step.Annotate? || step.Delete? {
      PeopleKeepApi(s, step, name, known);
    } else {
      PollKeepsApi(s, step);
    }
  }

  lemma PeopleKeepApi(s: System, step: Step, name: string, known: set<Status>)
    requires KeptApi(known, name, s.api) && Enabled(s, step)
    requires step.Create? || step.Edit? || step.Annotate? || step.Delete?
    requires Creates(step, name) ==> EmptyStatus in known
    ensures KeptApi(known, name, UserStep(s, step).api)
  {
    if Creates(step, name) { assert SameRecord(EmptyStatus, EmptyStatus); }
  }

  lemma PollKeepsApi(s: System, step: Step)
    requires Enabled(s, step) && Expected(step).None? && !step.WriteVerdict? && !step.WriteRestamp?
    requires !step.Create? && !step.Edit? && !step.Annotate? && !step.Delete?
    ensures Next(s, step).api == s.api
  {
  }

  lemma OtherStepsKeepPoll(s: System, step: Step, name: string, known: set<Status>)
    requires KeptApi(known, name, s.api) && KeptPoll(known, name, s.poll) && KeptCells(known, name, s.book)
    requires Indexed(s.book) && AllInMap(s.book, ToReport(s.poll)) && Enabled(s, step) && Expected(step).None?
    ensures KeptPoll(known, name, Next(s, step).poll)
  {
    if step.ReadVerdict? {
      ReadVerdictKeeps(s, known, name);
    } else if step.Restamp? {
      RestampsKeep(s, step.pending, name, known);
    } else if step.WriteRestamp? {
      assert forall p :: p in s.poll.pending[1..] ==> p in s.poll.pending;
    } else if step.ListInventory? {
      ListingKeeps(s.api, step.objects, name, known);
    }
  }

  lemma RestampsKeep(s: System, pending: seq<(string, Status)>, name: string, known: set<Status>)
    requires KeptCells(known, name, s.book) && Indexed(s.book) && Restamps(pending, s.book)
    ensures KeptPoll(known, name, Restamping(pending))
  {
    forall p | p in pending && p.0 == name ensures Kept(known, p.1) {
      assert InMap(s.book, s.book.index[p.0]);
      assert KeptCell(known, name, s.book.At(p.0));
    }
  }

  lemma ListingKeeps(api: Objects, objects: seq<Inventory.Connection>, name: string, known: set<Status>)
    requires KeptApi(known, name, api) && ListOf(objects, api)
    ensures KeptPoll(known, name, Read(objects))
  {
    forall k | 0 <= k < |objects| ensures KeptObject(known, name, objects[k]) {
      assert objects[k] == api[objects[k].name];
    }
  }

  lemma OtherStepsKeepPasses(s: System, step: Step, name: string, known: set<Status>)
    requires KeptPasses(known, name, s.passes) && Enabled(s, step) && Expected(step).None?
    ensures KeptPasses(known, name, Next(s, step).passes)
  {
    if step.Spawn? {
      assert SpawnStep(s).passes == s.passes[s.nextPass := SpawnStep(s).passes[s.nextPass]];
    } else {
      PollMovesNoPass(s, step);
    }
  }

  lemma PollMovesNoPass(s: System, step: Step)
    requires Enabled(s, step) && Expected(step).None? && !step.Spawn?
    ensures Next(s, step).passes == s.passes
  {
  }

  lemma OtherStepsRemember(s: System, step: Step, name: string, known: set<Status>)
    requires Indexed(s.book) && Remembers(s, name, known) && Enabled(s, step) && Expected(step).None?
    requires Creates(step, name) ==> EmptyStatus in known
    ensures Remembers(Next(s, step), name, known)
  {
    OtherStepsKeepApi(s, step, name, known);
    OtherStepsKeepPoll(s, step, name, known);
    OtherStepsKeepCells(s, step, name, known);
    OtherStepsKeepPasses(s, step, name, known);
    OtherStepsKeepTodo(s, step);
  }

  lemma OtherStepsKeepTodo(s: System, step: Step)
    requires Indexed(s.book) && Enabled(s, step) && Expected(step).None? && AllInMap(s.book, ToReport(s.poll))
    ensures AllInMap(Next(s, step).book, ToReport(Next(s, step).poll))
  {
    if step.ReadVerdict? {
      ReadVerdictKeepsTodo(s);
    } else if step.ListBlocked? {
      forall r | r in step.blocked ensures InMap(s.book, r) { assert r in BlockedRefs(s.book); }
    } else if !step.Schedule? && !step.Claim? && !step.Spawn? {
      QuietStepsTouchNothing(s, step);
      assert ToReport(Next(s, step).poll) == [] || ToReport(Next(s, step).poll) == ToReport(s.poll);
    }
  }

  lemma ReadVerdictKeepsTodo(s: System)
    requires Enabled(s, ReadVerdict) && AllInMap(s.book, s.poll.todo)
    ensures AllInMap(ReadVerdictStep(s).book, ToReport(ReadVerdictStep(s).poll))
  {
    var cell := s.book.cells[s.poll.todo[0]];
    ReadVerdictIs(s, WithVerdict(cell.status, VerdictOf(cell)));
    forall r | r in s.poll.todo[1..] ensures InMap(ReadVerdictStep(s).book, r) { assert r in s.poll.todo; }
  }

  // ---- The passes ------------------------------------------------------------------------------------------------

  /** A pass over this connection hands back its result. */
  predicate ReturnsFor(s: System, step: Step, name: string) {
    step.Return? && step.id in s.passes && s.passes[step.id].cluster.name == name
  }

  /** A pass, and the state it holds. */
  ghost predicate KeptPair(known: set<Status>, name: string, pass: Pass, cell: Cell) {
    pass.cluster.name == cell.cluster.name && KeptPass(known, name, pass) && KeptCell(known, name, cell)
  }

  ghost predicate KeptHold(s: System, id: nat, name: string, known: set<Status>) {
    id in s.passes && s.passes[id].ref in s.book.cells && KeptPair(known, name, s.passes[id], s.book.cells[s.passes[id].ref])
  }

  lemma HoldsKept(s: System, id: nat, name: string, known: set<Status>)
    requires Claims(s) && KeptCells(known, name, s.book) && KeptPasses(known, name, s.passes) && id in s.passes
    ensures KeptHold(s, id, name, known)
  {
    assert Held(s.book, s.passes[id].ref);
  }

  lemma RecheckKeeps(s: System, id: nat, name: string, known: set<Status>)
    requires PassEnabled(s, Recheck(id)) && KeptHold(s, id, name, known)
    ensures KeptHold(RecheckStep(s, id), id, name, known)
  {
    var pass, cell := s.passes[id], s.book.cells[s.passes[id].ref];
    RecheckIs(s, id);
    if cell.cluster.name == name { TakenUpKept(known, name, pass, cell); }
  }

  lemma TakenUpKept(known: set<Status>, name: string, pass: Pass, cell: Cell)
    requires cell.cluster.name == name && KeptCell(known, name, cell)
    ensures KeptPass(known, name, TakenUp(pass, cell))
  {
    TakingUp(pass, cell);
    StampsKeep(cell.status, None);
    SameIsKept(known, cell.status, TakenUp(pass, cell).prior);
  }

  lemma SettledKept(known: set<Status>, name: string, pass: Pass, cell: Cell, desired: Status, verdict: Option<Verdict>)
    requires KeptPair(known, name, pass, cell) && pass.phase == Booked && desired == WithVerdict(pass.result, verdict)
    ensures KeptPair(known, name, pass.(phase := Settled, verdict := verdict), cell)
    ensures KeptPair(known, name, pass.(phase := Settling, sent := desired, verdict := verdict), cell.(status := desired))
  {
    if pass.cluster.name == name { OverlaysKeep(known, pass.result, verdict, None); }
  }

  lemma SettleKeeps(s: System, id: nat, name: string, known: set<Status>)
    requires PassEnabled(s, Settle(id)) && KeptHold(s, id, name, known)
    ensures KeptHold(SettleStep(s, id), id, name, known)
  {
    var pass := s.passes[id];
    var cell := s.book.cells[pass.ref];
    var verdict := VerdictOf(cell);
    SettledKept(known, name, pass, cell, WithVerdict(pass.result, verdict), verdict);
    SettleIs(s, id, WithVerdict(pass.result, verdict), verdict);
  }

  /** The two ways settling can go. */
  lemma SettleIs(s: System, id: nat, desired: Status, verdict: Option<Verdict>)
    requires PassEnabled(s, Settle(id))
    requires var cell := s.book.cells[s.passes[id].ref]; verdict == VerdictOf(cell) && desired == WithVerdict(s.passes[id].result, verdict)
    ensures var pass := s.passes[id];
      var cell, u := s.book.cells[pass.ref], SettleStep(s, id);
      && id in u.passes && pass.ref in u.book.cells
      && if desired == pass.sent
         then u.passes[id] == pass.(phase := Settled, verdict := verdict) && u.book.cells[pass.ref] == cell
         else && u.passes[id] == pass.(phase := Settling, sent := desired, verdict := verdict)
              && u.book.cells[pass.ref] == cell.(status := desired)
  {
  }

  lemma OverlayKeeps(s: System, id: nat, name: string, known: set<Status>)
    requires PassEnabled(s, Overlay(id)) && KeptHold(s, id, name, known)
    ensures KeptHold(PassStep(s, Overlay(id)), id, name, known)
  {
    var pass := s.passes[id];
    var cell := s.book.cells[pass.ref];
    if pass.cluster.name == name { OverlaysKeep(known, pass.result, VerdictOf(cell), None); }
  }

  lemma ReturnKeeps(s: System, step: Step, name: string, known: set<Status>)
    requires PassEnabled(s, step) && step.Return? && KeptHold(s, step.id, name, known)
    requires ReturnsFor(s, step, name) ==> step.result in known
    ensures KeptHold(PassStep(s, step), step.id, name, known)
  {
    assert SameRecord(step.result, step.result);
  }

  lemma PassStepKeeps(s: System, step: Step, name: string, known: set<Status>)
    requires PassEnabled(s, step) && !step.Release? && KeptHold(s, Expected(step).value.0, name, known)
    requires ReturnsFor(s, step, name) ==> step.result in known
    ensures KeptHold(PassStep(s, step), Expected(step).value.0, name, known)
  {
    if step.Recheck? {
      RecheckKeeps(s, step.id, name, known);
    } else if step.Settle? {
      SettleKeeps(s, step.id, name, known);
    } else if step.Overlay? {
      OverlayKeeps(s, step.id, name, known);
    } else if step.Return? {
      ReturnKeeps(s, step, name, known);
    } else {
      MovingOnKeeps(s, step, name, known);
    }
  }

  lemma MovingOnKeeps(s: System, step: Step, name: string, known: set<Status>)
    requires PassEnabled(s, step) && KeptHold(s, Expected(step).value.0, name, known)
    requires !step.Release? && !step.Recheck? && !step.Settle? && !step.Overlay? && !step.Return?
    ensures KeptHold(PassStep(s, step), Expected(step).value.0, name, known)
  {
    var id := Expected(step).value.0;
    var ref, u := s.passes[id].ref, PassStep(s, step);
    MovingOn(s, step);
    MovedOnKept(known, name, s.passes[id], s.book.cells[ref], u.passes[id], u.book.cells[ref]);
  }

  /** A pass moves on with what it has, and its state keeps its status or takes the one sent. */
  predicate MovedOn(p: Pass, cell: Cell, q: Pass, after: Cell) {
    && q.ref == p.ref && q.cluster == p.cluster && q.prior == p.prior && q.result == p.result && q.sent == p.sent
    && (AtWork(q.phase) ==> AtWork(p.phase)) && (HasResult(q.phase) ==> HasResult(p.phase) && p.phase != Returned)
    && after.cluster == cell.cluster
    && (after.status == cell.status || (after.status == p.sent && HasResult(p.phase) && p.phase != Returned))
  }

  lemma MovingOn(s: System, step: Step)
    requires PassEnabled(s, step)
    requires !step.Release? && !step.Recheck? && !step.Settle? && !step.Overlay? && !step.Return?
    ensures var id := Expected(step).value.0;
      var ref, u := s.passes[id].ref, PassStep(s, step);
      id in u.passes && ref in u.book.cells && MovedOn(s.passes[id], s.book.cells[ref], u.passes[id], u.book.cells[ref])
  {
  }

  lemma MovedOnKept(known: set<Status>, name: string, p: Pass, cell: Cell, q: Pass, after: Cell)
    requires KeptPair(known, name, p, cell) && MovedOn(p, cell, q, after)
    ensures KeptPair(known, name, q, after)
  {
  }

  lemma PassStepKeepsApi(s: System, step: Step, name: string, known: set<Status>)
    requires PassEnabled(s, step) && KeptApi(known, name, s.api) && KeptHold(s, Expected(step).value.0, name, known)
    ensures KeptApi(known, name, PassStep(s, step).api)
  {
    if step.WriteResult? || step.WriteSettled? {
      SendKeeps(known, name, s.api, s.passes[step.id].cluster.name, s.passes[step.id].sent, step.schema, step.reply);
    }
  }

  lemma PassStepOnly(s: System, step: Step)
    requires PassEnabled(s, step) && !step.Release?
    ensures var id := Expected(step).value.0;
      var ref, u := s.passes[id].ref, PassStep(s, step);
      && id in u.passes && u.passes == s.passes[id := u.passes[id]]
      && ref in u.book.cells && u.book.cells == s.book.cells[ref := u.book.cells[ref]] && u.book.index == s.book.index
  {
    var ref := s.passes[Expected(step).value.0].ref;
    assert s.book.cells == s.book.cells[ref := s.book.cells[ref]];
  }

  lemma ReleaseRemembers(s: System, id: nat, name: string, known: set<Status>)
    requires Claims(s) && Remembers(s, name, known) && PassEnabled(s, Release(id))
    ensures Remembers(ReleaseStep(s, id), name, known)
  {
    var ref := s.passes[id].ref;
    HoldsKept(s, id, name, known);
    OneCellKept(known, name, s.book, ref, s.book.cells[ref].(running := false));
    FewerPassesKept(known, name, s.passes, id);
  }

  lemma FewerPassesKept(known: set<Status>, name: string, passes: map<nat, Pass>, id: nat)
    requires KeptPasses(known, name, passes)
    ensures KeptPasses(known, name, passes - {id})
  {
  }

  lemma OnePassKept(known: set<Status>, name: string, passes: map<nat, Pass>, id: nat, pass: Pass)
    requires KeptPasses(known, name, passes) && KeptPass(known, name, pass)
    ensures KeptPasses(known, name, passes[id := pass])
  {
  }

  lemma PassStepsRemember(s: System, step: Step, name: string, known: set<Status>)
    requires Claims(s) && Remembers(s, name, known) && PassEnabled(s, step)
    requires ReturnsFor(s, step, name) ==> step.result in known
    ensures Remembers(PassStep(s, step), name, known)
  {
    var id := Expected(step).value.0;
    if step.Release? {
      ReleaseRemembers(s, id, name, known);
    } else {
      HoldsKept(s, id, name, known);
      PassStepKeepsApi(s, step, name, known);
      SchedulerWakeups.PassStepKeepsPoll(s, step);
      PassStepKeeps(s, step, name, known);
      PassStepOnly(s, step);
      PassStepMovesOn(s, step);
      var u, ref := PassStep(s, step), s.passes[id].ref;
      CellsKept(known, name, s.book, u.book, ref);
      OnePassKept(known, name, s.passes, id, u.passes[id]);
    }
  }

  lemma CellsKept(known: set<Status>, name: string, b: Book, c: Book, r: Ref)
    requires KeptCells(known, name, b) && r in b.cells && r in c.cells && KeptCell(known, name, c.cells[r])
    requires c.cells[r].cluster.name == b.cells[r].cluster.name && c.index == b.index && c.cells == b.cells[r := c.cells[r]]
    ensures KeptCells(known, name, c) && forall todo :: AllInMap(b, todo) ==> AllInMap(c, todo)
  {
    forall q | InMap(c, q) ensures KeptCell(known, name, c.cells[q]) { assert InMap(b, q); }
    assert forall q :: InMap(b, q) ==> InMap(c, q);
  }

  lemma PassStepMovesOn(s: System, step: Step)
    requires Claims(s) && PassEnabled(s, step) && !step.Release?
    ensures var id := Expected(step).value.0;
      var ref, u := s.passes[id].ref, PassStep(s, step);
      && id in u.passes && u.passes[id].ref == ref
      && ref in s.book.cells && ref in u.book.cells && u.book.cells[ref].cluster.name == s.book.cells[ref].cluster.name
  {
    assert Held(s.book, s.passes[Expected(step).value.0].ref);
    PassStepMoves(s, step);
    PassStepPreserves(s, step);
  }

  // ---- Over every run ------------------------------------------------------------------------------------------------

  /** What becomes known with a step: what a pass of the connection returns, and, if its object is
      made anew, nothing. */
  ghost function Learnt(s: System, step: Step, name: string): set<Status> {
    (if ReturnsFor(s, step, name) then {step.result} else {}) + (if Creates(step, name) then {EmptyStatus} else {})
  }

  lemma MoreIsKnown(s: System, name: string, known: set<Status>, more: set<Status>)
    requires Remembers(s, name, known) && known <= more
    ensures Remembers(s, name, more)
  {
    assert forall st :: Kept(known, st) ==> Kept(more, st);
    forall r | InMap(s.book, r) ensures KeptCell(more, name, s.book.cells[r]) { assert KeptCell(known, name, s.book.cells[r]); }
    forall i | i in s.passes ensures KeptPass(more, name, s.passes[i]) { assert KeptPass(known, name, s.passes[i]); }
    if s.poll.Read? {
      forall k | 0 <= k < |s.poll.objects| ensures KeptObject(more, name, s.poll.objects[k]) {
        assert KeptObject(known, name, s.poll.objects[k]);
      }
    }
  }

  /** A step keeps what is remembered within what is known, if what it brings is known. */
  lemma StepRemembers(s: System, step: Step, name: string, known: set<Status>)
    requires Claims(s) && Remembers(s, name, known) && Enabled(s, step) && Learnt(s, step, name) <= known
    ensures Remembers(Next(s, step), name, known)
  {
    if ReturnsFor(s, step, name) { assert step.result in Learnt(s, step, name); }
    if Creates(step, name) { assert EmptyStatus in Learnt(s, step, name); }
    if Expected(step).Some? {
      PassStepsRemember(s, step, name, known);
    } else {
      OtherStepsRemember(s, step, name, known);
    }
  }

  lemma StepBrings(s: System, step: Step, name: string, known: set<Status>, more: set<Status>)
    requires Structure(s) && Remembers(s, name, known) && Enabled(s, step) && known <= more && Learnt(s, step, name) <= more
    ensures Structure(Next(s, step)) && Remembers(Next(s, step), name, more)
  {
    MoreIsKnown(s, name, known, more);
    StepKeepsStructure(s, step);
    StepRemembers(s, step, name, more);
  }

  /** Every status passes of this connection have returned in a run; what its object carried to begin
      with; and nothing, if its object was made in the run. */
  ghost function KnownAfter(s: System, steps: seq<Step>, name: string, known: set<Status>): set<Status>
    requires Possible(s, steps)
  {
    if steps == [] then known
    else
      var front := steps[..|steps| - 1];
      KnownAfter(s, front, name, known) + Learnt(Run(s, front), steps[|steps| - 1], name)
  }

  lemma {:induction false} RunsRemember(s: System, steps: seq<Step>, name: string, known: set<Status>)
    requires Structure(s) && Remembers(s, name, known) && Possible(s, steps)
    ensures Remembers(Run(s, steps), name, KnownAfter(s, steps, name, known)) && Structure(Run(s, steps))
  {
    RunsKeepStructure(s, steps);
    if steps != [] {
      var front := steps[..|steps| - 1];
      RunsRemember(s, front, name, known);
      MoreIsKnown(Run(s, front), name, KnownAfter(s, front, name, known), KnownAfter(s, steps, name, known));
      StepRemembers(Run(s, front), steps[|steps| - 1], name, KnownAfter(s, steps, name, known));
    }
  }

  /** What the object of this name carries. */
  function Carried(api: Objects, name: string): set<Status> {
    if name in api then {Inventory.DecodeStatus(api[name])} else {}
  }

  /** In every interleaving a pass starts from a record that some pass of its connection returned
      before, or its object carried when the process began; or from none at all, if the object was
      made since. */
  lemma SnapshotsWereReturned(now: int, api: Objects, handled: set<Handled>, steps: seq<Step>, id: nat) returns (q: Status)
    requires (forall n :: n in api ==> api[n].name == n) && Possible(Begin(now, api, handled), steps)
    requires var s := Run(Begin(now, api, handled), steps); id in s.passes && AtWork(s.passes[id].phase)
    ensures var begin := Begin(now, api, handled);
      var pass := Run(begin, steps).passes[id];
      q in KnownAfter(begin, steps, pass.cluster.name, Carried(api, pass.cluster.name)) && SameRecord(q, pass.prior)
  {
    var begin := Begin(now, api, handled);
    var s := Run(begin, steps);
    var name := s.passes[id].cluster.name;
    BeginRemembers(now, api, handled, name);
    RunsRemember(begin, steps, name, Carried(api, name));
    var known := KnownAfter(begin, steps, name, Carried(api, name));
    assert KeptPass(known, name, s.passes[id]);
    q :| q in known && SameRecord(q, s.passes[id].prior);
  }

  lemma BeginRemembers(now: int, api: Objects, handled: set<Handled>, name: string)
    requires forall n :: n in api ==> api[n].name == n
    ensures Structure(Begin(now, api, handled)) && Remembers(Begin(now, api, handled), name, Carried(api, name))
  {
    assert SlotHolders(Begin(now, api, handled).passes) == {};
    if name in api { assert SameRecord(Inventory.DecodeStatus(api[name]), Inventory.DecodeStatus(api[name])); }
  }

  // ---- From one pass to the next ----------------------------------------------------------------------------------------

  /** No pass of this connection returns, and its object is not made anew. */
  ghost predicate NothingNew(s: System, steps: seq<Step>, name: string)
    requires Possible(s, steps)
  {
    steps != [] ==>
      var front, step := steps[..|steps| - 1], steps[|steps| - 1];
      NothingNew(s, front, name) && !ReturnsFor(Run(s, front), step, name) && !Creates(step, name)
  }

  lemma {:induction false} NothingNewIsKnown(s: System, steps: seq<Step>, name: string, known: set<Status>)
    requires Possible(s, steps) && NothingNew(s, steps, name)
    ensures KnownAfter(s, steps, name, known) == known
  {
    if steps != [] { NothingNewIsKnown(s, steps[..|steps| - 1], name, known); }
  }

  /** Once all there is of a connection records what its last pass returned, the next pass starts
      from that -- through polls, verdicts laid over it and withdrawn, restamps, lost writes, edits
      and whatever other connections' passes do. */
  lemma NextPassStartsFromTheLast(s: System, name: string, last: Status, steps: seq<Step>, id: nat)
    requires Structure(s) && Remembers(s, name, {last}) && Possible(s, steps) && NothingNew(s, steps, name)
    requires var u := Run(s, steps); id in u.passes && AtWork(u.passes[id].phase) && u.passes[id].cluster.name == name
    ensures SameRecord(last, Run(s, steps).passes[id].prior)
  {
    RunsRemember(s, steps, name, {last});
    NothingNewIsKnown(s, steps, name, {last});
    assert KeptPass({last}, name, Run(s, steps).passes[id]);
  }

  /** That is so when a pass ends whose write has landed, if no poll is in the middle of something
      it read before. */
  lemma AtItsEndAllIsOfTheLast(s: System, id: nat, name: string)
    requires Structure(s) && id in s.passes && s.passes[id].phase == Settled && s.passes[id].cluster.name == name
    requires s.poll == Waiting && forall n :: n in s.api ==> s.api[n].name == n
    requires name in s.api && SameRecord(s.passes[id].result, Inventory.DecodeStatus(s.api[name]))
    requires SameRecord(s.passes[id].result, s.book.cells[s.passes[id].ref].status)
    requires SameRecord(s.passes[id].result, s.passes[id].sent)
    ensures Remembers(s, name, {s.passes[id].result})
  {
    var last := s.passes[id].result;
    assert SameRecord(last, last);
    CellOfTheLast(s, id, last);
    AloneAtTheEnd(s, id, name, {last});
  }

  lemma CellOfTheLast(s: System, id: nat, last: Status)
    requires Claims(s) && id in s.passes && Kept({last}, s.book.cells[s.passes[id].ref].status)
    ensures KeptCells({last}, s.passes[id].cluster.name, s.book)
  {
    assert Held(s.book, s.passes[id].ref);
  }

  lemma AloneAtTheEnd(s: System, id: nat, name: string, known: set<Status>)
    requires Structure(s) && id in s.passes && s.passes[id].cluster.name == name && KeptPass(known, name, s.passes[id])
    ensures KeptPasses(known, name, s.passes)
  {
    PassesForDifferentNames(s.book, s.passes, Pending(s.poll));
    forall i | i in s.passes && i != id ensures s.passes[i].cluster.name != name {}
  }
}
