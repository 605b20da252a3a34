/** The machine does what it is for: a connection that is created is listed, claimed, reconciled
    and reported, step by step from an empty start. */
module SchedulerLifecycle {
  import opened Text
  import opened Api
  import opened Clocks
  import opened SchedulerModel
  import opened SchedulerEntries
  import SchedulerStructure
  import Config
  import Inventory

  /** One state can be reached from another. */
  ghost predicate Reaches(s: System, t: System) {
    exists steps :: Possible(s, steps) && Run(s, steps) == t
  }

  lemma ReachesItself(s: System)
    ensures Reaches(s, s)
  {
    assert Possible(s, []) && Run(s, []) == s;
  }

  lemma OneMore(s: System, t: System, step: Step)
    requires Reaches(s, t) && Enabled(t, step)
    ensures Reaches(s, Next(t, step))
  {
    var steps :| Possible(s, steps) && Run(s, steps) == t;
    var more := steps + [step];
    assert more[..|more| - 1] == steps;
    assert Possible(s, more) && Run(s, more) == Next(t, step);
  }

  // ---- A single connection ----------------------------------------------------------------------

  lemma AloneIsUncontested(obj: Inventory.Connection)
    ensures Inventory.Listed([obj]) == [Inventory.Decode(obj)]
  {
    assert Inventory.DecodeAll([obj]) == [Inventory.Decode(obj)];
    OneIsNeverBlocked(Inventory.Decode(obj), Inventory.OnEndpoint);
    OneIsNeverBlocked(Inventory.Decode(obj), Inventory.OnSecretName);
  }

  lemma OneIsNeverBlocked(e: Inventory.Entry, kind: Inventory.ClaimKind)
    ensures Inventory.Blocked([e], kind) == [e]
  {
    Inventory.OnePassExactly([e], kind, 0);
    assert Inventory.Blocked([e], kind)[0] == e;
  }

  /** The state of the one cluster once it has been listed. */
  function FirstCell(obj: Inventory.Connection, now: int): Cell {
    Refreshed(NewCell(Inventory.Decode(obj).cluster, now), Inventory.Decode(obj), now)
  }

  function FirstBook(obj: Inventory.Connection, now: int): Book {
    Book(map[obj.name := 0], map[0 := FirstCell(obj, now)], 1, {0})
  }

  function EmptyBook(): Book { Book(map[], map[], 0, {}) }

  lemma FirstSchedule(obj: Inventory.Connection, now: int)
    requires Inventory.Decode(obj).Valid()
    ensures UpdateSchedule(EmptyBook(), [Inventory.Decode(obj)], now) == FirstBook(obj, now)
  {
    DecodedName(obj);
    FirstEntry(Inventory.Decode(obj), now);
  }

  lemma FirstEntry(e: Inventory.Entry, now: int)
    requires e.Valid()
    ensures UpdateSchedule(EmptyBook(), [e], now)
      == Book(map[e.cluster.name := 0], map[0 := Refreshed(NewCell(e.cluster, now), e, now)], 1, {0})
  {
    var first := Book(map[e.cluster.name := 0], map[0 := Refreshed(NewCell(e.cluster, now), e, now)], 1, {0});
    assert [e][..0] == [];
    assert UpsertAll(EmptyBook(), [e], now) == Upserted(EmptyBook(), e, now);
    assert Upserted(EmptyBook(), e, now) == first;
    assert e.cluster.name in Names([e]) by { assert e in [e]; }
    SchedulerStructure.NobodyLeaves(first, Names([e]));
  }

  function NewObject(name: string, spec: Option<Config.Spec>, annotation: string): Inventory.Connection {
    Inventory.Connection(name, 1, spec, Some(EmptyStatus), annotation)
  }

  /** After its creation, a list and updateSchedule. */
  function Listed(now: int, obj: Inventory.Connection): System {
    Begin(now, map[obj.name := obj], {}).(book := FirstBook(obj, now), poll := Scheduled, latest := [obj])
  }

  lemma GetsRead(now: int, name: string, spec: Option<Config.Spec>, annotation: string)
    requires name != ""
    ensures var begin, obj := Begin(now, map[], {}), NewObject(name, spec, annotation);
      Reaches(begin, begin.(api := map[name := obj], poll := Read([obj])))
  {
    var begin, obj := Begin(now, map[], {}), NewObject(name, spec, annotation);
    ReachesItself(begin);
    OneMore(begin, begin, Create(name, spec, annotation));
    var created := begin.(api := map[name := obj]);
    assert Next(begin, Create(name, spec, annotation)) == created;
    assert [obj][0].name == name;
    OneMore(begin, created, ListInventory([obj]));
  }

  lemma GetsListed(now: int, name: string, spec: Option<Config.Spec>, annotation: string)
    requires name != "" && Inventory.Decode(NewObject(name, spec, annotation)).Valid()
    ensures Reaches(Begin(now, map[], {}), Listed(now, NewObject(name, spec, annotation)))
  {
    var begin, obj := Begin(now, map[], {}), NewObject(name, spec, annotation);
    var read := begin.(api := map[name := obj], poll := Read([obj]));
    GetsRead(now, name, spec, annotation);
    OneMore(begin, read, Schedule);
    SchedulesFirst(read, obj);
  }

  lemma SchedulesFirst(read: System, obj: Inventory.Connection)
    requires read.poll == Read([obj]) && read.book == EmptyBook() && read.handled == {} && Inventory.Decode(obj).Valid()
    ensures ScheduleStep(read) == read.(book := FirstBook(obj, read.now), poll := Scheduled, latest := [obj])
  {
    AloneIsUncontested(obj);
    FirstSchedule(obj, read.now);
    assert RejectedSpecs([Inventory.Decode(obj)]) == {};
  }

  /** Claimed and handed to a goroutine that waits for a slot. */
  function Dispatched(now: int, obj: Inventory.Connection): System {
    var cell := FirstCell(obj, now);
    var pass := Pass(0, Queued, cell.cluster, 0, EmptyStatus, 0, EmptyStatus, false, EmptyStatus, None);
    Listed(now, obj).(book := FirstBook(obj, now).(cells := map[0 := cell.(running := true)]), poll := Dispatching([]),
                      passes := map[0 := pass], nextPass := 1)
  }

  function ClaimedOnly(now: int, obj: Inventory.Connection): System {
    Listed(now, obj).(book := FirstBook(obj, now).(cells := map[0 := FirstCell(obj, now).(running := true)]), poll := Dispatching([0]))
  }

  lemma OnlyOneIsDue(b: Book, name: string, cell: Cell, now: int)
    requires b.index == map[name := 0] && b.cells == map[0 := cell] && Due(cell, now)
    ensures DueRefs(b, now) == {0} && Lists([0], b, {0})
    ensures Claimed(b, {0}) == b.(cells := map[0 := cell.(running := true)])
  {
    assert b.Has(name) && b.At(name) == cell;
    assert Claimed(b, {0}).cells == map[0 := cell.(running := true)];
  }

  lemma FirstCellIsDue(obj: Inventory.Connection, now: int)
    requires Inventory.Decode(obj).Valid()
    ensures Due(FirstCell(obj, now), now)
  {
  }

  lemma GetsClaimed(begin: System, now: int, obj: Inventory.Connection)
    requires Inventory.Decode(obj).Valid() && Reaches(begin, Listed(now, obj))
    ensures Reaches(begin, ClaimedOnly(now, obj))
  {
    FirstCellIsDue(obj, now);
    ClaimsTheOne(begin, Listed(now, obj), obj.name, FirstCell(obj, now));
  }

  lemma ClaimsTheOne(begin: System, s: System, name: string, cell: Cell)
    requires Reaches(begin, s) && s.poll == Scheduled && Due(cell, s.now)
    requires s.book.index == map[name := 0] && s.book.cells == map[0 := cell]
    ensures Reaches(begin, s.(book := s.book.(cells := map[0 := cell.(running := true)]), poll := Dispatching([0])))
  {
    OnlyOneIsDue(s.book, name, cell, s.now);
    OneMore(begin, s, Claim([0]));
  }

  lemma GetsDispatched(begin: System, now: int, obj: Inventory.Connection)
    requires Reaches(begin, ClaimedOnly(now, obj))
    ensures Reaches(begin, Dispatched(now, obj))
  {
    var s := ClaimedOnly(now, obj);
    OneMore(begin, s, Spawn);
    assert SpawnStep(s).passes == Dispatched(now, obj).passes;
    assert s.poll.due[1..] == [];
  }

  // ---- The pass ---------------------------------------------------------------------------------------

  /** The one pass and its state, in the middle of it all. */
  function Amid(s: System, pass: Pass, cell: Cell): System {
    s.(passes := map[0 := pass], book := s.book.(cells := map[0 := cell]))
  }

  lemma Starts(s: System, pass: Pass, cell: Cell)
    requires pass.ref == 0 && pass.phase == Snapshotted
    ensures Enabled(Amid(s, pass, cell), Step.Start(0))
    ensures Next(Amid(s, pass, cell), Step.Start(0))
      == Amid(s.(health := s.health[pass.cluster.name := s.now]), pass.(phase := Started, startedAt := s.now), cell)
  {
    assert map[0 := pass][0 := pass.(phase := Started, startedAt := s.now)] == map[0 := pass.(phase := Started, startedAt := s.now)];
  }

  lemma Returns(s: System, pass: Pass, cell: Cell, result: Status)
    requires pass.ref == 0 && pass.phase == Started && result.observedGeneration == pass.generation
    ensures Enabled(Amid(s, pass, cell), Return(0, result, false))
    ensures Next(Amid(s, pass, cell), Return(0, result, false))
      == Amid(s, pass.(phase := Returned, result := result, failed := false), cell)
  {
    var back := pass.(phase := Returned, result := result, failed := false);
    assert map[0 := pass][0 := back] == map[0 := back];
  }

  lemma Overlays(s: System, pass: Pass, cell: Cell)
    requires pass.ref == 0 && pass.phase == Returned && cell.invalidReason == ""
    ensures Enabled(Amid(s, pass, cell), Overlay(0))
    ensures Next(Amid(s, pass, cell), Overlay(0)) == Amid(s, pass.(phase := Overlaid, sent := pass.result), cell)
  {
    var over := pass.(phase := Overlaid, sent := pass.result);
    assert map[0 := pass][0 := over] == map[0 := over];
  }

  lemma Books(s: System, pass: Pass, cell: Cell)
    requires pass.ref == 0 && pass.phase == Wrote
    ensures Enabled(Amid(s, pass, cell), Bookkeep(0))
    ensures Next(Amid(s, pass, cell), Bookkeep(0)) == Amid(s, pass.(phase := Booked), BookedCell(cell, pass, s.now))
  {
    assert map[0 := pass][0 := pass.(phase := Booked)] == map[0 := pass.(phase := Booked)];
    assert map[0 := cell][0 := BookedCell(cell, pass, s.now)] == map[0 := BookedCell(cell, pass, s.now)];
  }

  lemma GetsSlot(begin: System, s: System, pass: Pass, cell: Cell)
    requires Reaches(begin, Amid(s, pass, cell)) && pass.ref == 0 && pass.phase == Queued && s.slots < MAX_PASSES
    ensures Reaches(begin, Amid(s.(slots := s.slots + 1), pass.(phase := Slotted), cell))
  {
    assert map[0 := pass][0 := pass.(phase := Slotted)] == map[0 := pass.(phase := Slotted)];
    OneMore(begin, Amid(s, pass, cell), TakeSlot(0));
  }

  /** With the snapshot taken, nothing owed, and the spec on record as taken up. */
  function Taken(s: System, cell: Cell): System {
    s.(book := s.book.(owed := s.book.owed - {0}),
       handled := s.handled + {Handled(cell.cluster.name, cell.generation, cell.cluster)})
  }

  lemma GetsTakenUp(begin: System, s: System, pass: Pass, cell: Cell)
    requires Reaches(begin, Amid(s, pass, cell)) && pass.ref == 0 && pass.phase == Slotted && cell.MayRun()
    ensures Reaches(begin, Amid(Taken(s, cell), TakenUp(pass, cell), cell.(rerunAfterPass := false)))
  {
    assert map[0 := pass][0 := TakenUp(pass, cell)] == map[0 := TakenUp(pass, cell)];
    assert map[0 := cell][0 := cell.(rerunAfterPass := false)] == map[0 := cell.(rerunAfterPass := false)];
    OneMore(begin, Amid(s, pass, cell), Recheck(0));
  }

  lemma Writes(s: System, pass: Pass, cell: Cell, schema: Option<Condition>)
    requires pass.ref == 0 && pass.phase == Overlaid && pass.cluster.name in s.api
    ensures Enabled(Amid(s, pass, cell), WriteResult(0, schema, Done))
    ensures Next(Amid(s, pass, cell), WriteResult(0, schema, Done))
      == Amid(s, pass.(phase := Wrote), cell).(api :=
           s.api[pass.cluster.name := s.api[pass.cluster.name].(status := Some(Stamped(pass.sent, schema)))])
  {
    assert map[0 := pass][0 := pass.(phase := Wrote)] == map[0 := pass.(phase := Wrote)];
  }

  lemma Settles(s: System, pass: Pass, cell: Cell)
    requires pass.ref == 0 && pass.phase == Booked && cell.invalidReason == "" && pass.sent == pass.result
    ensures Enabled(Amid(s, pass, cell), Settle(0))
    ensures Next(Amid(s, pass, cell), Settle(0)) == Amid(s, pass.(phase := Settled, verdict := None), cell)
  {
    var done := pass.(phase := Settled, verdict := None);
    assert map[0 := pass][0 := done] == map[0 := done];
  }

  lemma Finishes(s: System, pass: Pass, cell: Cell)
    requires pass.ref == 0 && pass.phase == Settled
    ensures Enabled(Amid(s, pass, cell), Finish(0))
    ensures Next(Amid(s, pass, cell), Finish(0))
      == Amid(s.(health := s.health - {pass.cluster.name}), pass.(phase := Leaving), cell)
  {
    assert map[0 := pass][0 := pass.(phase := Leaving)] == map[0 := pass.(phase := Leaving)];
  }

  lemma Frees(s: System, pass: Pass, cell: Cell)
    requires pass.ref == 0 && pass.phase == Leaving && s.slots > 0
    ensures Enabled(Amid(s, pass, cell), FreeSlot(0))
    ensures Next(Amid(s, pass, cell), FreeSlot(0)) == Amid(s.(slots := s.slots - 1), pass.(phase := Unslotted), cell)
  {
    assert map[0 := pass][0 := pass.(phase := Unslotted)] == map[0 := pass.(phase := Unslotted)];
  }

  lemma Releases(s: System, pass: Pass, cell: Cell)
    requires pass.ref == 0 && pass.phase == Unslotted
    ensures Enabled(Amid(s, pass, cell), Release(0))
    ensures Next(Amid(s, pass, cell), Release(0))
      == s.(passes := map[], book := s.book.(cells := map[0 := cell.(running := false)]))
  {
    assert map[0 := pass] - {0} == map[];
    assert map[0 := cell][0 := cell.(running := false)] == map[0 := cell.(running := false)];
  }

  lemma Ends(begin: System, s: System, pass: Pass, cell: Cell) returns (t: System)
    requires Reaches(begin, Amid(s, pass, cell)) && pass.ref == 0 && pass.phase == Settled && s.slots > 0
    ensures Reaches(begin, t)
    ensures t == s.(passes := map[], book := s.book.(cells := map[0 := cell.(running := false)]),
                    health := s.health - {pass.cluster.name}, slots := s.slots - 1)
  {
    Finishes(s, pass, cell);
    OneMore(begin, Amid(s, pass, cell), Finish(0));
    var s1, left := s.(health := s.health - {pass.cluster.name}), pass.(phase := Leaving);
    Frees(s1, left, cell);
    OneMore(begin, Amid(s1, left, cell), FreeSlot(0));
    var s2, freed := s1.(slots := s1.slots - 1), left.(phase := Unslotted);
    Releases(s2, freed, cell);
    OneMore(begin, Amid(s2, freed, cell), Release(0));
    t := Next(Amid(s2, freed, cell), Release(0));
  }

  /** The pass once the reconciler has returned and the verdict has been looked at. */
  function ReadyToWrite(pass: Pass, now: int, result: Status): Pass {
    pass.(phase := Overlaid, startedAt := now, result := result, failed := false, sent := result)
  }

  lemma GetsResult(begin: System, s: System, pass: Pass, cell: Cell, result: Status)
    requires Reaches(begin, Amid(s, pass, cell))
    requires pass.ref == 0 && pass.phase == Snapshotted && cell.MayRun() && result.observedGeneration == pass.generation
    ensures Reaches(begin, Amid(s.(health := s.health[pass.cluster.name := s.now]), ReadyToWrite(pass, s.now, result), cell))
  {
    Starts(s, pass, cell);
    OneMore(begin, Amid(s, pass, cell), Step.Start(0));
    var s1, p1 := s.(health := s.health[pass.cluster.name := s.now]), pass.(phase := Started, startedAt := s.now);
    Returns(s1, p1, cell, result);
    OneMore(begin, Amid(s1, p1, cell), Return(0, result, false));
    var p2 := p1.(phase := Returned, result := result, failed := false);
    Overlays(s1, p2, cell);
    OneMore(begin, Amid(s1, p2, cell), Overlay(0));
  }

  lemma Reported(begin: System, s: System, pass: Pass, cell: Cell, schema: Option<Condition>) returns (t: System)
    requires Reaches(begin, Amid(s, pass, cell)) && pass.ref == 0 && pass.phase == Overlaid && pass.sent == pass.result
    requires cell.MayRun() && !cell.rerunAfterPass && s.slots > 0 && !pass.failed && pass.cluster.name in s.api
    ensures Reaches(begin, t) && t.passes == map[] && t.health == s.health - {pass.cluster.name} && t.slots == s.slots - 1
    ensures t.book == s.book.(cells := map[0 := BookedCell(cell, pass, s.now).(running := false)])
    ensures t.api == s.api[pass.cluster.name := s.api[pass.cluster.name].(status := Some(Stamped(pass.result, schema)))]
    ensures t.handled == s.handled
  {
    Writes(s, pass, cell, schema);
    OneMore(begin, Amid(s, pass, cell), WriteResult(0, schema, Done));
    var s1 := s.(api := s.api[pass.cluster.name := s.api[pass.cluster.name].(status := Some(Stamped(pass.sent, schema)))]);
    var p1 := pass.(phase := Wrote);
    Books(s1, p1, cell);
    OneMore(begin, Amid(s1, p1, cell), Bookkeep(0));
    var booked, p2 := BookedCell(cell, p1, s.now), p1.(phase := Booked);
    Settles(s1, p2, booked);
    OneMore(begin, Amid(s1, p2, booked), Settle(0));
    var p3 := p2.(phase := Settled, verdict := None);
    t := Ends(begin, s1, p3, booked);
  }

  lemma DispatchedIs(now: int, obj: Inventory.Connection)
    requires Inventory.Decode(obj).Valid()
    ensures var d, cell := Dispatched(now, obj), FirstCell(obj, now).(running := true);
      && 0 in d.passes && d == Amid(d, d.passes[0], cell) && d.passes[0].ref == 0 && d.passes[0].phase == Queued
      && d.slots == 0 && cell.MayRun() && !cell.rerunAfterPass && cell.cluster.name == obj.name
      && cell.generation == obj.generation
  {
    DecodedName(obj);
  }

  /** Slot, snapshot, the reconciler's result: the pass is about to write. */
  lemma GetsReady(begin: System, d: System, obj: Inventory.Connection, now: int, result: Status)
    returns (s: System, pass: Pass, cell: Cell)
    requires d == Dispatched(now, obj) && Reaches(begin, d) && Inventory.Decode(obj).Valid()
    requires result.observedGeneration == obj.generation
    ensures Reaches(begin, Amid(s, pass, cell)) && cell.MayRun() && !cell.rerunAfterPass
    ensures pass.ref == 0 && pass.phase == Overlaid && pass.sent == pass.result == result && !pass.failed
    ensures pass.cluster.name == obj.name && pass.startedAt == now
    ensures s.now == now && s.api == map[obj.name := obj] && s.slots == 1 && s.health == map[obj.name := now]
    ensures s.book.owed == {} && s.book.index == map[obj.name := 0] && s.book.nextRef == 1 && s.poll == Dispatching([])
    ensures pass.generation == obj.generation && cell.cluster.name == obj.name
    ensures s.handled == {Handled(obj.name, obj.generation, Inventory.Decode(obj).cluster)}
  {
    DispatchedIs(now, obj);
    DecodedName(obj);
    var claimed, queued := FirstCell(obj, now).(running := true), d.passes[0];
    GetsSlot(begin, d, queued, claimed);
    var slotted := d.(slots := d.slots + 1);
    GetsTakenUp(begin, slotted, queued.(phase := Slotted), claimed);
    var taken := TakenUp(queued.(phase := Slotted), claimed);
    cell := claimed.(rerunAfterPass := false);
    GetsResult(begin, Taken(slotted, claimed), taken, cell, result);
    s := Taken(slotted, claimed).(health := map[obj.name := now]);
    pass := ReadyToWrite(taken, now, result);
  }

  /** From an empty start to where a created connection's pass is about to write. */
  lemma GetsToWriting(now: int, obj: Inventory.Connection, result: Status) returns (s: System, pass: Pass, cell: Cell)
    requires obj == NewObject(obj.name, obj.spec, obj.adoptedAnnotation) && obj.name != "" && Inventory.Decode(obj).Valid()
    requires result.observedGeneration == 1
    ensures Reaches(Begin(now, map[], {}), Amid(s, pass, cell)) && cell.MayRun() && !cell.rerunAfterPass
    ensures pass.ref == 0 && pass.phase == Overlaid && pass.sent == pass.result == result && !pass.failed
    ensures pass.cluster.name == obj.name && pass.startedAt == now
    ensures s.now == now && s.api == map[obj.name := obj] && s.slots == 1 && s.health == map[obj.name := now]
    ensures s.book.owed == {} && s.book.index == map[obj.name := 0] && s.book.nextRef == 1 && s.poll == Dispatching([])
    ensures pass.generation == obj.generation && cell.cluster.name == obj.name
    ensures s.handled == {Handled(obj.name, 1, Inventory.Decode(obj).cluster)}
  {
    var begin := Begin(now, map[], {});
    GetsListed(now, obj.name, obj.spec, obj.adoptedAnnotation);
    GetsClaimed(begin, now, obj);
    GetsDispatched(begin, now, obj);
    s, pass, cell := GetsReady(begin, Dispatched(now, obj), obj, now, result);
  }

  /** From an empty start a connection that is created can be listed, claimed and reconciled; its
      object then carries the pass's own result, nothing is owed or running any more, the cluster
      is due an interval after its pass started, its generation counts as reconciled, and it no longer
      reads as edited. */
  lemma ACreatedConnectionIsReconciled(now: int, name: string, spec: Option<Config.Spec>, annotation: string,
                                       result: Status, schema: Option<Condition>) returns (t: System)
    requires name != "" && Inventory.Decode(NewObject(name, spec, annotation)).Valid() && result.observedGeneration == 1
    ensures Reaches(Begin(now, map[], {}), t)
    ensures t.api == map[name := NewObject(name, spec, annotation).(status := Some(Stamped(result, schema)))]
    ensures t.passes == map[] && t.health == map[] && t.slots == 0 && t.book.owed == {}
    ensures t.book.Has(name) && !t.book.At(name).running && t.book.At(name).dueAt == DueAfterPass(now, result)
    ensures !Inventory.Decode(t.api[name]).Edited() && t.book.At(name).passedGeneration == 1
  {
    var begin, obj := Begin(now, map[], {}), NewObject(name, spec, annotation);
    var s, pass, cell := GetsToWriting(now, obj, result);
    t := Reported(begin, s, pass, cell, schema);
    LastOfTheOne(name, now, obj, obj.(status := Some(Stamped(result, schema))));
    ReadsAsHandled(obj, Stamped(result, schema));
    BookedForLater(cell, pass, s.now);
    ItsState(t.book, name, BookedCell(cell, pass, s.now).(running := false));
  }

  lemma LastOfTheOne(name: string, at: int, was: Inventory.Connection, after: Inventory.Connection)
    ensures map[name := at] - {name} == map[] && map[name := was][name := after] == map[name := after]
  {
  }

  lemma ItsState(b: Book, name: string, cell: Cell)
    requires b.index == map[name := 0] && b.cells == map[0 := cell]
    ensures b.Has(name) && b.At(name) == cell
  {
  }

  lemma ReadsAsHandled(obj: Inventory.Connection, st: Status)
    requires st.observedGeneration == obj.generation
    ensures !Inventory.Decode(obj.(status := Some(st))).Edited()
  {
    Inventory.DecodesFaithfully(obj.(status := Some(st)));
  }

  lemma BookedForLater(cell: Cell, pass: Pass, now: int)
    requires !pass.failed && !cell.rerunAfterPass
    ensures var booked := BookedCell(cell, pass, now).(running := false);
      && !booked.running && booked.cluster == cell.cluster && booked.dueAt == DueAfterPass(pass.startedAt, pass.sent)
      && booked.passedGeneration == pass.generation
  {
  }
}
