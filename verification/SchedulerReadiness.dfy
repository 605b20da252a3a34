/** Readiness: what the daemon counts as synced, and how far that means reconciled. */
module SchedulerReadiness {
  import opened Text
  import opened Api
  import opened SchedulerModel
  import opened SchedulerStructure
  import opened SchedulerEntries
  import SchedulerMemory
  import opened SchedulerIncarnations
  import Edits = SchedulerEdits
  import Config
  import Inventory
  import L = SchedulerLifecycle

  // ---- Successes -------------------------------------------------------------------------------------

  /** A pass for this state came back without failing, over this spec at this generation, taken up
      from this object of the name. */
  datatype Success = Success(ref: Ref, took: Handled, life: nat)

  function Took(pass: Pass): Handled { Handled(pass.cluster.name, pass.generation, pass.cluster) }

  function SuccessOf(pass: Pass, own: Life): Success { Success(pass.ref, Took(pass), own.origin) }

  ghost function Achieved(s: System, t: History, step: Step): set<Success> {
    if step.Return? && !step.failed && step.id in s.passes then {SuccessOf(s.passes[step.id], LifeOf(t.passes, step.id))} else {}
  }

  ghost function SuccessesOf(s: System, steps: seq<Step>): set<Success>
    requires Possible(s, steps)
  {
    if steps == [] then {}
    else
      var front := steps[..|steps| - 1];
      SuccessesOf(s, front) + Achieved(Run(s, front), HistoryOf(s, front), steps[|steps| - 1])
  }

  /** Back, and not yet booked. */
  predicate InHand(phase: Phase) { phase == Returned || phase == Overlaid || phase == Wrote }

  /** It took up what it is over, and if it is back without failing that is a success. */
  predicate EarnedPass(done: set<Success>, dealt: set<Dealt>, own: Life, pass: Pass) {
    && (Edits.TookUp(pass.phase) ==> Dealt(Took(pass), own.origin) in dealt)
    && (InHand(pass.phase) && !pass.failed ==> SuccessOf(pass, own) in done)
  }

  ghost predicate EarnedCell(done: set<Success>, r: Ref, cell: Cell) {
    cell.passedGeneration != 0 ==>
      exists q :: q in done && q.ref == r && q.took.generation == cell.passedGeneration && q.took.name == cell.cluster.name
  }

  ghost predicate EarnedCells(done: set<Success>, b: Book) { forall r :: r in b.cells ==> EarnedCell(done, r, b.cells[r]) }

  ghost predicate EarnedPasses(done: set<Success>, t: History, passes: map<nat, Pass>) {
    forall i :: i in passes ==> EarnedPass(done, t.dealt, LifeOf(t.passes, i), passes[i])
  }

  ghost predicate AllDealt(done: set<Success>, dealt: set<Dealt>) { forall q :: q in done ==> Dealt(q.took, q.life) in dealt }

  ghost predicate Earned(s: System, t: History, done: set<Success>) {
    EarnedCells(done, s.book) && EarnedPasses(done, t, s.passes) && AllDealt(done, t.dealt)
  }

  // ---- Nothing but bookkeeping counts a generation as reconciled ----------------------------------------

  /** The state has the generation it had, or none. */
  predicate SameGeneration(b: Book, r: Ref, cell: Cell) {
    || cell.passedGeneration == 0
    || (r in b.cells && cell.passedGeneration == b.cells[r].passedGeneration && cell.cluster.name == b.cells[r].cluster.name)
  }

  ghost predicate SameGenerations(b: Book, c: Book) { forall r :: r in c.cells ==> SameGeneration(b, r, c.cells[r]) }

  lemma SameGenerationsEarn(done: set<Success>, b: Book, c: Book)
    requires EarnedCells(done, b) && SameGenerations(b, c)
    ensures EarnedCells(done, c)
  {
    forall r | r in c.cells ensures EarnedCell(done, r, c.cells[r]) {
      if c.cells[r].passedGeneration != 0 { assert SameGeneration(b, r, c.cells[r]) && EarnedCell(done, r, b.cells[r]); }
    }
  }

  lemma UpsertCounts(b: Book, e: Inventory.Entry, now: int)
    requires Indexed(b)
    ensures SameGenerations(b, Upserted(b, e, now))
  {
    RefreshedExactly(if b.Has(e.cluster.name) then b.At(e.cluster.name) else NewCell(e.cluster, now), e, now);
  }

  lemma {:induction false} UpsertAllCounts(b: Book, es: seq<Inventory.Entry>, now: int)
    requires Indexed(b)
    ensures SameGenerations(b, UpsertAll(b, es, now))
  {
    if es != [] {
      var front := es[..|es| - 1];
      var mid := UpsertAll(b, front, now);
      UpsertAllCounts(b, front, now);
      UpsertAllPreserves(b, front, now);
      UpsertCounts(mid, es[|es| - 1], now);
      forall r | r in UpsertAll(b, es, now).cells ensures SameGeneration(b, r, UpsertAll(b, es, now).cells[r]) {
        assert SameGeneration(mid, r, UpsertAll(b, es, now).cells[r]);
        if r in mid.cells { assert SameGeneration(b, r, mid.cells[r]); }
      }
    }
  }

  lemma ScheduleCounts(s: System)
    requires Indexed(s.book) && s.poll.Read?
    ensures SameGenerations(s.book, ScheduleStep(s).book)
  {
    var es := Inventory.Listed(s.poll.objects);
    var mid := UpsertAll(s.book, es, s.now);
    UpsertAllCounts(s.book, es, s.now);
    forall r | r in ScheduleStep(s).book.cells ensures SameGeneration(s.book, r, ScheduleStep(s).book.cells[r]) {
      assert SameGeneration(s.book, r, mid.cells[r]);
    }
  }

  lemma ReadVerdictCounts(s: System)
    requires Enabled(s, ReadVerdict)
    ensures SameGenerations(s.book, ReadVerdictStep(s).book)
  {
  }

  lemma ClaimCounts(b: Book, due: set<Ref>)
    ensures SameGenerations(b, Claimed(b, due))
  {
  }

  lemma OtherStepsCount(s: System, step: Step)
    requires Indexed(s.book) && Enabled(s, step) && Expected(step).None?
    ensures SameGenerations(s.book, Next(s, step).book)
  {
    if step.Schedule? {
      ScheduleCounts(s);
    } else if step.ReadVerdict? {
      ReadVerdictCounts(s);
    } else if step.Claim? {
      ClaimCounts(s.book, DueRefs(s.book, s.now));
    } else if !step.Spawn? {
      QuietStepsTouchNothing(s, step);
    }
  }

  lemma PollHistoryKeeps(s: System, t: History, step: Step)
    requires Enabled(s, step) && Expected(step).None?
    ensures NextHistory(s, t, step).passes == t.passes && t.dealt <= NextHistory(s, t, step).dealt
  {
  }

  lemma OtherStepsEarn(s: System, t: History, step: Step, done: set<Success>)
    requires Indexed(s.book) && Earned(s, t, done) && Enabled(s, step) && Expected(step).None?
    ensures Earned(Next(s, step), NextHistory(s, t, step), done)
  {
    OtherStepsCount(s, step);
    SameGenerationsEarn(done, s.book, Next(s, step).book);
    PollHistoryKeeps(s, t, step);
    if step.Spawn? {
      assert SpawnStep(s).passes == s.passes[s.nextPass := SpawnStep(s).passes[s.nextPass]];
    } else {
      SchedulerMemory.PollMovesNoPass(s, step);
    }
  }

  // ---- The passes ---------------------------------------------------------------------------------------

  lemma BookingEarns(done: set<Success>, dealt: set<Dealt>, own: Life, pass: Pass, cell: Cell, now: int)
    requires pass.phase == Wrote && pass.cluster.name == cell.cluster.name
    requires EarnedPass(done, dealt, own, pass) && EarnedCell(done, pass.ref, cell)
    ensures EarnedCell(done, pass.ref, BookedCell(cell, pass, now))
  {
    if !pass.failed { assert SuccessOf(pass, own) in done; }
  }

  /** Its own state, after any other step of a pass. */
  lemma PassStepCounts(s: System, step: Step)
    requires PassEnabled(s, step) && !step.Bookkeep? && !step.Release?
    ensures var ref := s.passes[Expected(step).value.0].ref;
      ref in PassStep(s, step).book.cells && SameGeneration(s.book, ref, PassStep(s, step).book.cells[ref])
  {
  }

  /** Only a snapshot changes what object a pass is for, and what it takes up is dealt with. */
  lemma PassHistoryKeeps(s: System, t: History, step: Step)
    requires PassEnabled(s, step)
    ensures var id, n := Expected(step).value.0, PassHistory(s, t, step);
      && t.dealt <= n.dealt && (forall i :: i != id ==> LifeOf(n.passes, i) == LifeOf(t.passes, i))
      && (!step.Recheck? ==> LifeOf(n.passes, id).origin == LifeOf(t.passes, id).origin)
      && (step.Recheck? && s.book.cells[s.passes[id].ref].MayRun() ==>
            Dealt(Took(TakenUp(s.passes[id], s.book.cells[s.passes[id].ref])), LifeOf(n.passes, id).origin) in n.dealt)
  {
  }

  predicate SameWork(p: Pass, q: Pass) {
    && q.ref == p.ref && q.cluster == p.cluster && q.generation == p.generation && q.failed == p.failed
    && (Edits.TookUp(q.phase) ==> Edits.TookUp(p.phase)) && (InHand(q.phase) ==> InHand(p.phase))
  }

  lemma PassStepGoesOn(s: System, step: Step)
    requires PassEnabled(s, step) && !step.Release? && !step.Recheck? && !step.Return?
    ensures var id := Expected(step).value.0; id in PassStep(s, step).passes && SameWork(s.passes[id], PassStep(s, step).passes[id])
  {
  }

  lemma PassStepEarnsIt(s: System, t: History, step: Step, done: set<Success>)
    requires PassEnabled(s, step) && !step.Release? && Achieved(s, t, step) <= done
    requires var id := Expected(step).value.0; EarnedPass(done, t.dealt, LifeOf(t.passes, id), s.passes[id])
    ensures var id, n := Expected(step).value.0, PassHistory(s, t, step);
      id in PassStep(s, step).passes && EarnedPass(done, n.dealt, LifeOf(n.passes, id), PassStep(s, step).passes[id])
  {
    PassHistoryKeeps(s, t, step);
    if step.Return? {
      ReturningEarns(s, t, step, done);
    } else if step.Recheck? {
      SchedulerMemory.RecheckIs(s, step.id);
    } else {
      PassStepGoesOn(s, step);
    }
  }

  lemma ReturningEarns(s: System, t: History, step: Step, done: set<Success>)
    requires PassEnabled(s, step) && step.Return? && Achieved(s, t, step) <= done
    requires EarnedPass(done, t.dealt, LifeOf(t.passes, step.id), s.passes[step.id])
    ensures EarnedPass(done, t.dealt, LifeOf(t.passes, step.id), PassStep(s, step).passes[step.id])
  {
    if !step.failed { assert SuccessOf(s.passes[step.id], LifeOf(t.passes, step.id)) in Achieved(s, t, step); }
  }

  lemma PassStepsEarn(s: System, t: History, step: Step, done: set<Success>)
    requires Claims(s) && Earned(s, t, done) && PassEnabled(s, step) && Achieved(s, t, step) <= done
    ensures Earned(PassStep(s, step), PassHistory(s, t, step), done)
  {
    PassHistoryKeeps(s, t, step);
    if step.Release? {
      ReleaseEarns(s, t, step.id, done);
    } else {
      var id := Expected(step).value.0;
      SchedulerMemory.PassStepOnly(s, step);
      PassStepEarnsIt(s, t, step, done);
      PassStepEarnsItsState(s, t, step, done);
      OneMoreEarned(s, t, PassStep(s, step), PassHistory(s, t, step), id, s.passes[id].ref, done);
    }
  }

  lemma PassStepEarnsItsState(s: System, t: History, step: Step, done: set<Success>)
    requires Claims(s) && Earned(s, t, done) && PassEnabled(s, step) && !step.Release?
    ensures var ref := s.passes[Expected(step).value.0].ref;
      ref in PassStep(s, step).book.cells && EarnedCell(done, ref, PassStep(s, step).book.cells[ref])
  {
    var id := Expected(step).value.0;
    assert EarnedCell(done, s.passes[id].ref, s.book.cells[s.passes[id].ref]);
    if step.Bookkeep? {
      HeldByName(s, id);
      BookingEarns(done, t.dealt, LifeOf(t.passes, id), s.passes[id], s.book.cells[s.passes[id].ref], s.now);
    } else {
      PassStepCounts(s, step);
    }
  }

  lemma OneMoreEarned(s: System, t: History, u: System, n: History, id: nat, ref: Ref, done: set<Success>)
    requires Earned(s, t, done) && t.dealt <= n.dealt && forall i :: i != id ==> LifeOf(n.passes, i) == LifeOf(t.passes, i)
    requires id in u.passes && u.passes == s.passes[id := u.passes[id]] && EarnedPass(done, n.dealt, LifeOf(n.passes, id), u.passes[id])
    requires ref in u.book.cells && u.book.cells == s.book.cells[ref := u.book.cells[ref]] && EarnedCell(done, ref, u.book.cells[ref])
    ensures Earned(u, n, done)
  {
  }

  lemma ReleaseEarns(s: System, t: History, id: nat, done: set<Success>)
    requires Earned(s, t, done) && PassEnabled(s, Release(id))
    ensures Earned(ReleaseStep(s, id), t, done)
  {
    forall r | r in ReleaseStep(s, id).book.cells ensures EarnedCell(done, r, ReleaseStep(s, id).book.cells[r]) {
      assert EarnedCell(done, r, s.book.cells[r]);
    }
  }

  // ---- Over every run -------------------------------------------------------------------------------------

  /** What is achieved has been dealt with. */
  lemma MoreIsEarned(s: System, t: History, step: Step, done: set<Success>)
    requires Earned(s, t, done) && Enabled(s, step)
    ensures Earned(s, t, done + Achieved(s, t, step))
  {
    var more := done + Achieved(s, t, step);
    forall r | r in s.book.cells ensures EarnedCell(more, r, s.book.cells[r]) { assert EarnedCell(done, r, s.book.cells[r]); }
    if step.Return? { assert EarnedPass(done, t.dealt, LifeOf(t.passes, step.id), s.passes[step.id]); }
  }

  lemma StepEarns(s: System, t: History, step: Step, done: set<Success>)
    requires Claims(s) && Earned(s, t, done) && Enabled(s, step) && Achieved(s, t, step) <= done
    ensures Earned(Next(s, step), NextHistory(s, t, step), done)
  {
    if Expected(step).Some? {
      PassStepsEarn(s, t, step, done);
    } else {
      OtherStepsEarn(s, t, step, done);
    }
  }

  lemma {:induction false} RunsEarn(s: System, steps: seq<Step>)
    requires Structure(s) && Earned(s, FirstHistory(s.handled), {}) && Possible(s, steps)
    ensures Structure(Run(s, steps)) && Earned(Run(s, steps), HistoryOf(s, steps), SuccessesOf(s, steps))
  {
    RunsKeepStructure(s, steps);
    if steps != [] {
      var front, step := steps[..|steps| - 1], steps[|steps| - 1];
      RunsEarn(s, front);
      MoreIsEarned(Run(s, front), HistoryOf(s, front), step, SuccessesOf(s, front));
      StepEarns(Run(s, front), HistoryOf(s, front), step, SuccessesOf(s, steps));
    }
  }

  /** In every interleaving, a cluster that counts as synced is one for which, in this process and at
      the generation its object had when last read, a pass came back without failing: never one whose
      passes are all still queued, whatever an earlier process left on the object. And if that pass
      took its spec from the object that is there now, and that has had no edit since, it is the
      very spec the object has. */
  lemma SyncedMeansReconciled(now: int, api: Objects, handled: set<Handled>, steps: seq<Step>, name: string)
    returns (q: Success)
    requires Edits.Inherited(api, handled) && Possible(Begin(now, api, handled), steps)
    requires var s := Run(Begin(now, api, handled), steps); s.book.Has(name) && Synced(s.book.At(name))
    ensures var begin := Begin(now, api, handled);
      var s, t := Run(begin, steps), HistoryOf(begin, steps);
      && q in SuccessesOf(begin, steps) && q.took in s.handled
      && q.ref == s.book.index[name] && q.took.name == name && q.took.generation == s.book.At(name).generation
      && (q.life == Count(t.born, name) && name in s.api && s.api[name].generation == s.book.At(name).generation ==>
            Edits.SameSpec(q.took.cluster, Inventory.Decode(s.api[name]).cluster))
  {
    var begin := Begin(now, api, handled);
    Edits.BeginsHonest(now, api, handled);
    RunsEarn(begin, steps);
    Edits.RunsKeepEdits(begin, steps);
    q := SyncedHere(Run(begin, steps), HistoryOf(begin, steps), SuccessesOf(begin, steps), name);
  }

  lemma SyncedHere(s: System, t: History, done: set<Success>, name: string) returns (q: Success)
    requires Indexed(s.book) && Earned(s, t, done) && Edits.Kept(s, t) && s.book.Has(name) && Synced(s.book.At(name))
    ensures q in done && q.took in s.handled
    ensures q.ref == s.book.index[name] && q.took.name == name && q.took.generation == s.book.At(name).generation
    ensures q.life == Count(t.born, name) && name in s.api && s.api[name].generation == s.book.At(name).generation ==>
      Edits.SameSpec(q.took.cluster, Inventory.Decode(s.api[name]).cluster)
  {
    var cell := s.book.At(name);
    assert EarnedCell(done, s.book.index[name], cell);
    q :| q in done && q.ref == s.book.index[name] && q.took.generation == cell.passedGeneration && q.took.name == cell.cluster.name;
    assert Dealt(q.took, q.life) in t.dealt;
    assert Edits.Agrees(s.api, t.born, q.took.name, q.life, q.took.generation, q.took.cluster);
  }

  // ---- Synced, and not reconciled -------------------------------------------------------------------------

  /** A poll that has dispatched what was due goes on to its end, nobody being blocked, and the next
      one reads the one object there is. */
  lemma ReadsAgain(begin: System, s: System, obj: Inventory.Connection)
    requires L.Reaches(begin, s) && s.poll == Dispatching([]) && s.api == map[obj.name := obj]
    requires BlockedRefs(s.book) == {}
    ensures L.Reaches(begin, s.(poll := Read([obj]), polledAt := s.now))
  {
    assert Lists([], s.book, {});
    L.OneMore(begin, s, ListBlocked([]));
    L.OneMore(begin, s.(poll := Reporting([])), EndPoll);
    var waiting := s.(poll := Waiting, polledAt := s.now);
    assert [obj][0].name == obj.name;
    L.OneMore(begin, waiting, ListInventory([obj]));
  }

  lemma NobodyIsBlocked(b: Book, name: string)
    requires b.index == map[name := 0] && 0 in b.cells && b.cells[0].invalidReason == ""
    ensures BlockedRefs(b) == {}
  {
    assert forall n :: n in b.index ==> n == name;
  }

  /** What the next poll makes of the state. */
  lemma SchedulesIt(s: System, obj: Inventory.Connection)
    requires s.poll == Read([obj]) && Indexed(s.book) && OwedAreKnown(s.book) && s.book.Has(obj.name)
    ensures var u := ScheduleStep(s);
      && u.book.Has(obj.name) && u.book.At(obj.name) == Refreshed(s.book.At(obj.name), Inventory.Decode(obj), s.now)
      && (Inventory.Decode(obj).Valid() ==> u.handled == s.handled)
  {
    L.AloneIsUncontested(obj);
    DecodedName(obj);
    ScheduleListed(s.book, [Inventory.Decode(obj)], s.now, 0);
    if Inventory.Decode(obj).Valid() {
      assert RejectedSpecs([Inventory.Decode(obj)]) == {};
    }
  }

  lemma BookedIsSynced(cell: Cell, pass: Pass, now: int, obj: Inventory.Connection, at: int)
    requires !pass.failed && pass.generation == obj.generation == 1
    requires Inventory.Decode(obj).Valid() && obj.status.Some?
    requires Ready in obj.status.value.conditions && obj.status.value.conditions[Ready].status == Yes
    ensures Synced(Refreshed(BookedCell(cell, pass, now), Inventory.Decode(obj), at))
  {
    RefreshedExactly(BookedCell(cell, pass, now), Inventory.Decode(obj), at);
    Inventory.DecodesFaithfully(obj);
  }

  /** A connection is created, listed and reconciled, and as its pass is about to write the object is
      deleted and created again with another spec that is as good. The pass's status lands on the new
      object, and from the next poll on its cluster counts as synced, though nobody has ever taken up
      its spec. */
  lemma SyncedButNeverTakenUp(now: int, name: string, spec: Option<Config.Spec>, annotation: string,
                              spec2: Option<Config.Spec>, annotation2: string, result: Status)
    returns (v: System)
    requires name != "" && result.observedGeneration == 1 && Ready in result.conditions && result.conditions[Ready].status == Yes
    requires Inventory.Decode(L.NewObject(name, spec, annotation)).Valid()
    requires Inventory.Decode(L.NewObject(name, spec2, annotation2)).Valid()
    requires !Edits.SameSpec(Inventory.Decode(L.NewObject(name, spec, annotation)).cluster,
                                      Inventory.Decode(L.NewObject(name, spec2, annotation2)).cluster)
    ensures L.Reaches(Begin(now, map[], {}), v)
    ensures v.book.Has(name) && Synced(v.book.At(name))
    ensures v.book.At(name).cluster == Inventory.Decode(L.NewObject(name, spec2, annotation2)).cluster
    ensures forall h :: h in v.handled && h.name == name ==> !Edits.SameSpec(h.cluster, v.book.At(name).cluster)
  {
    var obj, other := L.NewObject(name, spec, annotation), L.NewObject(name, spec2, annotation2);
    var s, pass, cell := WrittenOverAnother(now, obj, other, result);
    StatusesResolveNothing(other, result);
    v := ThenPolled(Begin(now, map[], {}), s, pass, cell, other.(status := Some(result)));
  }

  lemma StatusesResolveNothing(obj: Inventory.Connection, st: Status)
    ensures var written := Inventory.Decode(obj.(status := Some(st)));
      written.cluster == Inventory.Decode(obj).cluster && (written.Valid() <==> Inventory.Decode(obj).Valid())
  {
  }

  lemma WrittenOverAnother(now: int, obj: Inventory.Connection, other: Inventory.Connection, result: Status)
    returns (s: System, pass: Pass, cell: Cell)
    requires obj == L.NewObject(obj.name, obj.spec, obj.adoptedAnnotation) && obj.name != "" && Inventory.Decode(obj).Valid()
    requires other == L.NewObject(obj.name, other.spec, other.adoptedAnnotation) && result.observedGeneration == 1
    ensures L.Reaches(Begin(now, map[], {}), L.Amid(s, pass, cell)) && pass.ref == 0 && pass.phase == Wrote && !pass.failed
    ensures pass.generation == 1 && cell.invalidReason == "" && cell.cluster.name == obj.name
    ensures s.poll == Dispatching([]) && s.api == map[obj.name := other.(status := Some(result))]
    ensures s.book.index == map[obj.name := 0] && s.book.nextRef == 1 && s.book.owed == {}
    ensures s.handled == {Handled(obj.name, 1, Inventory.Decode(obj).cluster)}
  {
    var before, writing, held := L.GetsToWriting(now, obj, result);
    var w := Edits.Recreated(Begin(now, map[], {}), before, writing, held, other.spec, other.adoptedAnnotation, None);
    s, pass, cell := before.(api := w.api), writing.(phase := Wrote), held;
    OverOne(obj, other, result);
  }

  lemma OverOne(obj: Inventory.Connection, other: Inventory.Connection, result: Status)
    requires other == L.NewObject(obj.name, other.spec, other.adoptedAnnotation)
    ensures map[obj.name := obj][obj.name := L.NewObject(obj.name, other.spec, other.adoptedAnnotation).(status := Some(Stamped(result, None)))]
      == map[obj.name := other.(status := Some(result))]
  {
  }

  /** Booked, and read again. */
  lemma ThenPolled(begin: System, s: System, pass: Pass, cell: Cell, obj: Inventory.Connection) returns (v: System)
    requires L.Reaches(begin, L.Amid(s, pass, cell)) && pass.ref == 0 && pass.phase == Wrote && !pass.failed
    requires pass.generation == obj.generation == 1 && cell.invalidReason == "" && cell.cluster.name == obj.name
    requires s.poll == Dispatching([]) && s.api == map[obj.name := obj]
    requires s.book.index == map[obj.name := 0] && s.book.nextRef == 1 && s.book.owed == {}
    requires Inventory.Decode(obj).Valid() && obj.status.Some?
    requires Ready in obj.status.value.conditions && obj.status.value.conditions[Ready].status == Yes
    ensures L.Reaches(begin, v) && v.handled == s.handled
    ensures v.book.Has(obj.name) && Synced(v.book.At(obj.name)) && v.book.At(obj.name).cluster == Inventory.Decode(obj).cluster
  {
    L.Books(s, pass, cell);
    L.OneMore(begin, L.Amid(s, pass, cell), Bookkeep(0));
    var booked := BookedCell(cell, pass, s.now);
    var t := L.Amid(s, pass.(phase := Booked), booked);
    NobodyIsBlocked(t.book, obj.name);
    ReadsAgain(begin, t, obj);
    var r := t.(poll := Read([obj]), polledAt := t.now);
    L.OneMore(begin, r, Schedule);
    v := Next(r, Schedule);
    ThenScheduled(r, pass, cell, obj);
  }

  lemma ThenScheduled(r: System, pass: Pass, cell: Cell, obj: Inventory.Connection)
    requires r.poll == Read([obj]) && r.book.cells == map[0 := BookedCell(cell, pass, r.now)] && r.book.index == map[obj.name := 0]
    requires r.book.nextRef == 1 && r.book.owed == {} && cell.cluster.name == obj.name
    requires !pass.failed && pass.generation == obj.generation == 1 && Inventory.Decode(obj).Valid() && obj.status.Some?
    requires Ready in obj.status.value.conditions && obj.status.value.conditions[Ready].status == Yes
    ensures var v := ScheduleStep(r);
      && v.handled == r.handled && v.book.Has(obj.name) && Synced(v.book.At(obj.name))
      && v.book.At(obj.name).cluster == Inventory.Decode(obj).cluster
  {
    SchedulesIt(r, obj);
    BookedIsSynced(cell, pass, r.now, obj, r.now);
    RefreshedExactly(BookedCell(cell, pass, r.now), Inventory.Decode(obj), r.now);
  }
}
