/** No wake-up is lost: a cluster whose verdict is withdrawn, or that was edited, is due at the
    first poll after whatever pass is in flight, however that pass ends. */
module SchedulerWakeups {
  import opened Text
  import opened Api
  import opened Clocks
  import opened SchedulerModel
  import opened SchedulerStructure
  import opened SchedulerEntries
  import Config
  import Inventory

  /** A pass is past its snapshot and has its bookkeeping ahead of it. */
  ghost predicate CommittedFor(passes: map<nat, Pass>, r: Ref) {
    exists i :: i in passes && passes[i].ref == r && passes[i].phase.Committed()
  }

  /** What is owed is due already, unless a pass is about to set its cadence; and then that
      pass has been told not to. */
  ghost predicate Kept(b: Book, passes: map<nat, Pass>, now: int, r: Ref) {
    && InMap(b, r) && b.cells[r].MayRun()
    && (if CommittedFor(passes, r) then b.cells[r].rerunAfterPass else b.cells[r].dueAt <= now)
  }

  ghost predicate WakeupsKept(s: System) {
    forall r :: r in s.book.owed ==> Kept(s.book, s.passes, s.now, r)
  }

  // ---- The poll -------------------------------------------------------------------------------------

  lemma RefreshedIsKept(b: Book, c: Book, passes: map<nat, Pass>, pending: seq<Ref>, now: int, e: Inventory.Entry)
    requires Indexed(b) && Indexed(c) && OnePassEach(b, passes, pending) && Reflects(b, c, e, now)
    requires forall r :: r in b.owed ==> Kept(b, passes, now, r)
    requires c.index[e.cluster.name] in c.owed
    ensures Kept(c, passes, now, c.index[e.cluster.name])
  {
    var n := e.cluster.name;
    var r := c.index[n];
    assert e.Valid();
    if CommittedFor(passes, r) {
      var i :| i in passes && passes[i].ref == r && passes[i].phase.Committed();
      assert Held(b, r);
      assert b.Has(n) && b.index[n] == r && b.At(n).running;
    }
  }

  lemma OwedIsListed(b: Book, es: seq<Inventory.Entry>, now: int, r: Ref) returns (k: nat)
    requires Indexed(b) && OwedAreKnown(b) && DistinctNames(es)
    requires forall q :: q in b.owed ==> InMap(b, q)
    requires r in UpdateSchedule(b, es, now).owed
    ensures k < |es| && UpdateSchedule(b, es, now).Has(es[k].cluster.name)
    ensures UpdateSchedule(b, es, now).index[es[k].cluster.name] == r
  {
    var u := UpsertAll(b, es, now);
    UpsertAllPreserves(b, es, now);
    OwedStayInMap(b, es, now);
    var n := u.cells[r].cluster.name;
    if forall i :: 0 <= i < |es| ==> es[i].cluster.name != n {
      ScheduleUnlisted(b, es, now, n);
      DepartedOne(u, Names(es), n);
      assert false;
    }
    k :| 0 <= k < |es| && es[k].cluster.name == n;
    NamesHolds(es, k);
    DepartedOne(u, Names(es), n);
  }

  lemma {:induction false} OwedStayInMap(b: Book, es: seq<Inventory.Entry>, now: int)
    requires Indexed(b) && OwedAreKnown(b) && forall q :: q in b.owed ==> InMap(b, q)
    ensures forall q :: q in UpsertAll(b, es, now).owed ==> InMap(UpsertAll(b, es, now), q)
  {
    if es != [] {
      var front := es[..|es| - 1];
      OwedStayInMap(b, front, now);
      UpsertAllPreserves(b, front, now);
      UpsertKeepsInMap(UpsertAll(b, front, now), es[|es| - 1], now);
    }
  }

  lemma UpsertKeepsInMap(b: Book, e: Inventory.Entry, now: int)
    requires Indexed(b) && forall q :: q in b.owed ==> InMap(b, q)
    ensures forall q :: q in Upserted(b, e, now).owed ==> InMap(Upserted(b, e, now), q)
  {
  }

  lemma ScheduleKeepsWakeups(s: System)
    requires Claims(s) && WakeupsKept(s) && s.poll.Read? && DistinctObjects(s.poll.objects)
    ensures WakeupsKept(ScheduleStep(s))
  {
    var es := Inventory.Listed(s.poll.objects);
    var c := UpdateSchedule(s.book, es, s.now);
    ListedDistinct(s.poll.objects);
    SchedulePreserves(s.book, es, s.now);
    forall r | r in c.owed ensures Kept(c, s.passes, s.now, r) {
      var k := OwedIsListed(s.book, es, s.now, r);
      ScheduleListed(s.book, es, s.now, k);
      RefreshedIsKept(s.book, c, s.passes, Pending(s.poll), s.now, es[k]);
    }
  }

  /** Time passing, and bookkeeping that leaves timing and verdict alone. */
  lemma StillKept(b: Book, c: Book, passes: map<nat, Pass>, now: int, later: int, r: Ref)
    requires Kept(b, passes, now, r) && now <= later && c.index == b.index && r in c.cells
    requires c.cells[r].cluster.name == b.cells[r].cluster.name && c.cells[r].MayRun() == b.cells[r].MayRun()
    requires c.cells[r].dueAt == b.cells[r].dueAt && c.cells[r].rerunAfterPass == b.cells[r].rerunAfterPass
    ensures Kept(c, passes, later, r)
  {
  }

  lemma ClaimKeepsWakeups(s: System, due: seq<Ref>)
    requires WakeupsKept(s) && Enabled(s, Claim(due))
    ensures WakeupsKept(Next(s, Claim(due)))
  {
    var c := Claimed(s.book, DueRefs(s.book, s.now));
    forall r | r in c.owed ensures Kept(c, s.passes, s.now, r) {
      StillKept(s.book, c, s.passes, s.now, s.now, r);
    }
  }

  lemma ReadVerdictKeepsWakeups(s: System)
    requires WakeupsKept(s) && Enabled(s, ReadVerdict)
    ensures WakeupsKept(ReadVerdictStep(s))
  {
    var c := ReadVerdictStep(s).book;
    forall r | r in c.owed ensures Kept(c, s.passes, s.now, r) {
      StillKept(s.book, c, s.passes, s.now, s.now, r);
    }
  }

  lemma SpawnKeepsWakeups(s: System)
    requires WakeupsKept(s) && Enabled(s, Spawn) && s.nextPass !in s.passes
    ensures WakeupsKept(SpawnStep(s))
  {
    var n := SpawnStep(s);
    forall r | r in n.book.owed ensures Kept(n.book, n.passes, n.now, r) {
      SpawnCommitsNothing(s.passes, s.nextPass, n.passes[s.nextPass], r);
    }
  }

  lemma TimeKeepsWakeups(s: System, n: System)
    requires WakeupsKept(s) && n.book == s.book && n.passes == s.passes && s.now <= n.now
    ensures WakeupsKept(n)
  {
    forall r | r in n.book.owed ensures Kept(n.book, n.passes, n.now, r) {
      StillKept(s.book, n.book, s.passes, s.now, n.now, r);
    }
  }

  lemma OtherStepsKeepWakeups(s: System, step: Step)
    requires Claims(s) && WakeupsKept(s) && Enabled(s, step) && Expected(step).None?
    requires step.Schedule? ==> DistinctObjects(s.poll.objects)
    ensures WakeupsKept(Next(s, step))
  {
    if step.Schedule? {
      ScheduleKeepsWakeups(s);
    } else if step.Spawn? {
      SpawnKeepsWakeups(s);
    } else if step.Claim? {
      ClaimKeepsWakeups(s, step.due);
    } else if step.ReadVerdict? {
      ReadVerdictKeepsWakeups(s);
    } else {
      QuietStepsTouchNothing(s, step);
      TimeKeepsWakeups(s, Next(s, step));
    }
  }

  lemma SpawnCommitsNothing(passes: map<nat, Pass>, id: nat, pass: Pass, r: Ref)
    requires id !in passes && pass.phase == Queued
    ensures CommittedFor(passes[id := pass], r) == CommittedFor(passes, r)
  {
    if CommittedFor(passes, r) {
      var i :| i in passes && passes[i].ref == r && passes[i].phase.Committed();
      assert passes[id := pass][i] == passes[i];
    }
  }

  // ---- The passes -----------------------------------------------------------------------------------

  lemma CommittedMoves(passes: map<nat, Pass>, id: nat, pass: Pass, r: Ref)
    requires id in passes && pass.ref == passes[id].ref
    requires forall i, j :: i in passes && j in passes && i != j ==> passes[i].ref != passes[j].ref
    ensures CommittedFor(passes[id := pass], r) == (if r == pass.ref then pass.phase.Committed() else CommittedFor(passes, r))
    ensures CommittedFor(passes, passes[id].ref) == passes[id].phase.Committed()
    ensures CommittedFor(passes - {id}, r) == (r != passes[id].ref && CommittedFor(passes, r))
  {
    var after := passes[id := pass];
    if CommittedFor(passes, r) && r != pass.ref {
      var i :| i in passes && passes[i].ref == r && passes[i].phase.Committed();
      assert after[i] == passes[i] && (passes - {id})[i] == passes[i];
    }
    if pass.phase.Committed() { assert after[id] == pass; }
  }

  /** What a step of a pass leaves of a state's timing. */
  ghost predicate Passed(b: Book, c: Book, pass: Pass, step: Step, now: int) {
    && c.index == b.index && c.owed <= b.owed && pass.ref in b.cells && pass.ref in c.cells
    && c.cells == b.cells[pass.ref := c.cells[pass.ref]]
    && var was, cell := b.cells[pass.ref], c.cells[pass.ref];
       && cell.cluster == was.cluster && cell.MayRun() == was.MayRun()
       && (if step.Recheck? then was.MayRun() ==> pass.ref !in c.owed
           else if step.Bookkeep? then was.rerunAfterPass ==> cell.dueAt == now
           else cell.dueAt == was.dueAt && cell.rerunAfterPass == was.rerunAfterPass)
  }

  lemma SettlePassed(s: System, id: nat)
    requires PassEnabled(s, Settle(id))
    ensures Passed(s.book, SettleStep(s, id).book, s.passes[id], Settle(id), s.now)
  {
    assert s.book.cells == s.book.cells[s.passes[id].ref := s.book.cells[s.passes[id].ref]];
  }

  lemma RecheckPassed(s: System, id: nat)
    requires PassEnabled(s, Recheck(id))
    ensures Passed(s.book, RecheckStep(s, id).book, s.passes[id], Recheck(id), s.now)
  {
    assert s.book.cells == s.book.cells[s.passes[id].ref := s.book.cells[s.passes[id].ref]];
  }

  lemma PassStepPassed(s: System, step: Step)
    requires PassEnabled(s, step)
    ensures Passed(s.book, PassStep(s, step).book, s.passes[Expected(step).value.0], step, s.now)
    ensures PassStep(s, step).now == s.now
  {
    var id := Expected(step).value.0;
    assert s.book.cells == s.book.cells[s.passes[id].ref := s.book.cells[s.passes[id].ref]];
    if step.Recheck? {
      RecheckPassed(s, id);
    } else if step.Settle? {
      SettlePassed(s, id);
    }
  }

  /** Only the snapshot commits a pass, and only the bookkeeping ends that. */
  lemma PassStepPhases(s: System, step: Step)
    requires PassEnabled(s, step) && !step.Release?
    requires var pass := s.passes[Expected(step).value.0]; pass.cluster.name == s.book.cells[pass.ref].cluster.name
    ensures var id := Expected(step).value.0;
      var n := PassStep(s, step);
      && id in n.passes
      && (step.Bookkeep? ==> !n.passes[id].phase.Committed())
      && (step.Recheck? && !s.book.cells[s.passes[id].ref].MayRun() ==> !n.passes[id].phase.Committed())
      && (!step.Recheck? && !step.Bookkeep? ==> n.passes[id].phase.Committed() == s.passes[id].phase.Committed())
  {
  }

  lemma KeptAfter(b: Book, c: Book, passes: map<nat, Pass>, after: map<nat, Pass>, pass: Pass, step: Step, now: int, r: Ref)
    requires Passed(b, c, pass, step, now) && r in c.owed && Kept(b, passes, now, r)
    requires r != pass.ref ==> CommittedFor(after, r) == CommittedFor(passes, r)
    requires r == pass.ref && !step.Recheck? && !step.Bookkeep? ==> CommittedFor(after, r) == CommittedFor(passes, r)
    requires r == pass.ref && step.Bookkeep? ==> CommittedFor(passes, r) && !CommittedFor(after, r)
    ensures Kept(c, after, now, r)
  {
  }

  lemma ReleaseKeepsOne(s: System, id: nat, r: Ref)
    requires Claims(s) && PassEnabled(s, Release(id)) && Kept(s.book, s.passes, s.now, r) && r in s.book.owed
    ensures Kept(ReleaseStep(s, id).book, ReleaseStep(s, id).passes, s.now, r)
  {
    CommittedMoves(s.passes, id, s.passes[id], r);
    PassStepPassed(s, Release(id));
    KeptAfter(s.book, ReleaseStep(s, id).book, s.passes, ReleaseStep(s, id).passes, s.passes[id], Release(id), s.now, r);
  }

  lemma PassStepKeepsOne(s: System, step: Step, r: Ref)
    requires Claims(s) && PassEnabled(s, step) && r in PassStep(s, step).book.owed && !step.Release?
    requires Kept(s.book, s.passes, s.now, r)
    ensures Kept(PassStep(s, step).book, PassStep(s, step).passes, s.now, r)
  {
    var id := Expected(step).value.0;
    var n := PassStep(s, step);
    var pass := s.passes[id];
    assert Held(s.book, pass.ref);
    PassStepPassed(s, step);
    PassStepMoves(s, step);
    PassStepPhases(s, step);
    CommittedMoves(s.passes, id, n.passes[id], r);
    KeptAfter(s.book, n.book, s.passes, n.passes, pass, step, s.now, r);
  }

  lemma StepKeepsWakeups(s: System, step: Step)
    requires Claims(s) && WakeupsKept(s) && Enabled(s, step)
    requires step.Schedule? ==> DistinctObjects(s.poll.objects)
    ensures WakeupsKept(Next(s, step))
  {
    if Expected(step).None? {
      OtherStepsKeepWakeups(s, step);
    } else {
      var n := PassStep(s, step);
      PassStepPassed(s, step);
      forall r | r in n.book.owed ensures Kept(n.book, n.passes, n.now, r) {
        if step.Release? {
          ReleaseKeepsOne(s, step.id, r);
        } else {
          PassStepKeepsOne(s, step, r);
        }
      }
    }
  }

  // ---- Over every run -----------------------------------------------------------------------------------

  /** What has been listed is each object once. */
  ghost predicate ListedOnce(s: System) { s.poll.Read? ==> DistinctObjects(s.poll.objects) }

  lemma StepKeepsListedOnce(s: System, step: Step)
    requires ListedOnce(s) && Enabled(s, step)
    ensures ListedOnce(Next(s, step))
  {
    if Expected(step).Some? {
      PassStepKeepsPoll(s, step);
    }
  }

  lemma PassStepKeepsPoll(s: System, step: Step)
    requires PassEnabled(s, step)
    ensures PassStep(s, step).poll == s.poll && PassStep(s, step).latest == s.latest
  {
  }

  lemma {:induction false} RunsKeepWakeups(s: System, steps: seq<Step>)
    requires Structure(s) && WakeupsKept(s) && ListedOnce(s) && Possible(s, steps)
    ensures WakeupsKept(Run(s, steps)) && ListedOnce(Run(s, steps)) && Claims(Run(s, steps))
  {
    RunsKeepStructure(s, steps);
    if steps != [] {
      var front := steps[..|steps| - 1];
      RunsKeepWakeups(s, front);
      StepKeepsWakeups(Run(s, front), steps[|steps| - 1]);
      StepKeepsListedOnce(Run(s, front), steps[|steps| - 1]);
    }
  }

  /** In every interleaving, a cluster that is owed a pass may run, and is due now unless a
      pass for it has its bookkeeping ahead of it, and then that pass has been told to leave it
      due. So once no pass is in flight the next claim takes it, whatever cadence or backoff the
      last pass left. */
  lemma NoLostWakeup(now: int, api: map<string, Inventory.Connection>, handled: set<Handled>, steps: seq<Step>, r: Ref)
    requires Possible(Begin(now, api, handled), steps)
    requires r in Run(Begin(now, api, handled), steps).book.owed
    ensures var s := Run(Begin(now, api, handled), steps);
      && InMap(s.book, r) && s.book.cells[r].MayRun()
      && (if CommittedFor(s.passes, r) then s.book.cells[r].rerunAfterPass else s.book.cells[r].dueAt <= s.now)
      && (!s.book.cells[r].running ==> r in DueRefs(s.book, s.now))
  {
    var begin := Begin(now, api, handled);
    assert SlotHolders(begin.passes) == {};
    RunsKeepWakeups(begin, steps);
    var s := Run(begin, steps);
    assert Kept(s.book, s.passes, s.now, r);
    if !s.book.cells[r].running {
      assert forall i :: i in s.passes ==> Held(s.book, s.passes[i].ref);
      assert Due(s.book.At(s.book.cells[r].cluster.name), s.now);
    }
  }

  /** A poll that finds a verdict withdrawn -- before the pass in flight has a slot, while it
      runs, after its bookkeeping or with none in flight -- owes the cluster a pass; so does one
      that finds it new, or edited with no pass in flight. */
  lemma WithdrawnVerdictIsOwed(s: System, k: nat)
    requires Claims(s) && WakeupsKept(s) && s.poll.Read? && DistinctObjects(s.poll.objects) && k < |s.poll.objects|
    requires var e := Inventory.Listed(s.poll.objects)[k];
      e.Valid() && (s.book.Has(e.cluster.name) ==>
        s.book.At(e.cluster.name).invalidReason != "" || (e.Edited() && !s.book.At(e.cluster.name).running))
    ensures var n := ScheduleStep(s);
      n.book.Has(s.poll.objects[k].name) && n.book.index[s.poll.objects[k].name] in n.book.owed
  {
    ListedDistinct(s.poll.objects);
    ListedKeeps(s.poll.objects, k);
    ScheduleListed(s.book, Inventory.Listed(s.poll.objects), s.now, k);
  }

  /** What is owed stays owed until a pass takes the cluster up, or a poll finds it blocked or
      gone. */
  lemma OwedUntilTakenUp(s: System, step: Step, r: Ref)
    requires Claims(s) && WakeupsKept(s) && ListedOnce(s) && Enabled(s, step)
    requires r in s.book.owed && r !in Next(s, step).book.owed
    ensures
      || (step.Recheck? && s.passes[step.id].ref == r && Next(s, step).passes[step.id].phase == Snapshotted)
      || (step.Schedule? && forall k :: 0 <= k < |s.poll.objects| && s.poll.objects[k].name == s.book.cells[r].cluster.name ==>
            !Inventory.Listed(s.poll.objects)[k].Valid())
  {
    assert Kept(s.book, s.passes, s.now, r);
    if step.Schedule? {
      forall k | 0 <= k < |s.poll.objects| && s.poll.objects[k].name == s.book.cells[r].cluster.name
        ensures !Inventory.Listed(s.poll.objects)[k].Valid()
      {
        DischargedByItsEntry(s, r, k);
      }
    } else if Expected(step).Some? {
      OnlyTakingDischarges(s, step, r);
    } else {
      OthersDischargeNothing(s, step);
    }
  }

  lemma DischargedByItsEntry(s: System, r: Ref, k: nat)
    requires Indexed(s.book) && OwedAreKnown(s.book) && s.poll.Read? && DistinctObjects(s.poll.objects) && k < |s.poll.objects|
    requires r in s.book.owed && InMap(s.book, r) && s.poll.objects[k].name == s.book.cells[r].cluster.name
    requires r !in ScheduleStep(s).book.owed
    ensures !Inventory.Listed(s.poll.objects)[k].Valid()
  {
    ListedDistinct(s.poll.objects);
    ListedKeeps(s.poll.objects, k);
    ScheduleListed(s.book, Inventory.Listed(s.poll.objects), s.now, k);
  }

  lemma OthersDischargeNothing(s: System, step: Step)
    requires Enabled(s, step) && Expected(step).None? && !step.Schedule?
    ensures Next(s, step).book.owed == s.book.owed
  {
  }

  lemma OnlyTakingDischarges(s: System, step: Step, r: Ref)
    requires PassEnabled(s, step) && r in s.book.owed && r !in PassStep(s, step).book.owed
    ensures step.Recheck? && s.passes[step.id].ref == r && PassStep(s, step).passes[step.id].phase == Snapshotted
  {
  }
}
