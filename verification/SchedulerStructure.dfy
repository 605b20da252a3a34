/** Who holds what: at most one pass per cluster, at most four slots taken, no state dropped
    under a pass, and health that counts exactly the passes under way. */
module SchedulerStructure {
  import opened Text
  import opened Api
  import opened Clocks
  import opened SchedulerModel
  import Config
  import Inventory

  // ---- The map of states -------------------------------------------------------------------------

  /** Every name leads to the state of that name. */
  ghost predicate Indexed(b: Book) {
    && (forall n :: n in b.index ==> b.index[n] in b.cells && b.cells[b.index[n]].cluster.name == n)
    && (forall r :: r in b.cells ==> r < b.nextRef)
  }

  /** A reference the map still leads to. */
  predicate InMap(b: Book, r: Ref) {
    r in b.cells && b.cells[r].cluster.name in b.index && b.index[b.cells[r].cluster.name] == r
  }

  /** What the bookkeeping of others may do to a state some pass holds: anything but drop it,
      rename it, or touch its running flag. */
  ghost predicate Preserves(b: Book, c: Book) {
    && Indexed(c) && b.nextRef <= c.nextRef
    && (forall r :: r in b.cells ==> r in c.cells)
    && (forall r :: r in b.cells ==> c.cells[r].cluster.name == b.cells[r].cluster.name)
    && (forall r :: r in b.cells ==> c.cells[r].running == b.cells[r].running)
    && (forall r :: InMap(b, r) && b.cells[r].running ==> InMap(c, r))
    && (forall r :: r in c.cells && r !in b.cells ==> !c.cells[r].running)
  }

  lemma PreservesComposes(a: Book, b: Book, c: Book)
    requires Preserves(a, b) && Preserves(b, c)
    ensures Preserves(a, c)
  {
  }

  lemma RefreshedKeeps(cell: Cell, e: Inventory.Entry, now: int)
    ensures Refreshed(cell, e, now).cluster == e.cluster && Refreshed(cell, e, now).running == cell.running
  {
  }

  lemma UpsertKnownPreserves(b: Book, e: Inventory.Entry, now: int)
    requires Indexed(b) && b.Has(e.cluster.name)
    ensures Preserves(b, Upserted(b, e, now))
  {
    RefreshedKeeps(b.At(e.cluster.name), e, now);
  }

  lemma UpsertNewPreserves(b: Book, e: Inventory.Entry, now: int)
    requires Indexed(b) && !b.Has(e.cluster.name)
    ensures Preserves(b, Upserted(b, e, now))
  {
    RefreshedKeeps(NewCell(e.cluster, now), e, now);
    assert e.cluster.name !in b.index;
  }

  lemma UpsertPreserves(b: Book, e: Inventory.Entry, now: int)
    requires Indexed(b)
    ensures Preserves(b, Upserted(b, e, now))
  {
    if b.Has(e.cluster.name) {
      UpsertKnownPreserves(b, e, now);
    } else {
      UpsertNewPreserves(b, e, now);
    }
  }

  lemma {:induction false} UpsertAllPreserves(b: Book, es: seq<Inventory.Entry>, now: int)
    requires Indexed(b)
    ensures Preserves(b, UpsertAll(b, es, now))
  {
    if es != [] {
      var front := es[..|es| - 1];
      UpsertAllPreserves(b, front, now);
      UpsertPreserves(UpsertAll(b, front, now), es[|es| - 1], now);
      PreservesComposes(b, UpsertAll(b, front, now), UpsertAll(b, es, now));
    }
  }

  lemma DepartedPreserves(b: Book, seen: set<string>)
    requires Indexed(b)
    ensures Preserves(b, Departed(b, seen))
  {
  }

  lemma NobodyLeaves(b: Book, seen: set<string>)
    requires Indexed(b) && b.index.Keys <= seen
    ensures Departed(b, seen) == b
  {
    var d := Departed(b, seen);
    assert d.index == b.index;
    assert d.cells == b.cells;
    assert d.owed == b.owed;
  }

  lemma SchedulePreserves(b: Book, es: seq<Inventory.Entry>, now: int)
    requires Indexed(b)
    ensures Preserves(b, UpdateSchedule(b, es, now))
  {
    UpsertAllPreserves(b, es, now);
    DepartedPreserves(UpsertAll(b, es, now), Names(es));
    PreservesComposes(b, UpsertAll(b, es, now), UpdateSchedule(b, es, now));
  }

  lemma CellPreserves(b: Book, r: Ref, cell: Cell)
    requires Indexed(b) && r in b.cells
    requires cell.cluster.name == b.cells[r].cluster.name && cell.running == b.cells[r].running
    ensures Preserves(b, b.(cells := b.cells[r := cell]))
  {
  }

  // ---- Who is running ----------------------------------------------------------------------------------

  /** Claimed references the poll has yet to start a goroutine for. */
  function Pending(poll: Poll): seq<Ref> {
    match poll
    case Dispatching(due) => due
    case _ => []
  }

  ghost predicate Held(b: Book, r: Ref) { InMap(b, r) && b.cells[r].running }

  /** No two holders of a claim, and every claim held is of a state that is in the map and
      marked as running. */
  ghost predicate OnePassEach(b: Book, passes: map<nat, Pass>, pending: seq<Ref>) {
    && (forall i :: i in passes ==> Held(b, passes[i].ref) && passes[i].cluster.name == b.cells[passes[i].ref].cluster.name)
    && (forall r :: r in pending ==> Held(b, r))
    && (forall i, j :: i in passes && j in passes && i != j ==> passes[i].ref != passes[j].ref)
    && (forall i :: i in passes ==> passes[i].ref !in pending)
    && (forall i, j :: 0 <= i < j < |pending| ==> pending[i] != pending[j])
  }

  /** A state is marked as running only while somebody will release it. */
  ghost predicate RunningIsHeld(b: Book, passes: map<nat, Pass>, pending: seq<Ref>) {
    forall r :: r in b.cells && b.cells[r].running ==> r in pending || HasPass(passes, r)
  }

  ghost predicate HasPass(passes: map<nat, Pass>, r: Ref) {
    exists i :: i in passes && passes[i].ref == r
  }

  ghost predicate CountsFor(passes: map<nat, Pass>, n: string) {
    exists i :: i in passes && passes[i].phase.Counted() && passes[i].cluster.name == n
  }

  ghost predicate NamesApart(passes: map<nat, Pass>) {
    forall i, j :: i in passes && j in passes && i != j ==> passes[i].cluster.name != passes[j].cluster.name
  }

  function SlotHolders(passes: map<nat, Pass>): set<nat> {
    set i | i in passes && passes[i].phase.HoldsSlot()
  }

  ghost predicate SlotsCounted(s: System) {
    s.slots == |SlotHolders(s.passes)| && s.slots <= MAX_PASSES
  }

  ghost predicate HealthIsExact(health: map<string, int>, passes: map<nat, Pass>) {
    && (forall i :: i in passes && passes[i].phase.Counted() ==>
          passes[i].cluster.name in health && health[passes[i].cluster.name] == passes[i].startedAt)
    && (forall n :: n in health ==> CountsFor(passes, n))
  }

  ghost predicate Claims(s: System) {
    && Indexed(s.book)
    && OnePassEach(s.book, s.passes, Pending(s.poll))
    && RunningIsHeld(s.book, s.passes, Pending(s.poll))
    && (forall i :: i in s.passes ==> i < s.nextPass)
  }

  // ---- Each step keeps it ---------------------------------------------------------------------------------

  lemma BookStepKeeps(b: Book, c: Book, passes: map<nat, Pass>, pending: seq<Ref>)
    requires Indexed(b) && Preserves(b, c) && OnePassEach(b, passes, pending) && RunningIsHeld(b, passes, pending)
    ensures OnePassEach(c, passes, pending) && RunningIsHeld(c, passes, pending)
  {
  }

  /** A pass that moves on keeps its claim. */
  lemma MoveKeeps(b: Book, passes: map<nat, Pass>, pending: seq<Ref>, id: nat, pass: Pass)
    requires OnePassEach(b, passes, pending) && RunningIsHeld(b, passes, pending)
    requires id in passes && pass.ref == passes[id].ref && pass.cluster.name == passes[id].cluster.name
    ensures OnePassEach(b, passes[id := pass], pending) && RunningIsHeld(b, passes[id := pass], pending)
  {
    var after := passes[id := pass];
    forall r | HasPass(passes, r) ensures HasPass(after, r) {
      var i :| i in passes && passes[i].ref == r;
      assert i in after && after[i].ref == r;
    }
  }

  lemma MoveSlots(passes: map<nat, Pass>, id: nat, pass: Pass)
    requires id in passes
    ensures |SlotHolders(passes[id := pass])| ==
      |SlotHolders(passes)| - (if passes[id].phase.HoldsSlot() then 1 else 0) + (if pass.phase.HoldsSlot() then 1 else 0)
  {
    var before, after := SlotHolders(passes), SlotHolders(passes[id := pass]);
    assert after - {id} == before - {id};
    assert |before| == |before - {id}| + if id in before then 1 else 0;
    assert |after| == |after - {id}| + if id in after then 1 else 0;
  }

  lemma MoveHealth(health: map<string, int>, passes: map<nat, Pass>, id: nat, pass: Pass)
    requires HealthIsExact(health, passes) && id in passes
    requires pass.cluster.name == passes[id].cluster.name && pass.startedAt == passes[id].startedAt
    requires pass.phase.Counted() == passes[id].phase.Counted()
    ensures HealthIsExact(health, passes[id := pass])
  {
    var after := passes[id := pass];
    forall n | CountsFor(passes, n) ensures CountsFor(after, n) {
      var i :| i in passes && passes[i].phase.Counted() && passes[i].cluster.name == n;
      assert i in after && after[i].phase.Counted() && after[i].cluster.name == n;
    }
  }

  /** No two passes are for one name. */
  lemma PassesForDifferentNames(b: Book, passes: map<nat, Pass>, pending: seq<Ref>)
    requires OnePassEach(b, passes, pending)
    ensures NamesApart(passes)
  {
    forall i, j | i in passes && j in passes && i != j ensures passes[i].cluster.name != passes[j].cluster.name {
      assert Held(b, passes[i].ref) && Held(b, passes[j].ref);
    }
  }

  lemma OthersStillCount(passes: map<nat, Pass>, id: nat, pass: Pass, n: string)
    requires id in passes && passes[id].cluster.name != n && CountsFor(passes, n)
    ensures CountsFor(passes[id := pass], n) && CountsFor(passes - {id}, n)
  {
    var i :| i in passes && passes[i].phase.Counted() && passes[i].cluster.name == n;
    assert i in passes[id := pass] && passes[id := pass][i] == passes[i];
    assert i in passes - {id} && (passes - {id})[i] == passes[i];
  }

  lemma StartHealth(health: map<string, int>, passes: map<nat, Pass>, id: nat, pass: Pass)
    requires HealthIsExact(health, passes) && NamesApart(passes)
    requires id in passes && pass.cluster.name == passes[id].cluster.name && pass.phase.Counted()
    ensures HealthIsExact(health[pass.cluster.name := pass.startedAt], passes[id := pass])
  {
    var name, after := pass.cluster.name, passes[id := pass];
    forall n | n in health && n != name ensures CountsFor(after, n) {
      OthersStillCount(passes, id, pass, n);
    }
    assert id in after && after[id].phase.Counted() && after[id].cluster.name == name;
    assert CountsFor(after, name);
  }

  lemma FinishHealth(health: map<string, int>, passes: map<nat, Pass>, id: nat, pass: Pass)
    requires HealthIsExact(health, passes) && NamesApart(passes)
    requires id in passes && pass.cluster.name == passes[id].cluster.name && !pass.phase.Counted()
    ensures HealthIsExact(health - {pass.cluster.name}, passes[id := pass])
  {
    forall n | n in health && n != pass.cluster.name ensures CountsFor(passes[id := pass], n) {
      OthersStillCount(passes, id, pass, n);
    }
  }

  lemma ReleaseHealth(health: map<string, int>, passes: map<nat, Pass>, id: nat)
    requires HealthIsExact(health, passes) && id in passes && !passes[id].phase.Counted()
    ensures HealthIsExact(health, passes - {id})
  {
    forall n | n in health ensures CountsFor(passes - {id}, n) {
      var i :| i in passes && passes[i].phase.Counted() && passes[i].cluster.name == n;
      assert i in passes - {id} && (passes - {id})[i] == passes[i];
    }
  }

  lemma ReleaseOnePass(b: Book, passes: map<nat, Pass>, pending: seq<Ref>, id: nat)
    requires OnePassEach(b, passes, pending) && Indexed(b) && id in passes && passes[id].ref in b.cells
    ensures Indexed(Released(b, passes[id].ref)) && OnePassEach(Released(b, passes[id].ref), passes - {id}, pending)
  {
    var ref := passes[id].ref;
    var c := Released(b, ref);
    forall r | r != ref && Held(b, r) ensures Held(c, r) {}
  }

  lemma ReleaseRunning(b: Book, passes: map<nat, Pass>, pending: seq<Ref>, id: nat)
    requires RunningIsHeld(b, passes, pending) && id in passes && passes[id].ref in b.cells
    ensures RunningIsHeld(Released(b, passes[id].ref), passes - {id}, pending)
  {
    var c := Released(b, passes[id].ref);
    forall r | r in c.cells && c.cells[r].running ensures r in pending || HasPass(passes - {id}, r) {
      assert b.cells[r].running && r != passes[id].ref;
      if HasPass(passes, r) {
        var i :| i in passes && passes[i].ref == r;
        assert i in passes - {id} && (passes - {id})[i].ref == r;
      }
    }
  }

  lemma ClaimHolds(b: Book, passes: map<nat, Pass>, due: seq<Ref>, now: int)
    requires Indexed(b) && OnePassEach(b, passes, []) && RunningIsHeld(b, passes, []) && Lists(due, b, DueRefs(b, now))
    ensures var c := Claimed(b, DueRefs(b, now));
      Indexed(c) && OnePassEach(c, passes, due) && RunningIsHeld(c, passes, due)
  {
    var wanted := DueRefs(b, now);
    var c := Claimed(b, wanted);
    forall r | r in wanted ensures r in b.cells && InMap(b, r) && !b.cells[r].running {}
    forall r | r in due ensures Held(c, r) { assert r in wanted; }
    forall i | i in passes ensures passes[i].ref !in due && Held(c, passes[i].ref) {
      assert Held(b, passes[i].ref);
    }
  }

  lemma Tail(due: seq<Ref>, r: Ref)
    requires due != []
    ensures r in due <==> r == due[0] || r in due[1..]
    ensures (forall i, j :: 0 <= i < j < |due| ==> due[i] != due[j]) ==> due[0] !in due[1..]
  {
    assert due == [due[0]] + due[1..];
  }

  lemma SpawnOnePass(b: Book, passes: map<nat, Pass>, due: seq<Ref>, id: nat, pass: Pass)
    requires OnePassEach(b, passes, due) && due != []
    requires id !in passes && pass.ref == due[0] && pass.ref in b.cells && pass.cluster == b.cells[pass.ref].cluster
    ensures OnePassEach(b, passes[id := pass], due[1..])
  {
    var after := passes[id := pass];
    Tail(due, due[0]);
    forall r | r in due[1..] ensures Held(b, r) { Tail(due, r); }
    forall i | i in after ensures after[i].ref !in due[1..] && Held(b, after[i].ref) {
      Tail(due, after[i].ref);
      assert i == id || passes[i].ref !in due;
    }
    forall i | i in passes ensures passes[i].ref != pass.ref { assert passes[i].ref !in due; }
  }

  lemma SpawnRunning(b: Book, passes: map<nat, Pass>, due: seq<Ref>, id: nat, pass: Pass)
    requires RunningIsHeld(b, passes, due) && due != [] && id !in passes && pass.ref == due[0]
    ensures RunningIsHeld(b, passes[id := pass], due[1..])
  {
    var after := passes[id := pass];
    forall r | r in b.cells && b.cells[r].running ensures r in due[1..] || HasPass(after, r) {
      Tail(due, r);
      if r == due[0] {
        assert id in after && after[id].ref == r;
      } else if r !in due {
        var i :| i in passes && passes[i].ref == r;
        assert i in after && after[i].ref == r;
      }
    }
  }

  lemma SlotsWithout(passes: map<nat, Pass>, id: nat, pass: Pass)
    ensures id in passes && !passes[id].phase.HoldsSlot() ==> SlotHolders(passes - {id}) == SlotHolders(passes)
    ensures id !in passes && !pass.phase.HoldsSlot() ==> SlotHolders(passes[id := pass]) == SlotHolders(passes)
  {
  }

  lemma SpawnHealth(health: map<string, int>, passes: map<nat, Pass>, id: nat, pass: Pass)
    requires HealthIsExact(health, passes) && id !in passes && pass.phase == Queued
    ensures HealthIsExact(health, passes[id := pass])
  {
    forall n | n in health ensures CountsFor(passes[id := pass], n) {
      var i :| i in passes && passes[i].phase.Counted() && passes[i].cluster.name == n;
      assert i in passes[id := pass] && passes[id := pass][i] == passes[i];
    }
  }

  // ---- ... of the poll and of people: none moves a pass

  lemma SpawnKeepsClaims(s: System)
    requires Claims(s) && Enabled(s, Spawn)
    ensures Claims(SpawnStep(s))
  {
    var id, due := s.nextPass, s.poll.due;
    var pass := SpawnStep(s).passes[id];
    assert Held(s.book, due[0]);
    SpawnOnePass(s.book, s.passes, due, id, pass);
    SpawnRunning(s.book, s.passes, due, id, pass);
  }

  lemma ReadVerdictKeepsClaims(s: System)
    requires Claims(s) && Enabled(s, ReadVerdict)
    ensures Claims(ReadVerdictStep(s))
  {
    var n := ReadVerdictStep(s);
    var ref := s.poll.todo[0];
    if n.poll.Writing? {
      CellPreserves(s.book, ref, n.book.cells[ref]);
      BookStepKeeps(s.book, n.book, s.passes, []);
    }
  }

  lemma ScheduleKeepsClaims(s: System)
    requires Claims(s) && Enabled(s, Schedule)
    ensures Claims(ScheduleStep(s))
  {
    SchedulePreserves(s.book, Inventory.Listed(s.poll.objects), s.now);
    BookStepKeeps(s.book, ScheduleStep(s).book, s.passes, []);
  }

  lemma OtherStepsKeepClaims(s: System, step: Step)
    requires Claims(s) && Enabled(s, step) && Expected(step).None?
    ensures Claims(Next(s, step))
  {
    if step.Schedule? {
      ScheduleKeepsClaims(s);
    } else if step.Claim? {
      ClaimHolds(s.book, s.passes, step.due, s.now);
    } else if step.Spawn? {
      SpawnKeepsClaims(s);
    } else if step.ReadVerdict? {
      ReadVerdictKeepsClaims(s);
    } else {
      QuietStepsTouchNothing(s, step);
      UntouchedClaims(s, Next(s, step));
    }
  }

  /** The other steps of the poll, and those of people, touch neither states nor passes. */
  lemma QuietStepsTouchNothing(s: System, step: Step)
    requires Enabled(s, step) && Expected(step).None?
    requires !step.Schedule? && !step.Claim? && !step.Spawn? && !step.ReadVerdict?
    ensures var n := Next(s, step);
      && n.book == s.book && n.passes == s.passes && n.nextPass == s.nextPass
      && Pending(n.poll) == Pending(s.poll) && s.now <= n.now
  {
  }

  lemma UntouchedClaims(s: System, n: System)
    requires Claims(s) && n.book == s.book && n.passes == s.passes && n.nextPass == s.nextPass
    requires Pending(n.poll) == Pending(s.poll)
    ensures Claims(n)
  {
  }

  // ---- ... of a pass

  lemma TakingPreserves(b: Book, r: Ref)
    requires Indexed(b) && r in b.cells
    ensures Preserves(b, TakenFrom(b, r))
  {
  }

  lemma SameBookPreserves(b: Book)
    requires Indexed(b)
    ensures Preserves(b, b)
  {
  }

  lemma SettlePreserves(s: System, id: nat)
    requires id in s.passes && s.passes[id].ref in s.book.cells && Indexed(s.book)
    ensures Preserves(s.book, SettleStep(s, id).book)
  {
    var pass := s.passes[id];
    var cell := s.book.cells[pass.ref];
    SameBookPreserves(s.book);
    CellPreserves(s.book, pass.ref, cell.(status := WithVerdict(pass.result, VerdictOf(cell))));
  }

  lemma RecheckPreserves(s: System, id: nat)
    requires id in s.passes && s.passes[id].ref in s.book.cells && Indexed(s.book)
    ensures Preserves(s.book, RecheckStep(s, id).book)
  {
    SameBookPreserves(s.book);
    TakingPreserves(s.book, s.passes[id].ref);
  }

  lemma PassStepPreserves(s: System, step: Step)
    requires PassEnabled(s, step) && !step.Release? && Indexed(s.book)
    ensures Preserves(s.book, PassStep(s, step).book)
  {
    var id := Expected(step).value.0;
    if step.Recheck? {
      RecheckPreserves(s, id);
    } else if step.Settle? {
      SettlePreserves(s, id);
    } else if step.Bookkeep? {
      CellPreserves(s.book, s.passes[id].ref, BookedCell(s.book.cells[s.passes[id].ref], s.passes[id], s.now));
    } else {
      SameBookPreserves(s.book);
    }
  }

  /** Apart from its release, a step of a pass moves that pass alone. */
  lemma PassStepMoves(s: System, step: Step)
    requires PassEnabled(s, step) && !step.Release?
    requires var pass := s.passes[Expected(step).value.0]; pass.cluster.name == s.book.cells[pass.ref].cluster.name
    ensures var id := Expected(step).value.0;
      var n := PassStep(s, step);
      && id in n.passes && n.passes == s.passes[id := n.passes[id]]
      && n.passes[id].ref == s.passes[id].ref && n.passes[id].cluster.name == s.passes[id].cluster.name
      && n.poll == s.poll && n.nextPass == s.nextPass
  {
  }

  lemma ReleaseKeepsClaims(s: System, id: nat)
    requires Claims(s) && id in s.passes && s.passes[id].ref in s.book.cells
    ensures Claims(ReleaseStep(s, id))
  {
    ReleaseOnePass(s.book, s.passes, Pending(s.poll), id);
    ReleaseRunning(s.book, s.passes, Pending(s.poll), id);
  }

  lemma MovingKeepsClaims(s: System, n: System, id: nat)
    requires Claims(s) && Preserves(s.book, n.book) && id in s.passes && id in n.passes
    requires n.passes == s.passes[id := n.passes[id]] && n.poll == s.poll && n.nextPass == s.nextPass
    requires n.passes[id].ref == s.passes[id].ref && n.passes[id].cluster.name == s.passes[id].cluster.name
    ensures Claims(n)
  {
    BookStepKeeps(s.book, n.book, s.passes, Pending(s.poll));
    MoveKeeps(n.book, s.passes, Pending(s.poll), id, n.passes[id]);
  }

  lemma HeldByName(s: System, id: nat)
    requires Claims(s) && id in s.passes
    ensures s.passes[id].ref in s.book.cells && s.passes[id].cluster.name == s.book.cells[s.passes[id].ref].cluster.name
    ensures Indexed(s.book)
  {
    assert Held(s.book, s.passes[id].ref);
  }

  lemma PassStepKeepsClaims(s: System, step: Step)
    requires Claims(s) && PassEnabled(s, step)
    ensures Claims(PassStep(s, step))
  {
    var id := Expected(step).value.0;
    if step.Release? {
      ReleaseKeepsClaims(s, id);
    } else {
      HeldByName(s, id);
      PassStepPreserves(s, step);
      PassStepMoves(s, step);
      MovingKeepsClaims(s, PassStep(s, step), id);
    }
  }

  // ---- Slots and health ------------------------------------------------------------------------------------

  function Taken(phase: Phase): nat { if phase.HoldsSlot() then 1 else 0 }

  lemma HolderIsCounted(s: System, id: nat)
    requires SlotsCounted(s) && id in s.passes && s.passes[id].phase.HoldsSlot()
    ensures s.slots > 0
  {
    assert id in SlotHolders(s.passes);
  }

  ghost predicate SlotsMove(s: System, n: System, id: nat) {
    && id in s.passes && id in n.passes && n.passes == s.passes[id := n.passes[id]]
    && (s.slots <= MAX_PASSES ==> n.slots <= MAX_PASSES)
    && n.slots == s.slots - Taken(s.passes[id].phase) + Taken(n.passes[id].phase)
  }

  lemma SettleSlots(s: System, id: nat)
    requires PassEnabled(s, Settle(id))
    ensures SlotsMove(s, SettleStep(s, id), id)
  {
  }

  lemma RecheckSlots(s: System, id: nat)
    requires PassEnabled(s, Recheck(id))
    ensures SlotsMove(s, RecheckStep(s, id), id)
  {
  }

  lemma PassStepSlots(s: System, step: Step)
    requires PassEnabled(s, step) && !step.Release? && (step.FreeSlot? ==> s.slots > 0)
    ensures SlotsMove(s, PassStep(s, step), Expected(step).value.0)
  {
    if step.Settle? {
      SettleSlots(s, step.id);
    } else if step.Recheck? {
      RecheckSlots(s, step.id);
    }
  }

  lemma StepKeepsSlots(s: System, step: Step)
    requires SlotsCounted(s) && Enabled(s, step) && s.nextPass !in s.passes
    ensures SlotsCounted(Next(s, step))
  {
    if step.Spawn? {
      SlotsWithout(s.passes, s.nextPass, SpawnStep(s).passes[s.nextPass]);
    } else if Expected(step).Some? {
      var id := Expected(step).value.0;
      if step.Release? {
        SlotsWithout(s.passes, id, s.passes[id]);
      } else {
        if step.FreeSlot? { HolderIsCounted(s, id); }
        PassStepSlots(s, step);
        MoveSlots(s.passes, id, PassStep(s, step).passes[id]);
      }
    }
  }

  ghost predicate HealthMoves(s: System, n: System, id: nat, step: Step) {
    && id in s.passes && id in n.passes && n.passes == s.passes[id := n.passes[id]]
    && var was, pass := s.passes[id], n.passes[id];
       if step.Start? then pass.phase.Counted() && n.health == s.health[was.cluster.name := pass.startedAt]
       else if step.Finish? then !pass.phase.Counted() && n.health == s.health - {was.cluster.name}
       else n.health == s.health && pass.startedAt == was.startedAt && pass.phase.Counted() == was.phase.Counted()
  }

  lemma SettleHealth(s: System, id: nat)
    requires PassEnabled(s, Settle(id))
    ensures HealthMoves(s, SettleStep(s, id), id, Settle(id))
  {
  }

  lemma RecheckHealth(s: System, id: nat)
    requires PassEnabled(s, Recheck(id))
    ensures HealthMoves(s, RecheckStep(s, id), id, Recheck(id))
  {
  }

  lemma PassStepHealth(s: System, step: Step)
    requires PassEnabled(s, step) && !step.Release?
    ensures HealthMoves(s, PassStep(s, step), Expected(step).value.0, step)
  {
    if step.Settle? {
      SettleHealth(s, step.id);
    } else if step.Recheck? {
      RecheckHealth(s, step.id);
    }
  }

  lemma PassStepKeepsHealth(s: System, step: Step)
    requires HealthIsExact(s.health, s.passes) && NamesApart(s.passes) && PassEnabled(s, step)
    requires var pass := s.passes[Expected(step).value.0]; pass.cluster.name == s.book.cells[pass.ref].cluster.name
    ensures HealthIsExact(PassStep(s, step).health, PassStep(s, step).passes)
  {
    var id := Expected(step).value.0;
    if step.Release? {
      ReleaseHealth(s.health, s.passes, id);
    } else {
      PassStepHealth(s, step);
      PassStepMoves(s, step);
      var pass := PassStep(s, step).passes[id];
      if step.Start? {
        StartHealth(s.health, s.passes, id, pass);
      } else if step.Finish? {
        FinishHealth(s.health, s.passes, id, pass);
      } else {
        MoveHealth(s.health, s.passes, id, pass);
      }
    }
  }

  lemma StepKeepsHealth(s: System, step: Step)
    requires Claims(s) && HealthIsExact(s.health, s.passes) && Enabled(s, step)
    ensures HealthIsExact(Next(s, step).health, Next(s, step).passes)
  {
    if Expected(step).Some? {
      PassesForDifferentNames(s.book, s.passes, Pending(s.poll));
      PassStepKeepsHealth(s, step);
    } else if step.Spawn? {
      SpawnHealth(s.health, s.passes, s.nextPass, SpawnStep(s).passes[s.nextPass]);
    }
  }

  // ---- Over every run ----------------------------------------------------------------------------------------

  ghost predicate Structure(s: System) {
    Claims(s) && SlotsCounted(s) && HealthIsExact(s.health, s.passes)
  }

  lemma StepKeepsClaims(s: System, step: Step)
    requires Claims(s) && Enabled(s, step)
    ensures Claims(Next(s, step))
  {
    if Expected(step).Some? {
      PassStepKeepsClaims(s, step);
    } else {
      OtherStepsKeepClaims(s, step);
    }
  }

  lemma StepKeepsStructure(s: System, step: Step)
    requires Structure(s) && Enabled(s, step)
    ensures Structure(Next(s, step))
  {
    StepKeepsClaims(s, step);
    StepKeepsSlots(s, step);
    StepKeepsHealth(s, step);
  }

  lemma {:induction false} RunsKeepStructure(s: System, steps: seq<Step>)
    requires Structure(s) && Possible(s, steps)
    ensures Structure(Run(s, steps))
  {
    if steps != [] {
      RunsKeepStructure(s, steps[..|steps| - 1]);
      StepKeepsStructure(Run(s, steps[..|steps| - 1]), steps[|steps| - 1]);
    }
  }

  /** In every interleaving of the poll, the passes and the people editing the inventory: no
      two passes are for one cluster, at most four hold a slot, a state with a pass in flight
      is still the one its name leads to, a state is only marked as running while a pass
      holds it, and health knows exactly the passes that have started and not finished. */
  lemma EveryRun(now: int, api: map<string, Inventory.Connection>, handled: set<Handled>, steps: seq<Step>)
    requires Possible(Begin(now, api, handled), steps)
    ensures var s := Run(Begin(now, api, handled), steps);
      && NamesApart(s.passes)
      && |SlotHolders(s.passes)| <= MAX_PASSES
      && (forall i :: i in s.passes ==> Held(s.book, s.passes[i].ref))
      && RunningIsHeld(s.book, s.passes, Pending(s.poll))
      && HealthIsExact(s.health, s.passes)
  {
    var begin := Begin(now, api, handled);
    assert SlotHolders(begin.passes) == {};
    RunsKeepStructure(begin, steps);
    var s := Run(begin, steps);
    PassesForDifferentNames(s.book, s.passes, Pending(s.poll));
  }

  // ---- Liveness, as the probe sees it ---------------------------------------------------------------------------

  const MAX_PROGRESS_AGE := 10 * POLL_INTERVAL
  const CLUSTER_TIMEOUT := 300
  const PASS_GRACE := 60

  predicate IsLive(s: System) {
    && s.now - s.polledAt <= MAX_PROGRESS_AGE
    && forall n :: n in s.health ==> s.now - s.health[n] <= CLUSTER_TIMEOUT + PASS_GRACE
  }

  /** The probe fails exactly when no poll has finished for ten intervals or some pass has
      overrun its timeout by a minute: no finished pass can fail it, and no pass that has
      wedged goes unseen. */
  lemma LivenessIsExact(s: System)
    requires HealthIsExact(s.health, s.passes)
    ensures IsLive(s) <==>
      && s.now - s.polledAt <= MAX_PROGRESS_AGE
      && forall i :: i in s.passes && s.passes[i].phase.Counted() ==>
           s.now - s.passes[i].startedAt <= CLUSTER_TIMEOUT + PASS_GRACE
  {
    forall n | n in s.health
      ensures exists i :: i in s.passes && s.passes[i].phase.Counted() && s.passes[i].startedAt == s.health[n]
    {
      assert CountsFor(s.passes, n);
      var i :| i in s.passes && s.passes[i].phase.Counted() && s.passes[i].cluster.name == n;
      assert s.passes[i].startedAt == s.health[n];
    }
  }
}
