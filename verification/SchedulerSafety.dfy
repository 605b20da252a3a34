/** Passes start only on a claim that is still good, and what they write agrees with the
    verdict, whichever of the two writers is last. */
module SchedulerSafety {
  import opened Text
  import opened Api
  import opened Clocks
  import opened SchedulerModel
  import opened SchedulerStructure
  import opened SchedulerEntries
  import opened SchedulerWakeups
  import Config
  import Inventory

  // ---- Fail-closed start ----------------------------------------------------------------------------

  /** The state says of its cluster what entry k says. */
  predicate Says(cell: Cell, e: Inventory.Entry) {
    && cell.cluster == e.cluster && cell.generation == e.generation
    && cell.invalidReason == e.invalidReason && cell.invalidCause == e.invalidCause
  }

  ghost predicate SaidBy(cell: Cell, objects: seq<Inventory.Connection>) {
    exists k :: 0 <= k < |objects| && Says(cell, Inventory.Listed(objects)[k])
  }

  /** Every state not marked as departed is as the list last read has it. */
  ghost predicate FollowsLatest(b: Book, latest: seq<Inventory.Connection>) {
    forall n :: n in b.index && b.Has(n) && !b.At(n).departed ==> SaidBy(b.At(n), latest)
  }

  ghost predicate SameClaims(b: Book, c: Book) {
    && c.index == b.index && c.cells.Keys == b.cells.Keys
    && forall r :: r in b.cells ==>
         && c.cells[r].cluster == b.cells[r].cluster && c.cells[r].generation == b.cells[r].generation
         && c.cells[r].invalidReason == b.cells[r].invalidReason && c.cells[r].invalidCause == b.cells[r].invalidCause
         && c.cells[r].departed == b.cells[r].departed
  }

  lemma SameClaimsFollow(b: Book, c: Book, latest: seq<Inventory.Connection>)
    requires SameClaims(b, c) && FollowsLatest(b, latest)
    ensures FollowsLatest(c, latest)
  {
    forall n | n in c.index && c.Has(n) && !c.At(n).departed ensures SaidBy(c.At(n), latest) {
      var k :| 0 <= k < |latest| && Says(b.At(n), Inventory.Listed(latest)[k]);
      assert Says(c.At(n), Inventory.Listed(latest)[k]);
    }
  }

  lemma ScheduleFollows(s: System)
    requires Claims(s) && OwedAreKnown(s.book) && s.poll.Read? && DistinctObjects(s.poll.objects)
    ensures FollowsLatest(ScheduleStep(s).book, s.poll.objects)
  {
    var objects := s.poll.objects;
    var es := Inventory.Listed(objects);
    var c := UpdateSchedule(s.book, es, s.now);
    ListedDistinct(objects);
    forall n | n in c.index && c.Has(n) && !c.At(n).departed ensures SaidBy(c.At(n), objects) {
      if k :| 0 <= k < |es| && es[k].cluster.name == n {
        ScheduleListed(s.book, es, s.now, k);
        assert Says(c.At(n), es[k]);
      } else {
        ScheduleUnlisted(s.book, es, s.now, n);
      }
    }
  }

  lemma CellSameClaims(b: Book, r: Ref, cell: Cell, owed: set<Ref>)
    requires r in b.cells
    requires cell.cluster == b.cells[r].cluster && cell.generation == b.cells[r].generation
    requires cell.invalidReason == b.cells[r].invalidReason && cell.invalidCause == b.cells[r].invalidCause
    requires cell.departed == b.cells[r].departed
    ensures SameClaims(b, b.(cells := b.cells[r := cell], owed := owed)) && SameClaims(b, b)
  {
  }

  lemma RecheckSameClaims(s: System, id: nat)
    requires id in s.passes && s.passes[id].ref in s.book.cells
    ensures SameClaims(s.book, RecheckStep(s, id).book)
  {
    var ref := s.passes[id].ref;
    CellSameClaims(s.book, ref, s.book.cells[ref].(rerunAfterPass := false), s.book.owed - {ref});
  }

  lemma SettleSameClaims(s: System, id: nat)
    requires id in s.passes && s.passes[id].ref in s.book.cells
    ensures SameClaims(s.book, SettleStep(s, id).book)
  {
    var pass := s.passes[id];
    var cell := s.book.cells[pass.ref];
    CellSameClaims(s.book, pass.ref, cell.(status := WithVerdict(pass.result, VerdictOf(cell))), s.book.owed);
  }

  lemma BookingSameClaims(b: Book, r: Ref, pass: Pass, now: int)
    requires r in b.cells
    ensures SameClaims(b, b.(cells := b.cells[r := BookedCell(b.cells[r], pass, now)])) && SameClaims(b, Released(b, r))
  {
    CellSameClaims(b, r, BookedCell(b.cells[r], pass, now), b.owed);
    CellSameClaims(b, r, b.cells[r].(running := false), b.owed);
  }

  lemma PassStepSameClaims(s: System, step: Step)
    requires PassEnabled(s, step)
    ensures SameClaims(s.book, PassStep(s, step).book)
  {
    if step.Recheck? {
      RecheckSameClaims(s, step.id);
    } else if step.Settle? {
      SettleSameClaims(s, step.id);
    } else if step.Bookkeep? || step.Release? {
      BookingSameClaims(s.book, s.passes[step.id].ref, s.passes[step.id], s.now);
    }
  }

  lemma ClaimSameClaims(s: System, due: seq<Ref>)
    requires Enabled(s, Claim(due))
    ensures SameClaims(s.book, Next(s, Claim(due)).book)
  {
  }

  lemma ReadVerdictSameClaims(s: System)
    requires s.poll.Reporting? && s.poll.todo != [] && s.poll.todo[0] in s.book.cells
    ensures SameClaims(s.book, ReadVerdictStep(s).book)
  {
    var cell := s.book.cells[s.poll.todo[0]];
    CellSameClaims(s.book, s.poll.todo[0], cell.(status := WithVerdict(cell.status, VerdictOf(cell))), s.book.owed);
  }

  lemma OtherStepsSameClaims(s: System, step: Step)
    requires Enabled(s, step) && Expected(step).None? && !step.Schedule?
    ensures SameClaims(s.book, Next(s, step).book) && Next(s, step).latest == s.latest
  {
    if step.Claim? {
      ClaimSameClaims(s, step.due);
    } else if step.ReadVerdict? {
      ReadVerdictSameClaims(s);
    }
  }

  lemma StepFollows(s: System, step: Step)
    requires Indexed(s.book) && Claims(s) && OwedAreKnown(s.book) && ListedOnce(s)
    requires FollowsLatest(s.book, s.latest) && Enabled(s, step)
    ensures FollowsLatest(Next(s, step).book, Next(s, step).latest)
  {
    if step.Schedule? {
      ScheduleFollows(s);
    } else if Expected(step).Some? {
      PassStepSameClaims(s, step);
      PassStepKeepsPoll(s, step);
      SameClaimsFollow(s.book, PassStep(s, step).book, s.latest);
    } else {
      OtherStepsSameClaims(s, step);
      SameClaimsFollow(s.book, Next(s, step).book, s.latest);
    }
  }

  ghost predicate LatestOnce(s: System) { DistinctObjects(s.latest) }

  lemma {:induction false} RunsFollow(s: System, steps: seq<Step>)
    requires Structure(s) && WakeupsKept(s) && ListedOnce(s) && LatestOnce(s) && FollowsLatest(s.book, s.latest)
    requires Possible(s, steps)
    ensures FollowsLatest(Run(s, steps).book, Run(s, steps).latest) && LatestOnce(Run(s, steps))
  {
    if steps != [] {
      var front, step := steps[..|steps| - 1], steps[|steps| - 1];
      RunsFollow(s, front);
      RunsKeepWakeups(s, front);
      var before := Run(s, front);
      assert OwedAreKnown(before.book) by {
        assert forall r :: r in before.book.owed ==> Kept(before.book, before.passes, before.now, r);
      }
      StepFollows(before, step);
      if Expected(step).Some? { PassStepKeepsPoll(before, step); }
    }
  }

  /** A claim that is good: in this list the cluster is there and resolvable, nobody else names
      its endpoint, and no other entry left to reconcile writes its Secret. */
  ghost predicate SoleClaimant(objects: seq<Inventory.Connection>, cluster: Config.Cluster, generation: int) {
    exists k :: 0 <= k < |objects|
      && Inventory.Listed(objects)[k].Valid() && Inventory.Listed(objects)[k].cluster == cluster
      && Inventory.Listed(objects)[k].generation == generation
      && forall j :: 0 <= j < |objects| && j != k ==>
           && Inventory.Decode(objects[j]).cluster.endpoint != cluster.endpoint
           && (Inventory.Listed(objects)[j].Valid() ==> Inventory.Listed(objects)[j].cluster.secretName != cluster.secretName)
  }

  lemma ValidMeansSole(objects: seq<Inventory.Connection>, k: nat)
    requires k < |objects| && Inventory.Listed(objects)[k].Valid()
    ensures SoleClaimant(objects, Inventory.Listed(objects)[k].cluster, Inventory.Listed(objects)[k].generation)
  {
    var cluster := Inventory.Listed(objects)[k].cluster;
    forall j | 0 <= j < |objects| && j != k
      ensures Inventory.Decode(objects[j]).cluster.endpoint != cluster.endpoint
      ensures Inventory.Listed(objects)[j].Valid() ==> Inventory.Listed(objects)[j].cluster.secretName != cluster.secretName
    {
      Inventory.SurvivorOwnsItsEndpoint(objects, k, j);
      if Inventory.Listed(objects)[j].Valid() {
        Inventory.SurvivorsAreDistinct(objects, k, j);
      }
    }
  }

  /** However long a pass waited for its slot, the snapshot it starts from is the one of the
      latest poll, in which its cluster was the sole valid claimant of its endpoint and its
      Secret; otherwise it abandons. */
  lemma StartsFailClosed(now: int, api: map<string, Inventory.Connection>, handled: set<Handled>, steps: seq<Step>, id: nat)
    requires Possible(Begin(now, api, handled), steps)
    requires Enabled(Run(Begin(now, api, handled), steps), Recheck(id))
    ensures var s := Run(Begin(now, api, handled), steps);
      var pass := Next(s, Recheck(id)).passes[id];
      pass.phase == Snapshotted ==> SoleClaimant(s.latest, pass.cluster, pass.generation)
  {
    var begin := Begin(now, api, handled);
    assert SlotHolders(begin.passes) == {};
    RunsFollow(begin, steps);
    RunsKeepStructure(begin, steps);
    var s := Run(begin, steps);
    TakesUpASoleClaimant(s, id);
  }

  lemma TakesUpASoleClaimant(s: System, id: nat)
    requires Claims(s) && FollowsLatest(s.book, s.latest) && PassEnabled(s, Recheck(id))
    ensures id in RecheckStep(s, id).passes
    ensures var pass := RecheckStep(s, id).passes[id];
      pass.phase == Snapshotted ==> SoleClaimant(s.latest, pass.cluster, pass.generation)
  {
    var ref := s.passes[id].ref;
    var cell := s.book.cells[ref];
    assert Held(s.book, ref);
    if cell.MayRun() {
      assert s.book.Has(cell.cluster.name) && s.book.At(cell.cluster.name) == cell;
      var k :| 0 <= k < |s.latest| && Says(cell, Inventory.Listed(s.latest)[k]);
      ValidMeansSole(s.latest, k);
    }
  }

  // ---- Two writers, one status ---------------------------------------------------------------------------

  /** A verdict changes what a status says about the connection and nothing of what it remembers:
      what was published, which credentials are in use, and when each expires. Laying it over
      twice, or over a status that carries the schema's stamp, changes nothing more. */
  lemma RejectionKeepsTheRecord(st: Status, v: Verdict, schema: Option<Condition>)
    ensures var r := Rejected(st, v);
      && r == st.(conditions := r.conditions, observedGeneration := v.generation, lastAction := NotReconciled(v.message))
      && Rejected(r, v) == r
      && Rejected(Stamped(r, schema), v) == Stamped(r, schema)
      && Ready in r.conditions && r.conditions[Ready] == Condition(No, v.cause, v.message, v.generation)
      && (Conflict in r.conditions <==> v.cause == SecretNameConflict || v.cause == EndpointConflict)
      && (Conflict in r.conditions ==> r.conditions[Conflict] == Condition(Yes, v.cause, v.message, v.generation))
      && (forall kind :: kind != Ready && kind != Conflict ==>
            (kind in r.conditions) == (kind in st.conditions)
            && (kind in st.conditions ==> r.conditions[kind] == st.conditions[kind]))
  {
    var r := Rejected(st, v);
    assert r.conditions[Ready := r.conditions[Ready]] == r.conditions;
    assert Rejected(r, v).conditions == r.conditions;
    assert Rejected(Stamped(r, schema), v).conditions == Stamped(r, schema).conditions;
  }

  /** The verdict on a cluster that is held back is what its state says of it: the reason as Ready's
      message and the action taken, the cause, or a fault of the spec where none is given, and the
      generation it is a verdict on, so that it is not mistaken for an edit. */
  lemma VerdictsSayWhy(st: Status, cell: Cell)
    ensures var r := WithVerdict(st, VerdictOf(cell));
      var cause := if cell.invalidCause == NoReason then InvalidSpec else cell.invalidCause;
      if cell.invalidReason == "" then r == st
      else && r.observedGeneration == cell.generation && r.lastAction == NotReconciled(cell.invalidReason)
           && Ready in r.conditions && r.conditions[Ready] == Condition(No, cause, cell.invalidReason, cell.generation)
           && (Conflict in r.conditions <==> cause == SecretNameConflict || cause == EndpointConflict)
  {
    if cell.invalidReason != "" { RejectionKeepsTheRecord(st, VerdictOf(cell).value, None); }
  }

  /** A claim marks exactly those states, of the ones names lead to, that no pass holds, that are
      neither held back nor gone, and whose time has come, give or take half a poll. */
  lemma ClaimsExactly(s: System, due: seq<Ref>, r: Ref)
    requires Indexed(s.book) && Enabled(s, Claim(due)) && r in s.book.cells
    ensures r in Next(s, Claim(due)).book.cells
    ensures var cell := s.book.cells[r];
      var claimed := InMap(s.book, r) && !cell.running && cell.invalidReason == "" && !cell.departed && cell.dueAt <= s.now + 15;
      && (r in due <==> claimed)
      && Next(s, Claim(due)).book.cells[r] == cell.(running := cell.running || claimed)
  {
    if InMap(s.book, r) { assert s.book.Has(s.book.cells[r].cluster.name); }
  }

  predicate Ended(phase: Phase) { phase == Settling || phase == Settled || phase == Leaving || phase == Unslotted }

  /** What a pass last sent, or is about to, is its own result under the verdict it read last. */
  ghost predicate LastWordAgrees(passes: map<nat, Pass>) {
    forall i :: i in passes && Ended(passes[i].phase) ==>
      passes[i].sent == WithVerdict(passes[i].result, passes[i].verdict)
  }

  /** Before it has anything to send. */
  predicate Blank(pass: Pass) { pass.sent == pass.result == EmptyStatus && pass.verdict == None }

  ghost predicate BlankUntilStarted(passes: map<nat, Pass>) {
    forall i :: i in passes && (passes[i].phase == Queued || passes[i].phase == Slotted) ==> Blank(passes[i])
  }

  ghost predicate Agreement(passes: map<nat, Pass>) { LastWordAgrees(passes) && BlankUntilStarted(passes) }

  predicate PassAgrees(pass: Pass) {
    && (Ended(pass.phase) ==> pass.sent == WithVerdict(pass.result, pass.verdict))
    && (pass.phase == Queued || pass.phase == Slotted ==> Blank(pass))
  }

  lemma SettleAgrees(s: System, id: nat)
    requires PassEnabled(s, Settle(id))
    ensures var n := SettleStep(s, id); id in n.passes && n.passes == s.passes[id := n.passes[id]] && PassAgrees(n.passes[id])
  {
  }

  lemma RecheckAgrees(s: System, id: nat)
    requires PassEnabled(s, Recheck(id)) && PassAgrees(s.passes[id])
    ensures var n := RecheckStep(s, id); id in n.passes && n.passes == s.passes[id := n.passes[id]] && PassAgrees(n.passes[id])
  {
  }

  lemma PassStepAgrees(s: System, step: Step)
    requires PassEnabled(s, step) && !step.Release? && PassAgrees(s.passes[Expected(step).value.0])
    ensures var id := Expected(step).value.0;
      var n := PassStep(s, step);
      id in n.passes && n.passes == s.passes[id := n.passes[id]] && PassAgrees(n.passes[id])
  {
    if step.Settle? {
      SettleAgrees(s, step.id);
    } else if step.Recheck? {
      RecheckAgrees(s, step.id);
    }
  }

  lemma MoveAgrees(passes: map<nat, Pass>, after: map<nat, Pass>, id: nat)
    requires Agreement(passes) && id in passes && id in after && after == passes[id := after[id]]
    requires PassAgrees(after[id])
    ensures Agreement(after)
  {
  }

  lemma OtherStepsAgreement(s: System, step: Step)
    requires Agreement(s.passes) && Enabled(s, step) && Expected(step).None?
    ensures Agreement(Next(s, step).passes)
  {
  }

  lemma StepKeepsAgreement(s: System, step: Step)
    requires Agreement(s.passes) && Enabled(s, step)
    ensures Agreement(Next(s, step).passes)
  {
    if Expected(step).None? {
      OtherStepsAgreement(s, step);
    } else if step.Release? {
      assert ReleaseStep(s, step.id).passes == s.passes - {step.id};
    } else {
      PassStepAgrees(s, step);
      MoveAgrees(s.passes, PassStep(s, step).passes, Expected(step).value.0);
    }
  }

  lemma {:induction false} RunsKeepAgreement(s: System, steps: seq<Step>)
    requires Agreement(s.passes) && Possible(s, steps)
    ensures Agreement(Run(s, steps).passes)
  {
    if steps != [] {
      RunsKeepAgreement(s, steps[..|steps| - 1]);
      StepKeepsAgreement(Run(s, steps[..|steps| - 1]), steps[|steps| - 1]);
    }
  }

  /** Whatever polls did while it ran, the last status a pass hands to the API server is its own
      result under the verdict it read after its first write had gone out; and that result's
      record of credentials is in it. */
  lemma LastWriteIsSettled(now: int, api: map<string, Inventory.Connection>, handled: set<Handled>, steps: seq<Step>, id: nat)
    requires Possible(Begin(now, api, handled), steps)
    requires var s := Run(Begin(now, api, handled), steps); id in s.passes && s.passes[id].phase == Settled
    ensures var pass := Run(Begin(now, api, handled), steps).passes[id];
      && pass.sent == WithVerdict(pass.result, pass.verdict)
      && pass.sent == pass.result.(conditions := pass.sent.conditions, observedGeneration := pass.sent.observedGeneration,
                                   lastAction := pass.sent.lastAction)
  {
    RunsKeepAgreement(Begin(now, api, handled), steps);
    AgreedRecord(Run(Begin(now, api, handled), steps).passes, id);
  }

  lemma AgreedRecord(passes: map<nat, Pass>, id: nat)
    requires Agreement(passes) && id in passes && passes[id].phase == Settled
    ensures var pass := passes[id];
      && pass.sent == WithVerdict(pass.result, pass.verdict)
      && pass.sent == pass.result.(conditions := pass.sent.conditions, observedGeneration := pass.sent.observedGeneration,
                                   lastAction := pass.sent.lastAction)
  {
    if passes[id].verdict.Some? {
      RejectionKeepsTheRecord(passes[id].result, passes[id].verdict.value, None);
    }
  }
}
