/** From one pass of a connection to the next: what the one returns the other starts from. */
module SchedulerHandover {
  import opened Text
  import opened Api
  import opened SchedulerModel
  import opened SchedulerStructure
  import opened SchedulerMemory
  import SchedulerWakeups
  import Inventory

  /** A pass that has come back with this result: what it has since sent, written and kept in its
      state records that. */
  ghost predicate HandsOver(s: System, id: nat, name: string, last: Status) {
    && s.poll == Waiting && (forall n :: n in s.api ==> s.api[n].name == n) && name in s.api
    && id in s.passes && s.passes[id].ref in s.book.cells
    && HandsOn(s.passes[id], s.book.cells[s.passes[id].ref], Inventory.DecodeStatus(s.api[name]), name, last)
  }

  predicate HandsOn(pass: Pass, cell: Cell, carried: Status, name: string, last: Status) {
    && pass.cluster.name == cell.cluster.name == name && HasResult(pass.phase) && pass.result == last
    && (pass.phase != Returned ==> SameRecord(last, pass.sent))
    && (pass.phase == Settling ==> SameRecord(last, carried))
    && (pass.phase == Wrote || pass.phase == Booked || pass.phase == Settled ==> Delivered(carried, pass.sent))
    && (pass.phase == Booked || pass.phase == Settling || pass.phase == Settled ==> cell.status == pass.sent)
  }

  /** What the object carries is what was sent, but for the schema's own condition. */
  predicate Delivered(carried: Status, sent: Status) {
    carried.RemoveCondition(SchemaCurrent) == sent.RemoveCondition(SchemaCurrent)
  }

  /** Time passes and passes go on, and no write of this one's is refused. */
  predicate Smooth(step: Step, id: nat) {
    && (step.Tick? || Expected(step).Some?) && step != Finish(id)
    && ((step.WriteResult? || step.WriteSettled?) && step.id == id ==> step.reply != Refused)
  }

  lemma SendingDelivers(api: Objects, name: string, st: Status, schema: Option<Condition>, reply: Reply)
    requires name in api && reply != Refused
    ensures name in Send(api, name, st, schema, reply)
    ensures Delivered(Inventory.DecodeStatus(Send(api, name, st, schema, reply)[name]), st)
  {
    assert Stamped(st, schema).conditions - {SchemaCurrent} == st.conditions - {SchemaCurrent};
  }

  lemma DeliveredKeeps(last: Status, carried: Status, sent: Status)
    requires SameRecord(last, sent) && Delivered(carried, sent)
    ensures SameRecord(last, carried)
  {
    OthersDelivered(carried, sent, ServingCertificateValid);
    OthersDelivered(carried, sent, SelfCredentialValid);
    OthersDelivered(carried, sent, SecretExclusivelyOwned);
  }

  lemma OthersDelivered(carried: Status, sent: Status, kind: ConditionType)
    requires Delivered(carried, sent) && kind != SchemaCurrent
    ensures SameCondition(carried, sent, kind)
  {
    var a, b := carried.RemoveCondition(SchemaCurrent), sent.RemoveCondition(SchemaCurrent);
    assert (kind in carried.conditions) == (kind in a.conditions) && (kind in sent.conditions) == (kind in b.conditions);
    if kind in carried.conditions {
      assert a.conditions[kind] == b.conditions[kind];
    }
  }

  lemma OwnStepHandsOver(s: System, step: Step, id: nat, name: string, last: Status)
    requires HandsOver(s, id, name, last) && PassEnabled(s, step) && Expected(step).value.0 == id && Smooth(step, id)
    ensures HandsOver(PassStep(s, step), id, name, last)
  {
    if step.WriteResult? || step.WriteSettled? {
      OwnWriteHandsOver(s, step, id, name, last);
    } else if step.Settle? {
      SettlingHandsOver(s, id, name, last);
    } else {
      OwnMoveHandsOver(s, step, id, name, last);
    }
  }

  lemma SettlingHandsOver(s: System, id: nat, name: string, last: Status)
    requires HandsOver(s, id, name, last) && PassEnabled(s, Settle(id))
    ensures HandsOver(SettleStep(s, id), id, name, last)
  {
    var pass := s.passes[id];
    var verdict := VerdictOf(s.book.cells[pass.ref]);
    OverlaidRecords(last, verdict);
    SettleIs(s, id, WithVerdict(last, verdict), verdict);
    DeliveredKeeps(last, Inventory.DecodeStatus(s.api[name]), pass.sent);
  }

  lemma OwnWriteHandsOver(s: System, step: Step, id: nat, name: string, last: Status)
    requires HandsOver(s, id, name, last) && PassEnabled(s, step) && Expected(step).value.0 == id && Smooth(step, id)
    requires step.WriteResult? || step.WriteSettled?
    ensures HandsOver(PassStep(s, step), id, name, last)
  {
    SendingDelivers(s.api, name, s.passes[id].sent, step.schema, step.reply);
    WellNamed(s, step);
  }

  lemma OwnMoveHandsOver(s: System, step: Step, id: nat, name: string, last: Status)
    requires HandsOver(s, id, name, last) && PassEnabled(s, step) && Expected(step).value.0 == id && Smooth(step, id)
    requires !step.WriteResult? && !step.WriteSettled? && !step.Settle?
    ensures HandsOver(PassStep(s, step), id, name, last)
  {
    OverlaidRecords(last, VerdictOf(s.book.cells[s.passes[id].ref]));
  }

  lemma OverlaidRecords(st: Status, verdict: Option<Verdict>)
    ensures SameRecord(st, WithVerdict(st, verdict))
  {
    if verdict.Some? { VerdictsKeep(st, verdict.value); }
  }

  lemma OtherSendsElsewhere(s: System, step: Step, name: string)
    requires PassEnabled(s, step)
    requires var pass := s.passes[Expected(step).value.0]; pass.cluster.name == s.book.cells[pass.ref].cluster.name != name
    ensures (name in PassStep(s, step).api) == (name in s.api) && (name in s.api ==> PassStep(s, step).api[name] == s.api[name])
  {
  }

  lemma WellNamed(s: System, step: Step)
    requires PassEnabled(s, step) && forall n :: n in s.api ==> s.api[n].name == n
    ensures forall n :: n in PassStep(s, step).api ==> PassStep(s, step).api[n].name == n
  {
  }

  lemma OtherStepHandsOver(s: System, step: Step, id: nat, name: string, last: Status)
    requires Structure(s) && HandsOver(s, id, name, last) && PassEnabled(s, step) && Expected(step).value.0 != id
    ensures HandsOver(PassStep(s, step), id, name, last)
  {
    PassesForDifferentNames(s.book, s.passes, Pending(s.poll));
    HeldByName(s, Expected(step).value.0);
    OtherSendsElsewhere(s, step, name);
    OtherStepLeaves(s, step, id);
    WellNamed(s, step);
    SchedulerWakeups.PassStepKeepsPoll(s, step);
  }

  lemma OtherStepLeaves(s: System, step: Step, id: nat)
    requires id in s.passes && s.passes[id].ref in s.book.cells && PassEnabled(s, step)
    requires Expected(step).value.0 != id && s.passes[Expected(step).value.0].ref != s.passes[id].ref
    ensures var u, ref := PassStep(s, step), s.passes[id].ref;
      id in u.passes && u.passes[id] == s.passes[id] && ref in u.book.cells && u.book.cells[ref] == s.book.cells[ref]
  {
    if step.Release? {
      ReleasingLeaves(s, step.id, id);
    } else {
      PassStepOnly(s, step);
    }
  }

  lemma ReleasingLeaves(s: System, other: nat, id: nat)
    requires id in s.passes && s.passes[id].ref in s.book.cells && other in s.passes && s.passes[other].ref in s.book.cells
    requires other != id && s.passes[other].ref != s.passes[id].ref
    ensures var u, ref := ReleaseStep(s, other), s.passes[id].ref;
      id in u.passes && u.passes[id] == s.passes[id] && ref in u.book.cells && u.book.cells[ref] == s.book.cells[ref]
  {
  }

  lemma StepHandsOver(s: System, step: Step, id: nat, name: string, last: Status)
    requires Structure(s) && HandsOver(s, id, name, last) && Enabled(s, step) && Smooth(step, id)
    ensures Structure(Next(s, step)) && HandsOver(Next(s, step), id, name, last)
  {
    StepKeepsStructure(s, step);
    if Expected(step).Some? {
      if Expected(step).value.0 == id {
        OwnStepHandsOver(s, step, id, name, last);
      } else {
        OtherStepHandsOver(s, step, id, name, last);
      }
    }
  }

  lemma {:induction false} RunsHandOver(s: System, steps: seq<Step>, id: nat, name: string, last: Status)
    requires Structure(s) && HandsOver(s, id, name, last) && Possible(s, steps)
    requires forall k :: 0 <= k < |steps| ==> Smooth(steps[k], id)
    ensures Structure(Run(s, steps)) && HandsOver(Run(s, steps), id, name, last)
  {
    if steps != [] {
      var front := steps[..|steps| - 1];
      RunsHandOver(s, front, id, name, last);
      StepHandsOver(Run(s, front), steps[|steps| - 1], id, name, last);
    }
  }

  /** What one pass returns the next starts from. Say no poll is under way from the moment it comes
      back until it is done, and its write lands; whatever happens to it afterwards, up to the next
      pass of its connection, that starts from a status with everything recorded that this one
      returned. */
  lemma HandedOver(s: System, steps: seq<Step>, id: nat, name: string, last: Status, rest: seq<Step>, next: nat)
    requires Structure(s) && HandsOver(s, id, name, last) && Possible(s, steps)
    requires forall k :: 0 <= k < |steps| ==> Smooth(steps[k], id)
    requires var u := Run(s, steps);
      && id in u.passes && u.passes[id].phase == Settled
      && Possible(u, rest) && NothingNew(u, rest, name)
      && next in Run(u, rest).passes && AtWork(Run(u, rest).passes[next].phase) && Run(u, rest).passes[next].cluster.name == name
    ensures SameRecord(last, Run(Run(s, steps), rest).passes[next].prior)
  {
    var u := Run(s, steps);
    RunsHandOver(s, steps, id, name, last);
    DoneHandingOver(u, id, name, last);
    NextPassStartsFromTheLast(u, name, last, rest, next);
  }

  lemma DoneHandingOver(s: System, id: nat, name: string, last: Status)
    requires Structure(s) && HandsOver(s, id, name, last) && s.passes[id].phase == Settled
    ensures Remembers(s, name, {last})
  {
    DeliveredKeeps(last, Inventory.DecodeStatus(s.api[name]), s.passes[id].sent);
    AtItsEndAllIsOfTheLast(s, id, name);
  }

  /** When such a pass is done, its object carries, and its state keeps, exactly the status it sent
      last, which has all that its result records. */
  lemma DeliveredAtTheEnd(s: System, steps: seq<Step>, id: nat, name: string, last: Status)
    requires Structure(s) && HandsOver(s, id, name, last) && Possible(s, steps)
    requires forall k :: 0 <= k < |steps| ==> Smooth(steps[k], id)
    requires id in Run(s, steps).passes && Run(s, steps).passes[id].phase == Settled
    ensures var u := Run(s, steps);
      && name in u.api && u.passes[id].ref in u.book.cells
      && var sent := u.passes[id].sent;
         && SameRecord(last, sent) && u.book.cells[u.passes[id].ref].status == sent
         && Delivered(Inventory.DecodeStatus(u.api[name]), sent)
  {
    RunsHandOver(s, steps, id, name, last);
  }

  /** It comes back with its result, and nothing written yet. */
  lemma ReturnHandsOver(s: System, step: Step, name: string)
    requires Structure(s) && PassEnabled(s, step) && ReturnsFor(s, step, name)
    requires s.poll == Waiting && (forall n :: n in s.api ==> s.api[n].name == n) && name in s.api
    ensures Structure(Next(s, step)) && HandsOver(Next(s, step), step.id, name, step.result)
  {
    StepKeepsStructure(s, step);
    assert Held(s.book, s.passes[step.id].ref);
  }
}
