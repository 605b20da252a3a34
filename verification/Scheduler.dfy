/** The scheduler's own methods, each of which holds the lock from end to end, and the health
    state beside it. The clusterState values other goroutines hold pointers to are the entries
    of `cells`; every method is held to the state machine's step. */
module Scheduler {
  import opened Text
  import opened Api
  import opened Clocks
  import opened SchedulerModel
  import opened SchedulerStructure
  import Config
  import Inventory

  // ---- Loops over the map of states, as specifications ---------------------------------------------

  /** Clusters whose verdict an entry has just withdrawn, in list order. */
  function Resumed(b: Book, es: seq<Inventory.Entry>, now: int): seq<string> {
    if es == [] then []
    else
      var front, last := es[..|es| - 1], es[|es| - 1];
      var before := UpsertAll(b, front, now);
      var name := last.cluster.name;
      Resumed(b, front, now)
      + if before.Has(name) && before.At(name).invalidReason != "" && last.Valid() then [name] else []
  }

  function WithoutOne(b: Book, n: string): Book
    requires b.Has(n)
  {
    var ref := b.index[n];
    if b.cells[ref].running
    then b.(cells := b.cells[ref := b.cells[ref].(departed := true)], owed := b.owed - {ref})
    else b.(index := b.index - {n}, owed := b.owed - {ref})
  }

  /** One more name looked at. */
  lemma OneLeaves(b: Book, seen: set<string>, n: string)
    requires Indexed(b) && n in b.index && n !in seen
    ensures Departed(b, seen + {n}).Has(n)
    ensures Departed(b, seen) == WithoutOne(Departed(b, seen + {n}), n)
  {
    var d, e := Departed(b, seen + {n}), Departed(b, seen);
    var ref := b.index[n];
    assert forall m :: m in b.index && b.index[m] == ref ==> m == n;
    assert d.cells[ref] == b.cells[ref];
    var w := WithoutOne(d, n);
    assert e.index == w.index;
    assert e.cells == w.cells;
    assert e.owed == w.owed;
  }

  lemma NamesOfFront(es: seq<Inventory.Entry>, i: nat)
    requires i < |es|
    ensures Names(es[..i + 1]) == Names(es[..i]) + {es[i].cluster.name}
  {
    assert es[..i + 1] == es[..i] + [es[i]];
  }

  /** The due states among those of some names. */
  function DueAmong(b: Book, names: set<string>, now: int): set<Ref> {
    set n | n in names && b.Has(n) && Due(b.At(n), now) :: b.index[n]
  }

  lemma ClaimOne(b: Book, names: set<string>, n: string, now: int)
    requires Indexed(b) && n in b.index && n !in names
    ensures var c, ref := Claimed(b, DueAmong(b, names, now)), b.index[n];
      && ref !in DueAmong(b, names, now) && ref in c.cells && c.cells[ref] == b.cells[ref]
      && (!Due(b.cells[ref], now) ==> DueAmong(b, names + {n}, now) == DueAmong(b, names, now))
      && (Due(b.cells[ref], now) ==>
            && DueAmong(b, names + {n}, now) == DueAmong(b, names, now) + {ref}
            && Claimed(b, DueAmong(b, names + {n}, now)) == c.(cells := c.cells[ref := c.cells[ref].(running := true)]))
  {
    var refs, more := DueAmong(b, names, now), DueAmong(b, names + {n}, now);
    var ref := b.index[n];
    assert forall m :: m in b.index && b.index[m] == ref ==> m == n;
    if Due(b.cells[ref], now) {
      assert b.Has(n) && Due(b.At(n), now);
      assert more == refs + {ref};
      assert Claimed(b, more).cells == Claimed(b, refs).cells[ref := b.cells[ref].(running := true)];
    } else {
      assert more == refs;
    }
  }

  /** States, each once, in the order of their names. */
  ghost predicate NameOrdered(cells: map<Ref, Cell>, refs: seq<Ref>) {
    && (forall i :: 0 <= i < |refs| ==> refs[i] in cells)
    && (forall i, j :: 0 <= i < j < |refs| ==>
          refs[i] != refs[j] && Leq(cells[refs[i]].cluster.name, cells[refs[j]].cluster.name))
  }

  lemma NamedBefore(cells: map<Ref, Cell>, refs: seq<Ref>, k: nat, name: string)
    requires NameOrdered(cells, refs) && 0 < k <= |refs| && Leq(cells[refs[k - 1]].cluster.name, name)
    ensures forall i :: 0 <= i < k ==> Leq(cells[refs[i]].cluster.name, name)
  {
    forall i | 0 <= i < k - 1 ensures Leq(cells[refs[i]].cluster.name, name) {
      LeqTransitive(cells[refs[i]].cluster.name, cells[refs[k - 1]].cluster.name, name);
    }
  }

  lemma InsertedIsOrdered(cells: map<Ref, Cell>, refs: seq<Ref>, k: nat, ref: Ref)
    requires NameOrdered(cells, refs) && k <= |refs| && ref in cells && ref !in refs
    requires forall i :: 0 <= i < k ==> Leq(cells[refs[i]].cluster.name, cells[ref].cluster.name)
    requires forall i :: k <= i < |refs| ==> Leq(cells[ref].cluster.name, cells[refs[i]].cluster.name)
    ensures NameOrdered(cells, refs[..k] + [ref] + refs[k..])
    ensures forall q :: q in refs[..k] + [ref] + refs[k..] <==> q in refs || q == ref
  {
    var r := refs[..k] + [ref] + refs[k..];
    assert refs == refs[..k] + refs[k..];
    forall i, j | 0 <= i < j < |r|
      ensures r[i] in cells && r[j] in cells && r[i] != r[j] && Leq(cells[r[i]].cluster.name, cells[r[j]].cluster.name)
    {
      assert r[i] == if i < k then refs[i] else if i == k then ref else refs[i - 1];
      assert r[j] == if j < k then refs[j] else if j == k then ref else refs[j - 1];
    }
  }

  /** One cluster's line of the report. */
  datatype ClusterReport = ClusterReport(name: string, synced: bool)

  ghost predicate Renders(cells: map<Ref, Cell>, refs: seq<Ref>, reports: seq<ClusterReport>) {
    && |reports| == |refs|
    && forall i :: 0 <= i < |refs| ==>
         refs[i] in cells && reports[i] == ClusterReport(cells[refs[i]].cluster.name, Synced(cells[refs[i]]))
  }

  /** A line is about this cluster, and says whether it is synced. */
  ghost predicate SaysOf(b: Book, report: ClusterReport, n: string) {
    b.Has(n) && report.name == n && report.synced == Synced(b.At(n))
  }

  /** One line for every name that leads to a state, in order. */
  ghost predicate ReportsAll(b: Book, reports: seq<ClusterReport>) {
    && (forall i, j :: 0 <= i < j < |reports| ==> reports[i].name != reports[j].name && Leq(reports[i].name, reports[j].name))
    && NamesIn(reports) == b.index.Keys
    && (forall i :: 0 <= i < |reports| ==> SaysOf(b, reports[i], reports[i].name))
  }

  function NamesIn(reports: seq<ClusterReport>): set<string> { set i | 0 <= i < |reports| :: reports[i].name }

  lemma RenderedReportsAll(b: Book, refs: seq<Ref>, reports: seq<ClusterReport>)
    requires Indexed(b) && NameOrdered(b.cells, refs) && Renders(b.cells, refs, reports) && forall r :: r in refs <==> InMap(b, r)
    ensures ReportsAll(b, reports)
  {
    forall i | 0 <= i < |reports| ensures SaysOf(b, reports[i], reports[i].name) && b.index[reports[i].name] == refs[i] {
      assert InMap(b, refs[i]);
    }
    forall n | n in b.index ensures n in NamesIn(reports) {
      assert InMap(b, b.index[n]);
      var i :| 0 <= i < |refs| && refs[i] == b.index[n];
      assert reports[i].name == n;
    }
  }

  lemma AllSyncedExactly(b: Book, reports: seq<ClusterReport>)
    requires Indexed(b) && ReportsAll(b, reports)
    ensures (forall i :: 0 <= i < |reports| ==> reports[i].synced) <==> (forall n :: n in b.index ==> Synced(b.cells[b.index[n]]))
  {
    if forall i :: 0 <= i < |reports| ==> reports[i].synced {
      forall n | n in b.index ensures Synced(b.cells[b.index[n]]) {
        assert n in NamesIn(reports);
      }
    }
  }

  class Scheduler {
    var index: map<string, Ref>
    var cells: map<Ref, Cell>
    var nextRef: Ref
    ghost var owed: set<Ref>

    constructor ()
      ensures View() == Book(map[], map[], 0, {})
    {
      index, cells, nextRef, owed := map[], map[], 0, {};
    }

    ghost function View(): Book
      reads this
    {
      Book(index, cells, nextRef, owed)
    }

    // ---- updateSchedule ---------------------------------------------------------------------------------

    method Upsert(entry: Inventory.Entry, now: int) returns (resumed: bool)
      modifies this
      ensures View() == Upserted(old(View()), entry, now)
      ensures resumed == (var b := old(View()); var n := entry.cluster.name;
                          b.Has(n) && b.At(n).invalidReason != "" && entry.Valid())
    {
      var name := entry.cluster.name;
      var known := name in index && index[name] in cells;
      var ref := nextRef;
      var state := NewCell(entry.cluster, now);
      if known {
        ref, state := index[name], cells[index[name]];
      } else {
        index, nextRef := index[name := ref], nextRef + 1;
      }
      owed := if Wakes(known, state, entry) then owed + {ref} else if entry.Valid() then owed else owed - {ref};
      if entry.Edited() {
        state := state.(dueAt := now);
      }
      resumed := state.invalidReason != "" && entry.Valid();
      if resumed {
        state := state.(dueAt := now, rerunAfterPass := state.running);
      }
      state := state.(cluster := entry.cluster, generation := entry.generation, status := entry.status,
                      invalidReason := entry.invalidReason, invalidCause := entry.invalidCause, departed := false);
      assert known ==> index[name := ref] == index;
      cells := cells[ref := state];
    }

    /** A cluster the list no longer has goes, or is marked if a pass still holds its state. */
    method Drop(name: string)
      requires name in index && index[name] in cells
      modifies this
      ensures View() == WithoutOne(old(View()), name)
    {
      var ref := index[name];
      owed := owed - {ref};
      if cells[ref].running {
        cells := cells[ref := cells[ref].(departed := true)];
        return;
      }
      index := index - {name};
    }

    method DropDeparted(seen: set<string>)
      requires Indexed(View())
      modifies this
      ensures View() == Departed(old(View()), seen)
    {
      ghost var b := View();
      var remaining := index.Keys - seen;
      NobodyLeaves(b, seen + remaining);
      while remaining != {}
        invariant remaining <= b.index.Keys && remaining !! seen
        invariant View() == Departed(b, seen + remaining)
      {
        var name :| name in remaining;
        ghost var rest := seen + (remaining - {name});
        assert seen + remaining == rest + {name};
        OneLeaves(b, rest, name);
        Drop(name);
        remaining := remaining - {name};
      }
      assert seen + remaining == seen;
    }

    method UpdateSchedule(entries: seq<Inventory.Entry>, now: int) returns (resumed: seq<string>)
      requires Indexed(View())
      modifies this
      ensures View() == SchedulerModel.UpdateSchedule(old(View()), entries, now)
      ensures resumed == Resumed(old(View()), entries, now)
    {
      ghost var b := View();
      resumed := [];
      var seen: set<string> := {};
      for i := 0 to |entries|
        invariant View() == UpsertAll(b, entries[..i], now)
        invariant seen == Names(entries[..i]) && resumed == Resumed(b, entries[..i], now)
      {
        assert entries[..i + 1][..i] == entries[..i];
        NamesOfFront(entries, i);
        var withdrawn := Upsert(entries[i], now);
        seen := seen + {entries[i].cluster.name};
        if withdrawn {
          resumed := resumed + [entries[i].cluster.name];
        }
      }
      assert entries[..|entries|] == entries;
      UpsertAllPreserves(b, entries, now);
      DropDeparted(seen);
    }

    // ---- claimDue and blockedClusters ---------------------------------------------------------------------

    /** Puts a reference where its name belongs. */
    method InsertByName(sorted: seq<Ref>, ref: Ref) returns (r: seq<Ref>)
      requires ref in cells && ref !in sorted && NameOrdered(cells, sorted)
      ensures NameOrdered(cells, r) && forall q :: q in r <==> q in sorted || q == ref
    {
      var k := |sorted|;
      while k > 0 && !Leq(cells[sorted[k - 1]].cluster.name, cells[ref].cluster.name)
        invariant 0 <= k <= |sorted|
        invariant forall i :: k <= i < |sorted| ==> Leq(cells[ref].cluster.name, cells[sorted[i]].cluster.name)
      {
        LeqTotal(cells[sorted[k - 1]].cluster.name, cells[ref].cluster.name);
        k := k - 1;
      }
      if k > 0 {
        NamedBefore(cells, sorted, k, cells[ref].cluster.name);
      }
      InsertedIsOrdered(cells, sorted, k, ref);
      r := sorted[..k] + [ref] + sorted[k..];
    }

    method SortByName(refs: seq<Ref>) returns (sorted: seq<Ref>)
      requires forall q :: q in refs ==> q in cells
      requires forall i, j :: 0 <= i < j < |refs| ==> refs[i] != refs[j]
      ensures NameOrdered(cells, sorted) && forall q :: q in sorted <==> q in refs
    {
      sorted := [];
      for i := 0 to |refs|
        invariant NameOrdered(cells, sorted) && forall q :: q in sorted <==> q in refs[..i]
      {
        assert refs[..i + 1] == refs[..i] + [refs[i]];
        sorted := InsertByName(sorted, refs[i]);
      }
      assert refs[..|refs|] == refs;
    }

    /** Selecting and claiming are one step: whoever is listed is marked before anybody looks. */
    method ClaimDue(now: int) returns (due: seq<Ref>)
      requires Indexed(View())
      modifies this`cells
      ensures View() == Claimed(old(View()), DueRefs(old(View()), now))
      ensures Lists(due, old(View()), DueRefs(old(View()), now))
    {
      ghost var b := View();
      var found: seq<Ref> := [];
      var remaining := index.Keys;
      assert Claimed(b, {}) == b;
      while remaining != {}
        invariant remaining <= b.index.Keys
        invariant View() == Claimed(b, DueAmong(b, b.index.Keys - remaining, now))
        invariant forall r :: r in found <==> r in DueAmong(b, b.index.Keys - remaining, now)
        invariant forall i, j :: 0 <= i < j < |found| ==> found[i] != found[j]
      {
        var name :| name in remaining;
        ghost var names := b.index.Keys - remaining;
        assert b.index.Keys - (remaining - {name}) == names + {name};
        ClaimOne(b, names, name, now);
        remaining := remaining - {name};
        var ref := index[name];
        var state := cells[ref];
        if state.running || !state.MayRun() || state.dueAt > now + DUE_SLACK {
          continue;
        }
        cells := cells[ref := state.(running := true)];
        found := found + [ref];
      }
      assert b.index.Keys - remaining == b.index.Keys;
      assert DueAmong(b, b.index.Keys, now) == DueRefs(b, now);
      due := SortByName(found);
      assert NameOrdered(cells, due);
      assert forall r :: r in cells ==> r in b.cells && cells[r].cluster == b.cells[r].cluster;
    }

    // ---- The report ---------------------------------------------------------------------------------------------

    method ReportOn(ref: Ref) returns (report: ClusterReport)
      requires ref in cells
      ensures report == ClusterReport(cells[ref].cluster.name, Synced(cells[ref]))
    {
      var state := cells[ref];
      var reconciledNow := state.passedGeneration != 0 && state.passedGeneration == state.generation;
      report := ClusterReport(state.cluster.name, false);
      if state.invalidReason == "" && Ready in state.status.conditions {
        report := report.(synced := reconciledNow && state.status.conditions[Ready].status == Yes);
      }
    }

    /** One line for every cluster, in the order of their names. */
    method ReportLocked() returns (reports: seq<ClusterReport>)
      requires Indexed(View())
      ensures ReportsAll(View(), reports)
    {
      var refs := AllStates();
      refs := SortByName(refs);
      reports := [];
      for k := 0 to |refs|
        invariant Renders(cells, refs[..k], reports)
      {
        var report := ReportOn(refs[k]);
        reports := reports + [report];
      }
      assert refs[..|refs|] == refs;
      RenderedReportsAll(View(), refs, reports);
    }

    /** Every state a name leads to, once. */
    method AllStates() returns (refs: seq<Ref>)
      requires Indexed(View())
      ensures forall r :: r in refs <==> InMap(View(), r)
      ensures forall i, j :: 0 <= i < j < |refs| ==> refs[i] != refs[j]
    {
      refs := [];
      var remaining := index.Keys;
      while remaining != {}
        invariant remaining <= index.Keys
        invariant forall r :: r in refs <==> InMap(View(), r) && cells[r].cluster.name !in remaining
        invariant forall i, j :: 0 <= i < j < |refs| ==> refs[i] != refs[j]
      {
        var name :| name in remaining;
        refs := refs + [index[name]];
        remaining := remaining - {name};
      }
    }

    /** The pod is ready exactly if every cluster in the map is synced. */
    method ReportHealth(health: HealthState, now: int)
      requires Indexed(View())
      modifies health
      ensures health.ready <==> forall n :: n in index ==> Synced(cells[index[n]])
      ensures health.lastSuccessAt == if health.ready then now else old(health.lastSuccessAt)
      ensures health.passes == old(health.passes) && health.polledAt == old(health.polledAt)
    {
      var reports := ReportLocked();
      health.Record(reports, now);
      AllSyncedExactly(View(), reports);
    }

    // ---- Verdicts ----------------------------------------------------------------------------------------------

    /** rejectedStatus: what an object says while this tool declines to reconcile it. */
    method RejectedStatus(status: Status, state: Cell) returns (r: Status)
      requires state.invalidReason != ""
      ensures r == WithVerdict(status, VerdictOf(state))
    {
      r := status.(observedGeneration := state.generation);
      var reason := if state.invalidCause == NoReason then InvalidSpec else state.invalidCause;
      r := r.(lastAction := NotReconciled(state.invalidReason));
      r := r.SetCondition(Ready, Condition(No, reason, state.invalidReason, state.generation));
      if NamesAnotherConnection(reason) {
        r := r.SetCondition(Conflict, Condition(Yes, reason, state.invalidReason, state.generation));
      } else {
        r := r.RemoveCondition(Conflict);
      }
    }

    /** What a blocked object should say, and whether that is news. */
    method VerdictFor(ref: Ref) returns (desired: Status, needed: bool)
      requires ref in cells
      modifies this`cells
      ensures var cell := old(cells[ref]);
        && desired == WithVerdict(cell.status, VerdictOf(cell)) && needed == (desired != cell.status)
        && cells == (if needed then old(cells)[ref := cell.(status := desired)] else old(cells))
    {
      var state := cells[ref];
      if state.invalidReason == "" {
        return state.status, false;
      }
      desired := RejectedStatus(state.status, state);
      if desired == state.status {
        return desired, false;
      }
      cells := cells[ref := state.(status := desired)];
      return desired, true;
    }

    // ---- A pass ------------------------------------------------------------------------------------------------

    /** The recheck once there is a slot, and the snapshot. */
    method BeginPass(ref: Ref) returns (taken: bool, cluster: Config.Cluster, generation: int, prior: Status)
      requires ref in cells
      modifies this`cells, this`owed
      ensures taken == old(cells[ref].MayRun())
      ensures View() == if taken then TakenFrom(old(View()), ref) else old(View())
      ensures taken ==>
        forall pass: Pass :: TakenUp(pass, old(cells[ref]))
          == pass.(phase := Snapshotted, cluster := cluster, generation := generation, prior := prior)
    {
      var state := cells[ref];
      cluster, generation, prior := state.cluster, state.generation, state.status;
      if state.invalidReason != "" {
        return false, cluster, generation, prior;
      }
      if state.departed {
        return false, cluster, generation, prior;
      }
      cells := cells[ref := state.(rerunAfterPass := false)];
      owed := owed - {ref};
      prior := prior.RemoveCondition(Conflict);
      return true, cluster, generation, prior;
    }

    /** A verdict formed while the pass ran goes over its result. */
    method OverlayVerdict(ref: Ref, result: Status) returns (status: Status)
      requires ref in cells
      ensures status == WithVerdict(result, VerdictOf(cells[ref]))
    {
      status := result;
      if cells[ref].invalidReason != "" {
        status := RejectedStatus(status, cells[ref]);
      }
    }

    method Bookkeep(pass: Pass, now: int)
      requires pass.ref in cells
      modifies this`cells
      ensures cells == old(cells)[pass.ref := BookedCell(old(cells[pass.ref]), pass, now)]
    {
      var state := cells[pass.ref];
      var rerun := state.rerunAfterPass;
      state := state.(status := pass.sent, rerunAfterPass := false);
      if pass.failed {
        state := state.(dueAt := now + state.backoff);
        if rerun {
          state := state.(dueAt := now);
        }
        state := state.(backoff := Min(state.backoff * 2, MAX_RETRY_INTERVAL));
        cells := cells[pass.ref := state];
        return;
      }
      state := state.(backoff := RETRY_INTERVAL, dueAt := DueAfterPass(pass.startedAt, pass.sent));
      if rerun {
        state := state.(dueAt := now);
      }
      state := state.(passedGeneration := pass.generation);
      cells := cells[pass.ref := state];
    }

    /** The verdict read again once the write is done; `settled` when nothing is left to say. */
    method ReadVerdictAgain(ref: Ref, reconciled: Status, written: Status) returns (desired: Status, settled: bool)
      requires ref in cells
      modifies this`cells
      ensures var cell := old(cells[ref]);
        && desired == WithVerdict(reconciled, VerdictOf(cell)) && settled == (desired == written)
        && cells == (if settled then old(cells) else old(cells)[ref := cell.(status := desired)])
    {
      var state := cells[ref];
      desired := reconciled;
      if state.invalidReason != "" {
        desired := RejectedStatus(reconciled, state);
      }
      settled := desired == written;
      if !settled {
        cells := cells[ref := state.(status := desired)];
      }
    }

    method ReleaseCluster(ref: Ref)
      requires ref in cells
      modifies this`cells
      ensures View() == Released(old(View()), ref)
    {
      cells := cells[ref := cells[ref].(running := false)];
    }
  }

  // ---- healthState ------------------------------------------------------------------------------------------------

  class HealthState {
    var passes: map<string, int>
    var polledAt: int
    var clusters: seq<ClusterReport>
    var ready: bool
    var lastSuccessAt: int

    method PassStarted(cluster: string, startedAt: int)
      modifies this`passes
      ensures passes == old(passes)[cluster := startedAt]
    {
      passes := passes[cluster := startedAt];
    }

    method PassFinished(cluster: string)
      modifies this`passes
      ensures passes == old(passes) - {cluster}
    {
      passes := passes - {cluster};
    }

    method RecordPoll(now: int)
      modifies this`polledAt
      ensures polledAt == now
    {
      polledAt := now;
    }

    /** Ready means every cluster in the inventory is. */
    method Record(reports: seq<ClusterReport>, now: int)
      modifies this`clusters, this`ready, this`lastSuccessAt
      ensures clusters == reports
      ensures ready <==> forall i :: 0 <= i < |reports| ==> reports[i].synced
      ensures lastSuccessAt == if ready then now else old(lastSuccessAt)
    {
      clusters := reports;
      var all := true;
      for i := 0 to |reports|
        invariant all && forall j :: 0 <= j < i ==> reports[j].synced
      {
        if !reports[i].synced {
          all := false;
          break;
        }
      }
      ready := all;
      if all {
        lastSuccessAt := now;
      }
    }

    method IsLive(now: int) returns (live: bool)
      ensures live == (now - polledAt <= MAX_PROGRESS_AGE
                       && forall n :: n in passes ==> now - passes[n] <= CLUSTER_TIMEOUT + PASS_GRACE)
    {
      if now - polledAt > MAX_PROGRESS_AGE {
        return false;
      }
      var remaining := passes.Keys;
      while remaining != {}
        invariant remaining <= passes.Keys
        invariant forall n :: n in passes && n !in remaining ==> now - passes[n] <= CLUSTER_TIMEOUT + PASS_GRACE
      {
        var n :| n in remaining;
        if now - passes[n] > CLUSTER_TIMEOUT + PASS_GRACE {
          return false;
        }
        remaining := remaining - {n};
      }
      return true;
    }
  }
}
