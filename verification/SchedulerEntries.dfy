/** What one poll makes of the state of every single cluster. */
module SchedulerEntries {
  import opened Text
  import opened Api
  import opened Clocks
  import opened SchedulerModel
  import opened SchedulerStructure
  import Config
  import Inventory

  ghost predicate DistinctNames(es: seq<Inventory.Entry>) {
    forall i, j :: 0 <= i < j < |es| ==> es[i].cluster.name != es[j].cluster.name
  }

  ghost predicate OwedAreKnown(b: Book) { forall r :: r in b.owed ==> r in b.cells }

  function Before(b: Book, e: Inventory.Entry, now: int): Cell {
    if b.Has(e.cluster.name) then b.At(e.cluster.name) else NewCell(e.cluster, now)
  }

  /** Afterwards the cluster's state is what it was before as this one entry refreshes it, and
      a pass is owed exactly if the entry calls for one or one was owed and it is still valid. */
  ghost predicate Reflects(b: Book, c: Book, e: Inventory.Entry, now: int) {
    var n := e.cluster.name;
    && c.Has(n) && (b.Has(n) ==> c.index[n] == b.index[n]) && (!b.Has(n) ==> c.index[n] !in b.cells)
    && c.At(n) == Refreshed(Before(b, e, now), e, now)
    && ((c.index[n] in c.owed)
        == (Wakes(b.Has(n), Before(b, e, now), e) || (e.Valid() && b.Has(n) && b.index[n] in b.owed)))
  }

  ghost predicate Untouched(b: Book, c: Book, n: string) {
    && b.Has(n) == c.Has(n)
    && (b.Has(n) ==> c.index[n] == b.index[n] && c.At(n) == b.At(n) && ((c.index[n] in c.owed) == (b.index[n] in b.owed)))
  }

  lemma UpsertOne(b: Book, e: Inventory.Entry, now: int)
    requires Indexed(b) && OwedAreKnown(b)
    ensures Reflects(b, Upserted(b, e, now), e, now) && OwedAreKnown(Upserted(b, e, now))
  {
  }

  lemma UpsertOther(b: Book, e: Inventory.Entry, now: int, n: string)
    requires Indexed(b) && OwedAreKnown(b) && n != e.cluster.name
    ensures Untouched(b, Upserted(b, e, now), n)
  {
  }

  lemma ReflectsThenUntouched(a: Book, b: Book, c: Book, e: Inventory.Entry, now: int)
    requires Reflects(a, b, e, now) && Untouched(b, c, e.cluster.name)
    ensures Reflects(a, c, e, now)
  {
  }

  lemma UntouchedThenReflects(a: Book, b: Book, c: Book, e: Inventory.Entry, now: int)
    requires Untouched(a, b, e.cluster.name) && Reflects(b, c, e, now)
    requires forall r :: r in a.cells ==> r in b.cells
    ensures Reflects(a, c, e, now)
  {
  }

  lemma {:induction false} UpsertAllUnlisted(b: Book, es: seq<Inventory.Entry>, now: int, n: string)
    requires Indexed(b) && OwedAreKnown(b) && forall i :: 0 <= i < |es| ==> es[i].cluster.name != n
    ensures Untouched(b, UpsertAll(b, es, now), n) && OwedAreKnown(UpsertAll(b, es, now))
  {
    if es != [] {
      var front := es[..|es| - 1];
      UpsertAllUnlisted(b, front, now, n);
      UpsertAllPreserves(b, front, now);
      UpsertOne(UpsertAll(b, front, now), es[|es| - 1], now);
      UpsertOther(UpsertAll(b, front, now), es[|es| - 1], now, n);
    }
  }

  lemma {:induction false} UpsertAllOwed(b: Book, es: seq<Inventory.Entry>, now: int)
    requires Indexed(b) && OwedAreKnown(b)
    ensures OwedAreKnown(UpsertAll(b, es, now))
  {
    if es != [] {
      var front := es[..|es| - 1];
      UpsertAllOwed(b, front, now);
      UpsertAllPreserves(b, front, now);
      UpsertOne(UpsertAll(b, front, now), es[|es| - 1], now);
    }
  }

  lemma {:induction false} UpsertAllListed(b: Book, es: seq<Inventory.Entry>, now: int, k: nat)
    requires Indexed(b) && OwedAreKnown(b) && DistinctNames(es) && k < |es|
    ensures Reflects(b, UpsertAll(b, es, now), es[k], now)
  {
    var front, last := es[..|es| - 1], es[|es| - 1];
    var mid := UpsertAll(b, front, now);
    UpsertAllPreserves(b, front, now);
    UpsertAllOwed(b, front, now);
    if k == |es| - 1 {
      UpsertAllUnlisted(b, front, now, last.cluster.name);
      UpsertOne(mid, last, now);
      UntouchedThenReflects(b, mid, UpsertAll(b, es, now), last, now);
    } else {
      UpsertAllListed(b, front, now, k);
      UpsertOther(mid, last, now, es[k].cluster.name);
      ReflectsThenUntouched(b, mid, UpsertAll(b, es, now), es[k], now);
    }
  }

  /** What the entry makes of the state, field by field: all it says of the object, and nothing of
      what a pass in flight or the bookkeeping keeps there. It is due now exactly if it was edited or
      its verdict is withdrawn, and has a pass under way run again exactly in the second case. */
  lemma RefreshedExactly(cell: Cell, e: Inventory.Entry, now: int)
    ensures var r := Refreshed(cell, e, now);
      var withdrawn := cell.invalidReason != "" && e.invalidReason == "";
      && r.cluster == e.cluster && r.generation == e.generation && r.status == e.status && !r.departed
      && r.invalidReason == e.invalidReason && r.invalidCause == e.invalidCause
      && r.running == cell.running && r.backoff == cell.backoff && r.passedGeneration == cell.passedGeneration
      && r.dueAt == (if e.generation != e.observedGeneration || withdrawn then now else cell.dueAt)
      && r.rerunAfterPass == (if withdrawn then cell.running else cell.rerunAfterPass)
  {
  }

  // ---- ... and of those that are not listed

  /** A cluster that is no longer listed is forgotten, unless a pass still holds its state:
      then it is kept, marked, and owed nothing. */
  ghost predicate Leaves(b: Book, c: Book, n: string) {
    if !b.Has(n) then n !in c.index
    else if b.At(n).running then
      c.Has(n) && c.index[n] == b.index[n] && c.At(n) == b.At(n).(departed := true) && c.index[n] !in c.owed
    else n !in c.index && b.index[n] !in c.owed
  }

  lemma DepartedOne(b: Book, seen: set<string>, n: string)
    requires Indexed(b)
    ensures n in seen ==> Untouched(b, Departed(b, seen), n)
    ensures n !in seen ==> Leaves(b, Departed(b, seen), n)
  {
  }

  lemma NamesHolds(es: seq<Inventory.Entry>, k: nat)
    requires k < |es|
    ensures es[k].cluster.name in Names(es)
  {
  }

  /** updateSchedule, cluster by cluster. */
  lemma ScheduleListed(b: Book, es: seq<Inventory.Entry>, now: int, k: nat)
    requires Indexed(b) && OwedAreKnown(b) && DistinctNames(es) && k < |es|
    ensures Reflects(b, UpdateSchedule(b, es, now), es[k], now)
  {
    UpsertAllListed(b, es, now, k);
    UpsertAllPreserves(b, es, now);
    NamesHolds(es, k);
    DepartedOne(UpsertAll(b, es, now), Names(es), es[k].cluster.name);
    ReflectsThenUntouched(b, UpsertAll(b, es, now), UpdateSchedule(b, es, now), es[k], now);
  }

  lemma ScheduleUnlisted(b: Book, es: seq<Inventory.Entry>, now: int, n: string)
    requires Indexed(b) && OwedAreKnown(b) && forall i :: 0 <= i < |es| ==> es[i].cluster.name != n
    ensures Leaves(b, UpdateSchedule(b, es, now), n)
  {
    UpsertAllUnlisted(b, es, now, n);
    UpsertAllPreserves(b, es, now);
    assert n !in Names(es);
    DepartedOne(UpsertAll(b, es, now), Names(es), n);
  }

  // ---- Entries come from objects with distinct names -------------------------------------------------

  ghost predicate DistinctObjects(objects: seq<Inventory.Connection>) {
    forall i, j :: 0 <= i < j < |objects| ==> objects[i].name != objects[j].name
  }

  lemma ListedKeeps(objects: seq<Inventory.Connection>, k: nat)
    requires k < |objects|
    ensures |Inventory.Listed(objects)| == |objects|
    ensures var e, d := Inventory.Listed(objects)[k], Inventory.Decode(objects[k]);
      e == d.(invalidReason := e.invalidReason, invalidCause := e.invalidCause)
    ensures Inventory.Listed(objects)[k].cluster.name == objects[k].name
  {
    Inventory.ContestedExactly(objects, k);
    DecodedName(objects[k]);
  }

  lemma DecodedName(obj: Inventory.Connection)
    ensures Inventory.Decode(obj).cluster.name == obj.name
  {
  }

  lemma ListedDistinct(objects: seq<Inventory.Connection>)
    requires DistinctObjects(objects)
    ensures DistinctNames(Inventory.Listed(objects)) && |Inventory.Listed(objects)| == |objects|
  {
    var es := Inventory.Listed(objects);
    assert |es| == |objects|;
    forall i, j | 0 <= i < j < |es| ensures es[i].cluster.name != es[j].cluster.name {
      ListedKeeps(objects, i);
      ListedKeeps(objects, j);
    }
  }
}
