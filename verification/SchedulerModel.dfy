/** The scheduler as a state machine. The poll goroutine, the pass goroutines and the people
    editing ClusterConnections interleave freely; a step is what one of them does under the
    lock, or between taking it, or one answer of the API server. clusterState values are
    shared by reference, so they live in `cells` and are named by Ref. */
module SchedulerModel {
  import opened Text
  import opened Api
  import opened Clocks
  import Config
  import Inventory

  const MAX_PASSES := 4

  type Ref = nat

  datatype Cell = Cell(
    cluster: Config.Cluster,
    generation: int,
    status: Status,
    dueAt: int,
    backoff: int,
    running: bool,
    departed: bool,
    passedGeneration: int,
    invalidReason: string,
    invalidCause: Reason,
    rerunAfterPass: bool)
  {
    predicate MayRun() { invalidReason == "" && !departed }
  }

  /** What readiness is judged on: a valid cluster whose present generation this process has
      reconciled, and whose object says it is ready. */
  predicate Synced(cell: Cell) {
    && cell.invalidReason == "" && Ready in cell.status.conditions && cell.status.conditions[Ready].status == Yes
    && cell.passedGeneration != 0 && cell.passedGeneration == cell.generation
  }

  /** A verdict as it is laid over a status. */
  datatype Verdict = Verdict(message: string, cause: Reason, generation: int)

  // ---- Passes -----------------------------------------------------------------------------------

  /** Where a pass goroutine is. */
  datatype Phase =
    | Queued | Slotted | Snapshotted | Started | Returned | Overlaid | Wrote | Booked | Settling | Settled
    | Leaving | Unslotted
  {
    predicate HoldsSlot() { this != Queued && this != Unslotted }

    /** Between passStarted and passFinished. */
    predicate Counted() {
      this == Started || this == Returned || this == Overlaid || this == Wrote || this == Booked
      || this == Settling || this == Settled
    }

    /** Between the snapshot and the bookkeeping. */
    predicate Committed() {
      this == Snapshotted || this == Started || this == Returned || this == Overlaid || this == Wrote
    }
  }

  /** `sent` is the last status this pass handed to the API server, or is about to; `verdict`
      is what it read when it settled. */
  datatype Pass = Pass(
    ref: Ref,
    phase: Phase,
    cluster: Config.Cluster,
    generation: int,
    prior: Status,
    startedAt: int,
    result: Status,
    failed: bool,
    sent: Status,
    verdict: Option<Verdict>)

  datatype Poll =
    | Waiting
    | Restamping(pending: seq<(string, Status)>)
    | Read(objects: seq<Inventory.Connection>)
    | Scheduled
    | Dispatching(due: seq<Ref>)
    | Reporting(todo: seq<Ref>)
    | Writing(rest: seq<Ref>, name: string, desired: Status)

  /** A spec at the generation it had when a pass took it up or a poll rejected it. */
  datatype Handled = Handled(name: string, generation: int, cluster: Config.Cluster)

  /** `owed`, `latest` and `handled` are history the program does not keep: clusters with a wake-up
      outstanding, the list the last updateSchedule read, and every spec that was taken up or
      rejected. */
  datatype System = System(
    now: int,
    api: map<string, Inventory.Connection>,
    book: Book,
    poll: Poll,
    passes: map<nat, Pass>,
    nextPass: nat,
    slots: nat,
    health: map<string, int>,
    polledAt: int,
    latest: seq<Inventory.Connection>,
    handled: set<Handled>)

  // ---- Verdicts ----------------------------------------------------------------------------------

  function VerdictOf(cell: Cell): Option<Verdict> {
    if cell.invalidReason == "" then None
    else Some(Verdict(cell.invalidReason, if cell.invalidCause == NoReason then InvalidSpec else cell.invalidCause,
                      cell.generation))
  }

  predicate NamesAnotherConnection(cause: Reason) { cause == SecretNameConflict || cause == EndpointConflict }

  /** A verdict laid over a status. */
  function Rejected(st: Status, v: Verdict): Status {
    var marked := st.(observedGeneration := v.generation, lastAction := NotReconciled(v.message))
      .SetCondition(Ready, Condition(No, v.cause, v.message, v.generation));
    if NamesAnotherConnection(v.cause) then marked.SetCondition(Conflict, Condition(Yes, v.cause, v.message, v.generation))
    else marked.RemoveCondition(Conflict)
  }

  function WithVerdict(st: Status, v: Option<Verdict>): Status {
    if v.Some? then Rejected(st, v.value) else st
  }

  /** The schema's own condition, which every status write carries besides. */
  function Stamped(st: Status, schema: Option<Condition>): Status {
    if schema.Some? then st.SetCondition(SchemaCurrent, schema.value) else st
  }

  // ---- updateSchedule ------------------------------------------------------------------------------

  datatype Book = Book(index: map<string, Ref>, cells: map<Ref, Cell>, nextRef: Ref, owed: set<Ref>)
  {
    predicate Has(name: string) { name in index && index[name] in cells }

    function At(name: string): Cell
      requires Has(name)
    {
      cells[index[name]]
    }
  }

  function NewCell(cluster: Config.Cluster, now: int): Cell {
    Cell(cluster, 0, EmptyStatus, now, RETRY_INTERVAL, false, false, 0, "", NoReason, false)
  }

  /** What an entry makes of a clusterState. */
  function Refreshed(cell: Cell, e: Inventory.Entry, now: int): Cell {
    var edited := if e.Edited() then cell.(dueAt := now) else cell;
    var resumed := if cell.invalidReason != "" && e.Valid()
                   then edited.(dueAt := now, rerunAfterPass := edited.running) else edited;
    resumed.(cluster := e.cluster, generation := e.generation, status := e.status,
             invalidReason := e.invalidReason, invalidCause := e.invalidCause, departed := false)
  }

  /** A cluster is owed a pass when it is new, when its verdict is withdrawn, or when it was
      edited and no pass is under way. */
  predicate Wakes(known: bool, cell: Cell, e: Inventory.Entry) {
    e.Valid() && (!known || cell.invalidReason != "" || (e.Edited() && !cell.running))
  }

  function Upserted(b: Book, e: Inventory.Entry, now: int): Book {
    var name := e.cluster.name;
    var known := b.Has(name);
    var ref := if known then b.index[name] else b.nextRef;
    var cell := if known then b.cells[ref] else NewCell(e.cluster, now);
    Book(b.index[name := ref], b.cells[ref := Refreshed(cell, e, now)],
         if known then b.nextRef else b.nextRef + 1,
         if Wakes(known, cell, e) then b.owed + {ref} else if e.Valid() then b.owed else b.owed - {ref})
  }

  function UpsertAll(b: Book, es: seq<Inventory.Entry>, now: int): Book {
    if es == [] then b else Upserted(UpsertAll(b, es[..|es| - 1], now), es[|es| - 1], now)
  }

  function Names(es: seq<Inventory.Entry>): set<string> {
    set e | e in es :: e.cluster.name
  }

  /** Clusters no longer listed go, unless a pass still holds their state. */
  function Departed(b: Book, seen: set<string>): Book {
    var gone := set name | name in b.index && name !in seen && b.Has(name) && !b.At(name).running;
    var leaving := set name | name in b.index && name !in seen && b.Has(name) && b.At(name).running :: b.index[name];
    var dropped := set name | name in gone :: b.index[name];
    Book(b.index - gone,
         map ref | ref in b.cells :: if ref in leaving then b.cells[ref].(departed := true) else b.cells[ref],
         b.nextRef, b.owed - leaving - dropped)
  }

  function UpdateSchedule(b: Book, es: seq<Inventory.Entry>, now: int): Book {
    Departed(UpsertAll(b, es, now), Names(es))
  }

  // ---- claimDue ----------------------------------------------------------------------------------------

  predicate Due(cell: Cell, now: int) {
    !cell.running && cell.MayRun() && cell.dueAt <= now + DUE_SLACK
  }

  function DueRefs(b: Book, now: int): set<Ref> {
    set name | name in b.index && b.Has(name) && Due(b.At(name), now) :: b.index[name]
  }

  function Claimed(b: Book, due: set<Ref>): Book {
    b.(cells := map ref | ref in b.cells :: if ref in due then b.cells[ref].(running := true) else b.cells[ref])
  }

  function BlockedRefs(b: Book): set<Ref> {
    set name | name in b.index && b.Has(name) && b.At(name).invalidReason != "" :: b.index[name]
  }

  /** A list of refs in name order, which is the order logs and dispatch go by. */
  ghost predicate Lists(refs: seq<Ref>, b: Book, wanted: set<Ref>) {
    && (forall r :: r in refs <==> r in wanted)
    && (forall i :: 0 <= i < |refs| ==> refs[i] in b.cells)
    && (forall i, j :: 0 <= i < j < |refs| ==>
          refs[i] != refs[j] && Leq(b.cells[refs[i]].cluster.name, b.cells[refs[j]].cluster.name))
  }

  // ---- The API server -----------------------------------------------------------------------------------

  datatype Reply = Done | Refused | Lost

  /** A status write replaces the status of the object under that name, if there is one. */
  function Send(api: map<string, Inventory.Connection>, name: string, st: Status, schema: Option<Condition>, reply: Reply)
    : map<string, Inventory.Connection>
  {
    if reply == Refused || name !in api then api
    else api[name := api[name].(status := Some(Stamped(st, schema)))]
  }

  // ---- Steps -----------------------------------------------------------------------------------------------

  datatype Step =
    | Tick(to: int)
    | Create(name: string, spec: Option<Config.Spec>, annotation: string)
    | Edit(name: string, spec: Option<Config.Spec>)
    | Annotate(name: string, annotation: string)
    | Delete(name: string)
    | Restamp(pending: seq<(string, Status)>)
    | WriteRestamp(schema: Option<Condition>, reply: Reply)
    | ListInventory(objects: seq<Inventory.Connection>)
    | ListFails
    | Schedule
    | Claim(due: seq<Ref>)
    | Spawn
    | ListBlocked(blocked: seq<Ref>)
    | ReadVerdict
    | WriteVerdict(schema: Option<Condition>, reply: Reply)
    | EndPoll
    | TakeSlot(id: nat)
    | Cancel(id: nat)
    | Recheck(id: nat)
    | Start(id: nat)
    | Return(id: nat, result: Status, failed: bool)
    | Overlay(id: nat)
    | WriteResult(id: nat, schema: Option<Condition>, reply: Reply)
    | Bookkeep(id: nat)
    | Settle(id: nat)
    | WriteSettled(id: nat, schema: Option<Condition>, reply: Reply)
    | Finish(id: nat)
    | FreeSlot(id: nat)
    | Release(id: nat)

  function Expected(step: Step): Option<(nat, Phase)> {
    match step
    case TakeSlot(id) => Some((id, Queued))
    case Cancel(id) => Some((id, Queued))
    case Recheck(id) => Some((id, Slotted))
    case Start(id) => Some((id, Snapshotted))
    case Return(id, _, _) => Some((id, Started))
    case Overlay(id) => Some((id, Returned))
    case WriteResult(id, _, _) => Some((id, Overlaid))
    case Bookkeep(id) => Some((id, Wrote))
    case Settle(id) => Some((id, Booked))
    case WriteSettled(id, _, _) => Some((id, Settling))
    case Finish(id) => Some((id, Settled))
    case FreeSlot(id) => Some((id, Leaving))
    case Release(id) => Some((id, Unslotted))
    case _ => None
  }

  /** The objects as the API server may list them: each once, in any order. */
  ghost predicate ListOf(objects: seq<Inventory.Connection>, api: map<string, Inventory.Connection>) {
    && (forall i :: 0 <= i < |objects| ==> objects[i].name in api && objects[i] == api[objects[i].name])
    && (forall name :: name in api ==> exists i :: 0 <= i < |objects| && objects[i].name == name)
    && (forall i, j :: 0 <= i < j < |objects| ==> objects[i].name != objects[j].name)
  }

  /** A tick lists the inventory, once any restamping is through. */
  predicate Listing(poll: Poll) { poll == Waiting || poll == Restamping([]) }

  /** The status of every cluster without a pass, as restampSchemaCondition copies them. */
  ghost predicate Restamps(pending: seq<(string, Status)>, b: Book) {
    && (forall p :: p in pending ==> b.Has(p.0) && !b.At(p.0).running && p.1 == b.At(p.0).status)
    && (forall name :: name in b.index && b.Has(name) && !b.At(name).running ==> (name, b.At(name).status) in pending)
  }

  ghost predicate PassEnabled(s: System, step: Step) {
    match Expected(step)
    case None => false
    case Some((id, phase)) =>
      && id in s.passes && s.passes[id].phase == phase && s.passes[id].ref in s.book.cells
      && (step.TakeSlot? ==> s.slots < MAX_PASSES)
      && (step.Return? ==> step.result.observedGeneration == s.passes[id].generation)
  }

  ghost predicate Enabled(s: System, step: Step) {
    match step
    case Tick(to) => to >= s.now
    case Create(name, _, _) => name !in s.api && name != ""
    case Edit(name, _) => name in s.api
    case Annotate(name, _) => name in s.api
    case Delete(name) => name in s.api
    case Restamp(pending) => s.poll == Waiting && Restamps(pending, s.book)
    case WriteRestamp(_, _) => s.poll.Restamping? && s.poll.pending != []
    case ListInventory(objects) => Listing(s.poll) && ListOf(objects, s.api)
    case ListFails => Listing(s.poll)
    case Schedule => s.poll.Read?
    case Claim(due) => s.poll == Scheduled && Lists(due, s.book, DueRefs(s.book, s.now))
    case Spawn => s.poll.Dispatching? && s.poll.due != []
    case ListBlocked(blocked) => s.poll == Dispatching([]) && Lists(blocked, s.book, BlockedRefs(s.book))
    case ReadVerdict => s.poll.Reporting? && s.poll.todo != [] && s.poll.todo[0] in s.book.cells
    case WriteVerdict(_, _) => s.poll.Writing?
    case EndPoll => s.poll == Reporting([])
    case _ => PassEnabled(s, step)
  }

  // ---- What the people do ------------------------------------------------------------------------------------

  function UserStep(s: System, step: Step): System
    requires step.Create? || (step.Edit? && step.name in s.api) || (step.Annotate? && step.name in s.api) || step.Delete?
  {
    match step
    case Create(name, spec, annotation) =>
      s.(api := s.api[name := Inventory.Connection(name, 1, spec, Some(EmptyStatus), annotation)])
    case Edit(name, spec) =>
      s.(api := s.api[name := s.api[name].(spec := spec, generation := s.api[name].generation + 1)])
    case Annotate(name, annotation) =>
      s.(api := s.api[name := s.api[name].(adoptedAnnotation := annotation)])
    case Delete(name) => s.(api := s.api - {name})
  }

  // ---- What the poll does --------------------------------------------------------------------------------------

  function RejectedSpecs(es: seq<Inventory.Entry>): set<Handled> {
    set e | e in es && !e.Valid() :: Handled(e.cluster.name, e.generation, e.cluster)
  }

  function ScheduleStep(s: System): System
    requires s.poll.Read?
  {
    var es := Inventory.Listed(s.poll.objects);
    s.(book := UpdateSchedule(s.book, es, s.now), poll := Scheduled, latest := s.poll.objects,
       handled := s.handled + RejectedSpecs(es))
  }

  function SpawnStep(s: System): System
    requires s.poll.Dispatching? && s.poll.due != []
  {
    var ref := s.poll.due[0];
    var cluster := if ref in s.book.cells then s.book.cells[ref].cluster else Config.Unresolved("");
    var pass := Pass(ref, Queued, cluster, 0, EmptyStatus, 0, EmptyStatus, false, EmptyStatus, None);
    s.(passes := s.passes[s.nextPass := pass], nextPass := s.nextPass + 1, poll := Dispatching(s.poll.due[1..]))
  }

  function ReadVerdictStep(s: System): System
    requires s.poll.Reporting? && s.poll.todo != [] && s.poll.todo[0] in s.book.cells
  {
    var ref, rest := s.poll.todo[0], s.poll.todo[1..];
    var cell := s.book.cells[ref];
    var desired := WithVerdict(cell.status, VerdictOf(cell));
    if desired == cell.status then s.(poll := Reporting(rest))
    else s.(poll := Writing(rest, cell.cluster.name, desired),
            book := s.book.(cells := s.book.cells[ref := cell.(status := desired)]))
  }

  // ---- What a pass does ------------------------------------------------------------------------------------------

  function Moved(s: System, id: nat, pass: Pass): System { s.(passes := s.passes[id := pass]) }

  function WithCell(s: System, ref: Ref, cell: Cell): System {
    s.(book := s.book.(cells := s.book.cells[ref := cell]))
  }

  /** A pass that takes a cluster up discharges whatever wake-up was outstanding. */
  function TakenFrom(b: Book, ref: Ref): Book
    requires ref in b.cells
  {
    b.(cells := b.cells[ref := b.cells[ref].(rerunAfterPass := false)], owed := b.owed - {ref})
  }

  function TakenUp(pass: Pass, cell: Cell): Pass {
    pass.(phase := Snapshotted, cluster := cell.cluster, generation := cell.generation,
          prior := cell.status.RemoveCondition(Conflict))
  }

  /** The claim is looked at again once there is a slot; a pass that may still run takes its
      snapshot, with the Conflict condition left behind. */
  function RecheckStep(s: System, id: nat): System
    requires id in s.passes && s.passes[id].ref in s.book.cells
  {
    var pass := s.passes[id];
    var cell := s.book.cells[pass.ref];
    if !cell.MayRun() then Moved(s, id, pass.(phase := Leaving))
    else s.(book := TakenFrom(s.book, pass.ref), passes := s.passes[id := TakenUp(pass, cell)],
            handled := s.handled + {Handled(cell.cluster.name, cell.generation, cell.cluster)})
  }

  /** The bookkeeping after the status write. */
  function BookedCell(cell: Cell, pass: Pass, now: int): Cell {
    var written := cell.(status := pass.sent, rerunAfterPass := false);
    if pass.failed then
      written.(dueAt := if cell.rerunAfterPass then now else now + cell.backoff,
               backoff := Min(cell.backoff * 2, MAX_RETRY_INTERVAL))
    else
      written.(dueAt := if cell.rerunAfterPass then now else DueAfterPass(pass.startedAt, pass.sent),
               backoff := RETRY_INTERVAL, passedGeneration := pass.generation)
  }

  /** The verdict is read again after the write; if what was written no longer agrees with it,
      the pass's own result with the verdict over it goes out once more. */
  function SettleStep(s: System, id: nat): System
    requires id in s.passes && s.passes[id].ref in s.book.cells
  {
    var pass := s.passes[id];
    var cell := s.book.cells[pass.ref];
    var desired := WithVerdict(pass.result, VerdictOf(cell));
    if desired == pass.sent then Moved(s, id, pass.(phase := Settled, verdict := VerdictOf(cell)))
    else Moved(WithCell(s, pass.ref, cell.(status := desired)), id,
               pass.(phase := Settling, sent := desired, verdict := VerdictOf(cell)))
  }

  function Released(b: Book, ref: Ref): Book
    requires ref in b.cells
  {
    b.(cells := b.cells[ref := b.cells[ref].(running := false)])
  }

  function ReleaseStep(s: System, id: nat): System
    requires id in s.passes && s.passes[id].ref in s.book.cells
  {
    s.(book := Released(s.book, s.passes[id].ref), passes := s.passes - {id})
  }

  function PassStep(s: System, step: Step): System
    requires Expected(step).Some? && Expected(step).value.0 in s.passes
    requires s.passes[Expected(step).value.0].ref in s.book.cells
  {
    var id := Expected(step).value.0;
    var pass := s.passes[id];
    var cell := s.book.cells[pass.ref];
    match step
    case TakeSlot(_) => Moved(s, id, pass.(phase := Slotted)).(slots := s.slots + 1)
    case Cancel(_) => Moved(s, id, pass.(phase := Unslotted))
    case Recheck(_) => RecheckStep(s, id)
    case Start(_) =>
      Moved(s, id, pass.(phase := Started, startedAt := s.now)).(health := s.health[pass.cluster.name := s.now])
    case Return(_, result, failed) => Moved(s, id, pass.(phase := Returned, result := result, failed := failed))
    case Overlay(_) =>
      Moved(s, id, pass.(phase := Overlaid, sent := WithVerdict(pass.result, VerdictOf(cell))))
    case WriteResult(_, schema, reply) =>
      Moved(s, id, pass.(phase := Wrote)).(api := Send(s.api, pass.cluster.name, pass.sent, schema, reply))
    case Bookkeep(_) => Moved(WithCell(s, pass.ref, BookedCell(cell, pass, s.now)), id, pass.(phase := Booked))
    case Settle(_) => SettleStep(s, id)
    case WriteSettled(_, schema, reply) =>
      Moved(s, id, pass.(phase := Settled)).(api := Send(s.api, cell.cluster.name, pass.sent, schema, reply))
    case Finish(_) => Moved(s, id, pass.(phase := Leaving)).(health := s.health - {pass.cluster.name})
    case FreeSlot(_) => Moved(s, id, pass.(phase := Unslotted)).(slots := if s.slots > 0 then s.slots - 1 else 0)
    case Release(_) => ReleaseStep(s, id)
    case _ => s
  }

  ghost function Next(s: System, step: Step): System
    requires Enabled(s, step)
  {
    match step
    case Tick(to) => s.(now := to)
    case Create(_, _, _) => UserStep(s, step)
    case Edit(_, _) => UserStep(s, step)
    case Annotate(_, _) => UserStep(s, step)
    case Delete(_) => UserStep(s, step)
    case Restamp(pending) => s.(poll := Restamping(pending))
    case WriteRestamp(schema, reply) =>
      s.(poll := Restamping(s.poll.pending[1..]),
         api := Send(s.api, s.poll.pending[0].0, s.poll.pending[0].1, schema, reply))
    case ListInventory(objects) => s.(poll := Read(objects))
    case ListFails => s.(poll := Waiting)
    case Schedule => ScheduleStep(s)
    case Claim(due) => s.(book := Claimed(s.book, DueRefs(s.book, s.now)), poll := Dispatching(due))
    case Spawn => SpawnStep(s)
    case ListBlocked(blocked) => s.(poll := Reporting(blocked))
    case ReadVerdict => ReadVerdictStep(s)
    case WriteVerdict(schema, reply) =>
      s.(poll := Reporting(s.poll.rest), api := Send(s.api, s.poll.name, s.poll.desired, schema, reply))
    case EndPoll => s.(poll := Waiting, polledAt := s.now)
    case _ => PassStep(s, step)
  }

  /** A process starting over the objects an earlier one left behind. */
  function Begin(now: int, api: map<string, Inventory.Connection>, handled: set<Handled>): System {
    System(now, api, Book(map[], map[], 0, {}), Waiting, map[], 0, 0, map[], now, [], handled)
  }

  ghost function Run(s: System, steps: seq<Step>): System
    requires Possible(s, steps)
    decreases |steps|, 1
  {
    if steps == [] then s else Next(Run(s, steps[..|steps| - 1]), steps[|steps| - 1])
  }

  /** A run: every step is one that can be taken where the steps before it have led. */
  ghost predicate Possible(s: System, steps: seq<Step>)
    decreases |steps|, 0
  {
    steps != [] ==>
      Possible(s, steps[..|steps| - 1]) && Enabled(Run(s, steps[..|steps| - 1]), steps[|steps| - 1])
  }
}
