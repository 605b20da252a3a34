/** Which object a status was formed for. Generations start over when an object is deleted and
    created again under its name; the program goes by name and generation alone. What follows is
    history beside a run that it does not keep: the objects of one name are counted, and what the
    poll, the states and the passes hold is marked with the object it is about. */
module SchedulerIncarnations {
  import opened Text
  import opened Api
  import opened SchedulerModel
  import Inventory

  type Objects = map<string, Inventory.Connection>

  /** `origin` is the one a cluster, generation and verdict were read from; `status` the one whose
      generation the status beside them names. */
  datatype Life = Life(origin: nat, status: nat)

  /** A spec taken up by a pass or rejected by a poll, and the object it was the spec of. */
  datatype Dealt = Dealt(spec: Handled, life: nat)

  datatype History = History(
    born: map<string, nat>,
    carried: map<string, nat>,
    listed: map<string, Life>,
    cells: map<Ref, Life>,
    passes: map<nat, Life>,
    pending: map<string, nat>,
    writing: nat,
    dealt: set<Dealt>)

  function Count(m: map<string, nat>, name: string): nat { if name in m then m[name] else 0 }

  function LifeOf<K>(m: map<K, Life>, k: K): Life { if k in m then m[k] else Life(0, 0) }

  /** The object's status was formed for an earlier object of its name. */
  predicate Stale(t: History, name: string) { Count(t.carried, name) != Count(t.born, name) }

  /** A status write that lands leaves on the object what it was formed for. */
  function Landed(carried: map<string, nat>, api: Objects, name: string, reply: Reply, life: nat): map<string, nat> {
    if reply == Refused || name !in api then carried else carried[name := life]
  }

  /** A verdict names the generation of the state it is on. */
  function FormedFor(verdict: Option<Verdict>, cell: Life, otherwise: nat): nat {
    if verdict.Some? then cell.origin else otherwise
  }

  /** updateSchedule takes object and status from the list. */
  function Relisted(b: Book, es: seq<Inventory.Entry>, now: int, lives: map<Ref, Life>, listed: map<string, Life>): map<Ref, Life> {
    if es == [] then lives
    else
      var name := es[|es| - 1].cluster.name;
      Relisted(b, es[..|es| - 1], now, lives, listed)[UpsertAll(b, es, now).index[name] := LifeOf(listed, name)]
  }

  function RejectedLives(es: seq<Inventory.Entry>, listed: map<string, Life>): set<Dealt> {
    set e | e in es && !e.Valid() ::
      Dealt(Handled(e.cluster.name, e.generation, e.cluster), LifeOf(listed, e.cluster.name).origin)
  }

  function ReadVerdictHistory(s: System, t: History): History
    requires s.poll.Reporting? && s.poll.todo != [] && s.poll.todo[0] in s.book.cells
  {
    var ref := s.poll.todo[0];
    var cell, life := s.book.cells[ref], LifeOf(t.cells, ref);
    var formed := FormedFor(VerdictOf(cell), life, life.status);
    if WithVerdict(cell.status, VerdictOf(cell)) == cell.status then t
    else t.(writing := formed, cells := t.cells[ref := life.(status := formed)])
  }

  function PollHistory(s: System, t: History, step: Step): History
    requires step.Schedule? ==> s.poll.Read?
    requires step.WriteRestamp? ==> s.poll.Restamping? && s.poll.pending != []
    requires step.ReadVerdict? ==> s.poll.Reporting? && s.poll.todo != [] && s.poll.todo[0] in s.book.cells
    requires step.WriteVerdict? ==> s.poll.Writing?
  {
    if step.Restamp? then
      t.(pending := map n | n in s.book.index && s.book.Has(n) :: LifeOf(t.cells, s.book.index[n]).status)
    else if step.WriteRestamp? then
      t.(carried := Landed(t.carried, s.api, s.poll.pending[0].0, step.reply, Count(t.pending, s.poll.pending[0].0)))
    else if step.ListInventory? then
      t.(listed := map n | n in s.api :: Life(Count(t.born, n), Count(t.carried, n)))
    else if step.Schedule? then
      var es := Inventory.Listed(s.poll.objects);
      t.(cells := Relisted(s.book, es, s.now, t.cells, t.listed), dealt := t.dealt + RejectedLives(es, t.listed))
    else if step.ReadVerdict? then ReadVerdictHistory(s, t)
    else if step.WriteVerdict? then t.(carried := Landed(t.carried, s.api, s.poll.name, step.reply, t.writing))
    else t
  }

  function SettleHistory(s: System, t: History, id: nat): History
    requires id in s.passes && s.passes[id].ref in s.book.cells
  {
    var pass := s.passes[id];
    var cell, life, own := s.book.cells[pass.ref], LifeOf(t.cells, pass.ref), LifeOf(t.passes, id);
    var formed := FormedFor(VerdictOf(cell), life, own.origin);
    if WithVerdict(pass.result, VerdictOf(cell)) == pass.sent then t
    else t.(passes := t.passes[id := own.(status := formed)], cells := t.cells[pass.ref := life.(status := formed)])
  }

  function PassHistory(s: System, t: History, step: Step): History
    requires Expected(step).Some? && Expected(step).value.0 in s.passes
    requires s.passes[Expected(step).value.0].ref in s.book.cells
  {
    var id := Expected(step).value.0;
    var pass := s.passes[id];
    var cell, life, own := s.book.cells[pass.ref], LifeOf(t.cells, pass.ref), LifeOf(t.passes, id);
    var formed := FormedFor(VerdictOf(cell), life, own.origin);
    if step.Recheck? && cell.MayRun() then
      t.(passes := t.passes[id := Life(life.origin, life.origin)],
         dealt := t.dealt + {Dealt(Handled(cell.cluster.name, cell.generation, cell.cluster), life.origin)})
    else if step.Overlay? then t.(passes := t.passes[id := own.(status := formed)])
    else if step.WriteResult? then
      t.(carried := Landed(t.carried, s.api, pass.cluster.name, step.reply, own.status))
    else if step.Bookkeep? then t.(cells := t.cells[pass.ref := life.(status := own.status)])
    else if step.Settle? then SettleHistory(s, t, id)
    else if step.WriteSettled? then
      t.(carried := Landed(t.carried, s.api, cell.cluster.name, step.reply, own.status))
    else t
  }

  ghost function NextHistory(s: System, t: History, step: Step): History
    requires Enabled(s, step)
  {
    if step.Create? then
      var life := Count(t.born, step.name) + 1;
      t.(born := t.born[step.name := life], carried := t.carried[step.name := life])
    else if Expected(step).Some? then PassHistory(s, t, step)
    else PollHistory(s, t, step)
  }

  /** What an earlier process dealt with, it dealt with for the objects that are there. */
  function FirstHistory(handled: set<Handled>): History {
    History(map[], map[], map[], map[], map[], map[], 0, set h | h in handled :: Dealt(h, 0))
  }

  ghost function HistoryOf(s: System, steps: seq<Step>): History
    requires Possible(s, steps)
  {
    if steps == [] then FirstHistory(s.handled)
    else NextHistory(Run(s, steps[..|steps| - 1]), HistoryOf(s, steps[..|steps| - 1]), steps[|steps| - 1])
  }
}
