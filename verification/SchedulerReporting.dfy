/** What polls write on the objects they decline to reconcile: each verdict once, and then
    nothing. */
module SchedulerReporting {
  import opened Text
  import opened Api
  import opened SchedulerModel
  import opened SchedulerStructure
  import opened SchedulerEntries
  import opened SchedulerSafety
  import Config
  import Inventory

  /** The poll's turn at the head of its list, with its write going through. */
  function ReportOne(s: System, schema: Option<Condition>): System
    requires s.poll.Reporting? && s.poll.todo != [] && s.poll.todo[0] in s.book.cells
  {
    var n := ReadVerdictStep(s);
    match n.poll
    case Writing(rest, name, desired) => n.(poll := Reporting(rest), api := Send(n.api, name, desired, schema, Done))
    case _ => n
  }

  /** The whole of reportRejected, nobody else writing. */
  function ReportAll(s: System, schema: Option<Condition>): System
    requires s.poll.Reporting? && forall r :: r in s.poll.todo ==> r in s.book.cells
    decreases if s.poll.Reporting? then |s.poll.todo| else 0
  {
    if s.poll.todo == [] then s else ReportAll(ReportOne(s, schema), schema)
  }

  predicate Carries(st: Status, v: Verdict) { Rejected(st, v) == st }

  /** The object under that name says why it is not reconciled. */
  predicate Told(api: map<string, Inventory.Connection>, cell: Cell) {
    cell.cluster.name in api && VerdictOf(cell).Some?
    && Carries(Inventory.DecodeStatus(api[cell.cluster.name]), VerdictOf(cell).value)
  }

  /** The state has the status its object has. */
  predicate ReadFrom(api: map<string, Inventory.Connection>, cell: Cell) {
    cell.cluster.name in api && cell.status == Inventory.DecodeStatus(api[cell.cluster.name])
  }

  type Objects = map<string, Inventory.Connection>

  /** Nothing but statuses differs, and not even the status of this one. */
  ghost predicate StatusesOnly(a: Objects, b: Objects) {
    a.Keys == b.Keys && forall n :: n in a ==> b[n] == a[n].(status := b[n].status)
  }

  ghost predicate Spares(a: Objects, b: Objects, cells: map<Ref, Cell>, refs: seq<Ref>, n: string) {
    n in a && n in b && ((forall r :: r in refs ==> r in cells && cells[r].cluster.name != n) ==> b[n] == a[n])
  }

  lemma OneWrite(api: Objects, cell: Cell, schema: Option<Condition>)
    requires VerdictOf(cell).Some? && ReadFrom(api, cell)
    ensures var after := Send(api, cell.cluster.name, WithVerdict(cell.status, VerdictOf(cell)), schema, Done);
      && StatusesOnly(api, after) && Told(after, cell)
      && forall n :: n in api && n != cell.cluster.name ==> after[n] == api[n]
    ensures WithVerdict(cell.status, VerdictOf(cell)) == cell.status ==> Told(api, cell)
  {
    RejectionKeepsTheRecord(cell.status, VerdictOf(cell).value, schema);
  }

  lemma OneIsTold(s: System, schema: Option<Condition>)
    requires s.poll.Reporting? && s.poll.todo != [] && s.poll.todo[0] in s.book.cells
    requires VerdictOf(s.book.cells[s.poll.todo[0]]).Some? && ReadFrom(s.api, s.book.cells[s.poll.todo[0]])
    ensures var n, r := ReportOne(s, schema), s.poll.todo[0];
      && n.poll == Reporting(s.poll.todo[1..]) && StatusesOnly(s.api, n.api) && Told(n.api, s.book.cells[r])
      && r in n.book.cells && n.book.cells == s.book.cells[r := n.book.cells[r]]
      && (forall name :: name in s.api && name != s.book.cells[r].cluster.name ==> n.api[name] == s.api[name])
  {
    OneWrite(s.api, s.book.cells[s.poll.todo[0]], schema);
    assert s.book.cells == s.book.cells[s.poll.todo[0] := s.book.cells[s.poll.todo[0]]];
  }

  ghost predicate Reportable(cells: map<Ref, Cell>, api: Objects, refs: seq<Ref>) {
    && (forall r :: r in refs ==> r in cells && VerdictOf(cells[r]).Some? && ReadFrom(api, cells[r]))
    && (forall i, j :: 0 <= i < j < |refs| ==> cells[refs[i]].cluster.name != cells[refs[j]].cluster.name)
  }

  lemma RestIsElsewhere(cells: map<Ref, Cell>, api: Objects, refs: seq<Ref>, q: Ref)
    requires refs != [] && Reportable(cells, api, refs) && q in refs[1..]
    ensures q in refs && cells[q].cluster.name != cells[refs[0]].cluster.name
  {
    var i :| 0 <= i < |refs| - 1 && refs[1..][i] == q;
    assert refs[i + 1] == q;
  }

  lemma TailIsReportable(cells: map<Ref, Cell>, api: Objects, refs: seq<Ref>)
    requires refs != [] && Reportable(cells, api, refs)
    ensures Reportable(cells, api, refs[1..])
  {
    assert forall i :: 0 <= i < |refs| - 1 ==> refs[1..][i] == refs[i + 1];
  }

  lemma StaysReportable(cells: map<Ref, Cell>, api: Objects, refs: seq<Ref>, after: map<Ref, Cell>, later: Objects)
    requires Reportable(cells, api, refs)
    requires forall r :: r in refs ==> r in after && after[r] == cells[r] && ReadFrom(later, cells[r])
    ensures Reportable(after, later, refs)
  {
    assert forall i :: 0 <= i < |refs| ==> refs[i] in refs;
  }

  lemma RestIsReportable(s: System, schema: Option<Condition>)
    requires s.poll.Reporting? && s.poll.todo != [] && Reportable(s.book.cells, s.api, s.poll.todo)
    ensures var n := ReportOne(s, schema);
      && Reportable(n.book.cells, n.api, s.poll.todo[1..])
      && forall q :: q in s.poll.todo[1..] ==>
           q in s.book.cells && q in n.book.cells && n.book.cells[q] == s.book.cells[q]
           && s.book.cells[q].cluster.name != s.book.cells[s.poll.todo[0]].cluster.name
  {
    var todo, n := s.poll.todo, ReportOne(s, schema);
    OneIsTold(s, schema);
    TailIsReportable(s.book.cells, s.api, todo);
    forall q | q in todo[1..]
      ensures q in n.book.cells && n.book.cells[q] == s.book.cells[q] && ReadFrom(n.api, s.book.cells[q])
      ensures s.book.cells[q].cluster.name != s.book.cells[todo[0]].cluster.name
    {
      RestIsElsewhere(s.book.cells, s.api, todo, q);
    }
    StaysReportable(s.book.cells, s.api, todo[1..], n.book.cells, n.api);
  }

  lemma TellingComposes(todo: seq<Ref>, cells: map<Ref, Cell>, mid: map<Ref, Cell>, api: Objects, m: Objects, n: Objects)
    requires todo != [] && todo[0] in cells && StatusesOnly(api, m) && StatusesOnly(m, n)
    requires forall name :: name in api && name != cells[todo[0]].cluster.name ==> m[name] == api[name]
    requires forall q :: q in todo[1..] ==>
      q in cells && q in mid && mid[q] == cells[q] && cells[q].cluster.name != cells[todo[0]].cluster.name
    requires forall name :: name in m ==> Spares(m, n, mid, todo[1..], name)
    requires Told(m, cells[todo[0]])
    ensures StatusesOnly(api, n) && Told(n, cells[todo[0]])
    ensures forall name :: name in api ==> Spares(api, n, cells, todo, name)
  {
    assert todo == [todo[0]] + todo[1..];
    assert Spares(m, n, mid, todo[1..], cells[todo[0]].cluster.name);
    forall name | name in api ensures Spares(api, n, cells, todo, name) {
      assert Spares(m, n, mid, todo[1..], name);
    }
  }

  lemma {:induction false} AllAreTold(s: System, schema: Option<Condition>)
    requires s.poll.Reporting? && Reportable(s.book.cells, s.api, s.poll.todo)
    ensures var n := ReportAll(s, schema);
      && StatusesOnly(s.api, n.api)
      && (forall r :: r in s.poll.todo ==> Told(n.api, s.book.cells[r]))
      && (forall name :: name in s.api ==> Spares(s.api, n.api, s.book.cells, s.poll.todo, name))
    decreases |s.poll.todo|
  {
    if s.poll.todo != [] {
      var todo, m := s.poll.todo, ReportOne(s, schema);
      HeadIsTold(s, schema);
      AllAreTold(m, schema);
      var n := ReportAll(m, schema);
      TellingComposes(todo, s.book.cells, m.book.cells, s.api, m.api, n.api);
      forall r | r in todo ensures Told(n.api, s.book.cells[r]) {
        assert r == todo[0] || r in todo[1..];
      }
    }
  }

  lemma HeadIsTold(s: System, schema: Option<Condition>)
    requires s.poll.Reporting? && s.poll.todo != [] && Reportable(s.book.cells, s.api, s.poll.todo)
    ensures var n, todo := ReportOne(s, schema), s.poll.todo;
      && n.poll == Reporting(todo[1..]) && StatusesOnly(s.api, n.api) && Told(n.api, s.book.cells[todo[0]])
      && Reportable(n.book.cells, n.api, todo[1..])
      && (forall name :: name in s.api && name != s.book.cells[todo[0]].cluster.name ==> n.api[name] == s.api[name])
      && (forall q :: q in todo[1..] ==>
            q in s.book.cells && q in n.book.cells && n.book.cells[q] == s.book.cells[q]
            && s.book.cells[q].cluster.name != s.book.cells[todo[0]].cluster.name)
  {
    OneIsTold(s, schema);
    RestIsReportable(s, schema);
  }

  // ---- The next poll has nothing to add --------------------------------------------------------------------

  lemma {:induction false} ContendersIgnoreStatus(a: seq<Inventory.Entry>, b: seq<Inventory.Entry>, kind: Inventory.ClaimKind, value: string)
    requires |a| == |b| && forall i :: 0 <= i < |a| ==> SameClaim(a[i], b[i])
    ensures Inventory.Contenders(a, kind, value) == Inventory.Contenders(b, kind, value)
  {
    if a != [] {
      ContendersIgnoreStatus(a[..|a| - 1], b[..|b| - 1], kind, value);
      assert SameClaim(a[|a| - 1], b[|b| - 1]);
    }
  }

  /** Entries that differ at most in the status read with them. */
  predicate SameClaim(d: Inventory.Entry, e: Inventory.Entry) {
    e == d.(status := e.status, observedGeneration := e.observedGeneration)
  }

  lemma BlockedIgnoresStatus(a: seq<Inventory.Entry>, b: seq<Inventory.Entry>, kind: Inventory.ClaimKind)
    requires |a| == |b| && forall i :: 0 <= i < |a| ==> SameClaim(a[i], b[i])
    ensures var x, y := Inventory.Blocked(a, kind), Inventory.Blocked(b, kind);
      |x| == |y| && forall i :: 0 <= i < |x| ==> SameClaim(x[i], y[i])
  {
    var x, y := Inventory.Blocked(a, kind), Inventory.Blocked(b, kind);
    forall i | 0 <= i < |x| ensures SameClaim(x[i], y[i]) {
      ContendersIgnoreStatus(a, b, kind, kind.Of(a[i]));
      assert SameClaim(a[i], b[i]);
    }
  }

  lemma DecodingIgnoresStatus(a: Inventory.Connection, b: Inventory.Connection)
    requires b == a.(status := b.status)
    ensures SameClaim(Inventory.Decode(a), Inventory.Decode(b))
  {
  }

  /** No verdict depends on what any object's status says. */
  lemma ListedIgnoresStatus(a: seq<Inventory.Connection>, b: seq<Inventory.Connection>, i: nat)
    requires |a| == |b| && forall k :: 0 <= k < |a| ==> b[k] == a[k].(status := b[k].status)
    requires i < |a|
    ensures SameClaim(Inventory.Listed(a)[i], Inventory.Listed(b)[i])
    ensures Inventory.Listed(b)[i].status == Inventory.DecodeStatus(b[i])
  {
    var x, y := Inventory.DecodeAll(a), Inventory.DecodeAll(b);
    forall k | 0 <= k < |x| ensures SameClaim(x[k], y[k]) { DecodingIgnoresStatus(a[k], b[k]); }
    BlockedIgnoresStatus(x, y, Inventory.OnEndpoint);
    BlockedIgnoresStatus(Inventory.Blocked(x, Inventory.OnEndpoint), Inventory.Blocked(y, Inventory.OnEndpoint), Inventory.OnSecretName);
    ListedKeeps(b, i);
  }

  /** The verdict an entry carries, for the object it was decoded from. */
  function EntryVerdict(e: Inventory.Entry): Option<Verdict> {
    if e.Valid() then None
    else Some(Verdict(e.invalidReason, if e.invalidCause == NoReason then InvalidSpec else e.invalidCause, e.generation))
  }

  /** The objects of a list as the API server has them later. */
  function Relisted(objects: seq<Inventory.Connection>, api: map<string, Inventory.Connection>): seq<Inventory.Connection>
    requires forall obj :: obj in objects ==> obj.name in api
  {
    seq(|objects|, i requires 0 <= i < |objects| => api[objects[i].name])
  }

  lemma UnlistedHasDeparted(s: System, n: string)
    requires Indexed(s.book) && OwedAreKnown(s.book) && s.poll.Read?
    requires var es := Inventory.Listed(s.poll.objects); forall i :: 0 <= i < |es| ==> es[i].cluster.name != n
    ensures ScheduleStep(s).book.Has(n) ==> ScheduleStep(s).book.At(n).departed
  {
    ScheduleUnlisted(s.book, Inventory.Listed(s.poll.objects), s.now, n);
  }

  lemma BlockedIsListed(s: System, n: string) returns (k: nat)
    requires Indexed(s.book) && OwedAreKnown(s.book) && s.poll.Read? && DistinctObjects(s.poll.objects)
    requires ScheduleStep(s).book.Has(n) && !ScheduleStep(s).book.At(n).departed
    ensures k < |s.poll.objects| && s.poll.objects[k].name == n
    ensures ScheduleStep(s).book.At(n).status == Inventory.DecodeStatus(s.poll.objects[k])
    ensures ScheduleStep(s).book.At(n).cluster.name == n
  {
    ListedDistinct(s.poll.objects);
    k := ListedUnder(s, n);
    ListedKeeps(s.poll.objects, k);
    ScheduleListed(s.book, Inventory.Listed(s.poll.objects), s.now, k);
  }

  lemma ListedUnder(s: System, n: string) returns (k: nat)
    requires Indexed(s.book) && OwedAreKnown(s.book) && s.poll.Read?
    requires ScheduleStep(s).book.Has(n) && !ScheduleStep(s).book.At(n).departed
    ensures k < |Inventory.Listed(s.poll.objects)| && Inventory.Listed(s.poll.objects)[k].cluster.name == n
  {
    var es := Inventory.Listed(s.poll.objects);
    if forall i :: 0 <= i < |es| ==> es[i].cluster.name != n {
      UnlistedHasDeparted(s, n);
    }
    k :| 0 <= k < |es| && es[k].cluster.name == n;
  }

  lemma NobodyDeparts(s: System, n: string)
    requires Claims(s) && OwedAreKnown(s.book) && s.poll.Read? && DistinctObjects(s.poll.objects) && s.passes == map[]
    requires ScheduleStep(s).book.Has(n)
    ensures !ScheduleStep(s).book.At(n).departed
  {
    var es := Inventory.Listed(s.poll.objects);
    ListedDistinct(s.poll.objects);
    if i :| 0 <= i < |es| && es[i].cluster.name == n {
      ScheduleListed(s.book, es, s.now, i);
    } else {
      ScheduleUnlisted(s.book, es, s.now, n);
      if s.book.Has(n) { NothingRuns(s, n); }
    }
  }

  lemma TodoIsRead(s: System, todo: seq<Ref>, r: Ref)
    requires Claims(s) && OwedAreKnown(s.book) && s.poll.Read? && ListOf(s.poll.objects, s.api) && s.passes == map[]
    requires var c := ScheduleStep(s).book; Lists(todo, c, BlockedRefs(c)) && r in todo
    ensures var c := ScheduleStep(s).book;
      r in c.cells && VerdictOf(c.cells[r]).Some? && ReadFrom(s.api, c.cells[r])
  {
    var c := ScheduleStep(s).book;
    assert r in BlockedRefs(c);
    var n :| n in c.index && c.Has(n) && c.At(n).invalidReason != "" && c.index[n] == r;
    NobodyDeparts(s, n);
    var k := BlockedIsListed(s, n);
  }

  lemma NothingRuns(s: System, n: string)
    requires Claims(s) && Pending(s.poll) == [] && s.passes == map[] && s.book.Has(n)
    ensures !s.book.At(n).running
  {
  }

  lemma TodoIsComplete(s: System, todo: seq<Ref>, k: nat)
    requires Claims(s) && OwedAreKnown(s.book) && s.poll.Read? && ListOf(s.poll.objects, s.api) && k < |s.poll.objects|
    requires var c := ScheduleStep(s).book; Lists(todo, c, BlockedRefs(c))
    requires !Inventory.Listed(s.poll.objects)[k].Valid()
    ensures var c, e := ScheduleStep(s).book, Inventory.Listed(s.poll.objects)[k];
      && c.Has(e.cluster.name) && c.index[e.cluster.name] in todo
      && VerdictOf(c.At(e.cluster.name)) == EntryVerdict(e) && e.cluster.name == s.poll.objects[k].name
      && c.At(e.cluster.name).cluster.name == e.cluster.name
  {
    ListedDistinct(s.poll.objects);
    ScheduleListed(s.book, Inventory.Listed(s.poll.objects), s.now, k);
    ListedKeeps(s.poll.objects, k);
    var c := ScheduleStep(s).book;
    assert c.index[s.poll.objects[k].name] in BlockedRefs(c);
  }

  lemma TodoIsDistinct(b: Book, todo: seq<Ref>)
    requires Indexed(b) && Lists(todo, b, BlockedRefs(b))
    ensures forall i, j :: 0 <= i < j < |todo| ==> b.cells[todo[i]].cluster.name != b.cells[todo[j]].cluster.name
  {
    forall i, j | 0 <= i < j < |todo| ensures b.cells[todo[i]].cluster.name != b.cells[todo[j]].cluster.name {
      assert todo[i] in BlockedRefs(b) && todo[j] in BlockedRefs(b);
      assert InMap(b, todo[i]) && InMap(b, todo[j]);
    }
  }

  lemma TodoIsReportable(s: System, todo: seq<Ref>)
    requires Claims(s) && OwedAreKnown(s.book) && s.poll.Read? && ListOf(s.poll.objects, s.api) && s.passes == map[]
    requires var c := ScheduleStep(s).book; Lists(todo, c, BlockedRefs(c))
    ensures Reportable(ScheduleStep(s).book.cells, s.api, todo)
  {
    ScheduleIndexed(s);
    TodoIsDistinct(ScheduleStep(s).book, todo);
    forall r | r in todo { TodoIsRead(s, todo, r); }
  }

  /** With no pass in flight and its writes going through, one poll leaves every object it
      declines to reconcile saying so, and another poll over the objects as they then are finds
      each of them saying exactly what it would write: it writes nothing. */
  lemma OnePollTellsAll(s: System, todo: seq<Ref>, schema: Option<Condition>, k: nat)
    requires Claims(s) && OwedAreKnown(s.book) && s.poll.Read? && ListOf(s.poll.objects, s.api) && s.passes == map[]
    requires var c := ScheduleStep(s).book; Lists(todo, c, BlockedRefs(c))
    requires k < |s.poll.objects|
    ensures forall r :: r in todo ==> r in ScheduleStep(s).book.cells
    ensures var n := ReportAll(ScheduleStep(s).(poll := Reporting(todo)), schema);
      && n.api.Keys == s.api.Keys
      && var again := Inventory.Listed(Relisted(s.poll.objects, n.api));
         && |again| == |s.poll.objects|
         && EntryVerdict(again[k]) == EntryVerdict(Inventory.Listed(s.poll.objects)[k])
         && WithVerdict(again[k].status, EntryVerdict(again[k])) == again[k].status
  {
    TodoIsReportable(s, todo);
    var t := ScheduleStep(s).(poll := Reporting(todo));
    AllAreTold(t, schema);
    var n := ReportAll(t, schema);
    RelistingKeepsVerdicts(s.poll.objects, s.api, n.api, k);
    if !Inventory.Listed(s.poll.objects)[k].Valid() {
      TodoIsComplete(s, todo, k);
      var name := s.poll.objects[k].name;
      assert Told(n.api, t.book.cells[t.book.index[name]]);
    }
  }

  lemma RelistingKeepsVerdicts(objects: seq<Inventory.Connection>, api: Objects, later: Objects, k: nat)
    requires ListOf(objects, api) && StatusesOnly(api, later) && k < |objects|
    ensures forall obj :: obj in objects ==> obj.name in later
    ensures var again := Inventory.Listed(Relisted(objects, later));
      && |again| == |objects|
      && EntryVerdict(again[k]) == EntryVerdict(Inventory.Listed(objects)[k])
      && again[k].status == Inventory.DecodeStatus(later[objects[k].name])
  {
    assert forall obj :: obj in objects ==> obj.name in later;
    var relisted := Relisted(objects, later);
    forall j | 0 <= j < |objects| ensures relisted[j] == objects[j].(status := relisted[j].status) {
      assert objects[j] == api[objects[j].name];
    }
    ListedIgnoresStatus(objects, relisted, k);
  }

  lemma ScheduleIndexed(s: System)
    requires Claims(s) && s.poll.Read?
    ensures Indexed(ScheduleStep(s).book)
  {
    SchedulePreserves(s.book, Inventory.Listed(s.poll.objects), s.now);
  }
}
