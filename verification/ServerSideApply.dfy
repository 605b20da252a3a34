/** Kubernetes Server-Side Apply (KEP-555) on one Secret: who manages which field, and what an
    apply or an update by one manager does to the fields of the others. */
module ServerSideApply {
  import opened Text
  import opened Api

  datatype Field = Label(key: Key) | Annotation(key: Key) | Data(dataKey: DataKey) | SecretType

  type Config = map<Field, Bytes>

  /** A Secret on the server: its fields and, per field manager, the fields it manages. A
      manager left with none has no entry. */
  datatype Object = Object(fields: Config, owners: map<Manager, set<Field>>)
  {
    function Owned(manager: Manager): set<Field> {
      if manager in owners then owners[manager] else {}
    }

    ghost predicate WellFormed() {
      forall m :: m in owners ==> owners[m] != {} && owners[m] <= fields.Keys
    }
  }

  const Absent: Object := Object(map[], map[])

  function Live(live: Option<Object>): Object {
    match live
    case Some(o) => o
    case None => Absent
  }

  /** Fields a write by `manager` takes away from every other manager: those it changes. */
  function Changed(o: Object, config: Config): set<Field> {
    set f | f in config && (f !in o.fields || o.fields[f] != config[f])
  }

  /** Fields a manager owned alone and left out of its apply: the server removes them. */
  function Dropped(o: Object, manager: Manager, config: Config): set<Field> {
    set f | f in o.Owned(manager) && f !in config && forall m :: m in o.owners && m != manager ==> f !in o.owners[m]
  }

  /** An entry per manager that still manages something. */
  function Reassigned(o: Object, manager: Manager, mine: set<Field>, lost: set<Field>): map<Manager, set<Field>> {
    var others := map m | m in o.owners && m != manager && o.owners[m] - lost != {} :: o.owners[m] - lost;
    if mine == {} then others else others[manager := mine]
  }

  /** An apply with Force: the values take effect, conflicting managers lose the fields, and
      what this manager used to own alone and now omits disappears. */
  function Apply(live: Option<Object>, manager: Manager, config: Config): Object {
    var o := Live(live);
    Object((o.fields - Dropped(o, manager, config)) + config,
           Reassigned(o, manager, config.Keys, Changed(o, config)))
  }

  /** A create or update by a manager that does not use apply: it sends the whole object. */
  function Update(live: Option<Object>, manager: Manager, fields: Config): Object {
    var o := Live(live);
    var changed := Changed(o, fields);
    var removed := o.fields.Keys - fields.Keys;
    Object(fields, Reassigned(o, manager, (o.Owned(manager) + changed) - removed, changed + removed))
  }

  /** What somebody else may do to the Secret between two calls. */
  datatype ForeignWrite =
    | Applied(manager: Manager, config: Config)
    | Updated(manager: Manager, fields: Config)
    | Deleted

  function Write(w: ForeignWrite, live: Option<Object>): Option<Object> {
    match w
    case Applied(manager, config) => Some(Apply(live, manager, config))
    case Updated(manager, fields) => Some(Update(live, manager, fields))
    case Deleted => None
  }

  function Writes(ws: seq<ForeignWrite>, live: Option<Object>): Option<Object> {
    if ws == [] then live else Writes(ws[1..], Write(ws[0], live))
  }

  // ---- What a single apply does ---------------------------------------------------------

  /** Field by field: a field is there afterwards if it was applied, or was there and either
      was not this manager's or is somebody else's as well. */
  lemma ApplyFieldwise(live: Option<Object>, manager: Manager, config: Config, f: Field)
    ensures var o, r := Live(live), Apply(live, manager, config);
      && ((f in r.fields) == (f in config || (f in o.fields
            && (f !in o.Owned(manager) || exists m :: m in o.owners && m != manager && f in o.owners[m]))))
      && (f in config ==> r.fields[f] == config[f])
      && (f in r.fields && f !in config ==> r.fields[f] == o.fields[f])
  {
  }

  /** An apply changes nothing exactly when the object already carries every value and the
      manager already owns exactly those fields. */
  lemma ApplyIsANoOp(o: Object, manager: Manager, config: Config)
    requires o.WellFormed() && config.Keys != {}
    ensures Apply(Some(o), manager, config) == o
      <==> o.Owned(manager) == config.Keys && forall f :: f in config ==> f in o.fields && o.fields[f] == config[f]
  {
    var r := Apply(Some(o), manager, config);
    if o.Owned(manager) == config.Keys && forall f :: f in config ==> f in o.fields && o.fields[f] == config[f] {
      assert Changed(o, config) == {} && Dropped(o, manager, config) == {};
      assert r.fields == o.fields;
      assert forall m :: m in o.owners ==> o.owners[m] - Changed(o, config) == o.owners[m];
      assert r.owners == o.owners;
    }
    if r == o {
      assert r.Owned(manager) == config.Keys;
      assert forall f :: f in config ==> r.fields[f] == config[f];
    }
  }

  lemma ReapplyIsANoOp(live: Option<Object>, manager: Manager, config: Config)
    requires config.Keys != {} && Live(live).WellFormed()
    ensures Apply(Some(Apply(live, manager, config)), manager, config) == Apply(live, manager, config)
  {
    ApplyKeepsWellFormed(live, manager, config);
    ApplyIsANoOp(Apply(live, manager, config), manager, config);
  }

  lemma ApplyKeepsWellFormed(live: Option<Object>, manager: Manager, config: Config)
    requires Live(live).WellFormed()
    ensures Apply(live, manager, config).WellFormed()
  {
    var o, r := Live(live), Apply(live, manager, config);
    forall m, f | m in r.owners && f in r.owners[m] ensures f in r.fields {
      ApplyFieldwise(live, manager, config, f);
      if m != manager { assert f in o.owners[m]; }
    }
  }

  lemma UpdateKeepsWellFormed(live: Option<Object>, manager: Manager, fields: Config)
    requires Live(live).WellFormed()
    ensures Update(live, manager, fields).WellFormed()
  {
    var o, r := Live(live), Update(live, manager, fields);
    forall m, f | m in r.owners && f in r.owners[m] ensures f in r.fields {
      if m != manager { assert f in o.owners[m]; }
    }
  }

  /** An optional key that stops being applied disappears with the apply that omits it, unless
      somebody else has come to own it. */
  lemma OmittedKeyDisappears(live: Option<Object>, manager: Manager, was: Config, config: Config, f: Field)
    requires f in was && f !in config
    requires forall m :: m in Live(live).owners && m != manager ==> f !in Live(live).owners[m]
    ensures f !in Apply(Some(Apply(live, manager, was)), manager, config).fields
  {
    var o := Apply(live, manager, was);
    assert f in o.Owned(manager);
    assert forall m :: m in o.owners && m != manager ==> o.owners[m] <= Live(live).owners[m];
    ApplyFieldwise(Some(o), manager, config, f);
  }

  // ---- Two managers that keep to their halves --------------------------------------------

  predicate Agree(a: Config, b: Config) {
    forall f :: f in a && f in b ==> a[f] == b[f]
  }

  function Holding(manager: Manager, config: Config): map<Manager, set<Field>> {
    if config.Keys == {} then map[] else map[manager := config.Keys]
  }

  /** An object two managers made between them and nobody else has touched. */
  function Halves(one: Manager, mine: Config, other: Manager, theirs: Config): Object {
    Object(mine + theirs, Holding(one, mine) + Holding(other, theirs))
  }

  lemma HalvesOwners(one: Manager, mine: Config, other: Manager, theirs: Config)
    requires one != other
    ensures var o := Halves(one, mine, other, theirs);
      && o.Owned(one) == mine.Keys && o.Owned(other) == theirs.Keys
      && (forall m :: m in o.owners ==> m == one || m == other)
  {
  }

  lemma HalvesDropped(one: Manager, was: Config, now: Config, other: Manager, theirs: Config)
    requires one != other
    ensures Dropped(Halves(one, was, other, theirs), one, now) == (was.Keys - now.Keys) - theirs.Keys
  {
    var o := Halves(one, was, other, theirs);
    HalvesOwners(one, was, other, theirs);
    forall f ensures f in Dropped(o, one, now) <==> f in (was.Keys - now.Keys) - theirs.Keys {
      if f in theirs.Keys { assert other in o.owners && f in o.owners[other]; }
    }
  }

  lemma OwnHalfFields(one: Manager, was: Config, now: Config, other: Manager, theirs: Config)
    requires one != other && Agree(was, theirs) && Agree(now, theirs)
    ensures Apply(Some(Halves(one, was, other, theirs)), one, now).fields == now + theirs
  {
    var o := Halves(one, was, other, theirs);
    HalvesDropped(one, was, now, other, theirs);
    var kept := o.fields - ((was.Keys - now.Keys) - theirs.Keys);
    assert Apply(Some(o), one, now).fields == kept + now;
    assert (kept + now).Keys == (now + theirs).Keys;
  }

  lemma OwnHalfOwners(one: Manager, was: Config, now: Config, other: Manager, theirs: Config)
    requires one != other && now.Keys != {} && Agree(now, theirs)
    ensures Apply(Some(Halves(one, was, other, theirs)), one, now).owners
      == Holding(one, now) + Holding(other, theirs)
  {
    var o := Halves(one, was, other, theirs);
    HalvesOwners(one, was, other, theirs);
    var lost := Changed(o, now);
    assert theirs.Keys - lost == theirs.Keys;
    HalvesReassigned(o, one, now.Keys, lost, other, theirs.Keys);
    assert Holding(one, now) == map[one := now.Keys];
  }

  lemma HalvesReassigned(o: Object, one: Manager, mine: set<Field>, lost: set<Field>, other: Manager, theirs: set<Field>)
    requires one != other && mine != {} && theirs - lost == theirs
    requires o.Owned(other) == theirs && (forall m :: m in o.owners ==> m == one || m == other)
    ensures Reassigned(o, one, mine, lost)
      == map[one := mine] + (if theirs == {} then map[] else map[other := theirs])
  {
    var others := map m | m in o.owners && m != one && o.owners[m] - lost != {} :: o.owners[m] - lost;
    assert others == if theirs == {} then map[] else map[other := theirs];
  }

  /** Applying one half replaces that half whole and leaves the other as it was. */
  lemma OwnHalfIsReplaced(one: Manager, was: Config, now: Config, other: Manager, theirs: Config)
    requires one != other && now.Keys != {} && Agree(was, theirs) && Agree(now, theirs)
    ensures Apply(Some(Halves(one, was, other, theirs)), one, now) == Halves(one, now, other, theirs)
  {
    OwnHalfFields(one, was, now, other, theirs);
    OwnHalfOwners(one, was, now, other, theirs);
  }

  // ---- Two managers over what others own ----------------------------------------------------------

  /** Somebody who is neither of the two owns this field. */
  ghost predicate Shared(o: Object, one: Manager, other: Manager, f: Field) {
    exists m :: m != one && m != other && f in o.Owned(m)
  }

  /** What one field of an object has come to that two managers have applied halves to. Those of the
      two latest halves are as they say, and owned by the two; of the others, what was there stays
      if it was never applied, or if somebody else owns it and it was never applied as anything but
      what it was -- which is also when that owner still does. */
  ghost predicate Composed(o: Object, r: Object, one: Manager, mine: Config, other: Manager, theirs: Config,
                           touched: bool, undisputed: bool, f: Field) {
    && (f in r.Owned(one) <==> f in mine) && (f in r.Owned(other) <==> f in theirs)
    && (forall m :: m != one && m != other ==> (f in r.Owned(m) <==> f in o.Owned(m) && undisputed))
    && (f in r.fields <==> f in mine || f in theirs || (f in o.fields && (!touched || (Shared(o, one, other, f) && undisputed))))
    && (f in mine ==> f in r.fields && r.fields[f] == mine[f])
    && (f in theirs ==> f in r.fields && r.fields[f] == theirs[f])
    && (f in r.fields && f !in mine && f !in theirs ==> r.fields[f] == o.fields[f])
  }

  /** The latest halves have been applied. */
  predicate Consistent(o: Object, mine: Config, theirs: Config, touched: bool, undisputed: bool, f: Field) {
    && (f in mine || f in theirs ==> touched)
    && (undisputed && f in mine ==> f in o.fields && mine[f] == o.fields[f])
    && (undisputed && f in theirs ==> f in o.fields && theirs[f] == o.fields[f])
  }

  predicate SetAlike(o: Object, config: Config, f: Field) { f in config ==> f in o.fields && config[f] == o.fields[f] }

  /** What an apply does to the ownership of one field. */
  lemma ApplyOwnership(live: Option<Object>, manager: Manager, config: Config, f: Field)
    ensures var o, r := Live(live), Apply(live, manager, config);
      && (f in r.Owned(manager) <==> f in config)
      && (forall m :: m != manager ==>
            (f in r.Owned(m) <==> f in o.Owned(m) && !(f in config && (f !in o.fields || o.fields[f] != config[f]))))
  {
  }

  lemma HalfOwnership(o: Object, live: Option<Object>, one: Manager, mine: Config, other: Manager, theirs: Config,
                      touched: bool, undisputed: bool, config: Config, f: Field)
    requires one != other && o.WellFormed() && Consistent(o, mine, theirs, touched, undisputed, f)
    requires Composed(o, Live(live), one, mine, other, theirs, touched, undisputed, f)
    requires f in theirs && f in config ==> theirs[f] == config[f]
    ensures var r := Apply(live, one, config);
      && (f in r.Owned(one) <==> f in config) && (f in r.Owned(other) <==> f in theirs)
      && (forall m :: m != one && m != other ==> (f in r.Owned(m) <==> f in o.Owned(m) && undisputed && SetAlike(o, config, f)))
  {
    var was, r := Live(live), Apply(live, one, config);
    ApplyOwnership(live, one, config, f);
    forall m | m != one && m != other ensures f in r.Owned(m) <==> f in o.Owned(m) && undisputed && SetAlike(o, config, f) {
      if f in o.Owned(m) && undisputed {
        assert Shared(o, one, other, f);
        assert f in was.fields && was.fields[f] == o.fields[f];
      }
    }
  }

  lemma HalfFields(o: Object, live: Option<Object>, one: Manager, mine: Config, other: Manager, theirs: Config,
                   touched: bool, undisputed: bool, config: Config, f: Field)
    requires one != other && o.WellFormed() && Consistent(o, mine, theirs, touched, undisputed, f)
    requires Composed(o, Live(live), one, mine, other, theirs, touched, undisputed, f) && f !in config
    ensures var r := Apply(live, one, config);
      && (f in r.fields <==> f in theirs || (f in o.fields && (!touched || (Shared(o, one, other, f) && undisputed))))
      && (f in theirs ==> f in r.fields && r.fields[f] == theirs[f])
      && (f in r.fields && f !in theirs ==> r.fields[f] == o.fields[f])
  {
    var was := Live(live);
    ApplyFieldwise(live, one, config, f);
    if f in was.Owned(one) {
      if m :| m in was.owners && m != one && f in was.owners[m] {
        assert f in was.Owned(m);
        assert m != other ==> f in o.Owned(m) && undisputed;
      }
      if f in theirs { assert other in was.owners && f in was.owners[other]; }
      if undisputed && Shared(o, one, other, f) {
        var m :| m != one && m != other && f in o.Owned(m);
        assert f in was.Owned(m);
        assert m in was.owners && f in was.owners[m];
      }
    }
  }

  /** Applying one half over an object composed so far. */
  lemma HalfComposes(o: Object, live: Option<Object>, one: Manager, mine: Config, other: Manager, theirs: Config,
                     touched: bool, undisputed: bool, config: Config, f: Field)
    requires one != other && o.WellFormed() && Consistent(o, mine, theirs, touched, undisputed, f)
    requires Composed(o, Live(live), one, mine, other, theirs, touched, undisputed, f)
    requires f in theirs && f in config ==> theirs[f] == config[f]
    ensures Composed(o, Apply(live, one, config), one, config, other, theirs,
                     touched || f in config, undisputed && SetAlike(o, config, f), f)
  {
    HalfOwnership(o, live, one, mine, other, theirs, touched, undisputed, config, f);
    if f in config {
      ApplyFieldwise(live, one, config, f);
    } else {
      HalfFields(o, live, one, mine, other, theirs, touched, undisputed, config, f);
    }
  }

  // ---- A writer cannot give another manager a field ------------------------------------------

  lemma ApplyOnlyShrinksOthers(live: Option<Object>, manager: Manager, config: Config, other: Manager)
    requires other != manager
    ensures Apply(live, manager, config).Owned(other) <= Live(live).Owned(other)
  {
  }

  lemma UpdateOnlyShrinksOthers(live: Option<Object>, manager: Manager, fields: Config, other: Manager)
    requires other != manager
    ensures Update(live, manager, fields).Owned(other) <= Live(live).Owned(other)
  {
  }

  predicate By(w: ForeignWrite, manager: Manager) {
    match w
    case Applied(m, _) => m == manager
    case Updated(m, _) => m == manager
    case Deleted => false
  }

  lemma {:induction false} WritesOnlyShrinkOthers(ws: seq<ForeignWrite>, live: Option<Object>, other: Manager)
    requires Live(live).WellFormed()
    requires forall w :: w in ws ==> !By(w, other)
    ensures Live(Writes(ws, live)).WellFormed()
    ensures Live(Writes(ws, live)).Owned(other) <= Live(live).Owned(other)
  {
    if ws != [] {
      var next := Write(ws[0], live);
      assert ws[0] in ws && !By(ws[0], other);
      assert forall w :: w in ws[1..] ==> w in ws;
      match ws[0] {
        case Applied(m, config) =>
          ApplyKeepsWellFormed(live, m, config);
          ApplyOnlyShrinksOthers(live, m, config, other);
        case Updated(m, fields) =>
          UpdateKeepsWellFormed(live, m, fields);
          UpdateOnlyShrinksOthers(live, m, fields, other);
        case Deleted =>
      }
      WritesOnlyShrinkOthers(ws[1..], next, other);
    }
  }
}
