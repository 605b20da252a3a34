/** Reading the inventory: ClusterConnection objects decoded into entries, and every entry
    whose claim another also makes held back. */
module Inventory {
  import opened Text
  import opened Api
  import opened Config

  /** A ClusterConnection as the API server returns it. A spec or status the Go types cannot
      decode is None. */
  datatype Connection = Connection(
    name: string,
    generation: int,
    spec: Option<Spec>,
    status: Option<Status>,
    adoptedAnnotation: string)

  datatype Entry = Entry(
    cluster: Cluster,
    generation: int,
    observedGeneration: int,
    status: Status,
    invalidReason: string,
    invalidCause: Reason)
  {
    predicate Edited() { generation != observedGeneration }

    predicate Valid() { invalidReason == "" }
  }

  function DecodeStatus(obj: Connection): Status {
    match obj.status
    case Some(s) => s
    case None => EmptyStatus
  }

  /** An entry the schema let through but that cannot be resolved is reported, never dropped;
      one that can be resolved always makes both claims. */
  function Decode(obj: Connection): (e: Entry)
    ensures e.Valid() ==> e.cluster.endpoint != "" && e.cluster.secretName != ""
    ensures !e.Valid() ==> e.cluster.endpoint == ""
  {
    var status := DecodeStatus(obj);
    var entry := Entry(Unresolved(obj.name), obj.generation, status.observedGeneration, status, "", NoReason);
    match obj.spec
    case None => entry.(invalidReason := "decoding clusterconnection", invalidCause := InvalidSpec)
    case Some(spec) =>
      match FromSpec(obj.name, spec)
      case Err(e) => entry.(invalidReason := "invalid spec: " + e, invalidCause := InvalidSpec)
      case Ok(cluster) => entry.(cluster := cluster.(adoptedRegistration := obj.adoptedAnnotation == "true"))
  }

  /** Everything an entry says comes of its object: what its spec resolves to, whether the
      registration was adopted, which is a mark on the object and not in the spec, and the status it
      carries; of one that does not resolve only the name is left, and it is the spec's fault. */
  lemma DecodesFaithfully(obj: Connection)
    ensures var e := Decode(obj);
      && e.cluster.name == obj.name && e.generation == obj.generation
      && (obj.status.Some? ==> e.status == obj.status.value) && (obj.status.None? ==> e.status == EmptyStatus)
      && (e.Edited() <==> obj.generation != e.status.observedGeneration)
      && (e.Valid() <==> obj.spec.Some? && FromSpec(obj.name, obj.spec.value).Ok?)
      && (if e.Valid()
          then (e.cluster.adoptedRegistration <==> obj.adoptedAnnotation == "true")
               && Ok(e.cluster.(adoptedRegistration := false)) == FromSpec(obj.name, obj.spec.value)
          else e.invalidCause == InvalidSpec && e.cluster == Unresolved(obj.name))
  {
  }

  // ---- Claims ---------------------------------------------------------------------------

  datatype ClaimKind = OnEndpoint | OnSecretName
  {
    function Of(e: Entry): string {
      match this
      case OnEndpoint => e.cluster.endpoint
      case OnSecretName => e.cluster.secretName
    }

    function Cause(): Reason {
      match this
      case OnEndpoint => EndpointConflict
      case OnSecretName => SecretNameConflict
    }

    function Describe(value: string, others: seq<string>): (message: string)
      ensures message != ""
    {
      match this
      case OnEndpoint => "endpoint " + Quote(value) + " is the same downstream cluster as " + QuotedList(others)
      case OnSecretName => "secretName " + Quote(value) + " is also claimed by " + QuotedList(others)
    }
  }

  function Quote(s: string): string { "\"" + s + "\"" }

  function QuotedList(names: seq<string>): string {
    if names == [] then ""
    else if |names| == 1 then Quote(names[0])
    else Quote(names[0]) + ", " + QuotedList(names[1..])
  }

  predicate Claims(e: Entry, kind: ClaimKind, value: string) {
    e.Valid() && value != "" && kind.Of(e) == value
  }

  function Contenders(es: seq<Entry>, kind: ClaimKind, value: string): seq<string> {
    if es == [] then []
    else
      var front := Contenders(es[..|es| - 1], kind, value);
      var last := es[|es| - 1];
      if Claims(last, kind, value) then front + [last.cluster.name] else front
  }

  function Without(names: seq<string>, name: string): seq<string> {
    if names == [] then []
    else
      var front := Without(names[..|names| - 1], name);
      if names[|names| - 1] != name then front + [names[|names| - 1]] else front
  }

  /** What one pass over an inventory makes of one of its entries. */
  function VerdictOn(e: Entry, es: seq<Entry>, kind: ClaimKind): Entry {
    var contenders := Contenders(es, kind, kind.Of(e));
    if !e.Valid() || |contenders| < 2 then e
    else e.(invalidReason := kind.Describe(kind.Of(e), Sort(Without(contenders, e.cluster.name))),
            invalidCause := kind.Cause())
  }

  function Blocked(es: seq<Entry>, kind: ClaimKind): seq<Entry> {
    Map(e => VerdictOn(e, es, kind), es)
  }

  function DecodeAll(objects: seq<Connection>): seq<Entry> {
    Map(obj => Decode(obj), objects)
  }

  /** What List returns for the objects in a namespace. */
  function Listed(objects: seq<Connection>): seq<Entry> {
    Blocked(Blocked(DecodeAll(objects), OnEndpoint), OnSecretName)
  }

  // ---- The in-place loops ------------------------------------------------------------------

  /** Every claimed value with its claimants' names, in list order. */
  ghost predicate Tallied(claimants: map<string, seq<string>>, es: seq<Entry>, kind: ClaimKind) {
    forall v {:trigger Contenders(es, kind, v)} ::
      Contenders(es, kind, v) == if v in claimants then claimants[v] else []
  }

  lemma TallyStep(claimants: map<string, seq<string>>, es: seq<Entry>, e: Entry, kind: ClaimKind)
    requires Tallied(claimants, es, kind)
    ensures var value := kind.Of(e);
      var sofar := if value in claimants then claimants[value] else [];
      Tallied(if e.Valid() && value != "" then claimants[value := sofar + [e.cluster.name]] else claimants,
              es + [e], kind)
  {
    assert (es + [e])[..|es + [e]| - 1] == es;
  }

  method Tally(entries: array<Entry>, kind: ClaimKind) returns (claimants: map<string, seq<string>>)
    ensures Tallied(claimants, entries[..], kind)
  {
    claimants := map[];
    for i := 0 to entries.Length
      invariant Tallied(claimants, entries[..i], kind)
    {
      var entry := entries[i];
      var value := kind.Of(entry);
      TallyStep(claimants, entries[..i], entry, kind);
      assert entries[..i + 1] == entries[..i] + [entry];
      if entry.invalidReason != "" || value == "" {
        continue;
      }
      var sofar := if value in claimants then claimants[value] else [];
      claimants := claimants[value := sofar + [entry.cluster.name]];
    }
    assert entries[..entries.Length] == entries[..];
  }

  method Others(contenders: seq<string>, name: string) returns (others: seq<string>)
    ensures others == Sort(Without(contenders, name))
  {
    others := [];
    for k := 0 to |contenders|
      invariant others == Without(contenders[..k], name)
    {
      assert contenders[..k + 1][..k] == contenders[..k];
      if contenders[k] != name {
        others := others + [contenders[k]];
      }
    }
    assert contenders[..|contenders|] == contenders;
    others := Sort(others);
  }

  /** The verdict on one valid entry, given everybody's claims. */
  method Judge(e: Entry, claimants: map<string, seq<string>>, ghost es: seq<Entry>, kind: ClaimKind) returns (r: Entry)
    requires e.Valid() && Tallied(claimants, es, kind)
    ensures r == VerdictOn(e, es, kind)
    ensures r == e.(invalidReason := r.invalidReason, invalidCause := r.invalidCause)
  {
    var value := kind.Of(e);
    var contenders := if value in claimants then claimants[value] else [];
    assert contenders == Contenders(es, kind, value);
    if |contenders| < 2 {
      return e;
    }
    var others := Others(contenders, e.cluster.name);
    return e.(invalidReason := kind.Describe(value, others), invalidCause := kind.Cause());
  }

  method BlockContested(entries: array<Entry>, kind: ClaimKind)
    modifies entries
    ensures entries[..] == Blocked(old(entries[..]), kind)
  {
    ghost var was := entries[..];
    var claimants := Tally(entries, kind);
    for i := 0 to entries.Length
      invariant forall k :: i <= k < entries.Length ==> entries[k] == was[k]
      invariant forall k :: 0 <= k < i ==> entries[k] == VerdictOn(was[k], was, kind)
    {
      if entries[i].invalidReason != "" {
        continue;
      }
      var verdict := Judge(entries[i], claimants, was, kind);
      entries[i] := entries[i].(invalidReason := verdict.invalidReason, invalidCause := verdict.invalidCause);
    }
  }

  method List(objects: seq<Connection>) returns (entries: array<Entry>)
    ensures fresh(entries) && entries[..] == Listed(objects)
  {
    var blank := Entry(Unresolved(""), 0, 0, EmptyStatus, "", NoReason);
    entries := MapInto(obj => Decode(obj), objects, blank);
    BlockContested(entries, OnEndpoint);
    BlockContested(entries, OnSecretName);
  }

  // ---- What the two passes amount to ----------------------------------------------------------

  /** Entry i makes a claim another valid entry also makes. */
  ghost predicate Shares(es: seq<Entry>, kind: ClaimKind, i: nat)
    requires i < |es|
  {
    es[i].Valid() && exists j :: 0 <= j < |es| && j != i && Claims(es[j], kind, kind.Of(es[i]))
  }

  lemma {:induction false} ContendersNames(es: seq<Entry>, kind: ClaimKind, value: string, name: string)
    ensures name in Contenders(es, kind, value)
      <==> exists j :: 0 <= j < |es| && Claims(es[j], kind, value) && es[j].cluster.name == name
  {
    if es != [] {
      ContendersNames(es[..|es| - 1], kind, value, name);
      var front := es[..|es| - 1];
      assert forall j :: 0 <= j < |front| ==> front[j] == es[j];
    }
  }

  lemma {:induction false} ContendersCount(es: seq<Entry>, kind: ClaimKind, value: string)
    ensures |Contenders(es, kind, value)| == 0 <==> forall j :: 0 <= j < |es| ==> !Claims(es[j], kind, value)
    ensures |Contenders(es, kind, value)| >= 2
      <==> exists i, j :: 0 <= i < j < |es| && Claims(es[i], kind, value) && Claims(es[j], kind, value)
  {
    if es != [] {
      var front := es[..|es| - 1];
      ContendersCount(front, kind, value);
      assert forall j :: 0 <= j < |front| ==> front[j] == es[j];
      if |Contenders(es, kind, value)| >= 2 && |Contenders(front, kind, value)| < 2 {
        var i :| 0 <= i < |front| && Claims(front[i], kind, value);
        assert Claims(es[i], kind, value) && Claims(es[|es| - 1], kind, value);
      }
    }
  }

  lemma OnePassExactly(es: seq<Entry>, kind: ClaimKind, i: nat)
    requires i < |es|
    ensures var e := Blocked(es, kind)[i];
      && e == es[i].(invalidReason := e.invalidReason, invalidCause := e.invalidCause)
      && (Shares(es, kind, i) ==> !e.Valid() && e.invalidCause == kind.Cause())
      && (!Shares(es, kind, i) ==> e == es[i])
  {
    var value := kind.Of(es[i]);
    ContendersCount(es, kind, value);
    if es[i].Valid() && |Contenders(es, kind, value)| >= 2 {
      var a, b :| 0 <= a < b < |es| && Claims(es[a], kind, value) && Claims(es[b], kind, value);
      assert a != i || b != i;
      assert Shares(es, kind, i);
    } else {
      assert forall j :: 0 <= j < |es| && j != i && Claims(es[j], kind, value) && es[i].Valid() ==>
        Claims(es[i], kind, value);
    }
  }

  /** An entry ends up held back exactly when its spec did not resolve, another resolvable
      entry names its endpoint, or -- neither of those -- another entry not held back by the
      endpoint claims its Secret; and its cause says which. */
  lemma ContestedExactly(objects: seq<Connection>, i: nat)
    requires i < |objects|
    ensures var es := DecodeAll(objects);
      var fs := Blocked(es, OnEndpoint);
      var e := Listed(objects)[i];
      && e == es[i].(invalidReason := e.invalidReason, invalidCause := e.invalidCause)
      && (!e.Valid() <==> !es[i].Valid() || Shares(es, OnEndpoint, i) || Shares(fs, OnSecretName, i))
      && (!es[i].Valid() ==> e == es[i])
      && (Shares(es, OnEndpoint, i) ==> e.invalidCause == EndpointConflict)
      && (Shares(fs, OnSecretName, i) ==> !Shares(es, OnEndpoint, i) && e.invalidCause == SecretNameConflict)
  {
    OnePassExactly(DecodeAll(objects), OnEndpoint, i);
    OnePassExactly(Blocked(DecodeAll(objects), OnEndpoint), OnSecretName, i);
  }

  /** No two entries left to reconcile name one cluster or write one Secret. */
  lemma SurvivorsAreDistinct(objects: seq<Connection>, i: nat, j: nat)
    requires i < |objects| && j < |objects| && i != j
    requires Listed(objects)[i].Valid() && Listed(objects)[j].Valid()
    ensures Listed(objects)[i].cluster.endpoint != Listed(objects)[j].cluster.endpoint
    ensures Listed(objects)[i].cluster.secretName != Listed(objects)[j].cluster.secretName
  {
    var es := DecodeAll(objects);
    var fs := Blocked(es, OnEndpoint);
    ContestedExactly(objects, i);
    ContestedExactly(objects, j);
    OnePassExactly(es, OnEndpoint, i);
    OnePassExactly(es, OnEndpoint, j);
    OnePassExactly(fs, OnSecretName, i);
    OnePassExactly(fs, OnSecretName, j);
    assert fs[i] == es[i] && fs[j] == es[j];
    assert Claims(es[i], OnEndpoint, es[i].cluster.endpoint) && Claims(es[j], OnEndpoint, es[j].cluster.endpoint);
    assert Claims(fs[i], OnSecretName, fs[i].cluster.secretName) && Claims(fs[j], OnSecretName, fs[j].cluster.secretName);
  }

  /** A survivor is the only resolvable object naming its endpoint: one that is held back
      never shares a cluster with one that is reconciled. */
  lemma SurvivorOwnsItsEndpoint(objects: seq<Connection>, i: nat, j: nat)
    requires i < |objects| && j < |objects| && i != j
    requires Listed(objects)[i].Valid()
    ensures Decode(objects[j]).cluster.endpoint != Listed(objects)[i].cluster.endpoint
  {
    var es := DecodeAll(objects);
    ContestedExactly(objects, i);
    assert es[j].cluster.endpoint == es[i].cluster.endpoint ==> Claims(es[j], OnEndpoint, OnEndpoint.Of(es[i]));
  }

  lemma {:induction false} WithoutNames(names: seq<string>, name: string, other: string)
    ensures other in Without(names, name) <==> other in names && other != name
  {
    if names != [] {
      WithoutNames(names[..|names| - 1], name, other);
      assert names == names[..|names| - 1] + [names[|names| - 1]];
    }
  }

  /** The names a conflict's message lists: exactly the other claimants. */
  lemma MessageNamesTheRivals(es: seq<Entry>, kind: ClaimKind, i: nat, other: string)
    requires i < |es| && Shares(es, kind, i)
    ensures var rivals := Sort(Without(Contenders(es, kind, kind.Of(es[i])), es[i].cluster.name));
      && Blocked(es, kind)[i].invalidReason == kind.Describe(kind.Of(es[i]), rivals)
      && ((other in rivals)
          == (other != es[i].cluster.name
              && exists j :: 0 <= j < |es| && Claims(es[j], kind, kind.Of(es[i])) && es[j].cluster.name == other))
  {
    OnePassExactly(es, kind, i);
    var contenders := Contenders(es, kind, kind.Of(es[i]));
    ContendersNames(es, kind, kind.Of(es[i]), other);
    WithoutNames(contenders, es[i].cluster.name, other);
    var rivals := Sort(Without(contenders, es[i].cluster.name));
    assert other in rivals <==> other in multiset(rivals);
    assert other in Without(contenders, es[i].cluster.name) <==> other in multiset(Without(contenders, es[i].cluster.name));
  }

  // ---- The order the API lists in makes no difference ----------------------------------------

  lemma {:induction false} ContendersOfConcat(a: seq<Entry>, b: seq<Entry>, kind: ClaimKind, value: string)
    ensures Contenders(a + b, kind, value) == Contenders(a, kind, value) + Contenders(b, kind, value)
  {
    if b == [] {
      assert a + b == a;
    } else {
      ContendersOfConcat(a, b[..|b| - 1], kind, value);
      assert (a + b)[..|a + b| - 1] == a + b[..|b| - 1];
    }
  }

  lemma ContendersWithoutOne(b: seq<Entry>, k: nat, kind: ClaimKind, value: string)
    requires k < |b|
    ensures multiset(Contenders(b, kind, value))
      == multiset(Contenders(b[..k] + b[k + 1..], kind, value))
         + (if Claims(b[k], kind, value) then multiset{b[k].cluster.name} else multiset{})
  {
    ContendersOfConcat(b[..k], b[k + 1..], kind, value);
    assert b == b[..k + 1] + b[k + 1..] && b[..k + 1][..k] == b[..k];
    ContendersOfConcat(b[..k + 1], b[k + 1..], kind, value);
  }

  lemma {:induction false} ContendersOfPermutation(a: seq<Entry>, b: seq<Entry>, kind: ClaimKind, value: string)
    requires multiset(a) == multiset(b)
    ensures multiset(Contenders(a, kind, value)) == multiset(Contenders(b, kind, value))
    decreases |a|
  {
    if a == [] {
      assert |multiset(b)| == 0;
    } else {
      var k := LastOf(a, b);
      ContendersOfPermutation(a[..|a| - 1], b[..k] + b[k + 1..], kind, value);
      ContendersWithoutOne(b, k, kind, value);
    }
  }

  lemma {:induction false} WithoutCounts(a: seq<string>, name: string)
    ensures multiset(Without(a, name)) == multiset(a)[name := 0]
  {
    if a != [] {
      WithoutCounts(a[..|a| - 1], name);
      assert a == a[..|a| - 1] + [a[|a| - 1]];
    }
  }

  lemma VerdictIgnoresOrder(e: Entry, a: seq<Entry>, b: seq<Entry>, kind: ClaimKind)
    requires multiset(a) == multiset(b)
    ensures VerdictOn(e, a, kind) == VerdictOn(e, b, kind)
  {
    var x, y := Contenders(a, kind, kind.Of(e)), Contenders(b, kind, kind.Of(e));
    ContendersOfPermutation(a, b, kind, kind.Of(e));
    assert |x| == |multiset(x)| == |multiset(y)| == |y|;
    WithoutCounts(x, e.cluster.name);
    WithoutCounts(y, e.cluster.name);
    SortedIsCanonical(Sort(Without(x, e.cluster.name)), Sort(Without(y, e.cluster.name)));
  }

  lemma BlockedOfPermutation(a: seq<Entry>, b: seq<Entry>, kind: ClaimKind)
    requires multiset(a) == multiset(b)
    ensures multiset(Blocked(a, kind)) == multiset(Blocked(b, kind))
  {
    forall e {
      VerdictIgnoresOrder(e, a, b, kind);
    }
    MapOfPermutation(e => VerdictOn(e, a, kind), e => VerdictOn(e, b, kind), a, b);
  }

  /** Verdict, cause and message of an object are the same however the API lists the others:
      no position in the list makes a claimant the owner. */
  lemma ListOrderIsImmaterial(a: seq<Connection>, b: seq<Connection>, i: nat, j: nat)
    requires multiset(a) == multiset(b)
    requires i < |a| && j < |b| && a[i] == b[j]
    ensures Listed(a)[i] == Listed(b)[j]
  {
    var es, fs := DecodeAll(a), DecodeAll(b);
    MapOfPermutation(obj => Decode(obj), obj => Decode(obj), a, b);
    BlockedOfPermutation(es, fs, OnEndpoint);
    VerdictIgnoresOrder(es[i], es, fs, OnEndpoint);
    VerdictIgnoresOrder(Blocked(es, OnEndpoint)[i], Blocked(es, OnEndpoint), Blocked(fs, OnEndpoint), OnSecretName);
  }

  // ---- Spellings of one endpoint -----------------------------------------------------------------

  predicate WritesEndpoint(obj: Connection, s: Spelling) {
    obj.spec.Some? && obj.spec.value.endpoint == s.Written() && Decode(obj).Valid()
  }

  lemma ResolvedEndpoint(obj: Connection, s: Spelling)
    requires WritesEndpoint(obj, s)
    ensures Claim(s) == Ok(Decode(obj).cluster.endpoint)
  {
    ResolvedFromEndpoint(obj.name, obj.spec.value);
  }

  /** Two connections that name one server are both held back, however each spells it, as
      long as neither writes its port with a leading zero. */
  lemma DuplicatesAreHeldBack(objects: seq<Connection>, i: nat, j: nat, a: Spelling, b: Spelling)
    requires i < |objects| && j < |objects| && i != j
    requires a.Valid() && b.Valid() && !a.LeadingZero() && !b.LeadingZero() && SameServer(a, b)
    requires WritesEndpoint(objects[i], a) && WritesEndpoint(objects[j], b)
    ensures !Listed(objects)[i].Valid() && Listed(objects)[i].invalidCause == EndpointConflict
    ensures !Listed(objects)[j].Valid() && Listed(objects)[j].invalidCause == EndpointConflict
  {
    OneClaimPerServer(a, b);
    ResolvedEndpoint(objects[i], a);
    ResolvedEndpoint(objects[j], b);
    var es := DecodeAll(objects);
    assert Claims(es[j], OnEndpoint, OnEndpoint.Of(es[i])) && Claims(es[i], OnEndpoint, OnEndpoint.Of(es[j]));
    ContestedExactly(objects, i);
    ContestedExactly(objects, j);
  }

  lemma SameSpecElsewhere(obj: Connection, name: string, endpoint: string, secretName: string)
    requires Decode(obj).Valid() && 1 <= |name| <= MAX_CLUSTER_NAME_LENGTH && secretName != ""
    requires NormaliseEndpoint(endpoint).Ok?
    ensures var other := Decode(obj.(name := name, spec := Some(obj.spec.value.(endpoint := endpoint, secretName := secretName))));
      && other.Valid() && Ok(other.cluster.endpoint) == NormaliseEndpoint(endpoint)
      && other.cluster.secretName == secretName
  {
    var spec := obj.spec.value;
    ResolvedElsewhere(obj.name, spec, name, spec.(endpoint := endpoint, secretName := secretName),
                      NormaliseEndpoint(endpoint));
  }

  lemma DistinctClaimsBothSurvive(a: Connection, b: Connection)
    requires Decode(a).Valid() && Decode(b).Valid()
    requires Decode(a).cluster.endpoint != Decode(b).cluster.endpoint
    requires Decode(a).cluster.secretName != Decode(b).cluster.secretName
    ensures Listed([a, b])[0].Valid() && Listed([a, b])[1].Valid()
  {
    var es := DecodeAll([a, b]);
    assert es[0] == Decode(a) && es[1] == Decode(b);
    OnePassExactly(es, OnEndpoint, 0);
    OnePassExactly(es, OnEndpoint, 1);
    assert !Shares(es, OnEndpoint, 0) && !Shares(es, OnEndpoint, 1);
    assert Blocked(es, OnEndpoint) == es;
    assert !Shares(es, OnSecretName, 0) && !Shares(es, OnSecretName, 1);
    ContestedExactly([a, b], 0);
    ContestedExactly([a, b], 1);
  }

  /** A leading zero defeats it: for any connection that writes one there is a second
      connection to the same server that is reconciled beside it. */
  lemma LeadingZeroDuplicateSlipsThrough(obj: Connection, a: Spelling) returns (rival: Connection, b: Spelling)
    requires a.Valid() && a.LeadingZero() && WritesEndpoint(obj, a)
    ensures b.Valid() && SameServer(a, b) && WritesEndpoint(rival, b) && rival.name != obj.name
    ensures Listed([obj, rival])[0].Valid() && Listed([obj, rival])[1].Valid()
  {
    b := LeadingZeroSplitsAServer(a);
    SpellingResolves(b);
    var name := if obj.name == "x" then "y" else "x";
    var secret := if Decode(obj).cluster.secretName == "cluster-x" then "cluster-y" else "cluster-x";
    rival := obj.(name := name, spec := Some(obj.spec.value.(endpoint := b.Written(), secretName := secret)));
    ResolvedEndpoint(obj, a);
    SameSpecElsewhere(obj, name, b.Written(), secret);
    DistinctClaimsBothSurvive(obj, rival);
  }
}
