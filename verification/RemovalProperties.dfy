/** What a removal may touch, what it leaves, and how far a dry run can be believed. */
module RemovalProperties {
  import opened Text
  import opened Api
  import opened Credentials
  import opened Removal
  import opened RemovalSteps
  import Config
  import Inventory
  import D = Downstream

  // ---- A shared endpoint ------------------------------------------------------------------------------

  /** Another object resolves to this endpoint. */
  ghost predicate Shared(objects: seq<Inventory.Connection>, name: string, endpoint: string) {
    exists j :: 0 <= j < |objects| && objects[j].name != name && Inventory.Decode(objects[j]).cluster.endpoint == endpoint
  }

  lemma {:induction false} CollisionFound(es: seq<Inventory.Entry>, name: string, endpoint: string)
    requires endpoint != ""
    ensures EndpointCollision(es, name, endpoint).Some? <==>
      exists j :: 0 <= j < |es| && es[j].cluster.name != name && es[j].cluster.endpoint == endpoint
  {
    if es != [] {
      CollisionFound(es[..|es| - 1], name, endpoint);
      assert forall j :: 0 <= j < |es| - 1 ==> es[..|es| - 1][j] == es[j];
    }
  }

  lemma ListedEntry(objects: seq<Inventory.Connection>, j: nat)
    requires j < |objects|
    ensures j < |Inventory.Listed(objects)|
    ensures Inventory.Listed(objects)[j].cluster == Inventory.Decode(objects[j]).cluster
    ensures Inventory.Listed(objects)[j].cluster.name == objects[j].name
  {
    Inventory.ContestedExactly(objects, j);
  }

  /** The guard finds a rival exactly when another object resolves to the endpoint, whatever
      verdict the list has put on it. */
  lemma CollisionIsByEndpoint(objects: seq<Inventory.Connection>, name: string, endpoint: string)
    requires endpoint != ""
    ensures EndpointCollision(Inventory.Listed(objects), name, endpoint).Some? <==> Shared(objects, name, endpoint)
  {
    var es := Inventory.Listed(objects);
    CollisionFound(es, name, endpoint);
    assert |es| == |objects|;
    forall j | 0 <= j < |objects|
      ensures es[j].cluster == Inventory.Decode(objects[j]).cluster && es[j].cluster.name == objects[j].name
    {
      ListedEntry(objects, j);
    }
    if Shared(objects, name, endpoint) {
      var j :| 0 <= j < |objects| && objects[j].name != name && Inventory.Decode(objects[j]).cluster.endpoint == endpoint;
      assert es[j].cluster.name != name && es[j].cluster.endpoint == endpoint;
    }
  }

  /** Two that share an endpoint are both marked invalid in the list. */
  lemma BothAreMarked(objects: seq<Inventory.Connection>, i: nat, j: nat)
    requires i < |objects| && j < |objects| && i != j
    requires Inventory.Decode(objects[i]).Valid() && Inventory.Decode(objects[j]).Valid()
    requires Inventory.Decode(objects[i]).cluster.endpoint == Inventory.Decode(objects[j]).cluster.endpoint
    ensures !Inventory.Listed(objects)[i].Valid() && !Inventory.Listed(objects)[j].Valid()
  {
    if Inventory.Listed(objects)[i].Valid() { Inventory.SurvivorOwnsItsEndpoint(objects, i, j); }
    if Inventory.Listed(objects)[j].Valid() { Inventory.SurvivorOwnsItsEndpoint(objects, j, i); }
  }

  // ---- What is to be removed --------------------------------------------------------------------------

  /** Where the object is gone or does not resolve, the names are those the command is given, or else
      the ones everything is called by default; a name too long for a Secret is refused. */
  lemma ConventionalNames(name: string, f: Fallback)
    ensures var r := RemovalCluster(name, f);
      && (r.Ok? <==> 0 < |name| <= 63)
      && (r.Ok? ==>
            var c := r.value;
            && c.name == name && Config.Chosen(f.secretName, "cluster-" + name, c.secretName)
            && Config.Chosen(f.selfServiceAccountName, "k2a-token-sync", c.selfServiceAccountName)
            && Config.Chosen(f.serviceAccountName, "argocd-manager", c.serviceAccount.name)
            && Config.Chosen(f.serviceAccountNamespace, "kube-system", c.serviceAccount.namespace))
  {
  }

  /** The names are the ones the daemon would go by exactly if the object could be read and its spec
      resolves by itself, whoever else claims its endpoint or its Secret; else the conventional ones. */
  lemma ResolvesTheTarget(site: Site, p: Params, readable: bool)
    ensures var t := ResolveTarget(site, p, readable);
      && (t.Target? && !t.usedFallback <==> readable && Resolves(site, p))
      && (t.Target? && !t.usedFallback ==> t.cluster == Inventory.Decode(site.connections[p.clusterName]).cluster)
      && (t.Target? && t.usedFallback <==> readable && !Resolves(site, p) && 0 < |p.clusterName| <= 63)
      && (t.Target? && t.usedFallback ==> Config.Ok(t.cluster) == RemovalCluster(p.clusterName, p.fallback))
  {
    ConventionalNames(p.clusterName, p.fallback);
  }

  /** Nothing is touched exactly if it is not known what to remove, or whether somebody else still
      depends on the downstream cluster -- which is asked only where the object resolved and that
      half is to go. */
  lemma AbortsExactly(site: Site, p: Params, calls: Calls)
    ensures Execute(site, p, calls).1.Aborted?
      <==> || !calls.readConnection
           || (!Resolves(site, p) && !(0 < |p.clusterName| <= 63))
           || (Resolves(site, p) && !p.skipDownstream && calls.list.None?)
  {
    ResolvesTheTarget(site, p, calls.readConnection);
    var t := ResolveTarget(site, p, calls.readConnection);
    if t.Target? && !CollisionOf(t, p, calls).CannotList? { ExecuteParts(site, p, calls); }
  }

  predicate Resolves(site: Site, p: Params) {
    p.clusterName in site.connections && Inventory.Decode(site.connections[p.clusterName]).Valid()
  }

  // ---- A removal, step by step ---------------------------------------------------------------------------

  function LocalScript(p: Params, c: Config.Cluster, registration: Option<Why>, credential: Option<Why>, calls: Calls): seq<Step> {
    [Step(calls.At(BeforeConnection), OnConnection(c.name, calls.connection))]
    + [Step(calls.At(BeforeRegistration), if registration.Some? then Pause else OnSecret(RegistrationKey(p, c), calls.registration))]
    + [Step(calls.At(BeforeCredential), if credential.Some? then Pause else OnSecret(CredentialKey(p, c), calls.credential))]
  }

  function DownstreamScript(c: Config.Cluster, calls: Calls): seq<Step> {
    [Step(calls.At(BeforeBinding), OnBinding(BindingName(c), calls.binding))]
    + [Step(calls.At(BeforeAccount), OnAccount(Account(c), calls.account))]
    + [Step(calls.At(BeforeSelfBinding), OnBinding(c.selfServiceAccountName, calls.selfBinding))]
    + [Step(calls.At(BeforeSelfRole), OnRole(c.selfServiceAccountName, calls.selfRole))]
    + [Step(calls.At(BeforeSelfAccount), OnAccount(SelfAccount(c), calls.selfAccount))]
  }

  function RecheckScript(p: Params, c: Config.Cluster, registration: Option<Why>, calls: Calls): seq<Step> {
    [Step(calls.At(BeforeRecheck), if p.dryRun || registration.Some? then Pause else OnSecret(RegistrationKey(p, c), calls.recheck))]
  }

  /** The steps of a removal, given what its guards read up front. */
  function Script(site: Site, p: Params, c: Config.Cluster, collision: Collision, calls: Calls): seq<Step> {
    var registration := RegistrationRefusal(site, RegistrationKey(p, c), c.name, calls.readRegistration);
    var credential := CredentialRefusal(site, CredentialKey(p, c), c.name, calls.readCredential);
    LocalScript(p, c, registration, credential, calls)
    + (if p.skipDownstream || collision.CollidesWith? then [] else DownstreamScript(c, calls))
    + RecheckScript(p, c, registration, calls)
  }

  lemma PlayFirst(site: Site, step: Step, dryRun: bool)
    ensures Play(site, [step], dryRun) == Do(Finds(site, step), step.act, dryRun).0
  {
    PlayOne(site, [], step, dryRun);
    assert [] + [step] == [step];
  }

  lemma LocalPlays(site: Site, p: Params, c: Config.Cluster, calls: Calls)
    ensures var registration := RegistrationRefusal(site, RegistrationKey(p, c), c.name, calls.readRegistration);
      var credential := CredentialRefusal(site, CredentialKey(p, c), c.name, calls.readCredential);
      Play(site, LocalScript(p, c, registration, credential, calls), p.dryRun) == LocalHalf(site, p, c, calls).0
  {
    var registration := RegistrationRefusal(site, RegistrationKey(p, c), c.name, calls.readRegistration);
    var credential := CredentialRefusal(site, CredentialKey(p, c), c.name, calls.readCredential);
    var steps := LocalScript(p, c, registration, credential, calls);
    PlayFirst(site, steps[0], p.dryRun);
    PlayOne(site, [steps[0]], steps[1], p.dryRun);
    PlayOne(site, [steps[0]] + [steps[1]], steps[2], p.dryRun);
  }

  /** The state after one step, and how its call ended. */
  function After(site: Site, step: Step, dryRun: bool): (Site, D.Deletion) { Do(Finds(site, step), step.act, dryRun) }

  lemma FivePlay(site: Site, a: Step, b: Step, c: Step, d: Step, e: Step, dryRun: bool)
    ensures var (s1, d1) := After(site, a, dryRun);
      var (s2, d2) := After(s1, b, dryRun);
      var (s3, d3) := After(s2, c, dryRun);
      var (s4, d4) := After(s3, d, dryRun);
      var (s5, d5) := After(s4, e, dryRun);
      var steps := [a] + [b] + [c] + [d] + [e];
      && Play(site, steps, dryRun) == s5
      && (!dryRun && !d1.Failed? && !d2.Failed? && !d3.Failed? && !d4.Failed? && !d5.Failed? ==> AllAnswered(site, steps))
  {
    PlayFirst(site, a, dryRun);
    PlayOne(site, [a], b, dryRun);
    PlayOne(site, [a] + [b], c, dryRun);
    PlayOne(site, [a] + [b] + [c], d, dryRun);
    PlayOne(site, [a] + [b] + [c] + [d], e, dryRun);
    var (s1, d1) := After(site, a, dryRun);
    var (s2, d2) := After(s1, b, dryRun);
    var (s3, d3) := After(s2, c, dryRun);
    var (s4, d4) := After(s3, d, dryRun);
    var (s5, d5) := After(s4, e, dryRun);
    if !dryRun && !d1.Failed? && !d2.Failed? && !d3.Failed? && !d4.Failed? && !d5.Failed? {
      AnsweredOne(site, [], a);
      assert [] + [a] == [a];
      AnsweredOne(site, [a], b);
      AnsweredOne(site, [a] + [b], c);
      AnsweredOne(site, [a] + [b] + [c], d);
      AnsweredOne(site, [a] + [b] + [c] + [d], e);
    }
  }

  lemma FirstSteps(site: Site, c: Config.Cluster, dryRun: bool, calls: Calls)
    ensures var steps := DownstreamScript(c, calls);
      var (s1, d1) := After(site, steps[0], dryRun);
      var (s2, d2) := After(s1, steps[1], dryRun);
      RemoveArgoCDIdentity(site, c, dryRun, calls) == (s2, d1, d2)
  {
  }

  lemma StepsAreDeletes(site: Site, o: Others, name: string, who: D.AccountName, dryRun: bool,
                        b: D.DeleteEnv<D.Binding>, r: D.DeleteEnv<D.Role>, a: D.DeleteEnv<D.Account>)
    ensures After(site, Step(o, OnBinding(name, b)), dryRun) == RemoveBinding(Meanwhile(site, o), name, dryRun, b)
    ensures After(site, Step(o, OnRole(name, r)), dryRun) == RemoveRole(Meanwhile(site, o), name, dryRun, r)
    ensures After(site, Step(o, OnAccount(who, a)), dryRun) == RemoveAccount(Meanwhile(site, o), who, dryRun, a)
  {
  }

  lemma LastSteps(site: Site, c: Config.Cluster, dryRun: bool, calls: Calls)
    ensures var steps := DownstreamScript(c, calls);
      var (s3, d3) := After(site, steps[2], dryRun);
      var (s4, d4) := After(s3, steps[3], dryRun);
      var (s5, d5) := After(s4, steps[4], dryRun);
      RemoveSelfIdentity(site, c, dryRun, calls) == (s5, d3, d4, d5)
  {
    var name, who := c.selfServiceAccountName, SelfAccount(c);
    var b, r, a := calls.selfBinding, calls.selfRole, calls.selfAccount;
    StepsAreDeletes(site, calls.At(BeforeSelfBinding), name, who, dryRun, b, r, a);
    var s3 := RemoveBinding(Meanwhile(site, calls.At(BeforeSelfBinding)), name, dryRun, b).0;
    StepsAreDeletes(s3, calls.At(BeforeSelfRole), name, who, dryRun, b, r, a);
    var s4 := RemoveRole(Meanwhile(s3, calls.At(BeforeSelfRole)), name, dryRun, r).0;
    StepsAreDeletes(s4, calls.At(BeforeSelfAccount), name, who, dryRun, b, r, a);
  }

  lemma DownstreamSteps(site: Site, c: Config.Cluster, dryRun: bool, calls: Calls)
    ensures var steps := DownstreamScript(c, calls);
      var (s1, d1) := After(site, steps[0], dryRun);
      var (s2, d2) := After(s1, steps[1], dryRun);
      var (s3, d3) := After(s2, steps[2], dryRun);
      var (s4, d4) := After(s3, steps[3], dryRun);
      var (s5, d5) := After(s4, steps[4], dryRun);
      RemoveDownstream(site, c, dryRun, calls) == (s5, FiveDeletes(d1, d2, d3, d4, d5))
  {
    FirstSteps(site, c, dryRun, calls);
    LastSteps(RemoveArgoCDIdentity(site, c, dryRun, calls).0, c, dryRun, calls);
  }

  lemma DownstreamPlays(site: Site, c: Config.Cluster, dryRun: bool, calls: Calls)
    ensures Play(site, DownstreamScript(c, calls), dryRun) == RemoveDownstream(site, c, dryRun, calls).0
    ensures !dryRun && DownstreamItems(c, RemoveDownstream(site, c, dryRun, calls).1) == [] ==> AllAnswered(site, DownstreamScript(c, calls))
  {
    var steps := DownstreamScript(c, calls);
    DownstreamSteps(site, c, dryRun, calls);
    FivePlay(site, steps[0], steps[1], steps[2], steps[3], steps[4], dryRun);
    assert steps == [steps[0]] + [steps[1]] + [steps[2]] + [steps[3]] + [steps[4]];
    if !dryRun && DownstreamItems(c, RemoveDownstream(site, c, dryRun, calls).1) == [] {
      NoItemsMeansAnswered(c, RemoveDownstream(site, c, dryRun, calls).1);
    }
  }

  lemma NoItemsMeansAnswered(c: Config.Cluster, d: FiveDeletes)
    requires DownstreamItems(c, d) == []
    ensures !d.binding.Failed? && !d.account.Failed? && !d.selfBinding.Failed? && !d.selfRole.Failed? && !d.selfAccount.Failed?
  {
  }

  lemma RecheckPlays(site: Site, p: Params, c: Config.Cluster, registration: Option<Why>, calls: Calls)
    ensures Play(site, RecheckScript(p, c, registration, calls), p.dryRun) == Recheck(site, p, RegistrationKey(p, c), registration, calls).0
  {
    PlayFirst(site, RecheckScript(p, c, registration, calls)[0], p.dryRun);
  }

  lemma ExecuteParts(site: Site, p: Params, calls: Calls)
    requires ResolveTarget(site, p, calls.readConnection).Target?
    requires !CollisionOf(ResolveTarget(site, p, calls.readConnection), p, calls).CannotList?
    ensures var t := ResolveTarget(site, p, calls.readConnection);
      var c, collision := t.cluster, CollisionOf(t, p, calls);
      var registration := RegistrationRefusal(site, RegistrationKey(p, c), c.name, calls.readRegistration);
      var (s1, local) := LocalHalf(site, p, c, calls);
      var (s2, downstream) := DownstreamHalfOf(s1, p, c, collision, calls);
      var (s3, late) := Recheck(s2, p, RegistrationKey(p, c), registration, calls);
      Execute(site, p, calls) == (s3, Ran(local + downstream + late))
  {
  }

  lemma ScriptPlays(site: Site, p: Params, c: Config.Cluster, collision: Collision, calls: Calls)
    ensures var registration := RegistrationRefusal(site, RegistrationKey(p, c), c.name, calls.readRegistration);
      var s2 := DownstreamHalfOf(LocalHalf(site, p, c, calls).0, p, c, collision, calls).0;
      Play(site, Script(site, p, c, collision, calls), p.dryRun) == Recheck(s2, p, RegistrationKey(p, c), registration, calls).0
  {
    var registration := RegistrationRefusal(site, RegistrationKey(p, c), c.name, calls.readRegistration);
    var credential := CredentialRefusal(site, CredentialKey(p, c), c.name, calls.readCredential);
    var local := LocalScript(p, c, registration, credential, calls);
    var downstream := if p.skipDownstream || collision.CollidesWith? then [] else DownstreamScript(c, calls);
    LocalPlays(site, p, c, calls);
    var s1 := LocalHalf(site, p, c, calls).0;
    DownstreamPlays(s1, c, p.dryRun, calls);
    PlayParts(site, local, downstream, p.dryRun);
    var s2 := DownstreamHalfOf(s1, p, c, collision, calls).0;
    assert Play(s1, downstream, p.dryRun) == s2;
    RecheckPlays(s2, p, c, registration, calls);
    PlayParts(site, local + downstream, RecheckScript(p, c, registration, calls), p.dryRun);
  }

  /** Execute is its script, played among others' writes. */
  lemma ExecutePlays(site: Site, p: Params, calls: Calls)
    requires Execute(site, p, calls).1.Ran?
    ensures var t := ResolveTarget(site, p, calls.readConnection);
      t.Target? && Execute(site, p, calls).0 == Play(site, Script(site, p, t.cluster, CollisionOf(t, p, calls), calls), p.dryRun)
  {
    var t := ResolveTarget(site, p, calls.readConnection);
    ScriptPlays(site, p, t.cluster, CollisionOf(t, p, calls), calls);
    ExecuteParts(site, p, calls);
  }

  // ---- Nothing but what is ours -------------------------------------------------------------------------

  /** The eight names a removal is about. */
  function Names(p: Params, c: Config.Cluster): set<What> {
    {ConnectionObject(c.name), SecretObject(RegistrationKey(p, c)), SecretObject(CredentialKey(p, c)),
     BindingObject(BindingName(c)), AccountObject(Account(c)),
     BindingObject(c.selfServiceAccountName), RoleObject(c.selfServiceAccountName), AccountObject(SelfAccount(c))}
  }

  lemma ScriptAimsAtNames(site: Site, p: Params, c: Config.Cluster, collision: Collision, calls: Calls, i: nat)
    requires i < |Script(site, p, c, collision, calls)|
    ensures var aim := Script(site, p, c, collision, calls)[i].act.Aim(); aim.Some? ==> aim.value in Names(p, c)
  {
  }

  /** Whatever fails and whatever others write or delete before, between and during its calls:
      a removal leaves every object as others alone would have left it, except that it may take
      away the one connection it names and, under the names it resolved, what it has just read
      this tool's label on -- in a dry run not even that. */
  lemma OnlyOursIsDeleted(site: Site, p: Params, calls: Calls, what: What)
    ensures var (after, result) := Execute(site, p, calls);
      && (result == Aborted ==> after == site)
      && (result.Ran? ==>
            && ResolveTarget(site, p, calls.readConnection).Target?
            && var t := ResolveTarget(site, p, calls.readConnection);
               var script, now := Script(site, p, t.cluster, CollisionOf(t, p, calls), calls), ObjectAt(after, what);
               || now == ObjectAt(OthersOnly(site, script), what)
               || (what in Names(p, t.cluster)
                   && exists i :: 0 <= i < |script| && Took(site, script, p.dryRun, i, what, now)))
  {
    if Execute(site, p, calls).1.Ran? {
      ExecutePlays(site, p, calls);
      var t := ResolveTarget(site, p, calls.readConnection);
      var collision := CollisionOf(t, p, calls);
      var script, now := Script(site, p, t.cluster, collision, calls), ObjectAt(Execute(site, p, calls).0, what);
      OnlyLabelledGoes(site, script, p.dryRun, what);
      if i :| 0 <= i < |script| && Took(site, script, p.dryRun, i, what, now) {
        ScriptAimsAtNames(site, p, t.cluster, collision, calls, i);
      }
    }
  }

  // ---- Another connection's Secrets ------------------------------------------------------------------

  /** What stands in the way of deleting a Secret, going by its label and by whose it `says` it is. */
  predicate Obstacle(site: Site, key: SecretKey, says: Held -> string, name: string, readable: bool, why: Why) {
    match why
    case Unverified => !readable
    case NotManaged => readable && key in site.secrets && !site.secrets[key].managed
    case BelongsTo(owner) => readable && key in site.secrets && site.secrets[key].managed
      && owner == says(site.secrets[key]) && owner != "" && owner != name
    case _ => false
  }

  /** Nothing does: it could be looked at, and is absent, or labelled as this tool's and either says
      nothing of whose it is or says it is the named connection's. */
  predicate Clear(site: Site, key: SecretKey, says: Held -> string, name: string, readable: bool) {
    readable && (key in site.secrets ==> site.secrets[key].managed && (says(site.secrets[key]) == "" || says(site.secrets[key]) == name))
  }

  const Annotated: Held -> string := (held: Held) => held.annotated
  const LabelledAs: Held -> string := (held: Held) => held.labelled

  predicate RegistrationIsClear(site: Site, p: Params, c: Config.Cluster, calls: Calls) {
    Clear(site, SecretKey(p.argocdNamespace, c.secretName), Annotated, c.name, calls.readRegistration)
  }

  predicate CredentialIsClear(site: Site, p: Params, c: Config.Cluster, calls: Calls) {
    Clear(site, SecretKey(p.namespace, c.name + "-credentials"), LabelledAs, c.name, calls.readCredential)
  }

  lemma GuardsAreExact(site: Site, key: SecretKey, name: string, readable: bool, why: Why)
    ensures RegistrationRefusal(site, key, name, readable) == Some(why) <==> Obstacle(site, key, Annotated, name, readable, why)
    ensures CredentialRefusal(site, key, name, readable) == Some(why) <==> Obstacle(site, key, LabelledAs, name, readable, why)
    ensures RegistrationRefusal(site, key, name, readable).None? <==> Clear(site, key, Annotated, name, readable)
    ensures CredentialRefusal(site, key, name, readable).None? <==> Clear(site, key, LabelledAs, name, readable)
  {
  }

  ghost predicate AimedAt(steps: seq<Step>, what: What) { exists i :: 0 <= i < |steps| && steps[i].act.Aim() == Some(what) }

  lemma DownstreamAimsAtNoSecret(c: Config.Cluster, calls: Calls, key: SecretKey)
    ensures !AimedAt(DownstreamScript(c, calls), SecretObject(key))
  {
  }

  lemma LocalAimsAtSecrets(p: Params, c: Config.Cluster, registration: Option<Why>, credential: Option<Why>, calls: Calls, key: SecretKey)
    ensures AimedAt(LocalScript(p, c, registration, credential, calls), SecretObject(key))
      <==> (key == RegistrationKey(p, c) && registration.None?) || (key == CredentialKey(p, c) && credential.None?)
  {
    var steps := LocalScript(p, c, registration, credential, calls);
    assert steps[1].act.Aim() == if registration.Some? then None else Some(SecretObject(RegistrationKey(p, c)));
    assert steps[2].act.Aim() == if credential.Some? then None else Some(SecretObject(CredentialKey(p, c)));
  }

  lemma AimedInParts(a: seq<Step>, b: seq<Step>, what: What)
    ensures AimedAt(a + b, what) <==> AimedAt(a, what) || AimedAt(b, what)
  {
    if i :| 0 <= i < |a| && a[i].act.Aim() == Some(what) { assert (a + b)[i] == a[i]; }
    if i :| 0 <= i < |b| && b[i].act.Aim() == Some(what) { assert (a + b)[|a| + i] == b[i]; }
  }

  /** A step of the removal is aimed at a Secret exactly if it is one of the two the connection
      names, and what stood there when the removal began was clear to be deleted as such. */
  lemma AimedAtSecretsExactly(site: Site, p: Params, c: Config.Cluster, collision: Collision, calls: Calls, key: SecretKey)
    ensures AimedAt(Script(site, p, c, collision, calls), SecretObject(key))
      <==> || (key == SecretKey(p.argocdNamespace, c.secretName) && RegistrationIsClear(site, p, c, calls))
           || (key == SecretKey(p.namespace, c.name + "-credentials") && CredentialIsClear(site, p, c, calls))
  {
    var registration := RegistrationRefusal(site, RegistrationKey(p, c), c.name, calls.readRegistration);
    var credential := CredentialRefusal(site, CredentialKey(p, c), c.name, calls.readCredential);
    GuardsAreExact(site, RegistrationKey(p, c), c.name, calls.readRegistration, Unverified);
    GuardsAreExact(site, CredentialKey(p, c), c.name, calls.readCredential, Unverified);
    var local := LocalScript(p, c, registration, credential, calls);
    var downstream := if p.skipDownstream || collision.CollidesWith? then [] else DownstreamScript(c, calls);
    LocalAimsAtSecrets(p, c, registration, credential, calls, key);
    DownstreamAimsAtNoSecret(c, calls, key);
    AimedInParts(local, downstream, SecretObject(key));
    AimedInParts(local + downstream, RecheckScript(p, c, registration, calls), SecretObject(key));
  }

  /** Neither delete nor recheck touches a Secret that is not clear to be deleted under any name the
      connection has for it: it ends as others leave it. */
  lemma AnothersSecretsAreSpared(site: Site, p: Params, calls: Calls, key: SecretKey)
    requires Execute(site, p, calls).1.Ran?
    ensures ResolveTarget(site, p, calls.readConnection).Target?
    ensures var t := ResolveTarget(site, p, calls.readConnection);
      var c := t.cluster;
      (key == SecretKey(p.argocdNamespace, c.secretName) ==> !RegistrationIsClear(site, p, c, calls))
      && (key == SecretKey(p.namespace, c.name + "-credentials") ==> !CredentialIsClear(site, p, c, calls))
      ==> ObjectAt(Execute(site, p, calls).0, SecretObject(key))
          == ObjectAt(OthersOnly(site, Script(site, p, c, CollisionOf(t, p, calls), calls)), SecretObject(key))
  {
    var t := ResolveTarget(site, p, calls.readConnection);
    AimedAtSecretsExactly(site, p, t.cluster, CollisionOf(t, p, calls), calls, key);
    OnlyOursIsDeleted(site, p, calls, SecretObject(key));
  }

  /** The reasons a guard has for leaving a Secret alone; NotManaged can come of the delete's own
      look at it as well. */
  predicate GuardsOwn(why: Why) { why.Unverified? || why.BelongsTo? }

  lemma SecretReports(site: Site, at: SecretKey, refusal: Option<Why>, dryRun: bool, env: D.DeleteEnv<Held>, key: SecretKey, why: Why)
    requires GuardsOwn(why) || why.NotManaged?
    ensures var items := RemoveSecret(site, at, refusal, dryRun, env).1;
      && (key == at && refusal == Some(why) ==> Item(SecretObject(key), why) in items)
      && (GuardsOwn(why) && Item(SecretObject(key), why) in items ==> key == at && refusal == Some(why))
  {
  }

  lemma ConnectionReportsNoSecret(site: Site, name: string, dryRun: bool, env: D.DeleteEnv<Inventory.Connection>, key: SecretKey, why: Why)
    ensures Item(SecretObject(key), why) !in RemoveConnection(site, name, dryRun, env).1
  {
  }

  lemma LocalReports(site: Site, p: Params, c: Config.Cluster, calls: Calls, key: SecretKey, why: Why)
    requires GuardsOwn(why) || why.NotManaged?
    ensures var found := || (key == RegistrationKey(p, c) && RegistrationRefusal(site, key, c.name, calls.readRegistration) == Some(why))
                         || (key == CredentialKey(p, c) && CredentialRefusal(site, key, c.name, calls.readCredential) == Some(why));
      && (found ==> Item(SecretObject(key), why) in LocalHalf(site, p, c, calls).1)
      && (GuardsOwn(why) && Item(SecretObject(key), why) in LocalHalf(site, p, c, calls).1 ==> found)
  {
    var registration := RegistrationRefusal(site, RegistrationKey(p, c), c.name, calls.readRegistration);
    var credential := CredentialRefusal(site, CredentialKey(p, c), c.name, calls.readCredential);
    var t0 := Meanwhile(site, calls.At(BeforeConnection));
    var t1 := Meanwhile(RemoveConnection(t0, c.name, p.dryRun, calls.connection).0, calls.At(BeforeRegistration));
    var t2 := Meanwhile(RemoveSecret(t1, RegistrationKey(p, c), registration, p.dryRun, calls.registration).0, calls.At(BeforeCredential));
    ConnectionReportsNoSecret(t0, c.name, p.dryRun, calls.connection, key, why);
    SecretReports(t1, RegistrationKey(p, c), registration, p.dryRun, calls.registration, key, why);
    SecretReports(t2, CredentialKey(p, c), credential, p.dryRun, calls.credential, key, why);
  }

  lemma OtherPartsReportNoGuard(s: Site, p: Params, c: Config.Cluster, collision: Collision, refusal: Option<Why>, calls: Calls, key: SecretKey, why: Why)
    requires GuardsOwn(why)
    ensures Item(SecretObject(key), why) !in DownstreamHalfOf(s, p, c, collision, calls).1
    ensures Item(SecretObject(key), why) !in Recheck(s, p, RegistrationKey(p, c), refusal, calls).1
  {
    DownstreamReportsNoSecret(c, RemoveDownstream(s, c, p.dryRun, calls).1, key, why);
    RecheckReportsNoGuard(s, p, RegistrationKey(p, c), refusal, calls, key, why);
  }

  lemma ReportsAbout(about: What, d: D.Deletion, key: SecretKey, why: Why)
    requires !about.SecretObject?
    ensures Item(SecretObject(key), why) !in ItemFor(about, d)
  {
  }

  lemma DownstreamReportsNoSecret(c: Config.Cluster, d: FiveDeletes, key: SecretKey, why: Why)
    ensures Item(SecretObject(key), why) !in DownstreamItems(c, d)
  {
    ReportsAbout(BindingObject(BindingName(c)), d.binding, key, why);
    ReportsAbout(BindingObject(c.selfServiceAccountName), d.selfBinding, key, why);
    ReportsAbout(AccountObject(Account(c)), d.account, key, why);
    ReportsAbout(AccountObject(SelfAccount(c)), d.selfAccount, key, why);
    ReportsAbout(RoleObject(c.selfServiceAccountName), d.selfRole, key, why);
  }

  lemma RecheckReportsNoGuard(s: Site, p: Params, at: SecretKey, refusal: Option<Why>, calls: Calls, key: SecretKey, why: Why)
    requires GuardsOwn(why)
    ensures Item(SecretObject(key), why) !in Recheck(s, p, at, refusal, calls).1
  {
  }

  /** And the report says why: for each of the two Secrets what remains names the owner, or that it
      could not be read, exactly if that is what stood in the way; and that it is not managed, if
      that did. */
  lemma RefusalsAreReported(site: Site, p: Params, calls: Calls, key: SecretKey, why: Why)
    requires Execute(site, p, calls).1.Ran? && (GuardsOwn(why) || why.NotManaged?)
    ensures ResolveTarget(site, p, calls.readConnection).Target?
    ensures var c := ResolveTarget(site, p, calls.readConnection).cluster;
      var stood := || (key == SecretKey(p.argocdNamespace, c.secretName) && Obstacle(site, key, Annotated, c.name, calls.readRegistration, why))
                   || (key == SecretKey(p.namespace, c.name + "-credentials") && Obstacle(site, key, LabelledAs, c.name, calls.readCredential, why));
      var remains := Item(SecretObject(key), why) in Execute(site, p, calls).1.remaining;
      (stood ==> remains) && (GuardsOwn(why) && remains ==> stood)
  {
    var t := ResolveTarget(site, p, calls.readConnection);
    var c, collision := t.cluster, CollisionOf(t, p, calls);
    GuardsAreExact(site, key, c.name, calls.readRegistration, why);
    GuardsAreExact(site, key, c.name, calls.readCredential, why);
    LocalReports(site, p, c, calls, key, why);
    ExecuteParts(site, p, calls);
    if GuardsOwn(why) {
      var s1 := LocalHalf(site, p, c, calls).0;
      var refusal := RegistrationRefusal(site, RegistrationKey(p, c), c.name, calls.readRegistration);
      OtherPartsReportNoGuard(s1, p, c, collision, refusal, calls, key, why);
      OtherPartsReportNoGuard(DownstreamHalfOf(s1, p, c, collision, calls).0, p, c, collision, refusal, calls, key, why);
    }
  }

  /** The other half is left to another connection exactly if the object resolved, that half was to go,
      and the list has another object of its endpoint. */
  lemma CollidesExactly(site: Site, p: Params, calls: Calls)
    requires ResolveTarget(site, p, calls.readConnection).Target?
    ensures var t := ResolveTarget(site, p, calls.readConnection);
      CollisionOf(t, p, calls).CollidesWith? <==>
        && Resolves(site, p) && !p.skipDownstream && calls.list.Some?
        && Shared(calls.list.value, t.cluster.name, t.cluster.endpoint)
  {
    var t := ResolveTarget(site, p, calls.readConnection);
    ResolvesTheTarget(site, p, calls.readConnection);
    if !t.usedFallback && calls.list.Some? {
      CollisionIsByEndpoint(calls.list.value, t.cluster.name, t.cluster.endpoint);
    }
  }

  predicate IsDownstream(what: What) { what.BindingObject? || what.AccountObject? || what.RoleObject? }

  lemma NothingAimsDownstream(site: Site, p: Params, c: Config.Cluster, collision: Collision, calls: Calls, i: nat)
    requires (collision.CollidesWith? || p.skipDownstream) && i < |Script(site, p, c, collision, calls)|
    ensures var aim := Script(site, p, c, collision, calls)[i].act.Aim(); aim.Some? ==> !IsDownstream(aim.value)
  {
  }

  /** A downstream cluster somebody else still depends on is left alone, and the report says so --
      although the list the guard goes by has both connections down as invalid. */
  lemma SharedEndpointProtectsDownstream(site: Site, p: Params, calls: Calls, what: What)
    requires Resolves(site, p) && calls.readConnection && !p.skipDownstream && calls.list.Some? && IsDownstream(what)
    requires Shared(calls.list.value, Inventory.Decode(site.connections[p.clusterName]).cluster.name,
                    Inventory.Decode(site.connections[p.clusterName]).cluster.endpoint)
    ensures var (after, result) := Execute(site, p, calls);
      var t := ResolveTarget(site, p, calls.readConnection);
      && result.Ran? && t.Target?
      && ObjectAt(after, what) == ObjectAt(OthersOnly(site, Script(site, p, t.cluster, CollisionOf(t, p, calls), calls)), what)
      && exists other :: Item(DownstreamHalf, SharedEndpoint(other)) in result.remaining
  {
    var c := Inventory.Decode(site.connections[p.clusterName]).cluster;
    CollisionIsByEndpoint(calls.list.value, c.name, c.endpoint);
    var collision := CollisionOf(Target(c, false), p, calls);
    ExecuteParts(site, p, calls);
    assert Item(DownstreamHalf, SharedEndpoint(collision.name)) in DownstreamHalfOf(LocalHalf(site, p, c, calls).0, p, c, collision, calls).1;
    ExecutePlays(site, p, calls);
    var script := Script(site, p, c, collision, calls);
    OnlyLabelledGoes(site, script, p.dryRun, what);
    if i :| 0 <= i < |script| && Took(site, script, p.dryRun, i, what, ObjectAt(Execute(site, p, calls).0, what)) {
      NothingAimsDownstream(site, p, c, collision, calls, i);
      assert false;
    }
  }

  /** Told to leave the downstream cluster alone, a removal does. */
  lemma SkippingLeavesDownstream(site: Site, p: Params, calls: Calls, what: What)
    requires p.skipDownstream && IsDownstream(what) && Execute(site, p, calls).1.Ran?
    ensures ResolveTarget(site, p, calls.readConnection).Target?
    ensures var t := ResolveTarget(site, p, calls.readConnection);
      ObjectAt(Execute(site, p, calls).0, what)
        == ObjectAt(OthersOnly(site, Script(site, p, t.cluster, CollisionOf(t, p, calls), calls)), what)
  {
    OnlyOursIsDeleted(site, p, calls, what);
    var t := ResolveTarget(site, p, calls.readConnection);
    var script, now := Script(site, p, t.cluster, CollisionOf(t, p, calls), calls), ObjectAt(Execute(site, p, calls).0, what);
    if i :| 0 <= i < |script| && Took(site, script, p.dryRun, i, what, now) {
      NothingAimsDownstream(site, p, t.cluster, CollisionOf(t, p, calls), calls, i);
      assert false;
    }
  }

  /** A dry run changes nothing, whatever happens around it. */
  lemma DryRunChangesNothing(site: Site, p: Params, calls: Calls, what: What)
    requires p.dryRun && Execute(site, p, calls).1.Ran?
    ensures ResolveTarget(site, p, calls.readConnection).Target?
    ensures var t := ResolveTarget(site, p, calls.readConnection);
      ObjectAt(Execute(site, p, calls).0, what)
        == ObjectAt(OthersOnly(site, Script(site, p, t.cluster, CollisionOf(t, p, calls), calls)), what)
  {
    OnlyOursIsDeleted(site, p, calls, what);
  }

  // ---- Left to itself ---------------------------------------------------------------------------------------

  ghost predicate Alone<V>(env: D.DeleteEnv<V>) { env.rival.None? }

  /** Nobody acts between the steps. */
  ghost predicate LeftToThemselves(calls: Calls) { calls.others == map[] }

  lemma NobodyActs(site: Site)
    ensures Meanwhile(site, NoOthers) == site
  {
    assert Amended(site.connections, map[]) == site.connections && Amended(site.secrets, map[]) == site.secrets;
    assert Amended(site.downstream.bindings, map[]) == site.downstream.bindings;
    assert Amended(site.downstream.accounts, map[]) == site.downstream.accounts;
    assert Amended(site.downstream.roles, map[]) == site.downstream.roles;
  }

  /** From one map to the next only objects with this tool's label have gone, and only under these
      keys; nothing has changed or appeared. */
  ghost predicate OnlyOursGone<K, V>(m: map<K, V>, r: map<K, V>, managed: V -> bool, keys: set<K>) {
    && (forall k :: k in r ==> k in m && r[k] == m[k])
    && (forall k :: k in m && k !in r ==> k in keys && managed(m[k]))
  }

  /** Left to themselves the five deletes fall into three kinds that have nothing to do with each
      other. */
  lemma DownstreamAlone(s: Site, c: Config.Cluster, dryRun: bool, calls: Calls)
    requires LeftToThemselves(calls)
    ensures var o := s.downstream;
      var (b1, d1) := D.GuardedDelete(o.bindings, BindingName(c), D.ManagedBinding, dryRun, calls.binding);
      var (a1, d2) := D.GuardedDelete(o.accounts, Account(c), D.ManagedAccount, dryRun, calls.account);
      var (b2, d3) := D.GuardedDelete(b1, c.selfServiceAccountName, D.ManagedBinding, dryRun, calls.selfBinding);
      var (r1, d4) := D.GuardedDelete(o.roles, c.selfServiceAccountName, D.ManagedRole, dryRun, calls.selfRole);
      var (a2, d5) := D.GuardedDelete(a1, SelfAccount(c), D.ManagedAccount, dryRun, calls.selfAccount);
      RemoveDownstream(s, c, dryRun, calls)
        == (s.(downstream := o.(bindings := b2, accounts := a2, roles := r1)), FiveDeletes(d1, d2, d3, d4, d5))
  {
    var (s1, _) := RemoveBinding(s, BindingName(c), dryRun, calls.binding);
    var (s2, _) := RemoveAccount(s1, Account(c), dryRun, calls.account);
    var (s3, _) := RemoveBinding(s2, c.selfServiceAccountName, dryRun, calls.selfBinding);
    var (s4, _) := RemoveRole(s3, c.selfServiceAccountName, dryRun, calls.selfRole);
    NobodyActs(s);
    NobodyActs(s1);
    NobodyActs(s2);
    NobodyActs(s3);
    NobodyActs(s4);
  }

  function SecretKeys(p: Params, c: Config.Cluster): set<SecretKey> { {RegistrationKey(p, c), CredentialKey(p, c)} }

  // ---- A dry run predicts ---------------------------------------------------------------------------------

  /** A call that is not interfered with and whose delete, if it comes to one, works. */
  ghost predicate Deletes<V>(env: D.DeleteEnv<V>) { env.rival.None? && env.delete == Done }

  ghost predicate AllDelete(calls: Calls) {
    && Deletes(calls.connection) && Deletes(calls.registration) && Deletes(calls.credential) && Deletes(calls.recheck)
    && Deletes(calls.binding) && Deletes(calls.account) && Deletes(calls.selfBinding) && Deletes(calls.selfRole)
    && Deletes(calls.selfAccount) && LeftToThemselves(calls) && calls.recheck.get == Done
  }

  /** The same thing is left to report: failed alike, or not ours alike. */
  predicate Alike(d: D.Deletion, e: D.Deletion) {
    d.Failed? == e.Failed? && (d == D.Did(D.NotOwned)) == (e == D.Did(D.NotOwned))
  }

  /** Deleting from what is left by deletes before it finds what the dry run found, or nothing
      where the dry run would have deleted. */
  lemma PredictsOne<K, V>(m: map<K, V>, r: map<K, V>, k: K, managed: V -> bool, keys: set<K>, env: D.DeleteEnv<V>)
    requires OnlyOursGone(m, r, managed, keys) && Deletes(env) && k in keys
    ensures var (m', d) := D.GuardedDelete(m, k, managed, true, env);
      var (r', e) := D.GuardedDelete(r, k, managed, false, env);
      m' == m && OnlyOursGone(m, r', managed, keys) && Alike(d, e)
  {
  }

  /** Two deletes, the second on what the first has left. */
  lemma PredictsTwo<K, V>(m: map<K, V>, j: K, k: K, managed: V -> bool, one: D.DeleteEnv<V>, two: D.DeleteEnv<V>)
    requires Deletes(one) && Deletes(two)
    ensures var (m1, d1) := D.GuardedDelete(m, j, managed, true, one);
      var (r1, e1) := D.GuardedDelete(m, j, managed, false, one);
      Alike(d1, e1) && Alike(D.GuardedDelete(m1, k, managed, true, two).1, D.GuardedDelete(r1, k, managed, false, two).1)
  {
    PredictsOne(m, m, j, managed, {j, k}, one);
    PredictsOne(m, D.GuardedDelete(m, j, managed, false, one).0, k, managed, {j, k}, two);
  }

  predicate AllAlike(d: FiveDeletes, e: FiveDeletes) {
    && Alike(d.binding, e.binding) && Alike(d.account, e.account) && Alike(d.selfBinding, e.selfBinding)
    && Alike(d.selfRole, e.selfRole) && Alike(d.selfAccount, e.selfAccount)
  }

  lemma AlikeReports(c: Config.Cluster, d: FiveDeletes, e: FiveDeletes)
    requires AllAlike(d, e)
    ensures DownstreamItems(c, d) == DownstreamItems(c, e)
  {
  }

  lemma PredictsDownstream(s: Site, c: Config.Cluster, calls: Calls)
    requires AllDelete(calls)
    ensures DownstreamItems(c, RemoveDownstream(s, c, true, calls).1) == DownstreamItems(c, RemoveDownstream(s, c, false, calls).1)
  {
    var o := s.downstream;
    DownstreamAlone(s, c, true, calls);
    DownstreamAlone(s, c, false, calls);
    PredictsTwo(o.bindings, BindingName(c), c.selfServiceAccountName, D.ManagedBinding, calls.binding, calls.selfBinding);
    PredictsTwo(o.accounts, Account(c), SelfAccount(c), D.ManagedAccount, calls.account, calls.selfAccount);
    PredictsOne(o.roles, o.roles, c.selfServiceAccountName, D.ManagedRole, {c.selfServiceAccountName}, calls.selfRole);
    AlikeReports(c, RemoveDownstream(s, c, true, calls).1, RemoveDownstream(s, c, false, calls).1);
  }

  lemma PredictsSecret(site: Site, s: Site, key: SecretKey, refusal: Option<Why>, keys: set<SecretKey>, env: D.DeleteEnv<Held>)
    requires OnlyOursGone(site.secrets, s.secrets, ManagedSecret, keys) && Deletes(env) && key in keys
    ensures RemoveSecret(site, key, refusal, true, env).1 == RemoveSecret(s, key, refusal, false, env).1
    ensures OnlyOursGone(site.secrets, RemoveSecret(s, key, refusal, false, env).0.secrets, ManagedSecret, keys)
    ensures RemoveSecret(site, key, refusal, true, env).0 == site
  {
    PredictsOne(site.secrets, s.secrets, key, ManagedSecret, keys, env);
  }

  lemma PredictsConnection(site: Site, name: string, env: D.DeleteEnv<Inventory.Connection>)
    requires Deletes(env)
    ensures RemoveConnection(site, name, true, env).1 == RemoveConnection(site, name, false, env).1
    ensures RemoveConnection(site, name, true, env).0 == site
  {
    PredictsOne(site.connections, site.connections, name, Anything, {name}, env);
  }

  lemma PredictsLocal(site: Site, p: Params, q: Params, c: Config.Cluster, calls: Calls)
    requires AllDelete(calls) && p == q.(dryRun := true) && !q.dryRun
    ensures LocalHalf(site, p, c, calls).1 == LocalHalf(site, q, c, calls).1
  {
    var keys := SecretKeys(p, c);
    var registration := RegistrationRefusal(site, RegistrationKey(p, c), c.name, calls.readRegistration);
    var credential := CredentialRefusal(site, CredentialKey(p, c), c.name, calls.readCredential);
    NobodyActs(site);
    PredictsConnection(site, c.name, calls.connection);
    var s1 := RemoveConnection(site, c.name, false, calls.connection).0;
    NobodyActs(s1);
    PredictsSecret(site, s1, RegistrationKey(p, c), registration, keys, calls.registration);
    var s2 := RemoveSecret(s1, RegistrationKey(p, c), registration, false, calls.registration).0;
    NobodyActs(s2);
    PredictsSecret(site, s2, CredentialKey(p, c), credential, keys, calls.credential);
  }

  lemma PredictsDownstreamHalf(s: Site, t: Site, p: Params, q: Params, c: Config.Cluster, collision: Collision, calls: Calls)
    requires AllDelete(calls) && p == q.(dryRun := true) && !q.dryRun && s.downstream == t.downstream
    ensures DownstreamHalfOf(s, p, c, collision, calls).1 == DownstreamHalfOf(t, q, c, collision, calls).1
  {
    PredictsDownstream(s, c, calls);
    DownstreamAlone(s, c, false, calls);
    DownstreamAlone(t, c, false, calls);
  }

  lemma LastLookIsSilent(site: Site, p: Params, key: SecretKey, refusal: Option<Why>, calls: Calls)
    requires AllDelete(calls)
    ensures Recheck(site, p, key, refusal, calls).1 == []
  {
  }

  lemma LocalKeepsDownstream(site: Site, p: Params, c: Config.Cluster, calls: Calls)
    requires LeftToThemselves(calls)
    ensures LocalHalf(site, p, c, calls).0.downstream == site.downstream
  {
    var registration := RegistrationRefusal(site, RegistrationKey(p, c), c.name, calls.readRegistration);
    var s1 := RemoveConnection(site, c.name, p.dryRun, calls.connection).0;
    var s2 := RemoveSecret(s1, RegistrationKey(p, c), registration, p.dryRun, calls.registration).0;
    NobodyActs(site);
    NobodyActs(s1);
    NobodyActs(s2);
  }

  /** With nobody interfering and no delete failing, a dry run reports exactly what the real run
      leaves -- reads that fail included, and even when two of the names are one object. */
  lemma DryRunPredicts(site: Site, p: Params, q: Params, calls: Calls)
    requires AllDelete(calls) && p == q.(dryRun := true) && !q.dryRun
    ensures Execute(site, p, calls).1 == Execute(site, q, calls).1
  {
    var t := ResolveTarget(site, p, calls.readConnection);
    if t.Target? && !CollisionOf(t, p, calls).CannotList? {
      ExecuteParts(site, p, calls);
      ExecuteParts(site, q, calls);
      var c, collision := t.cluster, CollisionOf(t, p, calls);
      var refusal := RegistrationRefusal(site, RegistrationKey(p, c), c.name, calls.readRegistration);
      var s1, t1 := LocalHalf(site, p, c, calls).0, LocalHalf(site, q, c, calls).0;
      PredictsLocal(site, p, q, c, calls);
      LocalKeepsDownstream(site, p, c, calls);
      LocalKeepsDownstream(site, q, c, calls);
      PredictsDownstreamHalf(s1, t1, p, q, c, collision, calls);
      LastLookIsSilent(DownstreamHalfOf(s1, p, c, collision, calls).0, p, RegistrationKey(p, c), refusal, calls);
      LastLookIsSilent(DownstreamHalfOf(t1, q, c, collision, calls).0, q, RegistrationKey(q, c), refusal, calls);
    }
  }

  // ---- What is reported of the downstream half ----------------------------------------------------------------

  /** What a delete leaves to report. */
  predicate Leaves(d: D.Deletion, why: Why) {
    (d.Failed? && why == CallFailed) || (d == D.Did(D.NotOwned) && why == NotManaged)
  }

  predicate NoneAnswered(d: FiveDeletes) {
    d.binding.Failed? && d.account.Failed? && d.selfBinding.Failed? && d.selfRole.Failed? && d.selfAccount.Failed?
  }

  lemma ItemsExactly(about: What, d: D.Deletion, item: Item)
    ensures item in ItemFor(about, d) <==> item.what == about && Leaves(d, item.why)
  {
  }

  /** The report on the five deletes names each object that is still there because its delete failed
      or because it is not this tool's, and nothing else; if every one of them failed it says instead
      that the cluster does not answer. */
  lemma DownstreamIsReportedExactly(c: Config.Cluster, d: FiveDeletes, item: Item)
    ensures var ns := c.serviceAccount.namespace;
      item in DownstreamItems(c, d) <==>
        if NoneAnswered(d) then item == Item(DownstreamHalf, NoAnswer)
        else || (item.what == BindingObject(c.serviceAccount.name + "-role-binding") && Leaves(d.binding, item.why))
             || (item.what == AccountObject(D.AccountName(ns, c.serviceAccount.name)) && Leaves(d.account, item.why))
             || (item.what == BindingObject(c.selfServiceAccountName) && Leaves(d.selfBinding, item.why))
             || (item.what == RoleObject(c.selfServiceAccountName) && Leaves(d.selfRole, item.why))
             || (item.what == AccountObject(D.AccountName(ns, c.selfServiceAccountName)) && Leaves(d.selfAccount, item.why))
  {
    ItemsExactly(BindingObject(BindingName(c)), d.binding, item);
    ItemsExactly(BindingObject(c.selfServiceAccountName), d.selfBinding, item);
    ItemsExactly(AccountObject(Account(c)), d.account, item);
    ItemsExactly(AccountObject(SelfAccount(c)), d.selfAccount, item);
    ItemsExactly(RoleObject(c.selfServiceAccountName), d.selfRole, item);
  }

  // ---- A clean run ---------------------------------------------------------------------------------------------

  lemma LocalAnswered(site: Site, p: Params, c: Config.Cluster, calls: Calls)
    requires !p.dryRun && LocalHalf(site, p, c, calls).1 == []
    ensures RegistrationRefusal(site, RegistrationKey(p, c), c.name, calls.readRegistration) == None
    ensures CredentialRefusal(site, CredentialKey(p, c), c.name, calls.readCredential) == None
    ensures AllAnswered(site, LocalScript(p, c, None, None, calls))
  {
    var steps := LocalScript(p, c, None, None, calls);
    PlayFirst(site, steps[0], false);
    AnsweredOne(site, [], steps[0]);
    assert [] + [steps[0]] == [steps[0]];
    PlayOne(site, [steps[0]], steps[1], false);
    AnsweredOne(site, [steps[0]], steps[1]);
    AnsweredOne(site, [steps[0]] + [steps[1]], steps[2]);
  }

  lemma RecheckAnswered(site: Site, p: Params, c: Config.Cluster, calls: Calls)
    requires !p.dryRun && Recheck(site, p, RegistrationKey(p, c), None, calls).1 == []
    ensures AllAnswered(site, RecheckScript(p, c, None, calls))
  {
    AnsweredOne(site, [], RecheckScript(p, c, None, calls)[0]);
    assert [] + [RecheckScript(p, c, None, calls)[0]] == RecheckScript(p, c, None, calls);
  }

  /** The parts of a run with nothing remaining have nothing remaining. */
  lemma EmptyParts(site: Site, p: Params, calls: Calls)
    requires Execute(site, p, calls).1 == Ran([]) && !p.skipDownstream
    ensures var t := ResolveTarget(site, p, calls.readConnection);
      && t.Target?
      && var c := t.cluster;
         var registration := RegistrationRefusal(site, RegistrationKey(p, c), c.name, calls.readRegistration);
         var (s1, local) := LocalHalf(site, p, c, calls);
         var (s2, five) := RemoveDownstream(s1, c, p.dryRun, calls);
      && CollisionOf(t, p, calls).NoCollision? && local == [] && DownstreamItems(c, five) == []
      && Recheck(s2, p, RegistrationKey(p, c), registration, calls).1 == []
  {
  }

  lemma AimsAt(steps: seq<Step>, i: nat, what: What)
    requires i < |steps| && steps[i].act.Aim() == Some(what)
    ensures Aims(steps, what)
  {
    if i < |steps| - 1 {
      AimsAt(steps[..|steps| - 1], i, what);
    }
  }

  lemma FullScriptAims(p: Params, c: Config.Cluster, calls: Calls, what: What)
    requires what in Names(p, c)
    ensures Aims(LocalScript(p, c, None, None, calls) + DownstreamScript(c, calls), what)
  {
    var local, downstream := LocalScript(p, c, None, None, calls), DownstreamScript(c, calls);
    AimsParts(local, downstream, what);
    if i :| 0 <= i < |local| && local[i].act.Aim() == Some(what) {
      AimsAt(local, i, what);
    } else {
      assert local[0].act.Aim() != Some(what) && local[1].act.Aim() != Some(what) && local[2].act.Aim() != Some(what);
      var k := if downstream[0].act.Aim() == Some(what) then 0 else if downstream[1].act.Aim() == Some(what) then 1
               else if downstream[2].act.Aim() == Some(what) then 2 else if downstream[3].act.Aim() == Some(what) then 3 else 4;
      AimsAt(downstream, k, what);
    }
  }

  lemma RecheckedIsNotRevived(front: seq<Step>, p: Params, c: Config.Cluster, calls: Calls)
    requires !p.dryRun
    ensures !Revived(front + RecheckScript(p, c, None, calls), SecretObject(RegistrationKey(p, c)))
  {
  }

  function FullScript(p: Params, c: Config.Cluster, calls: Calls): seq<Step> {
    LocalScript(p, c, None, None, calls) + DownstreamScript(c, calls) + RecheckScript(p, c, None, calls)
  }

  lemma CleanParts(site: Site, p: Params, c: Config.Cluster, calls: Calls)
    requires !p.dryRun && !p.skipDownstream
    requires LocalHalf(site, p, c, calls).1 == []
    requires var (s2, five) := RemoveDownstream(LocalHalf(site, p, c, calls).0, c, false, calls);
      DownstreamItems(c, five) == [] && Recheck(s2, p, RegistrationKey(p, c), None, calls).1 == []
    ensures AllAnswered(site, FullScript(p, c, calls)) && Script(site, p, c, NoCollision, calls) == FullScript(p, c, calls)
  {
    var s1 := LocalHalf(site, p, c, calls).0;
    LocalAnswered(site, p, c, calls);
    DownstreamPlays(s1, c, false, calls);
    RecheckAnswered(RemoveDownstream(s1, c, false, calls).0, p, c, calls);
    ScriptAnswered(site, p, c, calls);
  }

  lemma CleanScript(site: Site, p: Params, c: Config.Cluster, calls: Calls, what: What)
    requires !p.dryRun && AllAnswered(site, FullScript(p, c, calls))
    ensures var script := FullScript(p, c, calls);
      && (what in Names(p, c) ==> (Ours(Play(site, script, false), what) <==> Revived(script, what)))
      && !Revived(script, SecretObject(RegistrationKey(p, c)))
  {
    var front, back := LocalScript(p, c, None, None, calls) + DownstreamScript(c, calls), RecheckScript(p, c, None, calls);
    RecheckedIsNotRevived(front, p, c, calls);
    if what in Names(p, c) {
      FullScriptAims(p, c, calls, what);
      AimsParts(front, back, what);
      LeftMeansRevived(site, front + back, what);
    }
  }

  /** A real run that reports nothing remaining has left nothing of ours under any of its eight
      names, except what somebody wrote there after the last delete aimed at it: each name is clean
      exactly if nobody did. The registration always is, for its last delete is the last call. */
  lemma CleanRunLeavesNothing(site: Site, p: Params, calls: Calls, what: What)
    requires !p.dryRun && !p.skipDownstream && Execute(site, p, calls).1 == Ran([])
    ensures ResolveTarget(site, p, calls.readConnection).Target?
    ensures var t := ResolveTarget(site, p, calls.readConnection);
      var script := Script(site, p, t.cluster, CollisionOf(t, p, calls), calls);
      && (what in Names(p, t.cluster) ==> (Ours(Execute(site, p, calls).0, what) <==> Revived(script, what)))
      && !Revived(script, SecretObject(RegistrationKey(p, t.cluster)))
  {
    EmptyParts(site, p, calls);
    ExecutePlays(site, p, calls);
    var c := ResolveTarget(site, p, calls.readConnection).cluster;
    LocalAnswered(site, p, c, calls);
    CleanParts(site, p, c, calls);
    CleanScript(site, p, c, calls, what);
  }

  lemma ScriptAnswered(site: Site, p: Params, c: Config.Cluster, calls: Calls)
    requires !p.dryRun
    requires RegistrationRefusal(site, RegistrationKey(p, c), c.name, calls.readRegistration) == None
    requires CredentialRefusal(site, CredentialKey(p, c), c.name, calls.readCredential) == None
    requires AllAnswered(site, LocalScript(p, c, None, None, calls))
    requires AllAnswered(LocalHalf(site, p, c, calls).0, DownstreamScript(c, calls))
    requires AllAnswered(RemoveDownstream(LocalHalf(site, p, c, calls).0, c, false, calls).0, RecheckScript(p, c, None, calls))
    ensures AllAnswered(site, FullScript(p, c, calls))
  {
    LocalPlays(site, p, c, calls);
    DownstreamPlays(LocalHalf(site, p, c, calls).0, c, false, calls);
    AnsweredParts(site, LocalScript(p, c, None, None, calls), DownstreamScript(c, calls));
    PlayParts(site, LocalScript(p, c, None, None, calls), DownstreamScript(c, calls), false);
    AnsweredParts(site, LocalScript(p, c, None, None, calls) + DownstreamScript(c, calls), RecheckScript(p, c, None, calls));
  }

  // ---- A pass in flight --------------------------------------------------------------------------------------

  /** A call that succeeds and is not interfered with. */
  ghost predicate Works<V>(env: D.DeleteEnv<V>) { Deletes(env) && env.get == Done }

  ghost predicate AllWork(calls: Calls) {
    && Works(calls.connection) && Works(calls.registration) && Works(calls.credential) && Works(calls.recheck)
    && Works(calls.binding) && Works(calls.account) && Works(calls.selfBinding) && Works(calls.selfRole) && Works(calls.selfAccount)
  }

  /** The five downstream objects are there, and this tool's. */
  predicate AllManaged(o: D.Objects, c: Config.Cluster) {
    && BindingName(c) in o.bindings && o.bindings[BindingName(c)].managed
    && c.selfServiceAccountName in o.bindings && o.bindings[c.selfServiceAccountName].managed
    && Account(c) in o.accounts && o.accounts[Account(c)].managed
    && SelfAccount(c) in o.accounts && o.accounts[SelfAccount(c)].managed
    && c.selfServiceAccountName in o.roles && o.roles[c.selfServiceAccountName].managed
  }

  /** What a pass writes that finds ArgoCD's identity gone. */
  function Restored(c: Config.Cluster, uid: nat): Others {
    NoOthers.(bindings := map[BindingName(c) := Some(D.Binding(c.clusterRole, {Account(c)}, true))],
              accounts := map[Account(c) := Some(D.Account(uid, true))], made := 1)
  }

  /** That is what EnsureArgoCDIdentity does. */
  lemma RestoringIsEnsuring(s: Site, c: Config.Cluster, clean: D.CallEnv, cleanBinding: D.BindingEnv)
    requires clean.Clean() && cleanBinding.Clean() && c.clusterRole != "" && Account(c) !in s.downstream.accounts && BindingName(c) !in s.downstream.bindings
    ensures D.EnsureArgoCDIdentity(s.downstream, Account(c), c.clusterRole, clean, cleanBinding)
      == (Meanwhile(s, Restored(c, s.downstream.nextUid)).downstream, D.Ok(D.Repairs(true, true)))
  {
    var o, m := s.downstream, Meanwhile(s, Restored(c, s.downstream.nextUid)).downstream;
    assert m.accounts == o.accounts[Account(c) := D.Account(o.nextUid, true)];
    assert m.bindings == o.bindings[BindingName(c) := D.Binding(c.clusterRole, {Account(c)}, true)];
    NobodyActs(s);
    assert m.roles == o.roles;
  }

  lemma WorkingDelete<K, V>(m: map<K, V>, k: K, managed: V -> bool, env: D.DeleteEnv<V>)
    requires Works(env) && k in m && managed(m[k])
    ensures D.GuardedDelete(m, k, managed, false, env) == (m - {k}, D.Did(D.Removed))
  {
  }

  /** The site once the first two downstream deletes are done: ArgoCD's identity is gone. */
  function Halfway(s: Site, c: Config.Cluster): Site {
    s.(downstream := s.downstream.(bindings := s.downstream.bindings - {BindingName(c)}, accounts := s.downstream.accounts - {Account(c)}))
  }

  lemma FirstTwoDeletes(s: Site, c: Config.Cluster, calls: Calls)
    requires AllWork(calls) && AllManaged(s.downstream, c)
    requires calls.others == map[BeforeSelfBinding := Restored(c, s.downstream.nextUid)]
    ensures RemoveArgoCDIdentity(s, c, false, calls) == (Halfway(s, c), D.Did(D.Removed), D.Did(D.Removed))
  {
    NobodyActs(s);
    WorkingDelete(s.downstream.bindings, BindingName(c), D.ManagedBinding, calls.binding);
    var s1 := RemoveBinding(s, BindingName(c), false, calls.binding).0;
    NobodyActs(s1);
    WorkingDelete(s1.downstream.accounts, Account(c), D.ManagedAccount, calls.account);
  }

  /** The daemon's own identity gone, as well. */
  function AtTheEnd(s: Site, c: Config.Cluster): Site {
    var o := s.downstream;
    s.(downstream := o.(bindings := o.bindings - {c.selfServiceAccountName}, roles := o.roles - {c.selfServiceAccountName},
                        accounts := o.accounts - {SelfAccount(c)}))
  }

  lemma LastThreeDeletes(s: Site, t: Site, c: Config.Cluster, calls: Calls)
    requires AllWork(calls) && calls.At(BeforeSelfRole) == calls.At(BeforeSelfAccount) == NoOthers
    requires t == Meanwhile(s, calls.At(BeforeSelfBinding))
    requires var o := t.downstream;
      && c.selfServiceAccountName in o.bindings && o.bindings[c.selfServiceAccountName].managed
      && c.selfServiceAccountName in o.roles && o.roles[c.selfServiceAccountName].managed
      && SelfAccount(c) in o.accounts && o.accounts[SelfAccount(c)].managed
    ensures RemoveSelfIdentity(s, c, false, calls) == (AtTheEnd(t, c), D.Did(D.Removed), D.Did(D.Removed), D.Did(D.Removed))
  {
    WorkingDelete(t.downstream.bindings, c.selfServiceAccountName, D.ManagedBinding, calls.selfBinding);
    var s1 := RemoveBinding(t, c.selfServiceAccountName, false, calls.selfBinding).0;
    NobodyActs(s1);
    WorkingDelete(s1.downstream.roles, c.selfServiceAccountName, D.ManagedRole, calls.selfRole);
    var s2 := RemoveRole(s1, c.selfServiceAccountName, false, calls.selfRole).0;
    NobodyActs(s2);
    WorkingDelete(s2.downstream.accounts, SelfAccount(c), D.ManagedAccount, calls.selfAccount);
  }

  /** ArgoCD's account and the binding that gives it the cluster role, both this tool's. */
  predicate Whole(o: D.Objects, c: Config.Cluster) {
    && Account(c) in o.accounts && o.accounts[Account(c)].managed
    && BindingName(c) in o.bindings && o.bindings[BindingName(c)] == D.Binding(c.clusterRole, {Account(c)}, true)
  }

  /** The five deletes with a pass at EnsureArgoCDIdentity in their middle: all five report the
      object removed, and ArgoCD's identity is whole again behind them. */
  lemma PassRevivesDownstream(s: Site, c: Config.Cluster, calls: Calls, clean: D.CallEnv, cleanBinding: D.BindingEnv)
    requires AllWork(calls) && AllManaged(s.downstream, c) && clean.Clean() && cleanBinding.Clean() && c.clusterRole != ""
    requires BindingName(c) != c.selfServiceAccountName && Account(c) != SelfAccount(c)
    requires calls.others == map[BeforeSelfBinding := Restored(c, s.downstream.nextUid)]
    ensures var (after, d) := RemoveDownstream(s, c, false, calls);
      && d == AllRemoved
      && Whole(after.downstream, c)
    ensures Meanwhile(Halfway(s, c), calls.At(BeforeSelfBinding)).downstream
      == D.EnsureArgoCDIdentity(Halfway(s, c).downstream, Account(c), c.clusterRole, clean, cleanBinding).0
  {
    FirstTwoDeletes(s, c, calls);
    RestoringIsEnsuring(Halfway(s, c), c, clean, cleanBinding);
    var t := Meanwhile(Halfway(s, c), calls.At(BeforeSelfBinding));
    RestoredHalfway(s, c);
    LastThreeDeletes(Halfway(s, c), t, c, calls);
    assert RemoveDownstream(s, c, false, calls).0 == AtTheEnd(t, c);
  }

  lemma RestoredHalfway(s: Site, c: Config.Cluster)
    requires AllManaged(s.downstream, c) && BindingName(c) != c.selfServiceAccountName && Account(c) != SelfAccount(c)
    ensures var o := Meanwhile(Halfway(s, c), Restored(c, s.downstream.nextUid)).downstream;
      && AllManaged(o, c) && o.accounts[Account(c)].uid == s.downstream.nextUid
      && o.bindings[BindingName(c)] == D.Binding(c.clusterRole, {Account(c)}, true)
  {
  }

  lemma LocalWorks(site: Site, p: Params, c: Config.Cluster, calls: Calls)
    requires AllWork(calls) && !p.dryRun
    requires calls.At(BeforeConnection) == calls.At(BeforeRegistration) == calls.At(BeforeCredential) == NoOthers
    requires RegistrationRefusal(site, RegistrationKey(p, c), c.name, calls.readRegistration) == None
    requires CredentialRefusal(site, CredentialKey(p, c), c.name, calls.readCredential) == None
    ensures LocalHalf(site, p, c, calls).1 == [] && LocalHalf(site, p, c, calls).0.downstream == site.downstream
    ensures RegistrationKey(p, c) !in LocalHalf(site, p, c, calls).0.secrets
  {
    var s1 := RemoveConnection(site, c.name, false, calls.connection).0;
    var s2 := RemoveSecret(s1, RegistrationKey(p, c), None, false, calls.registration).0;
    NobodyActs(site);
    NobodyActs(s1);
    NobodyActs(s2);
  }

  /** A second way a removal with nothing remaining fails to be one. A pass in flight still has its
      own credential while the first two downstream objects go; if it looks after ArgoCD's
      identity just then, it makes both again. Every delete succeeds, the last look is at the
      registration alone, and the account with its binding to the cluster role stays. */
  lemma InFlightPassRevivesTheIdentity(site: Site, p: Params, c: Config.Cluster, calls: Calls, clean: D.CallEnv, cleanBinding: D.BindingEnv)
    requires ResolveTarget(site, p, calls.readConnection) == Target(c, false)
    requires CollisionOf(Target(c, false), p, calls).NoCollision? && !p.dryRun && !p.skipDownstream
    requires RegistrationRefusal(site, RegistrationKey(p, c), c.name, calls.readRegistration) == None
    requires CredentialRefusal(site, CredentialKey(p, c), c.name, calls.readCredential) == None
    requires AllWork(calls) && AllManaged(site.downstream, c) && clean.Clean() && cleanBinding.Clean() && c.clusterRole != ""
    requires BindingName(c) != c.selfServiceAccountName && Account(c) != SelfAccount(c)
    requires calls.others == map[BeforeSelfBinding := Restored(c, site.downstream.nextUid)]
    ensures var (after, result) := Execute(site, p, calls);
      result == Ran([]) && Whole(after.downstream, c)
  {
    LocalWorks(site, p, c, calls);
    var s1 := LocalHalf(site, p, c, calls).0;
    PassRevivesDownstream(s1, c, calls, clean, cleanBinding);
    LastLookFindsNothing(RemoveDownstream(s1, c, false, calls).0, p, RegistrationKey(p, c), calls);
    PartsMakeTheRun(site, p, c, calls);
  }

  const AllRemoved := FiveDeletes(D.Did(D.Removed), D.Did(D.Removed), D.Did(D.Removed), D.Did(D.Removed), D.Did(D.Removed))

  lemma PartsMakeTheRun(site: Site, p: Params, c: Config.Cluster, calls: Calls)
    requires ResolveTarget(site, p, calls.readConnection) == Target(c, false)
    requires CollisionOf(Target(c, false), p, calls).NoCollision? && !p.dryRun && !p.skipDownstream
    requires RegistrationRefusal(site, RegistrationKey(p, c), c.name, calls.readRegistration) == None
    requires LocalHalf(site, p, c, calls).1 == []
    requires RemoveDownstream(LocalHalf(site, p, c, calls).0, c, false, calls).1 == AllRemoved
    requires Recheck(RemoveDownstream(LocalHalf(site, p, c, calls).0, c, false, calls).0, p, RegistrationKey(p, c), None, calls).1 == []
    ensures Execute(site, p, calls)
      == (Recheck(RemoveDownstream(LocalHalf(site, p, c, calls).0, c, false, calls).0, p, RegistrationKey(p, c), None, calls).0, Ran([]))
  {
    ExecuteParts(site, p, calls);
    HalfInPlay(LocalHalf(site, p, c, calls).0, p, c, calls);
    NothingToReport(c, AllRemoved);
  }

  lemma HalfInPlay(s: Site, p: Params, c: Config.Cluster, calls: Calls)
    requires !p.dryRun && !p.skipDownstream
    ensures var (after, d) := RemoveDownstream(s, c, false, calls);
      DownstreamHalfOf(s, p, c, NoCollision, calls) == (after, DownstreamItems(c, d))
  {
  }

  lemma NothingToReport(c: Config.Cluster, d: FiveDeletes)
    requires d == AllRemoved
    ensures DownstreamItems(c, d) == []
  {
  }

  lemma LastLookFindsNothing(s: Site, p: Params, key: SecretKey, calls: Calls)
    requires Works(calls.recheck) && !p.dryRun && calls.At(BeforeRecheck) == NoOthers
    ensures Recheck(s, p, key, None, calls).1 == [] && Recheck(s, p, key, None, calls).0.downstream == s.downstream
  {
    NobodyActs(s);
  }

  // ---- Provisioned, then removed ---------------------------------------------------------------------------------

  /** One map is the other with at most these two keys added, both this tool's. */
  ghost predicate Added<K, V>(m: map<K, V>, r: map<K, V>, managed: V -> bool, j: K, k: K) {
    && j !in m && k !in m && (forall q :: q in m ==> q in r && r[q] == m[q])
    && (forall q :: q in r && q !in m ==> (q == j || q == k) && managed(r[q]))
  }

  lemma TwoDeletesUndo<K, V>(m: map<K, V>, r: map<K, V>, managed: V -> bool, j: K, k: K, one: D.DeleteEnv<V>, two: D.DeleteEnv<V>)
    requires Added(m, r, managed, j, k) && Works(one) && Works(two)
    ensures D.GuardedDelete(D.GuardedDelete(r, j, managed, false, one).0, k, managed, false, two).0 == m
  {
    var r1 := D.GuardedDelete(r, j, managed, false, one).0;
    assert r1 == r - {j};
    var r2 := D.GuardedDelete(r1, k, managed, false, two).0;
    assert r2 == r1 - {k};
    assert r2.Keys == m.Keys;
  }

  /** Nothing is under any of the downstream names. */
  predicate DownstreamGone(o: D.Objects, c: Config.Cluster) {
    && BindingName(c) !in o.bindings && c.selfServiceAccountName !in o.bindings
    && Account(c) !in o.accounts && SelfAccount(c) !in o.accounts && c.selfServiceAccountName !in o.roles
  }

  /** Only objects under these names have been added, and all of them are this tool's. */
  ghost predicate Provisioned(o: D.Objects, r: D.Objects, c: Config.Cluster) {
    && Added(o.accounts, r.accounts, D.ManagedAccount, Account(c), SelfAccount(c))
    && Added(o.bindings, r.bindings, D.ManagedBinding, BindingName(c), c.selfServiceAccountName)
    && Added(o.roles, r.roles, D.ManagedRole, c.selfServiceAccountName, c.selfServiceAccountName)
  }

  lemma AccountProvisions(o: D.Objects, r: D.Objects, c: Config.Cluster, who: D.AccountName, env: D.CallEnv)
    requires Provisioned(o, r, c) && env.Clean() && (who == Account(c) || who == SelfAccount(c))
    ensures Provisioned(o, D.EnsureServiceAccount(r, who, env).0, c)
  {
  }

  lemma BindingProvisions(o: D.Objects, r: D.Objects, c: Config.Cluster, name: string, role: string, who: D.AccountName, env: D.BindingEnv)
    requires Provisioned(o, r, c) && env.Clean() && (name == BindingName(c) || name == c.selfServiceAccountName)
    ensures Provisioned(o, D.EnsureClusterRoleBinding(r, name, role, who, env).0, c)
  {
  }

  lemma ProvisioningAdds(o: D.Objects, c: Config.Cluster, role: string, grant: string,
                         account: D.CallEnv, binding: D.BindingEnv, self: D.CallEnv, selfBinding: D.BindingEnv)
    requires DownstreamGone(o, c) && account.Clean() && binding.Clean() && self.Clean() && selfBinding.Clean()
    ensures var o1 := D.EnsureArgoCDIdentity(o, Account(c), role, account, binding).0;
      Provisioned(o, D.EnsureSelfIdentity(o1, SelfAccount(c), grant, self, Done, selfBinding).0, c)
  {
    AccountProvisions(o, o, c, Account(c), account);
    var a1 := D.EnsureServiceAccount(o, Account(c), account).0;
    BindingProvisions(o, a1, c, BindingName(c), role, Account(c), binding);
    var o1 := D.EnsureArgoCDIdentity(o, Account(c), role, account, binding).0;
    AccountProvisions(o, o1, c, SelfAccount(c), self);
    var a2 := D.EnsureServiceAccount(o1, SelfAccount(c), self).0;
    var r2 := a2.(roles := a2.roles[c.selfServiceAccountName := D.Role(grant, true)]);
    assert Provisioned(o, r2, c);
    BindingProvisions(o, r2, c, c.selfServiceAccountName, c.selfServiceAccountName, SelfAccount(c), selfBinding);
  }

  /** Provisioning a cluster that had none of this and then tearing it down gives back exactly the
      accounts, bindings and roles there were, however far the provisioning got. */
  lemma TeardownUndoesProvisioning(site: Site, o: D.Objects, c: Config.Cluster, role: string, grant: string, calls: Calls,
                                   account: D.CallEnv, binding: D.BindingEnv, self: D.CallEnv, selfBinding: D.BindingEnv)
    requires DownstreamGone(o, c) && account.Clean() && binding.Clean() && self.Clean() && selfBinding.Clean()
    requires Works(calls.binding) && Works(calls.account) && Works(calls.selfBinding) && Works(calls.selfRole) && Works(calls.selfAccount)
    requires LeftToThemselves(calls) && site.downstream == o
    ensures var ns := c.serviceAccount.namespace;
      var (o1, first) := D.EnsureArgoCDIdentity(o, D.AccountName(ns, c.serviceAccount.name), role, account, binding);
      var (o2, second) := D.EnsureSelfIdentity(o1, D.AccountName(ns, c.selfServiceAccountName), grant, self, Done, selfBinding);
      var after := RemoveDownstream(site.(downstream := o2), c, false, calls).0.downstream;
      after.accounts == o.accounts && after.bindings == o.bindings && after.roles == o.roles
  {
    ProvisioningAdds(o, c, role, grant, account, binding, self, selfBinding);
    var o1 := D.EnsureArgoCDIdentity(o, Account(c), role, account, binding).0;
    var o2 := D.EnsureSelfIdentity(o1, SelfAccount(c), grant, self, Done, selfBinding).0;
    DownstreamAlone(site.(downstream := o2), c, false, calls);
    TwoDeletesUndo(o.accounts, o2.accounts, D.ManagedAccount, Account(c), SelfAccount(c), calls.account, calls.selfAccount);
    TwoDeletesUndo(o.bindings, o2.bindings, D.ManagedBinding, BindingName(c), c.selfServiceAccountName, calls.binding, calls.selfBinding);
    TwoDeletesUndo(o.roles, o2.roles, D.ManagedRole, c.selfServiceAccountName, c.selfServiceAccountName, calls.selfRole, calls.selfRole);
    RoleGoneOnce(o2.roles, c.selfServiceAccountName, calls.selfRole);
  }

  lemma RoleGoneOnce(roles: map<string, D.Role>, k: string, env: D.DeleteEnv<D.Role>)
    requires Works(env)
    ensures var once := D.GuardedDelete(roles, k, D.ManagedRole, false, env).0;
      D.GuardedDelete(once, k, D.ManagedRole, false, env).0 == once
  {
  }
}
