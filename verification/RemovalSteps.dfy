/** A removal as one delete after another, with others acting before each: what it takes away, and
    what is there afterwards. */
module RemovalSteps {
  import opened Text
  import opened Api
  import opened Removal
  import Inventory
  import D = Downstream

  // ---- One delete among others' writes -------------------------------------------------------------

  /** A get that may lead to a delete, or nothing where a guard refused it. */
  datatype Act =
    | Pause
    | OnConnection(name: string, onConnection: D.DeleteEnv<Inventory.Connection>)
    | OnSecret(key: SecretKey, onSecret: D.DeleteEnv<Held>)
    | OnBinding(binding: string, onBinding: D.DeleteEnv<D.Binding>)
    | OnAccount(who: D.AccountName, onAccount: D.DeleteEnv<D.Account>)
    | OnRole(role: string, onRole: D.DeleteEnv<D.Role>)
  {
    function Aim(): Option<What> {
      match this
      case Pause => None
      case OnConnection(name, _) => Some(ConnectionObject(name))
      case OnSecret(key, _) => Some(SecretObject(key))
      case OnBinding(name, _) => Some(BindingObject(name))
      case OnAccount(who, _) => Some(AccountObject(who))
      case OnRole(name, _) => Some(RoleObject(name))
    }
  }

  datatype Step = Step(others: Others, act: Act)

  function Do(site: Site, act: Act, dryRun: bool): (Site, D.Deletion) {
    match act
    case Pause => (site, D.Did(D.Gone))
    case OnConnection(name, env) =>
      var (connections, d) := D.GuardedDelete(site.connections, name, Anything, dryRun, env);
      (site.(connections := connections), d)
    case OnSecret(key, env) =>
      var (secrets, d) := D.GuardedDelete(site.secrets, key, ManagedSecret, dryRun, env);
      (site.(secrets := secrets), d)
    case OnBinding(name, env) => RemoveBinding(site, name, dryRun, env)
    case OnAccount(who, env) => RemoveAccount(site, who, dryRun, env)
    case OnRole(name, env) => RemoveRole(site, name, dryRun, env)
  }

  function Finds(site: Site, step: Step): Site { Meanwhile(site, step.others) }

  function Play(site: Site, steps: seq<Step>, dryRun: bool): Site {
    if steps == [] then site
    else
      var last := steps[|steps| - 1];
      Do(Finds(Play(site, steps[..|steps| - 1], dryRun), last), last.act, dryRun).0
  }

  /** What others alone would have made of the site. */
  function OthersOnly(site: Site, steps: seq<Step>): Site {
    if steps == [] then site else Finds(OthersOnly(site, steps[..|steps| - 1]), steps[|steps| - 1])
  }

  // ---- Object by object ------------------------------------------------------------------------------

  datatype Thing =
    | AConnection(connection: Inventory.Connection)
    | ASecret(secret: Held)
    | ABinding(binding: D.Binding)
    | AnAccount(account: D.Account)
    | ARole(role: D.Role)

  /** A named ClusterConnection is what the command is asked to delete; all else must be labelled. */
  predicate Labelled(t: Thing) {
    match t
    case AConnection(_) => true
    case ASecret(s) => s.managed
    case ABinding(b) => b.managed
    case AnAccount(a) => a.managed
    case ARole(r) => r.managed
  }

  function ObjectAt(site: Site, what: What): Option<Thing> {
    match what
    case ConnectionObject(n) => if n in site.connections then Some(AConnection(site.connections[n])) else None
    case SecretObject(k) => if k in site.secrets then Some(ASecret(site.secrets[k])) else None
    case BindingObject(n) => if n in site.downstream.bindings then Some(ABinding(site.downstream.bindings[n])) else None
    case AccountObject(w) => if w in site.downstream.accounts then Some(AnAccount(site.downstream.accounts[w])) else None
    case RoleObject(n) => if n in site.downstream.roles then Some(ARole(site.downstream.roles[n])) else None
    case DownstreamHalf => None
  }

  predicate Ours(site: Site, what: What) { ObjectAt(site, what).Some? && Labelled(ObjectAt(site, what).value) }

  function As<V>(v: Option<V>, thing: V -> Thing): Option<Thing> {
    if v.Some? then Some(thing(v.value)) else None
  }

  /** What others left under this name, if they touched it. */
  function Word(o: Others, what: What): Option<Option<Thing>> {
    match what
    case ConnectionObject(n) => if n in o.connections then Some(As(o.connections[n], x => AConnection(x))) else None
    case SecretObject(k) => if k in o.secrets then Some(As(o.secrets[k], x => ASecret(x))) else None
    case BindingObject(n) => if n in o.bindings then Some(As(o.bindings[n], x => ABinding(x))) else None
    case AccountObject(w) => if w in o.accounts then Some(As(o.accounts[w], x => AnAccount(x))) else None
    case RoleObject(n) => if n in o.roles then Some(As(o.roles[n], x => ARole(x))) else None
    case DownstreamHalf => None
  }

  lemma MeanwhileAt(site: Site, o: Others, what: What)
    ensures ObjectAt(Meanwhile(site, o), what) == if Word(o, what).Some? then Word(o, what).value else ObjectAt(site, what)
  {
  }

  /** What somebody else leaves under the name aimed at, between the get and the delete. */
  function RivalWord(act: Act): Option<Option<Thing>> {
    match act
    case Pause => None
    case OnConnection(_, env) => if env.rival.Some? then Some(As(env.rival.value, x => AConnection(x))) else None
    case OnSecret(_, env) => if env.rival.Some? then Some(As(env.rival.value, x => ASecret(x))) else None
    case OnBinding(_, env) => if env.rival.Some? then Some(As(env.rival.value, x => ABinding(x))) else None
    case OnAccount(_, env) => if env.rival.Some? then Some(As(env.rival.value, x => AnAccount(x))) else None
    case OnRole(_, env) => if env.rival.Some? then Some(As(env.rival.value, x => ARole(x))) else None
  }

  /** One step changes nothing but what it aims at, that only after reading the label on it and by
      taking it away -- unless somebody else does otherwise right then -- and nothing in a dry run.
      Unless the call fails, nothing of ours is left there. */
  lemma DoesOnly(site: Site, act: Act, dryRun: bool, what: What)
    ensures var (r, d) := Do(site, act, dryRun);
      && (ObjectAt(r, what) != ObjectAt(site, what) ==>
            && !dryRun && act.Aim() == Some(what) && Ours(site, what)
            && (ObjectAt(r, what) == None || RivalWord(act) == Some(ObjectAt(r, what))))
      && (act.Aim() == Some(what) && !dryRun && !d.Failed? ==> !Ours(r, what))
  {
  }

  // ---- What goes ---------------------------------------------------------------------------------------

  /** Step i aims at this, reads the label on it, and leaves nothing there but a rival's work. */
  ghost predicate Took(site: Site, steps: seq<Step>, dryRun: bool, i: nat, what: What, now: Option<Thing>)
    requires i < |steps|
  {
    && !dryRun && steps[i].act.Aim() == Some(what)
    && Ours(Finds(Play(site, steps[..i], dryRun), steps[i]), what)
    && (now == None || RivalWord(steps[i].act) == Some(now))
  }

  lemma SameStep(site: Site, steps: seq<Step>, dryRun: bool, i: nat, what: What, now: Option<Thing>)
    requires i < |steps| - 1
    ensures Took(site, steps[..|steps| - 1], dryRun, i, what, now) == Took(site, steps, dryRun, i, what, now)
  {
    assert steps[..|steps| - 1][..i] == steps[..i];
  }

  /** Whoever writes and deletes in between, and whatever fails: what is there afterwards is what
      others left, or some step aimed at it, had just read this tool's label on it, and took it
      away. */
  lemma {:induction false} OnlyLabelledGoes(site: Site, steps: seq<Step>, dryRun: bool, what: What)
    ensures var now := ObjectAt(Play(site, steps, dryRun), what);
      || now == ObjectAt(OthersOnly(site, steps), what)
      || exists i :: 0 <= i < |steps| && Took(site, steps, dryRun, i, what, now)
  {
    if steps != [] {
      var n := |steps| - 1;
      OnlyLabelledGoes(site, steps[..n], dryRun, what);
      var was, now := Play(site, steps[..n], dryRun), ObjectAt(Play(site, steps, dryRun), what);
      MeanwhileAt(was, steps[n].others, what);
      MeanwhileAt(OthersOnly(site, steps[..n]), steps[n].others, what);
      DoesOnly(Finds(was, steps[n]), steps[n].act, dryRun, what);
      if now != ObjectAt(Finds(was, steps[n]), what) {
        assert Took(site, steps, dryRun, n, what, now);
      } else if now != ObjectAt(OthersOnly(site, steps), what) {
        var i :| 0 <= i < n && Took(site, steps[..n], dryRun, i, what, now);
        SameStep(site, steps, dryRun, i, what, now);
      }
    }
  }

  // ---- What is left ------------------------------------------------------------------------------------

  ghost predicate Answered(site: Site, steps: seq<Step>, i: nat)
    requires i < |steps|
  {
    !Do(Finds(Play(site, steps[..i], false), steps[i]), steps[i].act, false).1.Failed?
  }

  ghost predicate AllAnswered(site: Site, steps: seq<Step>) {
    steps != [] ==> AllAnswered(site, steps[..|steps| - 1]) && Answered(site, steps, |steps| - 1)
  }

  predicate Aims(steps: seq<Step>, what: What) {
    steps != [] && (steps[|steps| - 1].act.Aim() == Some(what) || Aims(steps[..|steps| - 1], what))
  }

  /** After the last delete that aimed at it somebody wrote it with the label, and that stood. */
  predicate Revived(steps: seq<Step>, what: What) {
    && steps != []
    && var last := steps[|steps| - 1];
       && last.act.Aim() != Some(what)
       && (match Word(last.others, what)
           case None => Revived(steps[..|steps| - 1], what)
           case Some(left) => left.Some? && Labelled(left.value))
  }

  /** Where no call fails, what is left under a name that was aimed at is what was revived. */
  lemma {:induction false} LeftMeansRevived(site: Site, steps: seq<Step>, what: What)
    requires AllAnswered(site, steps) && Aims(steps, what)
    ensures Ours(Play(site, steps, false), what) <==> Revived(steps, what)
  {
    var n := |steps| - 1;
    var was := Play(site, steps[..n], false);
    MeanwhileAt(was, steps[n].others, what);
    DoesOnly(Finds(was, steps[n]), steps[n].act, false, what);
    if steps[n].act.Aim() != Some(what) {
      LeftMeansRevived(site, steps[..n], what);
    } else {
      assert Answered(site, steps, n);
    }
  }

  // ---- Runs in parts -------------------------------------------------------------------------------------

  lemma PlayOne(site: Site, steps: seq<Step>, step: Step, dryRun: bool)
    ensures Play(site, steps + [step], dryRun) == Do(Finds(Play(site, steps, dryRun), step), step.act, dryRun).0
  {
    assert (steps + [step])[..|steps|] == steps;
  }

  lemma AnsweredOne(site: Site, steps: seq<Step>, step: Step)
    requires AllAnswered(site, steps) && !Do(Finds(Play(site, steps, false), step), step.act, false).1.Failed?
    ensures AllAnswered(site, steps + [step])
  {
    var all := steps + [step];
    assert all[..|steps|] == steps && all[|steps|] == step;
  }

  lemma {:induction false} PlayParts(site: Site, a: seq<Step>, b: seq<Step>, dryRun: bool)
    ensures Play(site, a + b, dryRun) == Play(Play(site, a, dryRun), b, dryRun)
  {
    if b == [] {
      assert a + b == a;
    } else {
      var front, last := b[..|b| - 1], b[|b| - 1];
      PlayParts(site, a, front, dryRun);
      assert (a + b)[..|a + b| - 1] == a + front;
    }
  }

  lemma {:induction false} AnsweredParts(site: Site, a: seq<Step>, b: seq<Step>)
    requires AllAnswered(site, a) && AllAnswered(Play(site, a, false), b)
    ensures AllAnswered(site, a + b)
  {
    if b == [] {
      assert a + b == a;
    } else {
      var front, last := b[..|b| - 1], b[|b| - 1];
      AnsweredParts(site, a, front);
      PlayParts(site, a, front, false);
      assert a + b == (a + front) + [last];
      assert Answered(Play(site, a, false), b, |b| - 1);
      AnsweredOne(site, a + front, last);
    }
  }

  lemma {:induction false} AimsParts(a: seq<Step>, b: seq<Step>, what: What)
    ensures Aims(a + b, what) <==> Aims(a, what) || Aims(b, what)
  {
    if b == [] {
      assert a + b == a;
    } else {
      AimsParts(a, b[..|b| - 1], what);
      assert (a + b)[..|a + b| - 1] == a + b[..|b| - 1];
    }
  }
}
