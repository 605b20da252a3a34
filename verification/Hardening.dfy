/** The restrict-rbac command: the plan it makes of the inventory, and the writes it issues. */
module Hardening {
  import opened Text
  import opened Rbac
  import Inventory

  // ---- The plan ------------------------------------------------------------------------------------

  predicate IsLowerAlnum(c: char) { 'a' <= c <= 'z' || '0' <= c <= '9' }

  predicate DnsLabel(s: string) {
    s != "" && IsLowerAlnum(s[0]) && IsLowerAlnum(s[|s| - 1]) && forall i :: 0 <= i < |s| ==> IsLowerAlnum(s[i]) || s[i] == '-'
  }

  function FirstDot(s: string): (d: nat)
    ensures d <= |s| && (d < |s| ==> s[d] == '.')
  {
    if s == "" || s[0] == '.' then 0 else 1 + FirstDot(s[1..])
  }

  predicate DnsLabels(s: string) {
    var d := FirstDot(s);
    if d == |s| then DnsLabel(s) else DnsLabel(s[..d]) && DnsLabels(s[d + 1..])
  }

  /** The name of a Secret, by section 2.1 of RFC 1123 as Kubernetes reads it. */
  predicate IsSubdomain(s: string) { |s| <= 253 && DnsLabels(s) }

  datatype Connection = Connection(name: string, secretName: string)

  datatype Plan = Plan(connections: seq<Connection>, secretNames: seq<string>)

  datatype Planning =
    | Planned(plan: Plan)
    | Unsafe(problems: seq<string>)
    | BadName(connection: string, secretName: string)
    | TwiceClaimed(first: string, second: string, secretName: string)

  predicate Clean(e: Inventory.Entry) { e.Valid() && IsSubdomain(e.cluster.secretName) }

  /** No Secret name is resolved to twice. */
  ghost predicate DistinctSecrets(es: seq<Inventory.Entry>) {
    forall i, j :: 0 <= i < j < |es| ==> es[i].cluster.secretName != es[j].cluster.secretName
  }

  function ConnectionOf(e: Inventory.Entry): Connection { Connection(e.cluster.name, e.cluster.secretName) }

  function ConnectionsOf(es: seq<Inventory.Entry>): (r: seq<Connection>)
    ensures |r| == |es|
  {
    if es == [] then [] else ConnectionsOf(es[..|es| - 1]) + [ConnectionOf(es[|es| - 1])]
  }

  function Problems(es: seq<Inventory.Entry>): seq<string> {
    if es == [] then []
    else
      var last := es[|es| - 1];
      Problems(es[..|es| - 1]) + if last.Valid() then [] else [last.cluster.name + ": " + last.invalidReason]
  }

  lemma {:induction false} ProblemsFound(es: seq<Inventory.Entry>)
    ensures Problems(es) == [] <==> forall i :: 0 <= i < |es| ==> es[i].Valid()
  {
    if es != [] {
      ProblemsFound(es[..|es| - 1]);
      assert forall i :: 0 <= i < |es| - 1 ==> es[..|es| - 1][i] == es[i];
    }
  }

  method CollectProblems(es: seq<Inventory.Entry>) returns (problems: seq<string>)
    ensures problems == Problems(es)
  {
    problems := [];
    for i := 0 to |es|
      invariant problems == Problems(es[..i])
    {
      assert es[..i + 1][..i] == es[..i];
      if !es[i].Valid() {
        problems := problems + [es[i].cluster.name + ": " + es[i].invalidReason];
      }
    }
    assert es[..|es|] == es;
  }

  ghost predicate SortedByName(cs: seq<Connection>) {
    forall i, j :: 0 <= i < j < |cs| ==> Leq(cs[i].name, cs[j].name)
  }

  lemma BeforeAll(sorted: seq<Connection>, k: nat, name: string)
    requires SortedByName(sorted) && 0 < k <= |sorted| && Leq(sorted[k - 1].name, name)
    ensures forall i :: 0 <= i < k ==> Leq(sorted[i].name, name)
  {
    forall i | 0 <= i < k - 1 ensures Leq(sorted[i].name, name) {
      LeqTransitive(sorted[i].name, sorted[k - 1].name, name);
    }
  }

  lemma InsertedIsSorted(sorted: seq<Connection>, k: nat, c: Connection)
    requires SortedByName(sorted) && k <= |sorted|
    requires forall i :: 0 <= i < k ==> Leq(sorted[i].name, c.name)
    requires forall i :: k <= i < |sorted| ==> Leq(c.name, sorted[i].name)
    ensures SortedByName(sorted[..k] + [c] + sorted[k..])
    ensures multiset(sorted[..k] + [c] + sorted[k..]) == multiset(sorted) + multiset{c}
  {
    assert sorted == sorted[..k] + sorted[k..];
  }

  method InsertConnection(sorted: seq<Connection>, c: Connection) returns (r: seq<Connection>)
    requires SortedByName(sorted)
    ensures SortedByName(r) && multiset(r) == multiset(sorted) + multiset{c}
  {
    var k := |sorted|;
    while k > 0 && !Leq(sorted[k - 1].name, c.name)
      invariant 0 <= k <= |sorted|
      invariant forall i :: k <= i < |sorted| ==> Leq(c.name, sorted[i].name)
    {
      LeqTotal(sorted[k - 1].name, c.name);
      k := k - 1;
    }
    if k > 0 {
      BeforeAll(sorted, k, c.name);
    }
    InsertedIsSorted(sorted, k, c);
    r := sorted[..k] + [c] + sorted[k..];
  }

  method SortConnections(cs: seq<Connection>) returns (sorted: seq<Connection>)
    ensures SortedByName(sorted) && multiset(sorted) == multiset(cs)
  {
    sorted := [];
    for i := 0 to |cs|
      invariant SortedByName(sorted) && multiset(sorted) == multiset(cs[..i])
    {
      assert cs[..i + 1] == cs[..i] + [cs[i]];
      sorted := InsertConnection(sorted, cs[i]);
    }
    assert cs[..|cs|] == cs;
  }

  method SortedKeys(claimed: map<string, string>) returns (names: seq<string>)
    ensures StrictlySorted(names) && forall n :: n in names <==> n in claimed
  {
    names := [];
    var remaining := claimed.Keys;
    while remaining != {}
      invariant remaining <= claimed.Keys
      invariant forall n :: n in names <==> n in claimed && n !in remaining
      invariant forall i, j :: 0 <= i < j < |names| ==> names[i] != names[j]
    {
      var n :| n in remaining;
      remaining := remaining - {n};
      names := names + [n];
    }
    SortKeepsMembers(names);
    names := Sort(names);
  }

  ghost predicate ClaimedBy(es: seq<Inventory.Entry>, secretName: string, name: string) {
    exists i :: 0 <= i < |es| && es[i].cluster.secretName == secretName && es[i].cluster.name == name
  }

  /** Claims made so far, and by whom. */
  ghost predicate ClaimsOf(claimed: map<string, string>, es: seq<Inventory.Entry>) {
    && (forall i :: 0 <= i < |es| ==> es[i].cluster.secretName in claimed)
    && (forall n :: n in claimed ==> ClaimedBy(es, n, claimed[n]))
  }

  lemma ClaimsGrow(claimed: map<string, string>, es: seq<Inventory.Entry>, e: Inventory.Entry)
    requires ClaimsOf(claimed, es)
    ensures ClaimsOf(claimed[e.cluster.secretName := e.cluster.name], es + [e])
  {
    var more, all := claimed[e.cluster.secretName := e.cluster.name], es + [e];
    forall n | n in more ensures ClaimedBy(all, n, more[n]) {
      if n == e.cluster.secretName {
        assert all[|es|] == e;
      } else {
        var i :| 0 <= i < |es| && es[i].cluster.secretName == n && es[i].cluster.name == claimed[n];
        assert all[i] == es[i];
      }
    }
  }

  /** What makes one entry unfit for the plan, given those before it. */
  ghost predicate Spoils(es: seq<Inventory.Entry>, k: nat, r: Planning)
    requires k < |es|
  {
    var e := es[k];
    match r
    case BadName(connection, secretName) =>
      connection == e.cluster.name && secretName == e.cluster.secretName && !IsSubdomain(secretName)
    case TwiceClaimed(first, second, secretName) =>
      second == e.cluster.name && secretName == e.cluster.secretName && ClaimedBy(es[..k], secretName, first)
    case _ => false
  }

  /** Entry k is the first to spoil the plan: those before it are fit and claim apart. */
  ghost predicate SpoilsFirst(es: seq<Inventory.Entry>, k: nat, r: Planning)
    requires k < |es|
  {
    && Spoils(es, k, r) && (r.TwiceClaimed? ==> IsSubdomain(r.secretName))
    && (forall i :: 0 <= i < k ==> IsSubdomain(es[i].cluster.secretName)) && DistinctSecrets(es[..k])
  }

  /** The plan so far is one for these entries. */
  ghost predicate PlanFor(connections: seq<Connection>, claimed: map<string, string>, es: seq<Inventory.Entry>) {
    && connections == ConnectionsOf(es) && ClaimsOf(claimed, es) && DistinctSecrets(es)
    && forall i :: 0 <= i < |es| ==> IsSubdomain(es[i].cluster.secretName)
  }

  lemma DistinctGrows(es: seq<Inventory.Entry>, e: Inventory.Entry)
    requires DistinctSecrets(es) && forall i :: 0 <= i < |es| ==> es[i].cluster.secretName != e.cluster.secretName
    ensures DistinctSecrets(es + [e])
  {
    var all := es + [e];
    forall i, j | 0 <= i < j < |all| ensures all[i].cluster.secretName != all[j].cluster.secretName {
      assert all[i] == es[i];
      if j < |es| { assert all[j] == es[j]; }
    }
  }

  lemma ConnectionsGrow(es: seq<Inventory.Entry>, e: Inventory.Entry)
    ensures ConnectionsOf(es + [e]) == ConnectionsOf(es) + [ConnectionOf(e)]
  {
    assert (es + [e])[..|es|] == es;
  }

  lemma PlanGrows(connections: seq<Connection>, claimed: map<string, string>, es: seq<Inventory.Entry>, e: Inventory.Entry)
    requires PlanFor(connections, claimed, es) && IsSubdomain(e.cluster.secretName) && e.cluster.secretName !in claimed
    ensures PlanFor(connections + [ConnectionOf(e)], claimed[e.cluster.secretName := e.cluster.name], es + [e])
  {
    ClaimsGrow(claimed, es, e);
    ConnectionsGrow(es, e);
    forall i | 0 <= i < |es| ensures es[i].cluster.secretName != e.cluster.secretName {
      assert es[i].cluster.secretName in claimed;
    }
    DistinctGrows(es, e);
  }

  /** Entry k spoils the plan for those before it, or makes it one longer. */
  lemma PlanStep(connections: seq<Connection>, claimed: map<string, string>, es: seq<Inventory.Entry>, k: nat)
    requires k < |es| && PlanFor(connections, claimed, es[..k])
    ensures var name := es[k].cluster.secretName;
      && (!IsSubdomain(name) ==> SpoilsFirst(es, k, BadName(es[k].cluster.name, name)))
      && (IsSubdomain(name) && name in claimed ==> SpoilsFirst(es, k, TwiceClaimed(claimed[name], es[k].cluster.name, name)))
      && (IsSubdomain(name) && name !in claimed ==>
            PlanFor(connections + [ConnectionOf(es[k])], claimed[name := es[k].cluster.name], es[..k + 1]))
  {
    var name := es[k].cluster.secretName;
    forall i | 0 <= i < k ensures IsSubdomain(es[i].cluster.secretName) {
      assert es[..k][i] == es[i];
    }
    if IsSubdomain(name) && name !in claimed {
      PlanGrows(connections, claimed, es[..k], es[k]);
      assert es[..k + 1] == es[..k] + [es[k]];
    }
  }

  /** Every claim, up to the first entry that spoils the plan. */
  method ClaimAll(es: seq<Inventory.Entry>) returns (spoiled: Option<Planning>, connections: seq<Connection>, claimed: map<string, string>)
    ensures spoiled.Some? ==> exists k :: 0 <= k < |es| && SpoilsFirst(es, k, spoiled.value)
    ensures spoiled.None? ==> PlanFor(connections, claimed, es)
  {
    spoiled, connections, claimed := None, [], map[];
    for k := 0 to |es|
      invariant spoiled == None && PlanFor(connections, claimed, es[..k])
    {
      PlanStep(connections, claimed, es, k);
      var name := es[k].cluster.secretName;
      if !IsSubdomain(name) {
        spoiled := Some(BadName(es[k].cluster.name, name));
        return;
      }
      if name in claimed {
        spoiled := Some(TwiceClaimed(claimed[name], es[k].cluster.name, name));
        return;
      }
      claimed := claimed[name := es[k].cluster.name];
      connections := connections + [ConnectionOf(es[k])];
    }
    assert es[..|es|] == es;
  }

  /** Nothing spoils an inventory whose names are fit and distinct. */
  lemma SpoiledMeansUnfit(es: seq<Inventory.Entry>, k: nat, r: Planning)
    requires k < |es| && Spoils(es, k, r)
    ensures !IsSubdomain(es[k].cluster.secretName) || !DistinctSecrets(es)
  {
    if r.TwiceClaimed? {
      var i :| 0 <= i < |es[..k]| && es[..k][i].cluster.secretName == r.secretName && es[..k][i].cluster.name == r.first;
      assert es[i].cluster.secretName == es[k].cluster.secretName;
    }
  }

  /** The plan -- every connection, in name order, and the exact names -- or the first reason there
      is none. */
  method BuildPlan(es: seq<Inventory.Entry>) returns (r: Planning)
    ensures r.Unsafe? <==> exists i :: 0 <= i < |es| && !es[i].Valid()
    ensures r.Unsafe? ==> r.problems == Sort(Problems(es))
    ensures r.Planned? <==> (forall i :: 0 <= i < |es| ==> Clean(es[i])) && DistinctSecrets(es)
    ensures r.Planned? ==>
      && multiset(r.plan.connections) == multiset(ConnectionsOf(es)) && SortedByName(r.plan.connections)
      && StrictlySorted(r.plan.secretNames)
      && (forall n :: n in r.plan.secretNames <==> exists i :: 0 <= i < |es| && es[i].cluster.secretName == n)
    ensures r.BadName? || r.TwiceClaimed? ==> exists k :: 0 <= k < |es| && SpoilsFirst(es, k, r)
  {
    ProblemsFound(es);
    var invalid := CollectProblems(es);
    if |invalid| > 0 {
      return Unsafe(Sort(invalid));
    }
    var spoiled, connections, claimed := ClaimAll(es);
    if spoiled.Some? {
      ghost var k :| 0 <= k < |es| && SpoilsFirst(es, k, spoiled.value);
      SpoiledMeansUnfit(es, k, spoiled.value);
      return spoiled.value;
    }
    connections := SortConnections(connections);
    var names := SortedKeys(claimed);
    return Planned(Plan(connections, names));
  }

  /** Of an inventory as it is listed, no two entries that may be reconciled can trip the plan on
      one Secret: the only thing that can is a name Kubernetes would not accept. */
  lemma ListedNeverClaimsTwice(objects: seq<Inventory.Connection>)
    requires forall i :: 0 <= i < |objects| ==> Inventory.Listed(objects)[i].Valid()
    ensures |Inventory.Listed(objects)| == |objects| && DistinctSecrets(Inventory.Listed(objects))
  {
    forall i, j | 0 <= i < j < |objects|
      ensures Inventory.Listed(objects)[i].cluster.secretName != Inventory.Listed(objects)[j].cluster.secretName
    {
      Inventory.SurvivorsAreDistinct(objects, i, j);
    }
  }

  // ---- A name that is not claimed ---------------------------------------------------------------------

  const EXCLUDED := "cluster-k2a-token-sync-rbac-excluded"

  function Candidate(base: string, i: nat): string {
    if i == 0 then base else base + "-" + Decimal(i)
  }

  lemma CandidatesDiffer(base: string, i: nat, j: nat)
    requires i != j
    ensures Candidate(base, i) != Candidate(base, j)
  {
    if i > 0 && j > 0 && Candidate(base, i) == Candidate(base, j) {
      assert Candidate(base, i)[|base| + 1..] == Decimal(i);
      assert Candidate(base, j)[|base| + 1..] == Decimal(j);
      DecimalIsInjective(i, j);
    }
  }

  /** A name to ask about that the policy must deny. There are finitely many claimed names and no
      end of candidates, so one turns up. */
  method ExcludedName(base: string, names: seq<string>) returns (candidate: string)
    ensures candidate !in names
    ensures exists i :: 0 <= i <= |names| && candidate == Candidate(base, i)
  {
    var claimed: set<string> := {};
    for k := 0 to |names|
      invariant (forall n :: n in claimed <==> n in names[..k]) && |claimed| <= k
    {
      assert names[..k + 1] == names[..k] + [names[k]];
      claimed := claimed + {names[k]};
    }
    assert names[..|names|] == names;
    var i := 0;
    ghost var tried: set<string> := {};
    while true
      invariant 0 <= i == |tried| && tried <= claimed
      invariant forall n :: n in tried ==> exists j :: 0 <= j < i && n == Candidate(base, j)
      decreases |claimed| - |tried|
    {
      candidate := Candidate(base, i);
      Subset(tried, claimed);
      if candidate !in claimed {
        return;
      }
      forall n | n in tried ensures n != candidate {
        var j :| 0 <= j < i && n == Candidate(base, j);
        CandidatesDiffer(base, i, j);
      }
      Subset(tried + {candidate}, claimed);
      tried := tried + {candidate};
      i := i + 1;
    }
  }

  lemma {:induction false} Subset(a: set<string>, b: set<string>)
    requires a <= b
    ensures |a| <= |b|
    decreases |a|
  {
    if a != {} {
      var x :| x in a;
      Subset(a - {x}, b - {x});
    }
  }

  // ---- The writes ---------------------------------------------------------------------------------------

  /** Roles and bindings behind the API server. */
  class PolicyStore {
    const accounts: map<string, Labels>
    const clusterRoles: map<string, Role>
    var roles: map<string, Role>
    var bindings: map<string, Binding>
    ghost var states: seq<Policy>

    constructor (p: Policy)
      ensures View() == p && states == [p]
    {
      accounts, clusterRoles, roles, bindings, states := p.accounts, p.clusterRoles, p.roles, p.bindings, [p];
    }

    function View(): Policy
      reads this
    {
      Policy(accounts, roles, bindings, clusterRoles)
    }

    method MergeLabels(into: Labels, from: Labels) returns (merged: Labels)
      ensures merged == Merged(into, from)
    {
      merged := into;
      var remaining := from.Keys;
      while remaining != {}
        invariant remaining <= from.Keys
        invariant merged.Keys == into.Keys + (from.Keys - remaining)
        invariant forall k :: k in merged ==> merged[k] == if k in from && k !in remaining then from[k] else into[k]
      {
        var k :| k in remaining;
        remaining := remaining - {k};
        merged := merged[k := from[k]];
      }
    }

    method UpsertRole(name: string, desired: Role, get: Reply, write: Reply) returns (ok: bool)
      modifies this`roles, this`states
      ensures ok == (get == Done && write == Done)
      ensures roles == if get != Done || write == Refused then old(roles)
                       else old(roles)[name := UpsertedRole(old(View()), name, desired)]
      ensures states == if get != Done then old(states) else Written(old(states), View(), write)
    {
      if get != Done {
        return false;
      }
      var next := desired;
      if name in roles {
        var existing := roles[name];
        var labels := MergeLabels(existing.labels, desired.labels);
        next := Role(labels, Merged(existing.annotations, desired.annotations), desired.rules);
      }
      if write != Refused {
        roles := roles[name := next];
        states := states + [View()];
      }
      return write == Done;
    }

    method UpsertBinding(name: string, desired: Binding, get: Reply, write: Reply) returns (ok: bool)
      modifies this`bindings, this`states
      ensures ok == (get == Done && write == Done)
      ensures bindings == if get != Done || write == Refused then old(bindings)
                          else old(bindings)[name := UpsertedBinding(old(View()), name, desired)]
      ensures states == if get != Done then old(states) else Written(old(states), View(), write)
    {
      if get != Done {
        return false;
      }
      var next := desired;
      if name in bindings {
        var existing := bindings[name];
        var labels := MergeLabels(existing.labels, desired.labels);
        next := Binding(labels, Merged(existing.annotations, desired.annotations), desired.roleRef, desired.subjects);
      }
      if write != Refused {
        bindings := bindings[name := next];
        states := states + [View()];
      }
      return write == Done;
    }

    method NarrowBaseline(names: Names, get: Reply, write: Reply) returns (ok: bool)
      requires names.baselineRole in roles
      modifies this`roles, this`states
      ensures ok == (get == Done && write == Done)
      ensures roles == if get != Done || write == Refused then old(roles) else Narrowed(old(View()), names).roles
      ensures states == if get != Done then old(states) else Written(old(states), View(), write)
    {
      if get != Done {
        return false;
      }
      var baseline := roles[names.baselineRole].(rules := BaselineRules(false));
      if write != Refused {
        roles := roles[names.baselineRole := baseline];
        states := states + [View()];
      }
      return write == Done;
    }

    /** The restricted permission goes in before the broad one comes out. */
    method Activate(names: Names, secretNames: seq<string>, calls: Calls) returns (ok: bool)
      requires states == [View()]
      modifies this`roles, this`bindings, this`states
      ensures Outcome(states, ok) == Apply(old(View()), names, secretNames, calls)
      ensures View() == states[|states| - 1]
    {
      if !calls.inspect || !Inspected(View(), names) {
        return false;
      }
      ok := UpsertRole(names.restrictedRole, RestrictedRole(names, secretNames), calls.getRole, calls.writeRole);
      if !ok {
        return false;
      }
      ok := UpsertBinding(names.restrictedBinding, RestrictedBinding(names), calls.getBinding, calls.writeBinding);
      if !ok {
        return false;
      }
      ok := NarrowBaseline(names, calls.getBaseline, calls.writeBaseline);
      if !ok {
        return false;
      }
      return calls.readBack && Verified(View(), names, secretNames);
    }
  }

  // ---- Asking the authorizer ---------------------------------------------------------------------------------

  datatype Check = Check(verb: Verb, name: string, want: bool)

  /** What a SubjectAccessReview comes back with. */
  datatype Review = Answered(allowed: bool) | Unevaluated | ForbiddenToAsk | Failed

  datatype Verdict = Confirmed(checks: nat) | Skipped(checks: nat) | Differs(check: Check) | NoAnswer

  function Checks(secretNames: seq<string>, excluded: string): seq<Check> {
    seq(|secretNames|, i requires 0 <= i < |secretNames| => Check(PatchVerb, secretNames[i], true))
    + [Check(PatchVerb, excluded, false), Check(CreateVerb, "", true)]
  }

  /** The first n answers are as they should be, and the next, if there is one, is not. */
  ghost predicate StopsAt(checks: seq<Check>, ask: Check -> Review, n: nat) {
    && n <= |checks| && (forall j :: 0 <= j < n ==> ask(checks[j]) == Answered(checks[j].want))
    && (n < |checks| ==> ask(checks[n]) != Answered(checks[n].want))
  }

  function VerdictAt(checks: seq<Check>, ask: Check -> Review, n: nat): Verdict
    requires n <= |checks|
  {
    if n == |checks| then Confirmed(n)
    else match ask(checks[n])
      case ForbiddenToAsk => Skipped(n)
      case Answered(_) => Differs(checks[n])
      case _ => NoAnswer
  }

  /** Every allowed name, one that is not, and create: verified only if every answer is as it
      should be, and stopping at the first that is not. */
  method VerifyAuthorization(secretNames: seq<string>, ask: Check -> Review) returns (r: Verdict, excluded: string)
    ensures excluded !in secretNames
    ensures r.Confirmed? <==>
      && (forall n :: n in secretNames ==> ask(Check(PatchVerb, n, true)) == Answered(true))
      && ask(Check(PatchVerb, excluded, false)) == Answered(false)
      && ask(Check(CreateVerb, "", true)) == Answered(true)
    ensures r.Differs? ==> ask(r.check) == Answered(!r.check.want)
    ensures r.Skipped? ==> r.checks < |Checks(secretNames, excluded)| && ask(Checks(secretNames, excluded)[r.checks]) == ForbiddenToAsk
    ensures r.NoAnswer? ==> exists check :: check in Checks(secretNames, excluded) && (ask(check) == Failed || ask(check) == Unevaluated)
    ensures var checks := Checks(secretNames, excluded);
      exists n :: 0 <= n <= |checks| && StopsAt(checks, ask, n) && r == VerdictAt(checks, ask, n)
  {
    excluded := ExcludedName(EXCLUDED, secretNames);
    var checks := Checks(secretNames, excluded);
    assert forall i :: 0 <= i < |secretNames| ==> checks[i] == Check(PatchVerb, secretNames[i], true);
    assert checks[|secretNames|] == Check(PatchVerb, excluded, false);
    assert checks[|secretNames| + 1] == Check(CreateVerb, "", true);
    for i := 0 to |checks|
      invariant forall j :: 0 <= j < i ==> ask(checks[j]) == Answered(checks[j].want)
    {
      assert ask(checks[i]) != Answered(checks[i].want) ==> StopsAt(checks, ask, i);
      match ask(checks[i]) {
        case ForbiddenToAsk => return Skipped(i), excluded;
        case Failed => return NoAnswer, excluded;
        case Unevaluated => return NoAnswer, excluded;
        case Answered(allowed) =>
          if allowed != checks[i].want {
            return Differs(checks[i]), excluded;
          }
      }
    }
    forall n | n in secretNames ensures ask(Check(PatchVerb, n, true)) == Answered(true) {
      var i :| 0 <= i < |secretNames| && secretNames[i] == n;
      assert ask(checks[i]) == Answered(checks[i].want);
    }
    assert StopsAt(checks, ask, |checks|);
    return Confirmed(|checks|), excluded;
  }
}
