/** The optional name-restricted RBAC policy: what it grants, and the order in which it is put
    in place so that no permission the daemon needs is ever missing. */
module Rbac {
  import opened Text

  datatype Verb = CreateVerb | PatchVerb | OtherVerb(name: string)

  /** A rule, as far as it is about Secrets. No names means every name. */
  datatype Rule = Rule(onSecrets: bool, verbs: seq<Verb>, names: seq<string>)

  datatype LabelKey = ManagedBy | AppName | Component | OtherLabel(key: string)

  datatype LabelValue = Helm | Tool | RestrictedRbac | TextValue(text: string)

  type Labels = map<LabelKey, LabelValue>

  datatype Role = Role(labels: Labels, annotations: map<string, string>, rules: seq<Rule>)

  datatype RoleRef = RoleRef(clusterWide: bool, name: string)

  datatype Subject = Subject(kind: string, name: string, namespace: string)

  datatype Binding = Binding(labels: Labels, annotations: map<string, string>, roleRef: RoleRef, subjects: seq<Subject>)

  /** The controller's ServiceAccounts, the roles and bindings of ArgoCD's namespace, and the
      cluster-wide roles a binding may name. */
  datatype Policy = Policy(
    accounts: map<string, Labels>,
    roles: map<string, Role>,
    bindings: map<string, Binding>,
    clusterRoles: map<string, Role>)

  datatype Names = Names(
    namespace: string,
    argocdNamespace: string,
    serviceAccount: string,
    baselineRole: string,
    baselineBinding: string,
    restrictedRole: string,
    restrictedBinding: string)
  {
    function Controller(): Subject { Subject("ServiceAccount", serviceAccount, namespace) }
  }

  // ---- What a policy permits -----------------------------------------------------------------------

  predicate Permits(rule: Rule, verb: Verb, name: string) {
    rule.onSecrets && verb in rule.verbs && (rule.names == [] || name in rule.names)
  }

  predicate RoleGrants(role: Role, verb: Verb, name: string) {
    exists i :: 0 <= i < |role.rules| && Permits(role.rules[i], verb, name)
  }

  function Referred(p: Policy, ref: RoleRef): Option<Role> {
    var roles := if ref.clusterWide then p.clusterRoles else p.roles;
    if ref.name in roles then Some(roles[ref.name]) else None
  }

  predicate BindingGrants(p: Policy, b: Binding, who: Subject, verb: Verb, name: string) {
    who in b.subjects && Referred(p, b.roleRef).Some? && RoleGrants(Referred(p, b.roleRef).value, verb, name)
  }

  /** RBAC is a union: something is permitted if any binding grants it. */
  ghost predicate Granted(p: Policy, who: Subject, verb: Verb, name: string) {
    exists b :: b in p.bindings && BindingGrants(p, p.bindings[b], who, verb, name)
  }

  // ---- The objects ------------------------------------------------------------------------------------

  const OWN_LABELS: Labels := map[ManagedBy := Tool, Component := RestrictedRbac]

  predicate Owned(labels: Labels) {
    ManagedBy in labels && labels[ManagedBy] == Tool && Component in labels && labels[Component] == RestrictedRbac
  }

  predicate ChartIdentity(labels: Labels, name: string) {
    ManagedBy in labels && labels[ManagedBy] == Helm && AppName in labels && labels[AppName] == TextValue(name)
  }

  function BaselineRules(broad: bool): seq<Rule> {
    [Rule(true, if broad then [CreateVerb, PatchVerb] else [CreateVerb], [])]
  }

  predicate BaselineRulesExpected(rules: seq<Rule>) {
    rules == BaselineRules(true) || rules == BaselineRules(false)
  }

  predicate BindingMatches(b: Binding, role: string, names: Names) {
    b.roleRef == RoleRef(false, role) && b.subjects == [names.Controller()]
  }

  function RestrictedRules(secretNames: seq<string>): seq<Rule> {
    if secretNames == [] then [] else [Rule(true, [PatchVerb], secretNames)]
  }

  function RestrictedRole(names: Names, secretNames: seq<string>): Role {
    Role(OWN_LABELS[AppName := TextValue(names.serviceAccount)], map["sync-wave" := "-2"], RestrictedRules(secretNames))
  }

  function RestrictedBinding(names: Names): Binding {
    Binding(OWN_LABELS[AppName := TextValue(names.serviceAccount)], map["sync-wave" := "-1"],
            RoleRef(false, names.restrictedRole), [names.Controller()])
  }

  /** Only patch, and only on these names: nothing at all when there are none, since a rule
      without names would be a rule for every name. */
  lemma RestrictedGrantsExactly(names: Names, secretNames: seq<string>, verb: Verb, name: string)
    ensures RoleGrants(RestrictedRole(names, secretNames), verb, name) <==> verb == PatchVerb && name in secretNames
  {
    if verb == PatchVerb && name in secretNames {
      assert Permits(RestrictedRules(secretNames)[0], verb, name);
    }
  }

  /** Create keeps working for any name, and patch goes. */
  lemma BaselineGrantsExactly(role: Role, broad: bool, verb: Verb, name: string)
    requires role.rules == BaselineRules(broad)
    ensures RoleGrants(role, verb, name) <==> verb == CreateVerb || (broad && verb == PatchVerb)
  {
    if verb == CreateVerb || (broad && verb == PatchVerb) {
      assert Permits(role.rules[0], verb, name);
    }
  }

  // ---- Inspecting -----------------------------------------------------------------------------------------

  /** Every object the command relies on is the one it should be. */
  predicate Inspected(p: Policy, names: Names) {
    && names.namespace != names.argocdNamespace
    && names.serviceAccount in p.accounts && ChartIdentity(p.accounts[names.serviceAccount], names.serviceAccount)
    && names.baselineRole in p.roles && ChartIdentity(p.roles[names.baselineRole].labels, names.serviceAccount)
    && BaselineRulesExpected(p.roles[names.baselineRole].rules)
    && names.baselineBinding in p.bindings && ChartIdentity(p.bindings[names.baselineBinding].labels, names.serviceAccount)
    && BindingMatches(p.bindings[names.baselineBinding], names.baselineRole, names)
    && (names.restrictedRole in p.roles ==> Owned(p.roles[names.restrictedRole].labels))
    && (names.restrictedBinding in p.bindings ==>
          Owned(p.bindings[names.restrictedBinding].labels)
          && BindingMatches(p.bindings[names.restrictedBinding], names.restrictedRole, names))
  }

  /** Nothing can be both the chart's and this command's: the two roles are two objects. */
  lemma InspectedMeansApart(p: Policy, names: Names)
    requires Inspected(p, names)
    ensures names.baselineRole != names.restrictedRole && names.baselineBinding != names.restrictedBinding
  {
  }

  // ---- Applying, call by call -------------------------------------------------------------------------------

  datatype Reply = Done | Refused | Lost

  datatype Calls = Calls(
    inspect: bool,
    getRole: Reply,
    writeRole: Reply,
    getBinding: Reply,
    writeBinding: Reply,
    getBaseline: Reply,
    writeBaseline: Reply,
    readBack: bool)

  function Merged<K, V>(into: map<K, V>, from: map<K, V>): map<K, V> { into + from }

  function UpsertedRole(p: Policy, name: string, desired: Role): Role {
    if name !in p.roles then desired
    else
      var existing := p.roles[name];
      Role(Merged(existing.labels, desired.labels), Merged(existing.annotations, desired.annotations), desired.rules)
  }

  function UpsertedBinding(p: Policy, name: string, desired: Binding): Binding {
    if name !in p.bindings then desired
    else
      var existing := p.bindings[name];
      Binding(Merged(existing.labels, desired.labels), Merged(existing.annotations, desired.annotations),
              desired.roleRef, desired.subjects)
  }

  function WithRole(p: Policy, names: Names, secretNames: seq<string>): Policy {
    p.(roles := p.roles[names.restrictedRole :=
         UpsertedRole(p, names.restrictedRole, RestrictedRole(names, secretNames))])
  }

  function WithBinding(p: Policy, names: Names): Policy {
    p.(bindings := p.bindings[names.restrictedBinding :=
         UpsertedBinding(p, names.restrictedBinding, RestrictedBinding(names))])
  }

  function Narrowed(p: Policy, names: Names): Policy {
    if names.baselineRole !in p.roles then p
    else p.(roles := p.roles[names.baselineRole := p.roles[names.baselineRole].(rules := BaselineRules(false))])
  }

  predicate Verified(p: Policy, names: Names, secretNames: seq<string>) {
    && names.restrictedRole in p.roles && Owned(p.roles[names.restrictedRole].labels)
    && p.roles[names.restrictedRole].rules == RestrictedRules(secretNames)
    && names.restrictedBinding in p.bindings && Owned(p.bindings[names.restrictedBinding].labels)
    && BindingMatches(p.bindings[names.restrictedBinding], names.restrictedRole, names)
    && names.baselineRole in p.roles && p.roles[names.baselineRole].rules == BaselineRules(false)
  }

  /** Every state the policy goes through, and whether Apply reports success. */
  datatype Outcome = Outcome(states: seq<Policy>, ok: bool)
  {
    function Last(): Policy
      requires states != []
    {
      states[|states| - 1]
    }
  }

  /** One write: it changes the state unless it was refused. */
  function Written(states: seq<Policy>, next: Policy, reply: Reply): seq<Policy> {
    if reply == Refused then states else states + [next]
  }

  function Apply(p: Policy, names: Names, secretNames: seq<string>, calls: Calls): (r: Outcome)
    ensures r.states != [] && r.states[0] == p && |r.states| <= 4
  {
    if !calls.inspect || !Inspected(p, names) || calls.getRole != Done then Outcome([p], false)
    else
      var p1 := WithRole(p, names, secretNames);
      var s1 := Written([p], p1, calls.writeRole);
      if calls.writeRole != Done || calls.getBinding != Done then Outcome(s1, false)
      else
        var p2 := WithBinding(p1, names);
        var s2 := Written(s1, p2, calls.writeBinding);
        if calls.writeBinding != Done || calls.getBaseline != Done then Outcome(s2, false)
        else
          var p3 := Narrowed(p2, names);
          var s3 := Written(s2, p3, calls.writeBaseline);
          Outcome(s3, calls.writeBaseline == Done && calls.readBack && Verified(p3, names, secretNames))
  }

  // ---- No gap --------------------------------------------------------------------------------------------------

  /** From one state to the next nobody's patch on a wanted name is lost. */
  ghost predicate KeepsPatch(p: Policy, q: Policy, names: Names, secretNames: seq<string>) {
    forall name :: name in secretNames && Granted(p, names.Controller(), PatchVerb, name) ==>
      Granted(q, names.Controller(), PatchVerb, name)
  }

  lemma RoleKeepsPatch(p: Policy, names: Names, secretNames: seq<string>)
    requires Inspected(p, names)
    ensures KeepsPatch(p, WithRole(p, names, secretNames), names, secretNames)
  {
    var q := WithRole(p, names, secretNames);
    forall name | name in secretNames && Granted(p, names.Controller(), PatchVerb, name)
      ensures Granted(q, names.Controller(), PatchVerb, name)
    {
      var b :| b in p.bindings && BindingGrants(p, p.bindings[b], names.Controller(), PatchVerb, name);
      RestrictedGrantsExactly(names, secretNames, PatchVerb, name);
      assert BindingGrants(q, q.bindings[b], names.Controller(), PatchVerb, name);
    }
  }

  lemma BindingKeepsPatch(p: Policy, names: Names, secretNames: seq<string>)
    requires names.restrictedBinding in p.bindings ==>
      BindingMatches(p.bindings[names.restrictedBinding], names.restrictedRole, names)
    ensures KeepsPatch(p, WithBinding(p, names), names, secretNames)
  {
    var q := WithBinding(p, names);
    forall name | name in secretNames && Granted(p, names.Controller(), PatchVerb, name)
      ensures Granted(q, names.Controller(), PatchVerb, name)
    {
      var b :| b in p.bindings && BindingGrants(p, p.bindings[b], names.Controller(), PatchVerb, name);
      assert BindingGrants(q, q.bindings[b], names.Controller(), PatchVerb, name);
    }
  }

  /** The restricted half is in place. */
  predicate Restricts(p: Policy, names: Names, secretNames: seq<string>) {
    && names.restrictedRole in p.roles && p.roles[names.restrictedRole].rules == RestrictedRules(secretNames)
    && names.restrictedBinding in p.bindings
    && BindingMatches(p.bindings[names.restrictedBinding], names.restrictedRole, names)
  }

  lemma RestrictedIsGranted(p: Policy, names: Names, secretNames: seq<string>, name: string)
    requires Restricts(p, names, secretNames) && name in secretNames
    ensures Granted(p, names.Controller(), PatchVerb, name)
  {
    var role := p.roles[names.restrictedRole];
    assert Permits(role.rules[0], PatchVerb, name);
    assert BindingGrants(p, p.bindings[names.restrictedBinding], names.Controller(), PatchVerb, name);
  }

  lemma NarrowingKeepsPatch(p: Policy, names: Names, secretNames: seq<string>)
    requires Restricts(p, names, secretNames) && names.baselineRole != names.restrictedRole
    ensures KeepsPatch(p, Narrowed(p, names), names, secretNames)
    ensures Restricts(Narrowed(p, names), names, secretNames)
  {
    forall name | name in secretNames ensures Granted(Narrowed(p, names), names.Controller(), PatchVerb, name) {
      RestrictedIsGranted(Narrowed(p, names), names, secretNames, name);
    }
  }

  /** At no point of an Apply, one that stops on an error included, does the controller lose
      patch on a Secret it is meant to keep. */
  lemma NoGap(p: Policy, names: Names, secretNames: seq<string>, calls: Calls, i: nat)
    requires i + 1 < |Apply(p, names, secretNames, calls).states|
    ensures var states := Apply(p, names, secretNames, calls).states;
      KeepsPatch(states[i], states[i + 1], names, secretNames)
  {
    InspectedMeansApart(p, names);
    var p1 := WithRole(p, names, secretNames);
    RoleKeepsPatch(p, names, secretNames);
    BindingKeepsPatch(p1, names, secretNames);
    NarrowingKeepsPatch(WithBinding(p1, names), names, secretNames);
  }

  lemma {:induction false} NoGapOverall(p: Policy, names: Names, secretNames: seq<string>, calls: Calls, i: nat, j: nat)
    requires i <= j < |Apply(p, names, secretNames, calls).states|
    ensures var states := Apply(p, names, secretNames, calls).states;
      KeepsPatch(states[i], states[j], names, secretNames)
  {
    if i < j {
      NoGapOverall(p, names, secretNames, calls, i, j - 1);
      NoGap(p, names, secretNames, calls, j - 1);
    }
  }

  /** When Apply succeeds, what the two bindings this is about grant is: patch on exactly the
      wanted names, and create on every name. */
  lemma SuccessIsExact(p: Policy, names: Names, secretNames: seq<string>, calls: Calls, verb: Verb, name: string)
    requires Apply(p, names, secretNames, calls).ok
    ensures var q := Apply(p, names, secretNames, calls).Last();
      && names.restrictedBinding in q.bindings && names.baselineBinding in q.bindings
      && ((BindingGrants(q, q.bindings[names.restrictedBinding], names.Controller(), verb, name)
           || BindingGrants(q, q.bindings[names.baselineBinding], names.Controller(), verb, name))
          == ((verb == PatchVerb && name in secretNames) || verb == CreateVerb))
  {
    InspectedMeansApart(p, names);
    var q := Apply(p, names, secretNames, calls).Last();
    RestrictedGrantsExactly(names, secretNames, verb, name);
    BaselineGrantsExactly(q.roles[names.baselineRole], false, verb, name);
    assert q.bindings[names.baselineBinding] == p.bindings[names.baselineBinding];
  }

  /** The state a successful Apply leaves behind. */
  predicate InPlace(p: Policy, names: Names, secretNames: seq<string>) {
    && names.restrictedRole in p.roles && names.restrictedBinding in p.bindings && names.baselineRole in p.roles
    && UpsertedRole(p, names.restrictedRole, RestrictedRole(names, secretNames)) == p.roles[names.restrictedRole]
    && UpsertedBinding(p, names.restrictedBinding, RestrictedBinding(names)) == p.bindings[names.restrictedBinding]
    && p.roles[names.baselineRole].rules == BaselineRules(false)
  }

  lemma MergedTwice<K, V>(into: map<K, V>, from: map<K, V>)
    ensures Merged(Merged(into, from), from) == Merged(into, from)
    ensures Merged(from, from) == from
  {
  }

  lemma WrittenIsInPlace(p: Policy, names: Names, secretNames: seq<string>)
    requires names.baselineRole in p.roles && names.baselineRole != names.restrictedRole
    ensures InPlace(Narrowed(WithBinding(WithRole(p, names, secretNames), names), names), names, secretNames)
  {
    var role, binding := RestrictedRole(names, secretNames), RestrictedBinding(names);
    MergedTwice(if names.restrictedRole in p.roles then p.roles[names.restrictedRole].labels else role.labels, role.labels);
    MergedTwice(if names.restrictedRole in p.roles then p.roles[names.restrictedRole].annotations else role.annotations, role.annotations);
    MergedTwice(if names.restrictedBinding in p.bindings then p.bindings[names.restrictedBinding].labels else binding.labels, binding.labels);
    MergedTwice(if names.restrictedBinding in p.bindings then p.bindings[names.restrictedBinding].annotations else binding.annotations, binding.annotations);
  }

  lemma InPlaceStays(p: Policy, names: Names, secretNames: seq<string>)
    requires InPlace(p, names, secretNames)
    ensures WithRole(p, names, secretNames) == p && WithBinding(p, names) == p && Narrowed(p, names) == p
  {
    assert p.roles[names.restrictedRole := p.roles[names.restrictedRole]] == p.roles;
    assert p.bindings[names.restrictedBinding := p.bindings[names.restrictedBinding]] == p.bindings;
    assert p.roles[names.baselineRole := p.roles[names.baselineRole]] == p.roles;
  }

  lemma AppliedIsInspected(p: Policy, names: Names, secretNames: seq<string>)
    requires Inspected(p, names)
    ensures var q := Narrowed(WithBinding(WithRole(p, names, secretNames), names), names);
      Inspected(q, names) && Verified(q, names, secretNames)
  {
    InspectedMeansApart(p, names);
  }

  /** Apply succeeds exactly if the policy passes inspection and every call succeeds: what it then
      reads back is always as it should be. */
  lemma AppliesExactly(p: Policy, names: Names, secretNames: seq<string>, calls: Calls)
    ensures Apply(p, names, secretNames, calls).ok <==> Inspected(p, names) && calls == Calls(true, Done, Done, Done, Done, Done, Done, true)
  {
    if Inspected(p, names) { AppliedIsInspected(p, names, secretNames); }
  }

  /** What somebody else has put on an object stays there. */
  ghost predicate KeepsForeign(was: map<string, string>, now: map<string, string>, own: string) {
    forall k :: k in was && k != own ==> k in now && now[k] == was[k]
  }

  ghost predicate KeepsLabels(was: Labels, now: Labels) {
    forall k :: k in was && k != ManagedBy && k != Component && k != AppName ==> k in now && now[k] == was[k]
  }

  /** From one policy to the other nothing has changed but the two roles' rules, the restricted
      binding, and what this command labels its own two objects with. */
  ghost predicate SparesTheRest(p: Policy, q: Policy, names: Names) {
    && q.accounts == p.accounts && q.clusterRoles == p.clusterRoles
    && (forall n :: n != names.restrictedRole && n != names.baselineRole ==> (n in q.roles) == (n in p.roles) && (n in p.roles ==> q.roles[n] == p.roles[n]))
    && (forall n :: n != names.restrictedBinding ==> (n in q.bindings) == (n in p.bindings) && (n in p.bindings ==> q.bindings[n] == p.bindings[n]))
    && (names.baselineRole in p.roles ==>
          names.baselineRole in q.roles && q.roles[names.baselineRole].(rules := []) == p.roles[names.baselineRole].(rules := []))
    && (names.restrictedRole in p.roles ==>
          && names.restrictedRole in q.roles
          && KeepsLabels(p.roles[names.restrictedRole].labels, q.roles[names.restrictedRole].labels)
          && KeepsForeign(p.roles[names.restrictedRole].annotations, q.roles[names.restrictedRole].annotations, "sync-wave"))
    && (names.restrictedBinding in p.bindings ==>
          && names.restrictedBinding in q.bindings
          && KeepsLabels(p.bindings[names.restrictedBinding].labels, q.bindings[names.restrictedBinding].labels)
          && KeepsForeign(p.bindings[names.restrictedBinding].annotations, q.bindings[names.restrictedBinding].annotations, "sync-wave"))
  }

  /** However far it gets, an Apply leaves everything else in the namespace, and everything others
      have put on its objects, as it was. */
  lemma ApplySparesTheRest(p: Policy, names: Names, secretNames: seq<string>, calls: Calls, i: nat)
    requires i < |Apply(p, names, secretNames, calls).states|
    ensures SparesTheRest(p, Apply(p, names, secretNames, calls).states[i], names)
  {
    StatesOfApply(p, names, secretNames, calls, i);
    if Inspected(p, names) {
      InspectedMeansApart(p, names);
      var p1 := WithRole(p, names, secretNames);
      RoleSpares(p, names, secretNames);
      BindingSpares(p, p1, names);
      NarrowingSpares(p, WithBinding(p1, names), names);
    }
  }

  lemma StatesOfApply(p: Policy, names: Names, secretNames: seq<string>, calls: Calls, i: nat)
    requires i < |Apply(p, names, secretNames, calls).states|
    ensures var q, p1 := Apply(p, names, secretNames, calls).states[i], WithRole(p, names, secretNames);
      q == p || (Inspected(p, names) && (q == p1 || q == WithBinding(p1, names) || q == Narrowed(WithBinding(p1, names), names)))
  {
  }

  lemma RoleSpares(p: Policy, names: Names, secretNames: seq<string>)
    requires names.baselineRole != names.restrictedRole
    ensures SparesTheRest(p, WithRole(p, names, secretNames), names)
  {
  }

  lemma BindingSpares(p: Policy, q: Policy, names: Names)
    requires SparesTheRest(p, q, names) && (names.restrictedBinding in q.bindings ==> names.restrictedBinding in p.bindings && q.bindings == p.bindings)
    ensures SparesTheRest(p, WithBinding(q, names), names)
  {
  }

  lemma NarrowingSpares(p: Policy, q: Policy, names: Names)
    requires SparesTheRest(p, q, names) && names.baselineRole != names.restrictedRole
    ensures SparesTheRest(p, Narrowed(q, names), names)
  {
  }

  /** With every call answered and nobody interfering, Apply on an inspected policy succeeds, and
      applying it again changes nothing. */
  lemma ApplySettles(p: Policy, names: Names, secretNames: seq<string>, calls: Calls)
    requires Inspected(p, names)
    requires calls == Calls(true, Done, Done, Done, Done, Done, Done, true)
    ensures var r := Apply(p, names, secretNames, calls);
      r.ok && Apply(r.Last(), names, secretNames, calls).ok && Apply(r.Last(), names, secretNames, calls).Last() == r.Last()
  {
    InspectedMeansApart(p, names);
    var q := Narrowed(WithBinding(WithRole(p, names, secretNames), names), names);
    AppliedIsInspected(p, names, secretNames);
    WrittenIsInPlace(p, names, secretNames);
    InPlaceStays(q, names, secretNames);
    assert Apply(p, names, secretNames, calls).Last() == q;
  }
}
