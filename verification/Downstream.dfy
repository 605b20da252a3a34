/** The objects this tool keeps in a managed cluster: how they are provisioned and repaired,
    and how each is deleted again. */
module Downstream {
  import opened Text
  import opened Credentials

  datatype AccountName = AccountName(namespace: string, name: string)

  /** Tokens are bound to the UID, so an account recreated under its name invalidates them. */
  datatype Account = Account(uid: nat, managed: bool)

  datatype Binding = Binding(role: string, subjects: set<AccountName>, managed: bool)

  /** A ClusterRole, as far as which role it lets its holder bind. */
  datatype Role = Role(mayBind: string, managed: bool)

  datatype Objects = Objects(
    accounts: map<AccountName, Account>,
    bindings: map<string, Binding>,
    roles: map<string, Role>,
    nextUid: nat)

  datatype EnsureError = CallFailed | RoleRefMismatch | SubjectMissing | EmptyRole

  datatype Ensured<+T> = Ok(value: T) | Err(error: EnsureError)

  /** How a get-then-create is answered, and whether somebody else creates in between. */
  datatype CallEnv = CallEnv(get: Reply, rival: bool, create: Reply)
  {
    predicate Clean() { get == Done && !rival && create == Done }
  }

  /** The same for a binding, which somebody else may make as they please. */
  datatype BindingEnv = BindingEnv(get: Reply, rival: Option<Binding>, create: Reply)
  {
    predicate Clean() { get == Done && rival.None? && create == Done }
  }

  datatype Repairs = Repairs(serviceAccount: bool, binding: bool)
  {
    predicate Any() { serviceAccount || binding }
  }

  // ---- Provisioning ------------------------------------------------------------------------

  function WithAccount(o: Objects, who: AccountName, managed: bool): Objects {
    o.(accounts := o.accounts[who := Account(o.nextUid, managed)], nextUid := o.nextUid + 1)
  }

  /** The binding as it comes to be: this tool's own, or a rival's. */
  function MadeBinding(role: string, who: AccountName, rival: Option<Binding>): Binding {
    if rival.Some? then rival.value else Binding(role, {who}, true)
  }

  function WithBinding(o: Objects, name: string, binding: Binding): Objects {
    o.(bindings := o.bindings[name := binding])
  }

  function EnsureServiceAccount(o: Objects, who: AccountName, env: CallEnv): (Objects, Ensured<bool>) {
    if env.get != Done then (o, Err(CallFailed))
    else if who in o.accounts then (o, Ok(false))
    else if env.create == Refused then (o, Err(CallFailed))
    else if env.rival then (WithAccount(o, who, false), if env.create == Done then Ok(false) else Err(CallFailed))
    else (WithAccount(o, who, true), if env.create == Done then Ok(true) else Err(CallFailed))
  }

  /** An existing binding is never rewritten: it is right, or it is reported. One that comes to be
      between the get and the create is taken as it is. */
  function EnsureClusterRoleBinding(o: Objects, name: string, role: string, who: AccountName, env: BindingEnv): (Objects, Ensured<bool>) {
    if env.get != Done then (o, Err(CallFailed))
    else if name in o.bindings then
      (o, if o.bindings[name].role != role then Err(RoleRefMismatch)
          else if who in o.bindings[name].subjects then Ok(false)
          else Err(SubjectMissing))
    else if env.create == Refused then (o, Err(CallFailed))
    else (WithBinding(o, name, MadeBinding(role, who, env.rival)),
          if env.create != Done then Err(CallFailed) else Ok(env.rival.None?))
  }

  function EnsureArgoCDIdentity(o: Objects, who: AccountName, role: string, account: CallEnv, binding: BindingEnv): (Objects, Ensured<Repairs>) {
    if role == "" then (o, Err(EmptyRole))
    else
      var (o1, created) := EnsureServiceAccount(o, who, account);
      match created
      case Err(e) => (o1, Err(e))
      case Ok(recreated) =>
        var (o2, bound) := EnsureClusterRoleBinding(o1, who.name + "-role-binding", role, who, binding);
        match bound
        case Err(e) => (o2, Err(e))
        case Ok(rebound) => (o2, Ok(Repairs(recreated, rebound)))
  }

  /** The self identity's ClusterRole is created, or overwritten with what it should say. */
  function EnsureSelfIdentity(o: Objects, who: AccountName, role: string, account: CallEnv, write: Reply, binding: BindingEnv): (Objects, Ensured<()>) {
    if role == "" then (o, Err(EmptyRole))
    else
      var (o1, created) := EnsureServiceAccount(o, who, account);
      if created.Err? then (o1, Err(created.error))
      else
        var o2 := if write == Refused then o1 else o1.(roles := o1.roles[who.name := Role(role, true)]);
        if write != Done then (o2, Err(CallFailed))
        else
          var (o3, bound) := EnsureClusterRoleBinding(o2, who.name, who.name, who, binding);
          (o3, if bound.Err? then Err(bound.error) else Ok(()))
  }

  /** The binding gives the account the role. */
  predicate Gives(b: Binding, role: string, who: AccountName) { b.role == role && who in b.subjects }

  /** The identity ArgoCD needs is whole: the account exists and the binding gives it the role. */
  predicate IdentityInPlace(o: Objects, who: AccountName, role: string) {
    var name := who.name + "-role-binding";
    who in o.accounts && name in o.bindings && Gives(o.bindings[name], role, who)
  }

  /** Nobody makes another binding in its place. */
  predicate Unspoilt(o: Objects, who: AccountName, role: string, binding: BindingEnv) {
    who.name + "-role-binding" in o.bindings || binding.rival.None? || Gives(binding.rival.value, role, who)
  }

  lemma AccountEnsured(o: Objects, who: AccountName, env: CallEnv)
    ensures var (r, result) := EnsureServiceAccount(o, who, env);
      && (result.Ok? ==> who in r.accounts && (result.value <==> who !in o.accounts && !env.rival))
      && r.bindings == o.bindings && r.roles == o.roles
      && (r == o || (who !in o.accounts && r == WithAccount(o, who, !env.rival)))
      && (result.Ok? && who !in o.accounts ==> r != o)
  {
    assert who !in o.accounts ==> who in WithAccount(o, who, !env.rival).accounts;
  }

  lemma BindingEnsured(o: Objects, name: string, role: string, who: AccountName, env: BindingEnv)
    ensures var (r, result) := EnsureClusterRoleBinding(o, name, role, who, env);
      && (result.Ok? ==> name in r.bindings)
      && (result.Ok? ==> (Gives(r.bindings[name], role, who)
                          <==> name in o.bindings || env.rival.None? || Gives(env.rival.value, role, who)))
      && (result.Ok? ==> (result.value <==> name !in o.bindings && env.rival.None?))
      && (r == o || (name !in o.bindings && r == WithBinding(o, name, MadeBinding(role, who, env.rival))))
      && (result.Ok? && name !in o.bindings ==> r != o)
  {
  }

  /** What a run of EnsureArgoCDIdentity does, with somebody else creating the same objects in
      between or not: it reports an account as repaired exactly when it created one itself, and it
      never takes away or rewrites anything that was there. What is new is the account, under a new
      UID, and the binding. If it succeeds the identity is whole -- exactly unless somebody else
      makes the binding under its hands, and makes it for another role or account, which is the one
      wrong binding it does not report. */
  lemma EnsuringRestoresTheIdentity(o: Objects, who: AccountName, role: string, account: CallEnv, binding: BindingEnv)
    requires forall a :: a in o.accounts ==> o.accounts[a].uid < o.nextUid
    ensures var (r, result) := EnsureArgoCDIdentity(o, who, role, account, binding);
      && (result.Ok? ==>
            && (IdentityInPlace(r, who, role) <==> Unspoilt(o, who, role, binding))
            && (result.value.serviceAccount <==> who !in o.accounts && !account.rival)
            && (result.value.binding <==> who.name + "-role-binding" !in o.bindings && binding.rival.None?)
            && (IdentityInPlace(o, who, role) <==> r == o))
      && (forall a :: a in o.accounts ==> a in r.accounts && r.accounts[a] == o.accounts[a])
      && (forall b :: b in o.bindings ==> b in r.bindings && r.bindings[b] == o.bindings[b])
      && r.roles == o.roles
      && (forall a :: a in r.accounts && a !in o.accounts ==> a == who && r.accounts[a] == Account(o.nextUid, !account.rival))
      && (forall b :: b in r.bindings && b !in o.bindings ==>
            b == who.name + "-role-binding" && r.bindings[b] == MadeBinding(role, who, binding.rival))
  {
    if role != "" {
      AccountEnsured(o, who, account);
      var o1 := EnsureServiceAccount(o, who, account).0;
      BindingEnsured(o1, who.name + "-role-binding", role, who, binding);
    }
  }

  lemma EnsuringIsIdempotent(o: Objects, who: AccountName, role: string, account: CallEnv, binding: BindingEnv)
    requires IdentityInPlace(o, who, role) && role != "" && account.get == Done && binding.get == Done
    ensures EnsureArgoCDIdentity(o, who, role, account, binding) == (o, Ok(Repairs(false, false)))
  {
  }

  /** The binding is there and right, or can be made. */
  predicate BindingWorks(o: Objects, who: AccountName, role: string, call: BindingEnv) {
    var name := who.name + "-role-binding";
    && call.get == Done
    && if name in o.bindings then o.bindings[name].role == role && who in o.bindings[name].subjects else call.create == Done
  }

  predicate AccountWorks(o: Objects, who: AccountName, call: CallEnv) {
    call.get == Done && (who in o.accounts || call.create == Done)
  }

  /** When the identity is ensured, and what that makes of the accounts. */
  lemma EnsuringExactly(o: Objects, who: AccountName, role: string, account: CallEnv, binding: BindingEnv)
    ensures var (r, result) := EnsureArgoCDIdentity(o, who, role, account, binding);
      && (result.Ok? <==> role != "" && AccountWorks(o, who, account) && BindingWorks(o, who, role, binding))
      && (result.Ok? ==> (result.value.serviceAccount <==> who !in o.accounts && !account.rival))
      && (if role != "" && who !in o.accounts && account.get == Done && account.create != Refused
          then r.accounts == WithAccount(o, who, !account.rival).accounts && r.nextUid == o.nextUid + 1
          else r.accounts == o.accounts && r.nextUid == o.nextUid)
  {
    if role != "" {
      AccountEnsured(o, who, account);
      BindingEnsured(EnsureServiceAccount(o, who, account).0, who.name + "-role-binding", role, who, binding);
    }
  }

  /** A call that finds the account missing and makes it reports that exactly if the answer arrives,
      nobody else made it meanwhile, and the binding is right or can be made. Whether it does or not
      the account has a new UID, and no later call has an account to repair. */
  lemma RepairCutShortIsForgotten(o: Objects, who: AccountName, role: string, account: CallEnv, binding: BindingEnv,
                                  account2: CallEnv, binding2: BindingEnv)
    requires role != "" && who !in o.accounts && account.get == Done && account.create != Refused
    ensures var (o1, first) := EnsureArgoCDIdentity(o, who, role, account, binding);
      var (o2, second) := EnsureArgoCDIdentity(o1, who, role, account2, binding2);
      && o1.accounts == WithAccount(o, who, !account.rival).accounts && o2.accounts == o1.accounts
      && (first.Ok? && first.value.serviceAccount
          <==> account.create == Done && !account.rival && BindingWorks(o, who, role, binding))
      && (second.Ok? ==> !second.value.serviceAccount)
      && (second.Ok? <==> account2.get == Done && BindingWorks(o1, who, role, binding2))
  {
    EnsuringExactly(o, who, role, account, binding);
    EnsuringExactly(EnsureArgoCDIdentity(o, who, role, account, binding).0, who, role, account2, binding2);
  }

  /** A wrong binding that slipped through is reported by the next call, whatever that meets. */
  lemma SpoiltIsReportedNext(o: Objects, who: AccountName, role: string, account: CallEnv, binding: BindingEnv,
                             account2: CallEnv, binding2: BindingEnv)
    requires EnsureArgoCDIdentity(o, who, role, account, binding).1.Ok? && !Unspoilt(o, who, role, binding)
    ensures var (o1, _) := EnsureArgoCDIdentity(o, who, role, account, binding);
      EnsureArgoCDIdentity(o1, who, role, account2, binding2).1.Err?
  {
    var (o1, _) := EnsureArgoCDIdentity(o, who, role, account, binding);
    EnsuringExactly(o, who, role, account, binding);
    EnsuringExactly(o1, who, role, account2, binding2);
    BindingEnsured(EnsureServiceAccount(o, who, account).0, who.name + "-role-binding", role, who, binding);
  }

  /** The binding of the daemon's own account to its own role is there and right, or can be made. */
  predicate SelfBindingWorks(o: Objects, who: AccountName, call: BindingEnv) {
    call.get == Done && if who.name in o.bindings then Gives(o.bindings[who.name], who.name, who) else call.create == Done
  }

  /** Exactly when the daemon's own identity is ensured, and what it then is: the account is there,
      the role of its name says that its holder may bind the one role, and the binding of that name
      gives the account that role and no other -- exactly unless somebody else makes another binding
      under its hands. */
  lemma EnsuringTheSelfIdentity(o: Objects, who: AccountName, role: string, account: CallEnv, write: Reply, binding: BindingEnv)
    ensures var (r, result) := EnsureSelfIdentity(o, who, role, account, write, binding);
      && (result.Ok? <==> role != "" && AccountWorks(o, who, account) && write == Done && SelfBindingWorks(o, who, binding))
      && (result.Ok? ==>
            && who in r.accounts && who.name in r.roles && r.roles[who.name] == Role(role, true)
            && who.name in r.bindings
            && (Gives(r.bindings[who.name], who.name, who)
                <==> who.name in o.bindings || binding.rival.None? || Gives(binding.rival.value, who.name, who))
            && (who.name !in o.bindings && binding.rival.None? ==> r.bindings[who.name] == Binding(who.name, {who}, true)))
  {
    if role != "" {
      AccountEnsured(o, who, account);
      var o1 := EnsureServiceAccount(o, who, account).0;
      BindingEnsured(o1.(roles := o1.roles[who.name := Role(role, true)]), who.name, who.name, who, binding);
    }
  }

  /** However far it gets it takes nothing away and rewrites nothing but that one role. */
  lemma EnsuringSparesTheRest(o: Objects, who: AccountName, role: string, account: CallEnv, write: Reply, binding: BindingEnv)
    ensures var r := EnsureSelfIdentity(o, who, role, account, write, binding).0;
      && (forall a :: a in o.accounts ==> a in r.accounts && r.accounts[a] == o.accounts[a])
      && (forall a :: a in r.accounts && a !in o.accounts ==> a == who && r.accounts[a] == Account(o.nextUid, !account.rival))
      && (forall b :: b in o.bindings ==> b in r.bindings && r.bindings[b] == o.bindings[b])
      && (forall b :: b in r.bindings && b !in o.bindings ==>
            b == who.name && r.bindings[b] == MadeBinding(who.name, who, binding.rival))
      && r.roles == if role != "" && AccountWorks(o, who, account) && write != Refused
                    then o.roles[who.name := Role(role, true)] else o.roles
  {
    if role != "" {
      AccountEnsured(o, who, account);
      var o1 := EnsureServiceAccount(o, who, account).0;
      AccountWorksExactly(o, who, account);
      BindingEnsured(o1.(roles := o1.roles[who.name := Role(role, true)]), who.name, who.name, who, binding);
    }
  }

  lemma AccountWorksExactly(o: Objects, who: AccountName, env: CallEnv)
    ensures EnsureServiceAccount(o, who, env).1.Ok? <==> AccountWorks(o, who, env)
  {
  }

  /** Where it is whole, ensuring it again changes nothing. */
  lemma EnsuringTheSelfIdentitySettles(o: Objects, who: AccountName, role: string, account: CallEnv, write: Reply, binding: BindingEnv)
    requires role != "" && who in o.accounts && who.name in o.roles && o.roles[who.name] == Role(role, true)
    requires who.name in o.bindings && Gives(o.bindings[who.name], who.name, who)
    ensures var (r, result) := EnsureSelfIdentity(o, who, role, account, write, binding);
      r == o && (account.get == Done && write == Done && binding.get == Done ==> result.Ok?)
  {
    assert o.roles[who.name := Role(role, true)] == o.roles;
  }

  // ---- Guarded deletes -----------------------------------------------------------------------

  datatype Outcome = Removed | Gone | NotOwned

  datatype Deletion = Did(outcome: Outcome) | Failed

  /** How a get-then-delete is answered, and what somebody else does in between. */
  datatype DeleteEnv<V> = DeleteEnv(get: Reply, rival: Option<Option<V>>, delete: Reply)

  function Put<K, V>(m: map<K, V>, k: K, v: Option<V>): map<K, V> {
    match v
    case Some(x) => m[k := x]
    case None => m - {k}
  }

  function AfterRival<K, V>(m: map<K, V>, k: K, env: DeleteEnv<V>): map<K, V> {
    if env.rival.Some? then Put(m, k, env.rival.value) else m
  }

  predicate ManagedBinding(b: Binding) { b.managed }

  predicate ManagedAccount(a: Account) { a.managed }

  predicate ManagedRole(r: Role) { r.managed }

  function GuardedDelete<K, V>(m: map<K, V>, k: K, managed: V -> bool, dryRun: bool, env: DeleteEnv<V>): (map<K, V>, Deletion) {
    if env.get != Done then (m, Deletion.Failed)
    else if k !in m then (m, Did(Gone))
    else if !managed(m[k]) then (m, Did(NotOwned))
    else if dryRun then (m, Did(Removed))
    else
      var m1 := AfterRival(m, k, env);
      if env.delete == Refused then (m1, Deletion.Failed)
      else if env.delete == Lost then (m1 - {k}, Deletion.Failed)
      else if k !in m1 then (m1, Did(Gone))
      else (m1 - {k}, Did(Removed))
  }

  /** A guarded delete only ever takes away the object it was asked about, only after reading
      this tool's label on it, and never in a dry run; and unless it reports an error or that
      the object is not this tool's, the object is gone when it returns. */
  lemma GuardedDeleteIsGuarded<K, V>(m: map<K, V>, k: K, managed: V -> bool, dryRun: bool, env: DeleteEnv<V>)
    ensures var (r, result) := GuardedDelete(m, k, managed, dryRun, env);
      && r - {k} == m - {k}
      && (dryRun ==> r == m)
      && (r != m ==> k in m && managed(m[k]))
      && (result == Did(NotOwned) ==> k in m && !managed(m[k]) && r == m)
      && (!dryRun && (result == Did(Removed) || result == Did(Gone)) ==> k !in r)
      && (env.get == Done && env.rival.None? && env.delete == Done && !dryRun && k in r ==> !managed(r[k]))
  {
  }

  // ---- The cluster itself -----------------------------------------------------------------------

  class Cluster {
    var accounts: map<AccountName, Account>
    var bindings: map<string, Binding>
    var roles: map<string, Role>
    var nextUid: nat

    function View(): Objects
      reads this
    {
      Objects(accounts, bindings, roles, nextUid)
    }

    method ServiceAccount(who: AccountName, env: CallEnv) returns (result: Ensured<bool>)
      modifies this
      ensures (View(), result) == EnsureServiceAccount(old(View()), who, env)
    {
      if env.get != Done {
        return Err(CallFailed);
      }
      if who in accounts {
        return Ok(false);
      }
      if env.create == Refused {
        return Err(CallFailed);
      }
      accounts, nextUid := accounts[who := Account(nextUid, !env.rival)], nextUid + 1;
      if env.create == Lost {
        return Err(CallFailed);
      }
      return Ok(!env.rival);
    }

    method ClusterRoleBinding(name: string, role: string, who: AccountName, env: BindingEnv) returns (result: Ensured<bool>)
      modifies this
      ensures (View(), result) == EnsureClusterRoleBinding(old(View()), name, role, who, env)
    {
      if env.get != Done {
        return Err(CallFailed);
      }
      if name in bindings {
        var existing := bindings[name];
        if existing.role != role {
          return Err(RoleRefMismatch);
        }
        return if who in existing.subjects then Ok(false) else Err(SubjectMissing);
      }
      if env.create == Refused {
        return Err(CallFailed);
      }
      bindings := bindings[name := if env.rival.Some? then env.rival.value else Binding(role, {who}, true)];
      if env.create == Lost {
        return Err(CallFailed);
      }
      return Ok(env.rival.None?);
    }

    method ArgoCDIdentity(who: AccountName, role: string, account: CallEnv, binding: BindingEnv) returns (result: Ensured<Repairs>)
      modifies this
      ensures (View(), result) == EnsureArgoCDIdentity(old(View()), who, role, account, binding)
    {
      if role == "" {
        return Err(EmptyRole);
      }
      var repairs := Repairs(false, false);
      var created := ServiceAccount(who, account);
      if created.Err? {
        return Err(created.error);
      }
      repairs := repairs.(serviceAccount := created.value);
      var bound := ClusterRoleBinding(who.name + "-role-binding", role, who, binding);
      if bound.Err? {
        return Err(bound.error);
      }
      repairs := repairs.(binding := bound.value);
      return Ok(repairs);
    }

    method SelfIdentity(who: AccountName, role: string, account: CallEnv, write: Reply, binding: BindingEnv) returns (result: Ensured<()>)
      modifies this
      ensures (View(), result) == EnsureSelfIdentity(old(View()), who, role, account, write, binding)
    {
      if role == "" {
        return Err(EmptyRole);
      }
      var created := ServiceAccount(who, account);
      if created.Err? {
        return Err(created.error);
      }
      if write != Refused {
        roles := roles[who.name := Role(role, true)];
      }
      if write != Done {
        return Err(CallFailed);
      }
      var bound := ClusterRoleBinding(who.name, who.name, who, binding);
      return if bound.Err? then Err(bound.error) else Ok(());
    }

    // ---- Guarded deletes: get, check the label, delete

    method RemoveClusterRoleBinding(name: string, dryRun: bool, env: DeleteEnv<Binding>) returns (result: Deletion)
      modifies this`bindings
      ensures (bindings, result) == GuardedDelete(old(bindings), name, ManagedBinding, dryRun, env)
    {
      if env.get != Done {
        return Deletion.Failed;
      }
      if name !in bindings {
        return Did(Gone);
      }
      if !bindings[name].managed {
        return Did(NotOwned);
      }
      if dryRun {
        return Did(Removed);
      }
      bindings := AfterRival(bindings, name, env);
      if env.delete == Refused {
        return Deletion.Failed;
      }
      var there := name in bindings;
      assert !there ==> bindings - {name} == bindings;
      bindings := bindings - {name};
      return if env.delete == Lost then Deletion.Failed else if there then Did(Removed) else Did(Gone);
    }

    method RemoveServiceAccount(who: AccountName, dryRun: bool, env: DeleteEnv<Account>) returns (result: Deletion)
      modifies this`accounts
      ensures (accounts, result) == GuardedDelete(old(accounts), who, ManagedAccount, dryRun, env)
    {
      if env.get != Done {
        return Deletion.Failed;
      }
      if who !in accounts {
        return Did(Gone);
      }
      if !accounts[who].managed {
        return Did(NotOwned);
      }
      if dryRun {
        return Did(Removed);
      }
      accounts := AfterRival(accounts, who, env);
      if env.delete == Refused {
        return Deletion.Failed;
      }
      var there := who in accounts;
      assert !there ==> accounts - {who} == accounts;
      accounts := accounts - {who};
      return if env.delete == Lost then Deletion.Failed else if there then Did(Removed) else Did(Gone);
    }

    method RemoveClusterRole(name: string, dryRun: bool, env: DeleteEnv<Role>) returns (result: Deletion)
      modifies this`roles
      ensures (roles, result) == GuardedDelete(old(roles), name, ManagedRole, dryRun, env)
    {
      if env.get != Done {
        return Deletion.Failed;
      }
      if name !in roles {
        return Did(Gone);
      }
      if !roles[name].managed {
        return Did(NotOwned);
      }
      if dryRun {
        return Did(Removed);
      }
      roles := AfterRival(roles, name, env);
      if env.delete == Refused {
        return Deletion.Failed;
      }
      var there := name in roles;
      assert !there ==> roles - {name} == roles;
      roles := roles - {name};
      return if env.delete == Lost then Deletion.Failed else if there then Did(Removed) else Did(Gone);
    }
  }
}
