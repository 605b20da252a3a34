/** executeRemoval as it runs: reads first, then one guarded delete after another, collecting
    what could not be removed. */
module Teardown {
  import opened Text
  import opened Api
  import opened Credentials
  import opened Removal
  import Config
  import Inventory
  import D = Downstream

  class Teardown {
    var connections: map<string, Inventory.Connection>
    var secrets: map<SecretKey, Held>
    const cluster: D.Cluster
    var remaining: seq<Item>

    constructor (connections: map<string, Inventory.Connection>, secrets: map<SecretKey, Held>, cluster: D.Cluster)
      ensures this.connections == connections && this.secrets == secrets && this.cluster == cluster && remaining == []
    {
      this.connections, this.secrets, this.cluster, remaining := connections, secrets, cluster, [];
    }

    function View(): Site
      reads this, cluster
    {
      Site(connections, secrets, cluster.View())
    }

    // ---- Reads ---------------------------------------------------------------------------------------

    method ResolveRemovalCluster(p: Params, readable: bool) returns (target: Target)
      ensures target == ResolveTarget(View(), p, readable)
    {
      if !readable {
        return NoTarget;
      }
      if p.clusterName in connections {
        var entry := Inventory.Decode(connections[p.clusterName]);
        if entry.invalidReason == "" {
          return Target(entry.cluster, false);
        }
      }
      var fallback := RemovalCluster(p.clusterName, p.fallback);
      return if fallback.Ok? then Target(fallback.value, true) else NoTarget;
    }

    method FindCollision(entries: seq<Inventory.Entry>, name: string, endpoint: string) returns (other: Option<string>)
      ensures other == EndpointCollision(entries, name, endpoint)
    {
      other := None;
      for i := 0 to |entries|
        invariant EndpointCollision(entries[..i], name, endpoint) == None && other == None
      {
        assert entries[..i + 1][..i] == entries[..i];
        var e := entries[i];
        if e.cluster.endpoint == "" || e.cluster.name == name {
          continue;
        }
        if e.cluster.endpoint == endpoint {
          FirstCollision(entries, name, endpoint, i);
          return Some(e.cluster.name);
        }
      }
      assert entries[..|entries|] == entries;
    }

    // ---- Others ---------------------------------------------------------------------------------------

    /** What others do between two calls. */
    method OthersAct(o: Others)
      modifies this`connections, this`secrets, cluster
      ensures View() == Meanwhile(old(View()), o)
    {
      connections, secrets := Amended(connections, o.connections), Amended(secrets, o.secrets);
      cluster.accounts := Amended(cluster.accounts, o.accounts);
      cluster.bindings := Amended(cluster.bindings, o.bindings);
      cluster.roles := Amended(cluster.roles, o.roles);
      cluster.nextUid := cluster.nextUid + o.made;
    }

    // ---- Deletes --------------------------------------------------------------------------------------

    method RemoveClusterConnection(name: string, dryRun: bool, env: D.DeleteEnv<Inventory.Connection>) returns (result: D.Deletion)
      modifies this`connections
      ensures (connections, result) == D.GuardedDelete(old(connections), name, Anything, dryRun, env)
    {
      if env.get != Done {
        return D.Deletion.Failed;
      }
      if name !in connections {
        return D.Did(D.Gone);
      }
      if dryRun {
        return D.Did(D.Removed);
      }
      connections := D.AfterRival(connections, name, env);
      if env.delete == Refused {
        return D.Deletion.Failed;
      }
      var there := name in connections;
      assert !there ==> connections - {name} == connections;
      connections := connections - {name};
      return if env.delete == Lost then D.Deletion.Failed else if there then D.Did(D.Removed) else D.Did(D.Gone);
    }

    method RemoveOwnedSecret(key: SecretKey, dryRun: bool, env: D.DeleteEnv<Held>) returns (result: D.Deletion)
      modifies this`secrets
      ensures (secrets, result) == D.GuardedDelete(old(secrets), key, ManagedSecret, dryRun, env)
    {
      if env.get != Done {
        return D.Deletion.Failed;
      }
      if key !in secrets {
        return D.Did(D.Gone);
      }
      if !secrets[key].managed {
        return D.Did(D.NotOwned);
      }
      if dryRun {
        return D.Did(D.Removed);
      }
      secrets := D.AfterRival(secrets, key, env);
      if env.delete == Refused {
        return D.Deletion.Failed;
      }
      var there := key in secrets;
      assert !there ==> secrets - {key} == secrets;
      secrets := secrets - {key};
      return if env.delete == Lost then D.Deletion.Failed else if there then D.Did(D.Removed) else D.Did(D.Gone);
    }

    method Report(what: What, result: D.Deletion)
      modifies this`remaining
      ensures remaining == old(remaining) + ItemFor(what, result)
    {
      if result.Failed? {
        remaining := remaining + [Item(what, CallFailed)];
      } else if result.outcome == D.NotOwned {
        remaining := remaining + [Item(what, NotManaged)];
      }
    }

    method TearDownSecret(key: SecretKey, refusal: Option<Why>, dryRun: bool, env: D.DeleteEnv<Held>)
      modifies this`secrets, this`remaining
      ensures (View(), remaining) ==
        (var (site, items) := RemoveSecret(old(View()), key, refusal, dryRun, env); (site, old(remaining) + items))
    {
      if refusal.Some? {
        remaining := remaining + [Item(SecretObject(key), refusal.value)];
        return;
      }
      var result := RemoveOwnedSecret(key, dryRun, env);
      Report(SecretObject(key), result);
    }

    method TearDownLocal(p: Params, c: Config.Cluster, registration: Option<Why>, credential: Option<Why>, calls: Calls)
      requires registration == RegistrationRefusal(View(), RegistrationKey(p, c), c.name, calls.readRegistration)
      requires credential == CredentialRefusal(View(), CredentialKey(p, c), c.name, calls.readCredential)
      requires remaining == []
      modifies this, cluster
      ensures (View(), remaining) == LocalHalf(old(View()), p, c, calls)
    {
      OthersAct(calls.At(BeforeConnection));
      var result := RemoveClusterConnection(c.name, p.dryRun, calls.connection);
      Report(ConnectionObject(c.name), result);
      assert remaining == ItemFor(ConnectionObject(c.name), result);
      OthersAct(calls.At(BeforeRegistration));
      TearDownSecret(RegistrationKey(p, c), registration, p.dryRun, calls.registration);
      OthersAct(calls.At(BeforeCredential));
      TearDownSecret(CredentialKey(p, c), credential, p.dryRun, calls.credential);
    }

    method DeleteArgoCDIdentity(c: Config.Cluster, dryRun: bool, calls: Calls) returns (d1: D.Deletion, d2: D.Deletion)
      modifies this`connections, this`secrets, cluster
      ensures (View(), d1, d2) == RemoveArgoCDIdentity(old(View()), c, dryRun, calls)
    {
      OthersAct(calls.At(BeforeBinding));
      d1 := cluster.RemoveClusterRoleBinding(BindingName(c), dryRun, calls.binding);
      OthersAct(calls.At(BeforeAccount));
      d2 := cluster.RemoveServiceAccount(Account(c), dryRun, calls.account);
    }

    method DeleteSelfIdentity(c: Config.Cluster, dryRun: bool, calls: Calls) returns (d1: D.Deletion, d2: D.Deletion, d3: D.Deletion)
      modifies this`connections, this`secrets, cluster
      ensures (View(), d1, d2, d3) == RemoveSelfIdentity(old(View()), c, dryRun, calls)
    {
      OthersAct(calls.At(BeforeSelfBinding));
      ghost var s1 := View();
      d1 := cluster.RemoveClusterRoleBinding(c.selfServiceAccountName, dryRun, calls.selfBinding);
      assert (View(), d1) == RemoveBinding(s1, c.selfServiceAccountName, dryRun, calls.selfBinding);
      OthersAct(calls.At(BeforeSelfRole));
      ghost var s2 := View();
      d2 := cluster.RemoveClusterRole(c.selfServiceAccountName, dryRun, calls.selfRole);
      assert (View(), d2) == RemoveRole(s2, c.selfServiceAccountName, dryRun, calls.selfRole);
      OthersAct(calls.At(BeforeSelfAccount));
      d3 := cluster.RemoveServiceAccount(SelfAccount(c), dryRun, calls.selfAccount);
    }

    method FiveDeletesOf(c: Config.Cluster, dryRun: bool, calls: Calls) returns (d: FiveDeletes)
      modifies this`connections, this`secrets, cluster
      ensures (View(), d) == RemoveDownstream(old(View()), c, dryRun, calls)
    {
      var d1, d2 := DeleteArgoCDIdentity(c, dryRun, calls);
      var d3, d4, d5 := DeleteSelfIdentity(c, dryRun, calls);
      d := FiveDeletes(d1, d2, d3, d4, d5);
    }

    method ReportDownstream(c: Config.Cluster, d: FiveDeletes)
      modifies this`remaining
      ensures remaining == old(remaining) + DownstreamItems(c, d)
    {
      if d.binding.Failed? && d.account.Failed? && d.selfBinding.Failed? && d.selfRole.Failed? && d.selfAccount.Failed? {
        remaining := remaining + [Item(DownstreamHalf, NoAnswer)];
        return;
      }
      Report(BindingObject(BindingName(c)), d.binding);
      Report(BindingObject(c.selfServiceAccountName), d.selfBinding);
      Report(AccountObject(Account(c)), d.account);
      Report(AccountObject(SelfAccount(c)), d.selfAccount);
      Report(RoleObject(c.selfServiceAccountName), d.selfRole);
    }

    method TearDownDownstream(p: Params, c: Config.Cluster, collision: Collision, calls: Calls)
      modifies this, cluster
      ensures (View(), remaining) ==
        (var (site, items) := DownstreamHalfOf(old(View()), p, c, collision, calls); (site, old(remaining) + items))
    {
      assert remaining + [] == remaining;
      if p.skipDownstream {
        return;
      }
      if collision.CollidesWith? {
        remaining := remaining + [Item(DownstreamHalf, SharedEndpoint(collision.name))];
        return;
      }
      var d := FiveDeletesOf(c, p.dryRun, calls);
      ReportDownstream(c, d);
    }

    method LookAgain(p: Params, key: SecretKey, refusal: Option<Why>, calls: Calls)
      modifies this, cluster
      ensures (View(), remaining) ==
        (var (site, items) := Recheck(old(View()), p, key, refusal, calls); (site, old(remaining) + items))
    {
      OthersAct(calls.At(BeforeRecheck));
      assert remaining + [] == remaining;
      if p.dryRun || refusal.Some? {
        return;
      }
      var result := RemoveOwnedSecret(key, false, calls.recheck);
      if result.Failed? {
        remaining := remaining + [Item(SecretObject(key), CallFailed)];
      }
    }

    // ---- executeRemoval --------------------------------------------------------------------------------

    method ExecuteRemoval(p: Params, calls: Calls) returns (result: Result)
      requires remaining == []
      modifies this, cluster
      ensures (View(), result) == Execute(old(View()), p, calls)
    {
      var target := ResolveRemovalCluster(p, calls.readConnection);
      if target.NoTarget? {
        return Aborted;
      }
      var c := target.cluster;
      var collision := NoCollision;
      if !target.usedFallback && !p.skipDownstream {
        if calls.list.None? {
          return Aborted;
        }
        var other := FindCollision(Inventory.Listed(calls.list.value), c.name, c.endpoint);
        if other.Some? {
          collision := CollidesWith(other.value);
        }
      }
      assert collision == CollisionOf(target, p, calls);
      var registration := RegistrationRefusal(View(), RegistrationKey(p, c), c.name, calls.readRegistration);
      var credential := CredentialRefusal(View(), CredentialKey(p, c), c.name, calls.readCredential);
      TearDownLocal(p, c, registration, credential, calls);
      TearDownDownstream(p, c, collision, calls);
      LookAgain(p, RegistrationKey(p, c), registration, calls);
      return Ran(remaining);
    }
  }

  lemma {:induction false} FirstCollision(es: seq<Inventory.Entry>, name: string, endpoint: string, i: nat)
    requires i < |es| && EndpointCollision(es[..i], name, endpoint) == None
    requires es[i].cluster.endpoint != "" && es[i].cluster.name != name && es[i].cluster.endpoint == endpoint
    ensures EndpointCollision(es, name, endpoint) == Some(es[i].cluster.name)
    decreases |es|
  {
    if i == |es| - 1 {
      assert es[..|es| - 1] == es[..i];
    } else {
      var front := es[..|es| - 1];
      assert front[..i] == es[..i] && front[i] == es[i];
      FirstCollision(front, name, endpoint, i);
    }
  }
}
