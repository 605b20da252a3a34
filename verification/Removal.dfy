/** The remove command: guards read up front, deletes in order, and a last look at the
    registration. */
module Removal {
  import opened Text
  import opened Api
  import opened Credentials
  import Config
  import Inventory
  import D = Downstream

  datatype SecretKey = SecretKey(namespace: string, name: string)

  /** A Secret, as far as removal reads it: the managed-by label, and whose it says it is -- by
      annotation on a registration, by label on a credential. */
  datatype Held = Held(managed: bool, annotated: string, labelled: string)

  /** Everything a removal can reach. */
  datatype Site = Site(
    connections: map<string, Inventory.Connection>,
    secrets: map<SecretKey, Held>,
    downstream: D.Objects)

  datatype Params = Params(
    clusterName: string,
    namespace: string,
    argocdNamespace: string,
    fallback: Fallback,
    skipDownstream: bool,
    dryRun: bool)

  datatype Fallback = Fallback(
    serviceAccountName: string,
    serviceAccountNamespace: string,
    selfServiceAccountName: string,
    secretName: string)

  /** What others -- a daemon pass in flight among them -- write (Some) or delete (None) between two
      calls; `made` of the accounts they leave behind are new. */
  datatype Others = Others(
    connections: map<string, Option<Inventory.Connection>>,
    secrets: map<SecretKey, Option<Held>>,
    bindings: map<string, Option<D.Binding>>,
    accounts: map<D.AccountName, Option<D.Account>>,
    roles: map<string, Option<D.Role>>,
    made: nat)

  const NoOthers := Others(map[], map[], map[], map[], map[], 0)

  /** The moments others may act in: before each get that may lead to a delete. */
  datatype Moment =
    | BeforeConnection | BeforeRegistration | BeforeCredential
    | BeforeBinding | BeforeAccount | BeforeSelfBinding | BeforeSelfRole | BeforeSelfAccount
    | BeforeRecheck

  /** How each call is answered, and what others do in between. */
  datatype Calls = Calls(
    readConnection: bool,
    list: Option<seq<Inventory.Connection>>,
    readRegistration: bool,
    readCredential: bool,
    connection: D.DeleteEnv<Inventory.Connection>,
    registration: D.DeleteEnv<Held>,
    credential: D.DeleteEnv<Held>,
    binding: D.DeleteEnv<D.Binding>,
    account: D.DeleteEnv<D.Account>,
    selfBinding: D.DeleteEnv<D.Binding>,
    selfRole: D.DeleteEnv<D.Role>,
    selfAccount: D.DeleteEnv<D.Account>,
    recheck: D.DeleteEnv<Held>,
    others: map<Moment, Others>)
  {
    function At(moment: Moment): Others {
      if moment in others then others[moment] else NoOthers
    }
  }

  function Amended<K, V>(m: map<K, V>, edits: map<K, Option<V>>): map<K, V> {
    map k | k in m.Keys + edits.Keys && (k in edits ==> edits[k].Some?) :: if k in edits then edits[k].value else m[k]
  }

  function Meanwhile(site: Site, o: Others): Site {
    Site(Amended(site.connections, o.connections), Amended(site.secrets, o.secrets),
         D.Objects(Amended(site.downstream.accounts, o.accounts), Amended(site.downstream.bindings, o.bindings),
                   Amended(site.downstream.roles, o.roles), site.downstream.nextUid + o.made))
  }

  // ---- Which cluster --------------------------------------------------------------------------------

  /** The conventional names, for a connection that is gone or does not resolve. */
  function RemovalCluster(name: string, f: Fallback): Config.Result<Config.Cluster> {
    if name == "" then Config.Err("cluster name must not be empty")
    else if |name| > Config.MAX_CLUSTER_NAME_LENGTH then Config.Err("cluster name is too long")
    else Config.Ok(Config.Unresolved(name).(
      secretName := Config.OrDefault(f.secretName, "cluster-" + name),
      selfServiceAccountName := Config.OrDefault(f.selfServiceAccountName, Config.DEFAULT_SELF_SERVICE_ACCOUNT),
      serviceAccount := Config.ServiceAccountRef(
        Config.OrDefault(f.serviceAccountName, Config.DEFAULT_SERVICE_ACCOUNT_NAME),
        Config.OrDefault(f.serviceAccountNamespace, Config.DEFAULT_SERVICE_ACCOUNT_NS))))
  }

  datatype Target = Target(cluster: Config.Cluster, usedFallback: bool) | NoTarget

  /** The names are those the daemon would resolve: Get, unlike List, blocks nobody. */
  function ResolveTarget(site: Site, p: Params, readable: bool): Target {
    if !readable then NoTarget
    else if p.clusterName in site.connections && Inventory.Decode(site.connections[p.clusterName]).Valid() then
      Target(Inventory.Decode(site.connections[p.clusterName]).cluster, false)
    else match RemovalCluster(p.clusterName, p.fallback)
      case Ok(cluster) => Target(cluster, true)
      case Err(_) => NoTarget
  }

  // ---- Guards --------------------------------------------------------------------------------------------

  datatype Why = NotManaged | BelongsTo(cluster: string) | Unverified | CallFailed | SharedEndpoint(with_: string) | NoAnswer

  datatype Item = Item(what: What, why: Why)

  datatype What =
    | ConnectionObject(name: string)
    | SecretObject(key: SecretKey)
    | BindingObject(name: string)
    | AccountObject(who: D.AccountName)
    | RoleObject(name: string)
    | DownstreamHalf

  function RegistrationKey(p: Params, c: Config.Cluster): SecretKey { SecretKey(p.argocdNamespace, c.secretName) }

  function CredentialKey(p: Params, c: Config.Cluster): SecretKey { SecretKey(p.namespace, c.CredentialsSecretName()) }

  /** Why the registration must be left alone, if it must. Absence is not a reason. */
  function RegistrationRefusal(site: Site, key: SecretKey, name: string, readable: bool): Option<Why> {
    if !readable then Some(Unverified)
    else if key !in site.secrets then None
    else if !site.secrets[key].managed then Some(NotManaged)
    else if site.secrets[key].annotated != "" && site.secrets[key].annotated != name then Some(BelongsTo(site.secrets[key].annotated))
    else None
  }

  function CredentialRefusal(site: Site, key: SecretKey, name: string, readable: bool): Option<Why> {
    if !readable then Some(Unverified)
    else if key !in site.secrets then None
    else if !site.secrets[key].managed then Some(NotManaged)
    else if site.secrets[key].labelled != "" && site.secrets[key].labelled != name then Some(BelongsTo(site.secrets[key].labelled))
    else None
  }

  /** Another connection that resolves to this endpoint, by endpoint and not by verdict: List
      marks both halves of a shared endpoint as invalid. */
  function EndpointCollision(es: seq<Inventory.Entry>, name: string, endpoint: string): Option<string> {
    if es == [] then None
    else
      var found := EndpointCollision(es[..|es| - 1], name, endpoint);
      var last := es[|es| - 1];
      if found.Some? then found
      else if last.cluster.endpoint != "" && last.cluster.name != name && last.cluster.endpoint == endpoint
      then Some(last.cluster.name) else None
  }

  datatype Collision = NoCollision | CollidesWith(name: string) | CannotList

  function CollisionOf(t: Target, p: Params, calls: Calls): Collision
    requires t.Target?
  {
    if t.usedFallback || p.skipDownstream then NoCollision
    else match calls.list
      case None => CannotList
      case Some(objects) =>
        match EndpointCollision(Inventory.Listed(objects), t.cluster.name, t.cluster.endpoint)
        case Some(other) => CollidesWith(other)
        case None => NoCollision
  }

  // ---- One delete ---------------------------------------------------------------------------------------------

  function ItemFor(what: What, d: D.Deletion): seq<Item> {
    match d
    case Failed => [Item(what, CallFailed)]
    case Did(NotOwned) => [Item(what, NotManaged)]
    case Did(_) => []
  }

  predicate Anything(obj: Inventory.Connection) { true }

  predicate ManagedSecret(s: Held) { s.managed }

  function RemoveConnection(site: Site, name: string, dryRun: bool, env: D.DeleteEnv<Inventory.Connection>): (Site, seq<Item>) {
    var (connections, d) := D.GuardedDelete(site.connections, name, Anything, dryRun, env);
    (site.(connections := connections), ItemFor(ConnectionObject(name), d))
  }

  function RemoveSecret(site: Site, key: SecretKey, refusal: Option<Why>, dryRun: bool, env: D.DeleteEnv<Held>): (Site, seq<Item>) {
    if refusal.Some? then (site, [Item(SecretObject(key), refusal.value)])
    else
      var (secrets, d) := D.GuardedDelete(site.secrets, key, ManagedSecret, dryRun, env);
      (site.(secrets := secrets), ItemFor(SecretObject(key), d))
  }

  // ---- The downstream half: bindings before the identities they are for ------------------------------------------

  datatype FiveDeletes = FiveDeletes(binding: D.Deletion, account: D.Deletion, selfBinding: D.Deletion, selfRole: D.Deletion, selfAccount: D.Deletion)

  function BindingName(c: Config.Cluster): string { c.serviceAccount.name + "-role-binding" }

  function Account(c: Config.Cluster): D.AccountName { D.AccountName(c.serviceAccount.namespace, c.serviceAccount.name) }

  function SelfAccount(c: Config.Cluster): D.AccountName { D.AccountName(c.serviceAccount.namespace, c.selfServiceAccountName) }

  function RemoveBinding(site: Site, name: string, dryRun: bool, env: D.DeleteEnv<D.Binding>): (Site, D.Deletion) {
    var (bindings, d) := D.GuardedDelete(site.downstream.bindings, name, D.ManagedBinding, dryRun, env);
    (site.(downstream := site.downstream.(bindings := bindings)), d)
  }

  function RemoveAccount(site: Site, who: D.AccountName, dryRun: bool, env: D.DeleteEnv<D.Account>): (Site, D.Deletion) {
    var (accounts, d) := D.GuardedDelete(site.downstream.accounts, who, D.ManagedAccount, dryRun, env);
    (site.(downstream := site.downstream.(accounts := accounts)), d)
  }

  function RemoveRole(site: Site, name: string, dryRun: bool, env: D.DeleteEnv<D.Role>): (Site, D.Deletion) {
    var (roles, d) := D.GuardedDelete(site.downstream.roles, name, D.ManagedRole, dryRun, env);
    (site.(downstream := site.downstream.(roles := roles)), d)
  }

  /** ArgoCD's identity: the binding, then the account. */
  function RemoveArgoCDIdentity(site: Site, c: Config.Cluster, dryRun: bool, calls: Calls): (Site, D.Deletion, D.Deletion) {
    var (s1, d1) := RemoveBinding(Meanwhile(site, calls.At(BeforeBinding)), BindingName(c), dryRun, calls.binding);
    var (s2, d2) := RemoveAccount(Meanwhile(s1, calls.At(BeforeAccount)), Account(c), dryRun, calls.account);
    (s2, d1, d2)
  }

  /** The daemon's own: binding, role, account. */
  function RemoveSelfIdentity(site: Site, c: Config.Cluster, dryRun: bool, calls: Calls): (Site, D.Deletion, D.Deletion, D.Deletion) {
    var (s1, d1) := RemoveBinding(Meanwhile(site, calls.At(BeforeSelfBinding)), c.selfServiceAccountName, dryRun, calls.selfBinding);
    var (s2, d2) := RemoveRole(Meanwhile(s1, calls.At(BeforeSelfRole)), c.selfServiceAccountName, dryRun, calls.selfRole);
    var (s3, d3) := RemoveAccount(Meanwhile(s2, calls.At(BeforeSelfAccount)), SelfAccount(c), dryRun, calls.selfAccount);
    (s3, d1, d2, d3)
  }

  function RemoveDownstream(site: Site, c: Config.Cluster, dryRun: bool, calls: Calls): (Site, FiveDeletes) {
    var (s1, d1, d2) := RemoveArgoCDIdentity(site, c, dryRun, calls);
    var (s2, d3, d4, d5) := RemoveSelfIdentity(s1, c, dryRun, calls);
    (s2, FiveDeletes(d1, d2, d3, d4, d5))
  }

  /** When everything failed it is the cluster that did not answer, and that is one item. */
  function DownstreamItems(c: Config.Cluster, d: FiveDeletes): seq<Item> {
    if d.binding.Failed? && d.account.Failed? && d.selfBinding.Failed? && d.selfRole.Failed? && d.selfAccount.Failed?
    then [Item(DownstreamHalf, NoAnswer)]
    else
      ItemFor(BindingObject(BindingName(c)), d.binding)
      + ItemFor(BindingObject(c.selfServiceAccountName), d.selfBinding)
      + ItemFor(AccountObject(Account(c)), d.account)
      + ItemFor(AccountObject(SelfAccount(c)), d.selfAccount)
      + ItemFor(RoleObject(c.selfServiceAccountName), d.selfRole)
  }

  function DownstreamHalfOf(site: Site, p: Params, c: Config.Cluster, collision: Collision, calls: Calls): (Site, seq<Item>) {
    if p.skipDownstream then (site, [])
    else if collision.CollidesWith? then (site, [Item(DownstreamHalf, SharedEndpoint(collision.name))])
    else
      var (after, d) := RemoveDownstream(site, c, p.dryRun, calls);
      (after, DownstreamItems(c, d))
  }

  // ---- executeRemoval ------------------------------------------------------------------------------------------------

  /** A pass that was in flight when the connection went may have written since; what it put back
      is deleted again. Finding nothing, or something that is not ours, is nothing to report. */
  function Recheck(site: Site, p: Params, key: SecretKey, refusal: Option<Why>, calls: Calls): (Site, seq<Item>) {
    var now := Meanwhile(site, calls.At(BeforeRecheck));
    if p.dryRun || refusal.Some? then (now, [])
    else
      var (secrets, d) := D.GuardedDelete(now.secrets, key, ManagedSecret, false, calls.recheck);
      (now.(secrets := secrets), if d.Failed? then [Item(SecretObject(key), CallFailed)] else [])
  }

  datatype Result = Aborted | Ran(remaining: seq<Item>)

  /** The two Secrets and the connection. */
  function LocalHalf(site: Site, p: Params, c: Config.Cluster, calls: Calls): (Site, seq<Item>) {
    var registration := RegistrationRefusal(site, RegistrationKey(p, c), c.name, calls.readRegistration);
    var credential := CredentialRefusal(site, CredentialKey(p, c), c.name, calls.readCredential);
    var (s1, i1) := RemoveConnection(Meanwhile(site, calls.At(BeforeConnection)), c.name, p.dryRun, calls.connection);
    var (s2, i2) := RemoveSecret(Meanwhile(s1, calls.At(BeforeRegistration)), RegistrationKey(p, c), registration, p.dryRun, calls.registration);
    var (s3, i3) := RemoveSecret(Meanwhile(s2, calls.At(BeforeCredential)), CredentialKey(p, c), credential, p.dryRun, calls.credential);
    (s3, i1 + i2 + i3)
  }

  function Execute(site: Site, p: Params, calls: Calls): (Site, Result) {
    match ResolveTarget(site, p, calls.readConnection)
    case NoTarget => (site, Aborted)
    case Target(c, usedFallback) =>
      var collision := CollisionOf(Target(c, usedFallback), p, calls);
      if collision.CannotList? then (site, Aborted)
      else
        var registration := RegistrationRefusal(site, RegistrationKey(p, c), c.name, calls.readRegistration);
        var (s1, local) := LocalHalf(site, p, c, calls);
        var (s2, downstream) := DownstreamHalfOf(s1, p, c, collision, calls);
        var (s3, late) := Recheck(s2, p, RegistrationKey(p, c), registration, calls);
        (s3, Ran(local + downstream + late))
  }
}
