/** The ClusterConnection API as the daemon reads and writes it: conditions, reasons and the
    status that is its only memory. Times are whole seconds, as RFC 3339 section 5.6
    date-times store them; 0 is the zero time. */
module Api {
  import opened Text

  datatype ConditionType =
    | Ready
    | ServingCertificateValid
    | SelfCredentialValid
    | Conflict
    | SecretExclusivelyOwned
    | SchemaCurrent

  datatype Truth = Yes | No | Unknown

  /** Condition and Event reasons. NoReason is the empty string. */
  datatype Reason =
    | NoReason
    | ReasonReady
    | AwaitingCredential
    | CredentialExpired
    | EndpointUnreachable
    | CertificateInvalid
    | CredentialRejected
    | CredentialReplaced
    | SecretNameConflict
    | EndpointConflict
    | InvalidSpec
    | PermissionDenied
    | RoleRefImmutable
    | SchemaOutdated
    | SchemaUnverified
    | ReconcileFailed
    | RenewalMintFailed
    | RenewalUnverified
    | RenewalNotStored
    | SelfCredentialExpiring
    | ForeignFieldManager
    | AdoptedRegistration
    | CredentialReissued
    | IdentityRestored
    | RenewalRecovered

  datatype Condition = Condition(status: Truth, reason: Reason, message: string, observedGeneration: int)

  /** What a Secret key holds. ArgoCD's config payload is the one encoding that is looked
      into; `rest` is whatever else a payload carries, empty in those written here. */
  datatype Bytes =
    | Plain(text: string)
    | ClusterConfig(bearerToken: string, caData: string, rest: string)

  /** Label and annotation keys: the ones this tool stands behind, and any other. */
  datatype Key =
    | SecretTypeLabel
    | ManagedByLabel
    | ClusterName
    | TokenExpiry
    | ServingCertExpiry
    | Custom(text: string)

  /** Keys of a cluster Secret's data: the ones ArgoCD reads, and any other. */
  datatype DataKey =
    | ConfigKey
    | NameKey
    | ServerKey
    | ProjectKey
    | NamespacesKey
    | ClusterResourcesKey
    | OtherKey(text: string)

  /** Field managers: this tool's two, an entry without a name, and anyone else. */
  datatype Manager = Registration | Credential | Unnamed | Named(name: string)

  /** SHA-256, taken to be free of collisions. NoDigest is the empty string. */
  datatype Digest = NoDigest | Sha256(of: Bytes)

  /** Why ArgoCD's credential is reissued. NotDue is the empty reason. */
  datatype RefreshReason =
    | NotDue
    | Unrecorded
    | NoToken
    | Replaced
    | IdentityRecreated
    | Expiring
    | ServerDrift
    | NameDrift
    | ProjectDrift
    | CADrift
    | UnknownExpiry

  datatype Action =
    | NoAction
    | UpToDate
    | Failed
    | Reissued(why: RefreshReason)
    | NotReconciled(message: string)

  datatype Status = Status(
    observedGeneration: int,
    conditions: map<ConditionType, Condition>,
    secret: string,
    tokenExpiresAt: Option<int>,
    tokenIssuedAt: Option<int>,
    selfCredentialExpiresAt: Option<int>,
    selfCredentialIssuedAt: Option<int>,
    servingCertExpiresAt: Option<int>,
    servingCertDaysRemaining: int,
    lastSyncTime: Option<int>,
    lastAction: Action,
    appliedServer: string,
    appliedDisplayName: string,
    appliedProject: string,
    appliedCAHash: Digest,
    appliedCredentialHash: Digest)
  {
    /** meta.SetStatusCondition, without the transition time. */
    function SetCondition(kind: ConditionType, condition: Condition): Status {
      this.(conditions := conditions[kind := condition])
    }

    /** meta.RemoveStatusCondition. */
    function RemoveCondition(kind: ConditionType): Status {
      this.(conditions := conditions - {kind})
    }
  }

  /** An Event recorded on a ClusterConnection. */
  datatype Event = Normal(reason: Reason) | Warning(reason: Reason)

  const EmptyStatus := Status(0, map[], "", None, None, None, None, None, 0, None, NoAction, "", "", "", NoDigest, NoDigest)

  /** A *metav1.Time read as a time.Time. */
  function TimeOf(t: Option<int>): int {
    match t
    case Some(at) => at
    case None => 0
  }

  /** Go's integer division, which truncates toward zero. */
  function Truncated(d: int, n: nat): int
    requires n > 0
  {
    if d >= 0 then d / n else -((-d) / n)
  }

  function Max(a: int, b: int): int { if a >= b then a else b }

  function Min(a: int, b: int): int { if a <= b then a else b }
}
