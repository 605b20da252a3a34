# k2a-token-sync: what its protocols keep

k2a-token-sync registers downstream Kubernetes clusters with ArgoCD and keeps the credential
in each registration short-lived. It remembers what it did in a status it writes itself and may
not read the Secrets it writes. This project models the parts of it that are protocols rather
than plumbing, in Dafny 4.11, and proves what they keep over every input, every failure and
every interleaving.

The modules follow the program:

| files | what they are |
|---|---|
| Text, Api | strings, the ClusterConnection status, conditions and Events |
| Config, Inventory | resolving a spec; holding back connections whose claims collide |
| ServerSideApply, ArgoCD | Server-Side Apply (KEP-555) on one Secret; the two halves written to it and when a credential is due |
| Credentials, Downstream, SelfRenewal, SelfRuns | the daemon's own credential, the objects it keeps in a managed cluster, renewal, and renewal in runs of whole passes |
| Pass, PassProperties, PassStates, PassReports, PassPublications, Reconciler | one reconciliation pass as a value, what passes and runs of them guarantee, what a pass reports and publishes, and the pass as imperative methods |
| Clocks, Cadence, TokenLife | intervals, cadence and backoff, and the life of ArgoCD's token over whole runs |
| SchedulerModel, SchedulerStructure, SchedulerEntries, SchedulerWakeups, SchedulerSafety, SchedulerReporting, SchedulerIncarnations, SchedulerEdits, SchedulerLifecycle, SchedulerMemory, SchedulerHandover, SchedulerReadiness, Scheduler | the scheduler as a state machine of interleaved steps, its invariants, and its lock-holding methods |
| SchedulerSoundness | passes and scheduler together, over any interleaving and any number of restarts |
| Rbac, Hardening | the optional name-restricted RBAC policy |
| Removal, RemovalSteps, RemovalProperties, Teardown | the remove command |

Where the source changes state step by step there is a class or an array algorithm with loops,
held by its postconditions to a function on values (`Reconciler.Reconciler`,
`Scheduler.Scheduler`, `Scheduler.HealthState`, `Credentials.SecretStore`,
`Downstream.Cluster`, `Hardening.PolicyStore`, `Teardown.Teardown`, `Inventory.BlockContested`,
`ArgoCD.RegistrationConfig`). The theorems are about those functions and about runs of them.

Calls to API servers are parameters: each is answered with success, a refusal, or an effect whose
answer is lost, and other writers may act between any two calls. Times are whole seconds, the zero
time is 0, and the current time is a parameter. SHA-256 is taken to be free of collisions, JSON and
RFC 3339 to be encodings. The certificate probe is an oracle. In the scheduler every step -- of the
poll, of each pass, of the people editing ClusterConnections, of the clock -- may come whenever the
goroutine it belongs to has got that far.

## What turned out not to hold

Properties the code or its comments suggest that are false as they stand. Each has a lemma that
shows the failure and one that says exactly when the property holds.

* One server can be claimed twice: the schema lets a port start with zeros, `host:06443` and
  `host:6443` are different claims, and both connections are reconciled
  (`Inventory.LeadingZeroDuplicateSlipsThrough`; `Inventory.DuplicatesAreHeldBack` for all other
  spellings).
* A stored credential does not always read back as stored. Token and CA are read trimmed, so a CA
  with its usual final newline does not; nor does one without an expiry over one that had it, for the
  update merges keys (`Credentials.FinalNewlineIsLost`; `Credentials.ReadsBackExactly`).
* A credential can be critical before its renewal is due: when less than two days were granted, or,
  where the issue time is unknown, requested (`SelfRenewal.ShortGrantsAreCriticalBeforeDue`,
  `SelfRenewal.ShortRequestsAreCriticalBeforeDue`).
* The daemon can lock itself out although every pass gets as far as renewing and every renewal would
  succeed: bootstrap records no issue time, and a connection that asks for a day or less is then never
  due while its credential works (`SelfRenewal.ShortRequestsAreNeverRenewed`,
  `SelfRuns.PassesNeverRenewShortRequests`; `SelfRenewal.DueBeforeItExpires` says when it ever is).
  With passes up to D apart such a credential is safe exactly if D is short of its headroom
  (`SelfRenewal.NeverLockedOut`, `SelfRenewal.LockedOutOtherwise`).
* ArgoCD can be shown a labelled Secret without a credential, by any pass: a write of the tool does it
  exactly if it applies the registration to a Secret that has none at that moment -- lost before the
  pass, or, on a first pass too, deleted between its two applies (`PassStates.LabelImpliesCredential`,
  `PassStates.FirstPassShowsALabel`; `PassStates.LeftAloneTheLabelIsSafe` for a pass left alone).
* Up to date does not mean alive. A token is bound to its account's UID, and a pass on a current record
  calls a dead one up to date exactly if it was dead before, nothing stops the pass before it has
  looked, and the account it is to use is there or somebody else makes it
  (`PassStates.UpToDateOnADeadToken`). Provisioning brings that about when it runs again
  (`PassStates.ProvisionedAndForgotten`); so does a pass that recreates the account itself, unless
  nothing stops it before its credential write has landed (`PassStates.RecreatedAndForgotten`,
  `Downstream.RepairCutShortIsForgotten`). Once dead, a token stays so
  (`PassProperties.AliveMeansAllAlong`).
* Ensuring ArgoCD's identity can succeed with a wrong binding, exactly if somebody else makes one
  between its get and its create; the next call reports it
  (`Downstream.EnsuringRestoresTheIdentity`, `Downstream.SpoiltIsReportedNext`).
* An edit is lost if it takes the form of deleting the object and creating it again while a pass is
  about to write (`SchedulerEdits.RecreationHidesAnEdit`, a run from an empty start). An object that
  does not read as edited has had its spec dealt with unless the status on it was formed for an earlier
  object of the name (`SchedulerEdits.UneditedMeansHandled`).
* Synced does not mean that the spec in the API has been reconciled: after the same recreation the
  cluster counts as synced, and its pod as ready, though nobody has taken up its spec
  (`SchedulerReadiness.SyncedButNeverTakenUp`). It does mean that a pass of this process succeeded at
  that generation, and over that very spec if it took it from the object that is still there
  (`SchedulerReadiness.SyncedMeansReconciled`).
* An endpoint can resolve to a port of no host: the scheme alone does, outside the schema's pattern
  (`Config.ResolvesExactly` says what resolves, and to what).
* A removal that reports nothing remaining can leave things behind that a pass in flight wrote
  again: the daemon's credential Secret, or, while the daemon's own credential still works, the whole
  of ArgoCD's downstream identity (`RemovalProperties.InFlightPassRevivesTheIdentity`). Each of the
  eight names is clean exactly if nobody wrote it after the last delete aimed at it
  (`RemovalProperties.CleanRunLeavesNothing`).

## Model

| member | source | states |
|---|---|---|
| Config.FromSpec | internal/config/config.go:202-256 | a spec resolves iff its name, endpoint, three durations and scoping are fit; then field by field to what it says, or the documented default where it says nothing: 30 and 90 days of token life, 90 days of notice, the usual names, cluster-admin |
| Config.ResolvesExactly | internal/config/config.go:260-291 | any text resolves iff something is left of it once trimmed and stripped, without a slash, that is a host or a host with a port that is empty or a number; and then to that host and port, or 6443 |
| Config.SpellingResolves | internal/config/config.go:260-291 | every spelling the schema admits -- with or without scheme, port, trailing slash -- resolves to host and port |
| Config.SpellingsShareAClaim | internal/config/config.go:260-291 | two spellings make the same claim exactly when host and written port agree |
| Config.OneClaimPerServer | internal/config/config.go:260-291 | spellings of one server without leading zeros are one claim |
| Config.LeadingZeroSplitsAServer | internal/config/config.go:260-291 | for every spelling with a leading zero there is another of the same server that is a different claim |
| Inventory.Decode | internal/inventory/inventory.go:286-316 | an entry that resolves makes both claims; one that does not makes no endpoint claim |
| Inventory.DecodesFaithfully | internal/inventory/inventory.go:286-316 | an entry is valid iff its spec decodes and resolves, and then has what it resolves to with the adoption mark of the object; otherwise only the name is left; status and generations are the object's |
| Inventory.Tally | internal/inventory/inventory.go:188-196 | the claimants of every value, in list order |
| Inventory.BlockContested | internal/inventory/inventory.go:188-221 | in place, each entry becomes the verdict on it given all entries as they were |
| Inventory.List | internal/inventory/inventory.go:107-126 | decoding, then endpoints, then Secret names |
| Inventory.ContestedExactly | internal/inventory/inventory.go:107-221 | an entry is held back iff it was invalid, shares its endpoint with another valid entry, or, failing that, shares its Secret with one left valid; its cause says which |
| Inventory.SurvivorsAreDistinct | internal/inventory/inventory.go:128-165 | survivors have pairwise distinct endpoints and Secret names |
| Inventory.SurvivorOwnsItsEndpoint | internal/inventory/inventory.go:118-153 | no object at all, held back or not, resolves to a survivor's endpoint |
| Inventory.MessageNamesTheRivals | internal/inventory/inventory.go:204-221 | the message lists exactly the other claimants |
| Inventory.ListOrderIsImmaterial | internal/inventory/inventory.go:188-221 | verdict, cause and message are unchanged under any permutation of the list |
| Inventory.DuplicatesAreHeldBack | internal/inventory/inventory.go:144-153 | two connections to one server are both held back however each spells it, leading zeros apart |
| Inventory.LeadingZeroDuplicateSlipsThrough | internal/inventory/inventory.go:144-153 | a leading zero in the port defeats that |
| ServerSideApply.ApplyFieldwise | internal/argocd/argocd.go:257-269 | field by field, what a forced apply leaves: applied fields, and others unless this manager alone owned them |
| ServerSideApply.ApplyIsANoOp | internal/argocd/argocd.go:227-269 | an apply changes nothing iff values and ownership are already as applied |
| ServerSideApply.OmittedKeyDisappears | internal/argocd/argocd.go:186-203 | an optional key that stops being applied is removed |
| ServerSideApply.OwnHalfIsReplaced | internal/argocd/argocd.go:206-225 | with two managers on disjoint halves an apply replaces its half whole and leaves the other |
| ArgoCD.RegistrationConfig | internal/argocd/argocd.go:159-204 | labels, annotations and data built map by map are the registration, field for field |
| ArgoCD.CopyAnnotations | internal/argocd/argocd.go:167-181 | the user's annotations, except the two that are only ever observed expiries |
| ArgoCD.ControllerOwnedFieldsWin | internal/argocd/argocd.go:159-204 | controller-owned labels, annotations and data always carry the tool's values, an unknown expiry is not claimed, and project, namespaces and scope are there with the value asked for or not at all |
| ArgoCD.UserFieldsAreCarried | internal/argocd/argocd.go:159-181 | labels and annotations that are the user's alone are carried as they are, and no others |
| ArgoCD.NamespacesAreFoundAgain | internal/argocd/argocd.go:186-203 | the namespaces joined in a registration are those asked for, once split at the commas |
| ArgoCD.RegistrationCarriesNoCredential | internal/argocd/argocd.go:143-204 | no registration, whatever the user supplies, touches the credential key |
| ArgoCD.RegistrationIgnoresTheCredential | internal/argocd/argocd.go:143-204 | nothing in a registration depends on token, CA or issue time |
| ArgoCD.ForeignManagers | internal/argocd/argocd.go:283-296 | exactly the named managers that are not this tool's, each once, sorted |
| ArgoCD.RegistrationKeepsTheCredential | internal/argocd/argocd.go:227-269 | on a Secret others may have written, a registration apply leaves the credential exactly as it was, there or not |
| ArgoCD.CredentialKeepsTheRegistration | internal/argocd/argocd.go:306-318 | a credential apply puts its payload in and changes no other field |
| ArgoCD.AppliesCompose | internal/argocd/argocd.go:227-318 | after any sequence of applies the Secret is the last registration and the last credential and nothing older |
| ArgoCD.AppliesComposeOverOthers | internal/argocd/argocd.go:227-318 | the same over a Secret others made and go on owning: of what was there a field stays iff no apply set it, or somebody else owns it and every apply set it as it was, and then that owner keeps it |
| ArgoCD.LeftInPlaceMeansCurrent | internal/argocd/argocd.go:443-491 | a credential is left in place iff the published digest is the recorded one, server, names and CA agree, and half its granted life is not over |
| Credentials.ReadsBackExactly | internal/k8s/k8s.go:187-229 | what is stored is found iff neither text is blank, and reads back trimmed with its own expiry or else its predecessor's; as stored iff both texts were trimmed and it has an expiry or its predecessor had none that could be read |
| Credentials.FinalNewlineIsLost | internal/k8s/k8s.go:187-229 | a CA stored with a final newline reads back without it |
| Credentials.MergeKeepsTheRest | internal/k8s/k8s.go:234-281 | labels, annotations and data keys the tool does not set survive the merge, the others carry its values, and of the data it sets three keys at most |
| Credentials.SecretStore.UpsertSecret | internal/k8s/k8s.go:234-268 | through conflicts, rivals and lost answers at most one write lands, labels, annotations and data merged with exactly what it replaces, and success means it did |
| Credentials.SecretStore.WriteCredentials | internal/k8s/k8s.go:216-229 | success means one write landed, and the token and CA read back trimmed unless one is blank, with the expiry written or else the one there was |
| Downstream.EnsuringRestoresTheIdentity | internal/downstream/downstream.go:142-249 | with rivals creating the same objects or not: success means the identity is whole iff no rival made another binding in between; an account is reported as recreated iff this call made it, under a new UID; nothing that was there is rewritten and nothing else appears |
| Downstream.SpoiltIsReportedNext | internal/downstream/downstream.go:179-249 | a rival's wrong binding that slipped through is an error of the next call |
| Downstream.EnsuringIsIdempotent | internal/downstream/downstream.go:222-249 | on a whole identity it changes and repairs nothing |
| Downstream.RepairCutShortIsForgotten | internal/downstream/downstream.go:222-249 | an account found missing and made is reported iff the answer arrives, no rival made it and the binding is right or can be made; no later call has an account to repair |
| Downstream.EnsuringTheSelfIdentity | internal/downstream/downstream.go:383-410 | the daemon's own identity is ensured iff each call works and an existing binding is right; then the account exists, the role of its name grants exactly the one role, and the binding of that name gives the account that role, iff no rival made another binding in between |
| Downstream.EnsuringSparesTheRest | internal/downstream/downstream.go:383-410 | however far it gets, accounts and bindings that exist are not rewritten, nothing else appears, and no other role changes |
| Downstream.EnsuringTheSelfIdentitySettles | internal/downstream/downstream.go:383-410 | on a whole identity it changes nothing |
| Downstream.GuardedDeleteIsGuarded | internal/downstream/remove.go:40-114 | a guarded delete only takes the object asked for, only after seeing the label, never in a dry run; and afterwards it is gone unless an error or a foreign owner is reported |
| Downstream.Cluster.ServiceAccount | internal/downstream/downstream.go:142-159 | get, create, and a rival's create in between |
| Downstream.Cluster.ClusterRoleBinding | internal/downstream/downstream.go:179-211 | an existing binding is right or reported, never rewritten |
| Downstream.Cluster.ArgoCDIdentity | internal/downstream/downstream.go:222-249 | account, then binding, filling the record of repairs |
| Downstream.Cluster.SelfIdentity | internal/downstream/downstream.go:383-410 | account, role, binding, ending as the function EnsuringTheSelfIdentity is about |
| Downstream.Cluster.RemoveClusterRoleBinding | internal/downstream/remove.go:40-64 | get, label, dry run, delete: the guarded delete on bindings |
| Downstream.Cluster.RemoveServiceAccount | internal/downstream/remove.go:67-89 | the guarded delete on accounts |
| Downstream.Cluster.RemoveClusterRole | internal/downstream/remove.go:92-114 | the guarded delete on roles |
| SelfRenewal.CriticalImpliesDue | internal/reconcile/reconcile.go:927-969 | with two days granted, or requested where the issue time is unknown, critical implies due |
| SelfRenewal.ShortGrantsAreCriticalBeforeDue | internal/reconcile/reconcile.go:927-969 | with a known issue time there is a moment that is critical and not due exactly for grants from 2 s to 172796 s |
| SelfRenewal.ShortRequestsAreCriticalBeforeDue | internal/reconcile/reconcile.go:927-969 | with the issue time unknown there is one before expiry exactly if at most 172798 s were requested, whatever was granted |
| SelfRenewal.DueBeforeItExpires | internal/reconcile/reconcile.go:963-965 | with the issue time unknown renewal is due at some moment before expiry iff more than a day was requested |
| SelfRenewal.ShortRequestsAreNeverRenewed | internal/reconcile/reconcile.go:811-969 | otherwise no number of passes renews a credential bootstrap left, and at its expiry none connects |
| SelfRenewal.NeverLosesAWorkingCredential | internal/reconcile/reconcile.go:811-1029 | under any sequence of failures the stored credential is the initial one, somebody else's, or what a round left that was due and reached renewal: the verified token with its expiry and the CA it was verified against, over what was there |
| SelfRenewal.RecordedTimesFollowTheStore | internal/reconcile/reconcile.go:983-1029 | issue and expiry times both stay, mirror the credential in use, or move together with a confirmed store of the verified credential |
| SelfRenewal.EventsAreTheCompressedHistory | internal/reconcile/reconcile.go:811-889 | the Events of a run are its outcomes with repetitions left out, whatever the status reports at first and however it is replaced in between, though only one condition is kept |
| SelfRenewal.RecoveryFollowsAFailure | internal/reconcile/reconcile.go:838-848 | where every failure on record was reported in the history, a recovery is reported only straight after one |
| SelfRenewal.NeverLockedOut | internal/reconcile/reconcile.go:927-969 | with passes at most D apart and renewals that succeed, more than max(g - 24 h, g/2) - D always remains; from a credential of unknown issue time at least h - D until it is renewed, where h = min(what is left, requested - 24 h + 1 s), if D < h |
| SelfRenewal.LockedOutOtherwise | internal/reconcile/reconcile.go:927-969 | if D >= h, at least a second, there is a run of such passes, every renewal bound to succeed, that ends locked out |
| SelfRenewal.UnknownExpiryIsRenewed | internal/reconcile/reconcile.go:927-969 | a credential of unknown expiry is replaced by the first renewal that succeeds |
| SelfRuns.PassIsASelfPass | internal/reconcile/reconcile.go:100-382 | a whole pass does to the daemon's own credential, its recorded times and the Events about it exactly what the renewal stage does, whatever else the pass meets |
| SelfRuns.PassesNeverLoseTheCredential | internal/reconcile/reconcile.go:811-1029 | through any run of whole passes the stored credential is the initial one, somebody else's, or one a pass renewed to |
| SelfRuns.PassesReportRenewalOnce | internal/reconcile/reconcile.go:811-889 | of all the Events of a run of passes, those about renewal are its outcomes with repetitions left out, from any status and with statuses replaced in between |
| SelfRuns.PassesAreNeverLockedOut | internal/reconcile/reconcile.go:927-969 | the headroom bound over runs of whole passes, which may fail at anything after renewal, from a dated credential or one bootstrap left |
| SelfRuns.PassesNeverRenewShortRequests | internal/reconcile/reconcile.go:811-969 | over runs of whole passes: asked for a day or less, what bootstrap left is never renewed and is lost at expiry |
| Pass.FingerprintRoundTrip | internal/reconcile/reconcile.go:476-501 | what is recorded is read back |
| PassProperties.InspectionIsFaithful | internal/reconcile/reconcile.go:248-268 | what the registration apply shows is exactly the credential the Secret carries, now registered at the wanted server |
| PassProperties.OnlyOwnMintsAreRecorded | internal/reconcile/reconcile.go:293-365 | every pass leaves the recorded publication alone or replaces it whole with one it minted for the account that is there and saw accepted; no response's digest is recorded |
| PassProperties.ReportsItsGeneration | internal/reconcile/reconcile.go:100-113 | success or failure, the status names the generation the pass was given |
| PassProperties.UpToDateIsSound | internal/reconcile/reconcile.go:248-293 | a pass that ends up to date saw a credential this tool minted, for the wanted server and CA, before half its life |
| PassProperties.UpToDateIsSoundOverRuns | internal/reconcile/reconcile.go:248-365 | the same from a fresh start through any run of passes, failures, foreign writes, downstream changes, lost status writes and rollbacks: the credential is one that some pass of the run minted, proved, published and recorded, and the pass leaves it alive or dead as it was |
| PassProperties.AliveMeansAllAlong | internal/reconcile/reconcile.go:209-276 | through any run a token is alive at the end iff its account kept its UID all along |
| PassReports.ReportsHonestly | internal/reconcile/reconcile.go:100-155 | the status of every pass says Ready, and says Yes iff the pass did not fail and no failing renewal is running out; on failure No with exactly its reason, the last action failed, and the time of the last success as it was |
| PassReports.FailuresNameTheirCause | internal/reconcile/reconcile.go:166-563 | every failure carries the reason of the first thing that stopped the pass: a call on the way to the Secret, the look at it, a step of a reissue, or another credential coming back than was sent |
| PassReports.ReportsTheCertificate | internal/reconcile/reconcile.go:612-663 | once asked, the serving certificate is reported valid iff it is trusted for the host and does not end within the threshold; not asked, it is reported as before |
| PassReports.OwnershipIsReported | internal/reconcile/reconcile.go:399-449 | co-owners nobody adopted are No, with an Event exactly when they were not reported before; adopted ones or none are Yes |
| PassReports.ReportsWhoOwnsTheSecret | internal/reconcile/reconcile.go:399-449 | a pass that succeeds says of the owners what is true of the Secret it leaves |
| PassReports.ReportsItsOwnCredential | internal/reconcile/reconcile.go:811-874 | a pass that connects and finds a CA says the daemon's own credential is valid iff it was not due or was renewed, and otherwise names the step renewal failed at |
| PassReports.RecordsWhatItDid | internal/reconcile/reconcile.go:209-382 | an Event says the identity was restored iff the pass made any of it, and that a credential was reissued iff it reissued and succeeded |
| PassReports.LeavesOtherConditions | internal/reconcile/reconcile.go:100-135 | of a conflict and of the schema a pass says nothing: those conditions stay as they were |
| PassPublications.SuccessPublishesTheSpec | internal/reconcile/reconcile.go:248-342 | a pass that succeeds, reissuing or not and whoever else writes, leaves the registration's manager owning exactly the fields the spec asks for, each with the value asked for, and the two expiries it knows |
| PassPublications.SuccessLeavesTheIdentity | internal/reconcile/reconcile.go:209-232 | and the account the spec names, bound by the binding of its name to the role the spec names, unless a rival made that binding meanwhile |
| PassPublications.TheForemostReasonIsGiven | internal/argocd/argocd.go:443-491 | a credential is reissued iff something calls for it, for the first of ten reasons that applies |
| PassStates.EveryWriteKeepsOrProves | internal/reconcile/reconcile.go:248-342 | whatever fails and whoever interferes, each single write applies the registration and leaves the credential as it found it, or publishes a proved one and leaves the label as it was |
| PassStates.LabelImpliesCredential | internal/reconcile/reconcile.go:248-342 | whatever fails and whoever interferes, a single write leaves a labelled Secret without a credential iff it applies the registration to one that has none at that moment |
| PassStates.FirstPassShowsALabel | internal/reconcile/reconcile.go:318-342 | a first pass does so if the Secret is deleted between its two applies |
| PassStates.LeftAloneTheLabelIsSafe | internal/reconcile/reconcile.go:248-342 | a pass left to itself does so iff it is not the first and the Secret had lost its credential |
| PassStates.StoppedPassesShowNothing | internal/reconcile/reconcile.go:166-232 | a pass stopped before the Secret touches neither it nor the record |
| PassStates.SettledIsAFixedPoint | internal/reconcile/reconcile.go:100-382 | on a settled connection a pass changes no object, records no Event, reports up to date and leaves it settled |
| PassStates.ReissuingSettles | internal/reconcile/reconcile.go:295-382 | a successful reissue, whatever was written to the Secret meanwhile, leaves the connection settled iff no rival made another binding under its hands |
| PassStates.OverwrittenIsReissued | internal/reconcile/reconcile.go:330-365 | an overwritten credential fails the pass with the tool's own digest on record, and no later pass accepts what is there |
| PassStates.RecreatedMeansReissued | internal/reconcile/reconcile.go:209-276 | a pass that finds the account missing and succeeds, whatever others write, has reissued for that reason iff no rival made the account first, and what it reissued is bound to the account there is |
| PassStates.RecreatingSucceedsExactly | internal/reconcile/reconcile.go:209-365 | left to itself, a pass ends in a reissue for that reason iff the account was missing, nobody made it first and each named call works, the binding's included |
| PassStates.UpToDateOnADeadToken | internal/reconcile/reconcile.go:209-293 | on a current record, left to itself, a pass calls a dead token up to date iff it was dead before, nothing stops the pass before it has looked, and the account is there or a rival makes it |
| PassStates.ProvisionedAndForgotten | internal/reconcile/reconcile.go:709-730 | provisioning over a missing account makes one and keeps quiet, and the next unhindered pass calls the dead token up to date |
| PassStates.RecreatedAndForgotten | internal/reconcile/reconcile.go:209-276 | with the account missing, the binding there or not, whatever the recreating pass meets: the next unhindered pass reports the old credential as up to date iff the first did not make the account itself or ended before its credential write landed |
| Reconciler.Reconciler.RenewSelfCredential | internal/reconcile/reconcile.go:983-1029 | mint, prove, store; the status is touched last |
| Reconciler.Reconciler.MaintainSelfCredential | internal/reconcile/reconcile.go:811-874 | the condition, and an Event on a change only |
| Reconciler.Reconciler.Access | internal/reconcile/reconcile.go:684-707 | a readable, unexpired credential and a client, or the reason there is none |
| Reconciler.Reconciler.ProbeEndpoint | internal/reconcile/reconcile.go:612-663 | the serving certificate's condition and whether the pass goes on |
| Reconciler.Reconciler.ReportSecretOwnership | internal/reconcile/reconcile.go:399-449 | co-owners reported, with an Event when first noticed |
| Reconciler.Reconciler.Publish | internal/reconcile/reconcile.go:295-365 | prove, credential, registration, record, compare |
| Reconciler.Reconciler.ReconcileCluster | internal/reconcile/reconcile.go:166-382 | the stores and status end as the value-level pass says |
| Reconciler.Reconciler.RunPass | internal/reconcile/reconcile.go:100-135 | status and failure returned are those of the value-level pass the properties are about |
| Cadence.EveryTenthTick | cmd/scheduler.go:83-97 | over a timeline of polls and passes a healthy cluster is claimed at exactly every tenth tick, for ever, whatever the jitter within half a tick |
| Cadence.ClaimedAtTheTenth | cmd/scheduler.go:83-97 | in runs of the scheduler: after a healthy pass, through any polls and other clusters' steps, a claim within the next ten ticks finds the cluster due iff it is at the tenth |
| Cadence.WithoutSlackItDrifts | cmd/scheduler.go:83-97 | without the slack the tenth tick would always be too early |
| Cadence.BackoffFollowsTheStreak | cmd/scheduler.go:781-810 | in every interleaving the k-th failure in a row is retried min(60 * 2^(k-1), 1800) s after it ended; success starts over; a wake-up outranks both |
| Cadence.BackoffIsItsOwn | cmd/scheduler.go:781-810 | one cluster's bookkeeping leaves every other's timing alone |
| Clocks.NextIntervalExactly | cmd/scheduler.go:937-943 | the next pass comes after five minutes, or after half of what is left of the token, never within one |
| TokenLife.PassesKeepTheTokenAlive | internal/argocd/argocd.go:472-491 | over any run of successful passes at most J late, with g >= 240 s granted, each decision finds more than g/4 - J left |
| TokenLife.AliveFromTheStart | internal/argocd/argocd.go:443-491 | the same from a status that remembers nothing, once a first pass has succeeded |
| TokenLife.SuccessIsABeat | internal/reconcile/reconcile.go:270-356 | a successful pass leaves the token before half life or records a new one issued as it decided |
| TokenLife.ReissuesAreRare | internal/argocd/argocd.go:472-491 | over any run of passes in which nothing drifts, the reissues within T of a token's issue number at most T/(g/2) |
| SchedulerStructure.EveryRun | cmd/scheduler.go:543-690 | in every interleaving: one pass per cluster, at most four slots, no state dropped under a pass, running only while held, health exact |
| SchedulerStructure.LivenessIsExact | cmd/health.go:159-173 | the probe fails iff no poll has finished for ten intervals or a pass has overrun by a minute |
| SchedulerEntries.ScheduleListed | cmd/scheduler.go:543-591 | what a poll makes of each listed cluster, independently of the rest of the list |
| SchedulerEntries.ScheduleUnlisted | cmd/scheduler.go:593-617 | one no longer listed is forgotten, or kept and marked while a pass holds it |
| SchedulerEntries.RefreshedExactly | cmd/scheduler.go:543-591 | field by field, what an entry makes of a state: due now iff edited or its verdict is withdrawn, rerun iff the latter under a pass, and nothing of the bookkeeping touched |
| SchedulerMemory.SnapshotKeepsTheStatus | cmd/scheduler.go:699-725 | in every interleaving a pass starts iff its cluster may be reconciled, from exactly the status, spec and generation its state has, Conflict left behind |
| SchedulerMemory.SnapshotsWereReturned | cmd/scheduler.go:692-811 | in every interleaving what a pass starts from was returned, field for field, by an earlier pass of its connection, or carried by its object when the process began or the object was made |
| SchedulerMemory.NextPassStartsFromTheLast | cmd/scheduler.go:692-811 | once all there is of a connection records what its last pass returned, so does what the next starts from, through polls, verdicts, restamps, lost writes and edits |
| SchedulerHandover.HandedOver | cmd/scheduler.go:735-811 | a pass that comes back and writes with no poll under way hands everything it records to the next pass of its connection, whatever happens in between |
| SchedulerHandover.DeliveredAtTheEnd | cmd/scheduler.go:735-867 | and when it is done its object carries, and its state keeps, exactly the status it sent last |
| SchedulerSoundness.UpToDateIsSoundInEveryInterleaving | cmd/scheduler.go:692-811 | passes, scheduler and any number of restarts together, from nothing on record: a pass that ends up to date on a recorded digest saw a credential that a pass of this run minted and proved for that server and CA, before half its life |
| SchedulerWakeups.NoLostWakeup | cmd/scheduler.go:561-588 | in every interleaving a cluster owed a pass is due, or a pass with its bookkeeping ahead has been told to rerun; once none is in flight the next claim takes it |
| SchedulerWakeups.WithdrawnVerdictIsOwed | cmd/scheduler.go:561-582 | a withdrawn verdict, a new cluster, or an edit with no pass in flight is owed a pass |
| SchedulerWakeups.OwedUntilTakenUp | cmd/scheduler.go:692-725 | it stays owed until a pass takes it up or a poll finds it blocked or gone |
| SchedulerEdits.UneditedMeansHandled | cmd/scheduler.go:561-570 | in every interleaving an object that does not read as edited has had its present spec taken up or rejected, unless the status on it was formed for an earlier object of the name, whichever of the four kinds of write put it there |
| SchedulerEdits.EditsAreTakenUpAfterThePass | cmd/scheduler.go:561-591 | in every interleaving the first poll that reads such a spec with no pass running makes the cluster due there and then, or rejects the spec |
| SchedulerEdits.RecreationHidesAnEdit | cmd/scheduler.go:561-570 | a run from an empty start in which an object is deleted and recreated under a pass ends with it reading as unedited though no spec dealt with under its name and generation is its own |
| SchedulerSafety.StartsFailClosed | cmd/scheduler.go:692-725 | in every interleaving a pass starts from the latest poll's entry, in which its cluster is the sole valid claimant of endpoint and Secret, or abandons |
| SchedulerSafety.ClaimsExactly | cmd/scheduler.go:654-671 | a claim marks exactly the states in the map that are idle, valid, present and due within half a poll |
| SchedulerSafety.VerdictsSayWhy | cmd/scheduler.go:471-518 | a verdict gives the state's reason, cause and generation, and speaks of a conflict iff another connection is the cause |
| SchedulerSafety.RejectionKeepsTheRecord | cmd/scheduler.go:471-493 | a verdict sets Ready to No and Conflict to Yes iff another connection is named, sets generation and last action, and changes nothing else; laying it over again changes nothing |
| SchedulerSafety.LastWriteIsSettled | cmd/scheduler.go:755-867 | in every interleaving the last status a pass sends is its result under the verdict it read after its first write, record intact |
| SchedulerReporting.OnePollTellsAll | cmd/scheduler.go:367-448 | with no pass in flight and writes succeeding, one poll leaves every blocked object carrying its verdict and the next would write nothing |
| SchedulerReporting.ListedIgnoresStatus | internal/inventory/inventory.go:107-221 | no verdict depends on what any status says |
| SchedulerLifecycle.ACreatedConnectionIsReconciled | cmd/scheduler.go:335-353 | from an empty start a created connection can be listed, claimed and reconciled; its object ends with the pass's own result, nothing owed or running, due an interval after the pass started |
| SchedulerReadiness.SyncedMeansReconciled | cmd/scheduler.go:985-1010 | in every interleaving a synced cluster is one for which a pass of this process succeeded at its generation, over the spec the API has if it took it from the object still there |
| SchedulerReadiness.SyncedButNeverTakenUp | cmd/scheduler.go:985-1010 | a run from an empty start ends with a cluster synced whose spec nobody has taken up |
| Scheduler.Scheduler.Upsert | cmd/scheduler.go:550-591 | one entry's effect on the map of states |
| Scheduler.Scheduler.UpdateSchedule | cmd/scheduler.go:543-619 | the loops compute the state machine's step and the withdrawn verdicts in list order |
| Scheduler.Scheduler.ClaimDue | cmd/scheduler.go:654-671 | exactly the due states are marked, and listed once each by name |
| Scheduler.Scheduler.VerdictFor | cmd/scheduler.go:430-448 | what a blocked object should say and whether it is news |
| Scheduler.Scheduler.RejectedStatus | cmd/scheduler.go:471-518 | the verdict laid over a status |
| Scheduler.Scheduler.BeginPass | cmd/scheduler.go:699-725 | the recheck, the snapshot without Conflict, the wake-up discharged |
| Scheduler.Scheduler.OverlayVerdict | cmd/scheduler.go:739-759 | a verdict formed meanwhile goes over the result |
| Scheduler.Scheduler.Bookkeep | cmd/scheduler.go:779-811 | status, due time, backoff and generation after a pass |
| Scheduler.Scheduler.ReadVerdictAgain | cmd/scheduler.go:832-848 | what is left to write once the verdict is read again |
| Scheduler.Scheduler.ReleaseCluster | cmd/scheduler.go:686-690 | the claim is given back |
| Scheduler.Scheduler.ReportOn | cmd/scheduler.go:985-1010 | one cluster's line of the report |
| Scheduler.Scheduler.ReportLocked | cmd/scheduler.go:985-1030 | one line for every cluster in the map, once each, by name |
| Scheduler.Scheduler.ReportHealth | cmd/scheduler.go:958-962 | ready iff every cluster in the map is synced |
| Scheduler.HealthState.Record | cmd/health.go:127-148 | ready iff every cluster is synced |
| Scheduler.HealthState.IsLive | cmd/health.go:159-173 | live iff the last poll and every pass are young enough |
| Rbac.RestrictedGrantsExactly | internal/hardening/hardening.go:103-127 | the restricted role permits patch on exactly the listed names, and nothing when there are none |
| Rbac.InspectedMeansApart | internal/hardening/hardening.go:153-211 | what passes inspection keeps baseline and restricted objects distinct |
| Rbac.NoGap | internal/hardening/hardening.go:243-269 | no single write of Apply takes patch on a wanted name from the controller |
| Rbac.NoGapOverall | internal/hardening/hardening.go:243-269 | nor does any prefix of an Apply, stopped on an error or not |
| Rbac.SuccessIsExact | internal/hardening/hardening.go:243-348 | at success the two bindings grant patch on exactly the wanted names and create on all |
| Rbac.ApplySettles | internal/hardening/hardening.go:243-348 | on an inspected policy Apply succeeds and is idempotent |
| Rbac.AppliesExactly | internal/hardening/hardening.go:243-348 | Apply succeeds iff the policy passes inspection and every call succeeds |
| Rbac.ApplySparesTheRest | internal/hardening/hardening.go:243-322 | however far it gets, other roles, bindings and accounts, the baseline's metadata, and labels and annotations others set stay as they were |
| Hardening.BuildPlan | internal/hardening/hardening.go:62-98 | a plan iff every entry is valid with a fit, unique Secret name: all connections by name and exactly the names; otherwise the reason the first unfit entry gives |
| Hardening.ListedNeverClaimsTwice | internal/hardening/hardening.go:62-98 | a listed inventory that is all valid cannot fail the plan on a Secret claimed twice |
| Hardening.ExcludedName | internal/hardening/hardening.go:417-432 | the unbounded search ends within as many candidates as names, on an unclaimed one |
| Hardening.VerifyAuthorization | internal/hardening/hardening.go:360-415 | confirmed iff every wanted name and create are allowed and an excluded name is denied; it stops at the first answer that is not as it should be, says which, and counts the checks made |
| Hardening.PolicyStore.UpsertRole | internal/hardening/hardening.go:271-290 | rules replaced, foreign labels and annotations kept |
| Hardening.PolicyStore.UpsertBinding | internal/hardening/hardening.go:292-312 | role reference and subjects replaced, the rest kept |
| Hardening.PolicyStore.MergeLabels | internal/hardening/hardening.go:314-322 | the merge of two label maps |
| Hardening.PolicyStore.Activate | internal/hardening/hardening.go:243-269 | goes through exactly the states the properties are about |
| RemovalProperties.CollisionIsByEndpoint | cmd/remove.go:571-603 | the guard finds a rival iff another object resolves to the endpoint, whatever its verdict |
| RemovalProperties.BothAreMarked | cmd/remove.go:571-603 | both connections sharing an endpoint are listed as invalid |
| RemovalProperties.SharedEndpointProtectsDownstream | cmd/remove.go:384-398 | then every downstream object is as others left it and the report says so |
| RemovalProperties.CollidesExactly | cmd/remove.go:310-317 | the guard holds the downstream half back iff the object resolved, that half was to go, and another object listed resolves to the endpoint |
| RemovalProperties.SkippingLeavesDownstream | cmd/remove.go:380-382 | told to, a removal leaves every downstream object as others left it |
| RemovalProperties.ConventionalNames | internal/config/bootstrap.go:88-104 | without a resolved object the names are those given, or the default ones; a name that is empty or too long is refused |
| RemovalProperties.ResolvesTheTarget | cmd/remove.go:550-569 | the daemon's names iff the object can be read and resolves by itself, the conventional ones otherwise |
| RemovalProperties.AbortsExactly | cmd/remove.go:296-317 | a removal stops before touching anything iff the object could not be read, no usable name is left, or the list it needs could not be had |
| RemovalProperties.GuardsAreExact | cmd/remove.go:638-676 | each guard refuses iff the Secret could not be read, is not labelled, or says it is another cluster's -- the registration by annotation, the credential by label -- and for that reason |
| RemovalProperties.AimedAtSecretsExactly | cmd/remove.go:345-509 | a step is aimed at a Secret iff the connection names it and it was clear to go: readable, and absent or labelled and nobody else's |
| RemovalProperties.AnothersSecretsAreSpared | cmd/remove.go:345-509 | a Secret that was not clear ends as others leave it, the last recheck included |
| RemovalProperties.RefusalsAreReported | cmd/remove.go:345-378 | the report names the owner, or says it could not be read, iff that stood in the way, for each of the two Secrets; and says unmanaged if that did |
| RemovalProperties.DownstreamIsReportedExactly | cmd/remove.go:424-485 | of the five deletes exactly those that failed or found a foreign object are reported, or, if all failed, one item that says the cluster does not answer |
| RemovalProperties.OnlyOursIsDeleted | cmd/remove.go:287-509 | however calls fail and whatever others write in between, every object is as others left it, except the named connection and what a step under the resolved names took after reading the label on it |
| RemovalProperties.DryRunChangesNothing | cmd/remove.go:287-509 | a dry run leaves every object as others did |
| RemovalProperties.DryRunPredicts | cmd/remove.go:287-509 | without interference or failing deletes a dry run reports what the real run leaves, coinciding names included |
| RemovalProperties.CleanRunLeavesNothing | cmd/remove.go:287-509 | after a run with nothing remaining each of the eight names is clean iff nobody wrote it after the last delete aimed at it; the registration always is |
| RemovalProperties.InFlightPassRevivesTheIdentity | cmd/remove.go:411-418 | a pass at EnsureArgoCDIdentity between the first two downstream deletes and the rest: all five report the object removed, nothing remains to report, and ArgoCD's account and binding are there |
| RemovalProperties.TeardownUndoesProvisioning | cmd/remove.go:411-424 | tearing down what provisioning made gives back what there was |
| Teardown.Teardown.ResolveRemovalCluster | cmd/remove.go:550-569 | the daemon's own names, or the conventional ones |
| Teardown.Teardown.FindCollision | cmd/remove.go:589-603 | the first other connection at the endpoint |
| Teardown.Teardown.RemoveClusterConnection | cmd/remove.go:727-751 | get, then delete |
| Teardown.Teardown.RemoveOwnedSecret | cmd/remove.go:765-791 | get, label, then delete |
| Teardown.Teardown.TearDownDownstream | cmd/remove.go:380-485 | the five deletes in order, or the one item that stands for them |
| Teardown.Teardown.ExecuteRemoval | cmd/remove.go:287-509 | the site and the remaining list end as the properties are about |

## Left out

- Reconciler.Reconciler.RenewSelfCredential: stores its credential in one step; the retry on conflicts underneath is SecretStore.UpsertSecret, held to the same merge.
- Pass.Reissue: the message that comes with each condition reason, Event and error is not modelled; reasons are.
- SchedulerSafety.LastWriteIsSettled: is about what a pass sends; a verdict write of a poll that lands after it can put an older fingerprint back, which costs a reissue and nothing else.
- SchedulerReporting.OnePollTellsAll: takes the second list in the order of the first and reads off what a second poll would write; Inventory.ListOrderIsImmaterial covers the order.
- Scheduler.Scheduler.ClaimDue: states are shared through references into a map rather than through heap pointers, since several goroutines hold them; garbage is never collected.
- Teardown.Teardown.ExecuteRemoval: the time budget of the downstream half, which only turns calls into failed ones.
- Cadence.EveryTenthTick: composes Cadence.ClaimedAtTheTenth over a timeline of its own; that polls and passes keep to their ticks is assumed there.
- Real time, goroutine scheduling and fairness: clocks are integers and steps are chosen freely; that due clusters get a slot in the end is not proved.
- Shutdown: a queued pass may be cancelled; in-flight contexts and the wait group are not modelled.
- The status report beyond name and synced, and the next due time shown.
- The CRD schema check: a stamp on status writes.
- Token lifetimes below whole seconds, and warnings about shortened lifetimes.
- The rules of the self identity's ClusterRole beyond which role it may bind.
- TLS and X.509 verification, TokenRequest and access reviews: oracles.
- Kubernetes clients, kubeconfig loading, HTTP servers, metrics, logging, telemetry, flags, usage texts, progress output.
- Bootstrap orchestration and adoption prompts: sequential calls; what they provision is Downstream.Cluster.
- Condition transition times: set by the API machinery and read by nobody here.
