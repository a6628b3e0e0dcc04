# Ceph S3 operator: a verified model

This project models the controllers and admission webhooks of the Ceph S3 operator
and proves what they are relied on for: that interrupted reconciles are always
repaired, that quotas hold in every reachable state, that claims do not disturb each
other, and that nothing is left without an owner.

An `S3UserClaim` asks for a Ceph user with quotas, subusers and credentials in
secrets; an `S3Bucket` asks for a bucket of such a user with access for some of its
subusers. Both are reconciled by a chain of steps over three stores: the Kubernetes
API, Ceph, and the fields of the reconciler. Any external call may fail, and then the
chain ends and the request is queued again.

How the parts fit together:

- `Store` holds the world as one value: claims with resource version and finalizers,
  secrets with their controller, S3Users, ResourceQuotas, S3Buckets, Ceph users with
  subusers and keys, and remote buckets. `Quotas` and `Accounting` hold exact
  quantities, the 64-bit bucket count with its wrap-around, and totals over claims.
- `Reconcile` says what each of the 11 steps of Provision and the 4 steps of Cleanup
  does, as functions from attempt to attempt. An attempt carries the number of calls
  that still succeed, so "interrupted at an arbitrary call" is "for every such number".
- `Api` is the remote side as a class whose methods may fail, `Controller` the
  reconciler as a class with its fields, loops and calls. Every method of the
  controller is proved to do exactly what the function of `Reconcile` says, so all
  theorems about the functions are theorems about the reconciler. Orders in which Go
  walks a map or gets a list are arbitrary (`:|`), and handed on to the functions as
  a ghost result.
- `Convergence` begins with what a converged claim looks like, written out on the objects
  themselves; the theorems speak of this picture, not of the functions the steps use.
- `Subusers`, `Sync`, `Isolation`, `Convergence`, `Runs`, `Residue`, `Exactness`,
  `Quiescence`, `Usage` and `Orphans` prove the properties of the claim controller.
- `QuotaHandler`, `Webhook` and `Admission` are the quota sums, the validators as
  methods, and what they keep true over runs of requests; `SecretSafety` joins
  admission and controller.
- `Policy`, `S3Agent.dfy` (module `Agent`), `Buckets` and `BucketLife` are the bucket side.

Some statements that one might expect are false of the code. For each there are inputs
that show it, and the condition under which the code does meet it: convergence fails for a spec that demands
one secret twice or somebody else's secret (`CrashConvergenceIsExact`), subuser secret
names are not injective across claims (`SecretNameCollision`, `SeparateFootprints`),
tenants are not injective across clusters (`TenantCollision`, `ClustersNeverCollide`),
an interrupted removal leaves a secret for good (`RunThatForgets`,
`ForgottenForGood`), a restart orphans exactly the exposed users and exposure is
reachable (`RestartOrphansExposed`, `GapIsReachable`), a bucket admitted under a
terminating claim loses its reference (`LateBucketDangles`), a bucket sum that wraps is
admitted under every limit (`TwoCreatesWrap`, `WriteKeepsQuotaExactly`), a negative
request hides an excess (`NegativeRequestHidesExcess`, `RemovalFitsExactly`), with a
foreign finalizer the published usage leaves out a claim that still exists
(`ForeignFinalizerHidesRequest`), and a bucket deleted before its finalizer was added
leaves the remote bucket (`LeftoverBeforeFinalizer`, `NothingLeftBehind`).

Where documentation and code differ, the model follows the code: a bucket that
already exists counts as created even if another user owns it; the description of the
quota check in docs/DESIGN.md speaks of S3Users, the code sums claims; an empty team
label also matches namespaces without the label; `ensureCephUser` compares two
pointers that always differ, so an existing Ceph user is modified on every pass (the
state it leads to is the same, so passes are still quiet in effect).

## Model

| member | source | states |
|---|---|---|
| Runs.CrashConvergence | internal/controllers/s3userclaim/provisioner.go:28-341 | After any run of attempts, each stopped at an arbitrary call, of edits to any spec without `:` in a subuser, and of changes by others that keep the claim's spec and the shape of its Ceph user: if the last spec can be met, one fault-free reconcile completes, and Ceph user, quota, subusers, secrets, S3User, status, published usage and finalizer are what it demands; specs in between that could not be met do not matter |
| Exactness.CrashConvergenceIsExact | internal/controllers/s3userclaim/provisioner.go:28-341 | The condition is exact: after every such run the fault-free reconcile completes and converges if and only if no secret is demanded for two Ceph names and every demanded secret that survives the subuser sync is free or the claim's own |
| Exactness.ConvergesExactlyIfReady | internal/controllers/s3userclaim/provisioner.go:28-341 | The same for one reconcile from any sound state |
| Runs.ResidueOfRun | internal/controllers/s3userclaim/provisioner.go:126-195 | In every converged state such a run reaches, every secret the claim controls is demanded, or bears an explicit secret name of an earlier spec, or is `<claim>-readonly` after readonly was listed, or belongs to a subuser whose removal was interrupted, or was left to the claim by somebody else's change |
| Runs.RunKeepsSound | internal/controllers/s3userclaim/provisioner.go:28-52 | Every run, whatever is asked for on the way, keeps the claim sound: present, not terminating, its Ceph user in shape |
| Runs.RunKeepsTidy | internal/controllers/s3userclaim/provisioner.go:28-52 | Along every such run each controlled secret stays explained by the history or by a subuser Ceph still has |
| Runs.AttemptKeepsTidy | internal/controllers/s3userclaim/provisioner.go:28-52 | One attempt, wherever it stops and whatever the spec, adds at most one name to the residue, that of the interrupted removal |
| Convergence.AttemptKeepsSound | internal/controllers/s3userclaim/provisioner.go:28-52 | One attempt on a sound claim with any spec, wherever it stops, keeps it sound and keeps uid and spec |
| Convergence.AttemptConverges | internal/controllers/s3userclaim/provisioner.go:28-52 | If the spec can be met, an attempt that completes has converged, and without faults it completes. Converged is spelled out on the objects: the admin secret holds the first key of the user, the readonly secret that of `<user>:readonly`, each `<claim>-<subuser>` that of `<user>:<subuser>`; Ceph lists just these subusers; size and object limits are those of the spec, rounded up; S3User, status, usage and finalizer likewise |
| Convergence.DemandsAreThePicture | internal/controllers/s3userclaim/provisioner.go:89-398 | What the steps work towards, demand by demand, is exactly this picture, both ways |
| Convergence.AttemptKeepsHealthy | internal/controllers/s3userclaim/provisioner.go:28-52 | If moreover every demanded secret is free at the start, this stays so however the attempt ends |
| Convergence.ChainProceeds | internal/controllers/s3userclaim/provisioner.go:28-52 | From the middle of the chain and for any spec the claim stays sound |
| Convergence.ChainAdvances | internal/controllers/s3userclaim/provisioner.go:28-52 | From any stage the chain ends with all stages reached, or halted and sound; nothing a later step does spoils an earlier one |
| Convergence.StepAdvances | internal/controllers/s3userclaim/provisioner.go:54-311 | Each of the 11 steps takes stage n to stage n+1 or halts without harm |
| Convergence.SecretStep | internal/controllers/s3userclaim/provisioner.go:313-398 | Storing one demanded secret makes it right (exists, controlled by the claim, holds the right key) and leaves every secret that was right, right |
| Convergence.DemandedSecrets | internal/controllers/s3userclaim/provisioner.go:162-195 | All demands are met iff admin, readonly and subuser secrets, by their names in the spec, hold the first keys of user, readonly subuser and subusers |
| Convergence.DemandedQuota | internal/controllers/s3userclaim/provisioner.go:89-98 | The quota the step sets is the only one that is enabled with the size limit from the size and the object limit from the objects, each rounded away from zero |
| Store.KeyForIsFirst | internal/controllers/s3userclaim/provisioner.go:369-380 | The key found for a user is the first in Ceph's list that bears its name |
| Residue.ForgottenForGood | internal/controllers/s3userclaim/provisioner.go:126-150 | A secret that no demand and no subuser in Ceph leads to is never removed or rewritten by any run of attempts, and of edits and changes by others that do not ask for it |
| Residue.AttemptForgets | internal/controllers/s3userclaim/provisioner.go:28-52 | One attempt, wherever it stops, leaves such a secret as it is and forgotten |
| Residue.InterruptedRemovalForgets | internal/controllers/s3userclaim/provisioner.go:437-467 | A removal that stops between Ceph and the secret leaves exactly this secret forgotten |
| Residue.RunThatForgets | internal/controllers/s3userclaim/provisioner.go:437-467 | The residue is reached: from every converged claim, dropping a subuser from the spec and one attempt whose sixth call fails is a run that ends with its secret forgotten |
| Residue.ForeignSecretIsSpared | internal/controllers/s3userclaim/provisioner.go:313-341 | No attempt, however it ends, rewrites or takes over a secret under another controller; only as the secret of an unwanted subuser can it go |
| Residue.NewClaimIsTidy | internal/controllers/s3userclaim/provisioner.go:28-52 | The invariant of runs holds of a claim without Ceph user and without secrets |
| Quiescence.ThirdPassIsSilent | internal/controllers/s3userclaim/provisioner.go:197-250 | From any state whose spec can be met the third consecutive fault-free reconcile changes nothing, although writes of status and finalizer move the resource version that the S3User records |
| Quiescence.UnrestDecreases | internal/controllers/s3userclaim/provisioner.go:197-311 | An explicit measure (2 unconverged, 1 converged, 0 settled) falls with every fault-free reconcile, and at 0 the world stays equal |
| Quiescence.ConvergedReconcile | internal/controllers/s3userclaim/provisioner.go:197-230 | On a converged claim a fault-free reconcile writes at most the S3User, and not even that if it records the current version |
| Quiescence.ConvergedOnlyIfConsistent | internal/controllers/s3userclaim/provisioner.go:162-195 | The hypothesis is needed: a spec that wants one secret for two Ceph names has no converged state |
| Convergence.ForeignSecretStops | internal/controllers/s3userclaim/provisioner.go:313-341 | A demanded secret under another controller halts the attempt and is left as it is |
| Subusers.DiffLaw | internal/controllers/s3userclaim/provisioner.go:400-425 | On arbitrary lists: the tag of a name listed k times is create if wanted and k=0, remove if wanted with k even and positive or unwanted with k odd, and absent otherwise |
| Subusers.DiffIsSetDifference | internal/controllers/s3userclaim/provisioner.go:400-425 | For a list without duplicates the diff is exactly the two set differences, each with its tag |
| Subusers.ReadonlyIsKept | internal/controllers/s3userclaim/provisioner.go:411-412 | Readonly is tagged for removal iff Ceph lists it an even positive number of times, so never for a list without duplicates |
| Sync.SyncProgress | internal/controllers/s3userclaim/provisioner.go:126-150 | In every order and wherever it stops, the walk has removed exactly a prefix of the order from the symmetric difference between wanted and current, and all of it if it completes; keys and limits stay in shape |
| Sync.SyncOneEffect | internal/controllers/s3userclaim/provisioner.go:427-467 | One creation or removal shrinks the symmetric difference by exactly its own name, or stops before Ceph |
| Sync.SyncSecrets | internal/controllers/s3userclaim/provisioner.go:437-467 | Syncing only deletes secrets, and of every subuser it removed the secret is gone unless that removal was the interrupted one |
| Sync.SyncDeletesUnwanted | internal/controllers/s3userclaim/provisioner.go:437-467 | The only secrets deleted are those of subusers that were there and are not wanted |
| Isolation.OtherClaimsUntouched | internal/controllers/s3userclaim/handler.go:95-138 | A reconcile of one claim, however it ends, leaves Ceph user, buckets, S3User and object of every other claim alone, and its secrets too if their footprints are separate |
| Isolation.ReconcileTouches | internal/controllers/s3userclaim/handler.go:95-112 | The frame of a whole reconcile: one Ceph user, one claim, one S3User, the claim's secret footprint and, in one namespace, the usage of the three S3 resources and of no other |
| Isolation.SeparateFootprints | internal/controllers/s3userclaim/handler.go:140-142 | The secret footprints of two claims are disjoint iff neither explicit names nor `<claim>-` prefixes meet |
| Naming.FullIdInjective | internal/controllers/s3userclaim/handler.go:114-134 | Within a cluster the Ceph full id determines the claim although `.` and `-` are folded |
| Naming.SubuserFullIdInjective | internal/controllers/s3userclaim/handler.go:136-138 | The Ceph subuser name determines claim and subuser |
| Naming.S3UserNameInjective | internal/controllers/s3userclaim/handler.go:114-134 | The cluster-wide S3User name determines the claim |
| Naming.TenantInjective | internal/controllers/s3userclaim/handler.go:114-134 | Within a cluster the tenant determines the namespace |
| Naming.TenantCollision | internal/controllers/s3userclaim/handler.go:114-134 | Two (cluster, namespace) pairs get one tenant iff one cluster prefix is the other plus some y and the folded namespaces differ by the matching y |
| Naming.ClustersNeverCollide | internal/controllers/s3userclaim/handler.go:114-134 | Two clusters share no tenant, whatever their namespaces, iff neither prefix extends the other by nothing or by something a folded namespace can begin with |
| Naming.TenantsOfDifferentClustersCanCollide | internal/controllers/s3userclaim/handler.go:114-134 | Two concrete collisions: by folding, and between names that stay different when folded |
| Naming.SecretNameCollision | internal/controllers/s3userclaim/handler.go:140-142 | Two (claim, subuser) pairs get one secret name iff they are equal or one claim is the other plus `-x` and the subusers differ by the matching `x-` |
| Naming.SecretFootprints | internal/controllers/s3userclaim/handler.go:140-142 | The subuser secrets of two different claims can meet iff one claim name extends the other by `-` |
| Naming.SecretNameInjectiveInClaim | internal/controllers/s3userclaim/handler.go:140-142 | Within one claim they never meet |
| Naming.ExtractInvertsGenerate | internal/controllers/s3userclaim/handler.go:136-151 | Extraction inverts generation iff neither part contains `:`, and otherwise fails |
| Naming.PrincipalIdentifiesCephSubuser | internal/s3_agent/s3_agent.go:90-94 | Two policy principals are equal iff they name the same Ceph subuser, so a principal decodes to the one subuser the claim controller creates |
| Naming.PrincipalInjective | internal/s3_agent/s3_agent.go:90-94 | A principal determines tenant, owner and subuser |
| Naming.PrincipalDecodes | internal/s3_agent/s3_agent.go:90-94 | Taken apart at its colons, a principal names the Ceph subuser `<tenant>$<owner>:<subuser>` it was written for, and no other |
| Naming.NamesOfAClaim | internal/controllers/s3userclaim/handler.go:114-142 | All names of one claim, spelled out |
| Reconcile.JobOfAClaim | internal/controllers/s3userclaim/handler.go:114-134 | All variables of one request, spelled out |
| Orphans.NoOrphans | internal/controllers/s3userclaim/handler.go:95-112 | In every state reachable by interleaving user actions (S3Users removed by hand included), single controller steps, failures and safe restarts, an existing Ceph user has its claim, its S3User, a queued request or the worker |
| Orphans.ActionKeepsInv | internal/controllers/s3userclaim/cleaner.go:20-66 | The inductive invariant: every action keeps it, including manual finalizer removal and every step of both chains |
| Orphans.RestartOrphansExposed | internal/controllers/s3userclaim/controller.go:30-44 | A restart that lists claims and S3Users again orphans exactly the users that have neither |
| Orphans.ExposureSources | internal/controllers/s3userclaim/cleaner.go:20-66 | A user loses both only by somebody else's edit or delete of its claim or removal of its S3User, or when Provision creates the user of a claim that has vanished; never by Cleanup |
| Orphans.DroppedS3UserIsNoticed | internal/controllers/s3userclaim/controller.go:30-44 | Removing an S3User by hand queues a request for the claim it refers to |
| Orphans.RemovingS3UserFirstExposes | internal/controllers/s3userclaim/cleaner.go:20-26 | The order of Cleanup matters: removing the S3User before the Ceph user would expose it |
| Orphans.GapIsReachable | internal/controllers/s3userclaim/provisioner.go:30-42 | The remaining gap is real: create, first step, delete, restart leaves an orphan from any good idle state |
| Orphans.FreshStateIsGood | internal/controllers/s3userclaim/handler.go:95-112 | An operator that has not started, with no user of a claim name in Ceph, satisfies the invariant |
| Usage.PublishedUsageIsTotal | internal/controllers/s3userclaim/provisioner.go:259-301 | After any completed reconcile, from any state, every ResourceQuota of the namespace shows s3/objects, s3/size and s3/buckets (as a quantity) equal to the totals of the claims that remain |
| Usage.CleanupCompletes | internal/controllers/s3userclaim/cleaner.go:20-80 | A completed cleanup, of a terminating or of a missing claim, leaves no Ceph user and no S3User, publishes the total without the claim, and the claim is gone iff its only finalizer was the operator's |
| Usage.CleanupConverges | internal/controllers/s3userclaim/cleaner.go:20-80 | Wherever earlier attempts stopped, one fault-free cleanup completes and all of this holds |
| Usage.ForeignFinalizerHidesRequest | internal/controllers/s3userclaim/cleaner.go:68-80 | With a foreign finalizer the published usage equals the total iff the remaining claim requests nothing |
| Accounting.RequestPlusOthersIsNewTotal | api/v1alpha1/quota_handler.go:14-78 | "Sum of the others plus the request" is the total of the state after the request is stored, for create and update alike |
| Accounting.TotalRemove | api/v1alpha1/quota_handler.go:27-36 | Totals do not depend on the order in which claims are summed |
| Accounting.RoundingBound | internal/controllers/s3userclaim/provisioner.go:89-109 | The sums of the limits stored in Ceph for the users of n claims are at least the admitted total and less than n units above it, and equal when requests are integral |
| Admission.EnforcedWithinLimits | api/v1alpha1/s3userclaim_webhook.go:180-195 | Under the quota invariant and once its claims have converged, the limits stored in Ceph for a team's users exceed the hard limits by less than one unit per claim, and the bucket total by less than one |
| QuotaHandler.NamedTeamNamespaces | api/v1alpha1/quota_handler.go:80-113 | For a non-empty team the namespaces summed are exactly those that carry its label |
| QuotaHandler.AddAll | api/v1alpha1/quota_handler.go:27-36 | One accumulating loop adds exactly the wrapped total of the namespace without the excluded claim, in any list order |
| QuotaHandler.CalculateNamespaceUsedQuota | api/v1alpha1/quota_handler.go:14-41 | The loop computes the total of the others plus, if asked, the request |
| QuotaHandler.SumNamespaces | api/v1alpha1/quota_handler.go:57-71 | The nested loops add exactly the wrapped total of all claims of the listed namespaces without the excluded one, in any order of namespaces and claims |
| QuotaHandler.CalculateClusterUsedQuota | api/v1alpha1/quota_handler.go:43-78 | The nested loops compute the same over all claims of the team's namespaces; without faults it fails iff the namespace has no team |
| QuotaHandler.FindTeam | api/v1alpha1/quota_handler.go:80-92 | The label, or an error for a missing namespace or label |
| QuotaHandler.FindTeamNamespaces | api/v1alpha1/quota_handler.go:94-113 | Each matching namespace once, and no other |
| Webhook.ValidateAgainstNamespaceQuota | api/v1alpha1/s3userclaim_webhook.go:169-199 | Passes iff the namespace total with the request fits every limit defined; never passes wrongly when reads fail |
| Webhook.ValidateAgainstClusterQuota | api/v1alpha1/s3userclaim_webhook.go:201-238 | Passes iff all three team limits exist and hold |
| Webhook.ValidateQuota | api/v1alpha1/s3userclaim_webhook.go:143-167 | Adds no error iff both checks pass, and keeps earlier errors; each quota error it adds is true, and without faults the namespace and the team are each reported iff they are exceeded or undefined |
| Webhook.ValidateSecrets | api/v1alpha1/s3userclaim_webhook.go:240-258 | Adds no error iff none of the secrets exists; without faults it reports exactly the existing ones, by name |
| Webhook.ValidateCreate | api/v1alpha1/s3userclaim_webhook.go:68-82 | Admits iff quotas fit and both secrets are absent; a refusal names the exceeded namespace and every existing secret |
| Webhook.ValidateUpdate | api/v1alpha1/s3userclaim_webhook.go:84-118 | Admits iff the class is kept, quotas fit and changed secret names are free; what this protects is stated by `ClassIsImmutable`, `NeverPointedAt` and `ExistingSecretsAreSafe`; a change of class is always reported |
| Webhook.ValidateDelete | api/v1alpha1/s3userclaim_webhook.go:120-141 | Admits iff no bucket of the namespace refers to the claim |
| Webhook.ValidateBucketCreate | api/v1alpha1/s3bucket_webhook.go:49-70 | Admits iff the referred claim exists |
| Webhook.ValidateBucketUpdate | api/v1alpha1/s3bucket_webhook.go:73-95 | Admits iff the reference is unchanged |
| Admission.AdmissionIsSafe | api/v1alpha1/s3userclaim_webhook.go:68-141 | In every state reached by admitted requests, none negative, none that makes a team's 64-bit sum wrap, and no bucket under a terminating claim: every namespace total is within every ResourceQuota and every team total within its ClusterResourceQuota (spelled out resource by resource), every claim lives in a labelled namespace whose team has all three limits, and every S3Bucket refers to an existing claim |
| Admission.ClassIsImmutable | api/v1alpha1/s3userclaim_webhook.go:93-99 | Over every run a claim that stays keeps its class |
| Admission.UserRefIsImmutable | api/v1alpha1/s3bucket_webhook.go:78-89 | Over every run a bucket that stays keeps its reference |
| Admission.NeverPointedAt | api/v1alpha1/s3userclaim_webhook.go:74-112 | Over every run a secret that exists all the while and that the claim did not name at the start is never named by it as admin or readonly secret, through edits, deletion and re-creation |
| Admission.RefusedOnlyForSecrets | api/v1alpha1/s3userclaim_webhook.go:240-258 | Nor is more refused: within the quotas and the class, a request is admitted iff it names no existing secret that the claim did not name in that place before |
| SecretSafety.ExistingSecretsAreSafe | internal/controllers/s3userclaim/provisioner.go:313-341 | Admission and controller together: such a secret is as it was after any later reconcile of the claim, however that ends, unless it bears the name of a subuser's secret |
| Admission.WriteKeepsQuotaExactly | api/v1alpha1/s3userclaim_webhook.go:169-238 | The no-wrap condition is exact: storing a non-negative request that passes the quota checks keeps the invariant iff the team's sum stays below 2^63 |
| Admission.WrappingCreateIsAdmitted | api/v1alpha1/s3userclaim_webhook.go:191-195 | Every 64-bit request that makes the sums wrap is admitted under every bucket limit and puts the team over its limit |
| Admission.TwoCreatesWrap | api/v1alpha1/s3userclaim_webhook.go:191-195 | A run that does so: in a team without buckets, one bucket and then 2^63 - 1 more, both admitted |
| Admission.EmptyClusterIsSafe | api/v1alpha1/s3userclaim_webhook.go:169-238 | A cluster without claims and buckets satisfies the invariants |
| Admission.AdmittedWriteKeepsQuota | api/v1alpha1/s3userclaim_webhook.go:169-238 | Storing an admitted claim keeps the quota invariant, of its own and of all other namespaces and teams, if the team's sum does not wrap |
| Admission.RemovalKeepsQuota | api/v1alpha1/s3userclaim_webhook.go:120-141 | Removing a claim keeps it |
| Admission.SumsAreNewTotals | api/v1alpha1/quota_handler.go:14-78 | If the team's sum does not wrap, the wrapped sums of the webhook are the plain totals of the state after admission |
| Admission.NoOverflow | api/v1alpha1/quota_handler.go:27-78 | Then no partial sum overflows |
| Admission.RemovalFitsExactly | api/v1alpha1/s3userclaim_webhook.go:180-195 | After a claim is removed a limit holds iff by no defined key the total was further above it than the claim's own request |
| Admission.NegativeRequestHidesExcess | api/v1alpha1/s3userclaim_webhook.go:68-82 | From any state within the limits: create a negative request, create what the limit leaves plus that amount, delete the first; each is admitted and the team ends over its limit by that amount |
| Admission.NoIncreaseIsAdmitted | api/v1alpha1/s3userclaim_webhook.go:84-118 | Under the invariant an update that keeps class and secret names and asks for no more is admitted |
| Admission.FinalizerWritesAreAdmitted | internal/controllers/s3userclaim/provisioner.go:303-311 | So the controller's own finalizer writes are never refused |
| Admission.BucketCreateKeepsRefs | api/v1alpha1/s3bucket_webhook.go:49-70 | At the moment of admission a bucket keeps referential integrity iff the webhook admits it |
| Admission.ClaimDeleteKeepsRefs | api/v1alpha1/s3userclaim_webhook.go:120-141 | Removing a claim keeps referential integrity iff the webhook admits the deletion |
| BucketLife.LateBucketDangles | internal/controllers/s3userclaim/cleaner.go:20-80 | After the next fault-free reconcile of its claim, which carries the operator's finalizer alone, the admitted bucket is still there and its reference holds iff the claim was not terminating |
| BucketLife.LiveReferenceStays | internal/controllers/s3userclaim/provisioner.go:28-52 | No reconcile, however it ends, removes a claim that is not terminating |
| Policy.BindingsMeaning | internal/s3_agent/s3_agent.go:81-150 | A compiled policy permits a subuser's principal an action on a resource iff the resource is the policy's bucket or an object in it and the last binding that names the subuser gives the action: read gives list and get, write also delete and put, nothing else anything |
| Policy.PolicyMeaning | internal/s3_agent/s3_agent.go:96-120 | The same for the access map, for every order in which the two maps are walked |
| Policy.ResourcesCover | internal/s3_agent/s3_agent.go:104-107 | The statement's resources, matched literally or up to a final `*`, cover the ARN of a bucket or object iff tenant and bucket are the policy's |
| Policy.GrantsMeaning | internal/s3_agent/s3_agent.go:81-150 | The same read by who the principals stand for: which Ceph subuser gets which action on which resource |
| Policy.ActionTable | internal/s3_agent/s3_agent.go:136-150 | Read gives ListBucket and GetObject, write also DeleteObject and PutObject, and there are no other levels |
| Policy.OneStatementEach | internal/s3_agent/s3_agent.go:90-120 | Every bound subuser occurs in exactly one statement, once, and nobody else in any |
| Policy.AccessMapIsLast | internal/controllers/s3bucket/handler.go:128-131 | The access map holds exactly the last binding of each name |
| Policy.WriteIncludesRead | internal/s3_agent/s3_agent.go:136-150 | Write permits everything read does |
| Policy.Compile | internal/s3_agent/s3_agent.go:81-121 | The two loops yield such a policy, or fail iff some access level is unknown |
| Policy.GroupByAccess | internal/s3_agent/s3_agent.go:84-94 | The first loop groups the principals by level, each once |
| Agent.S3Agent.CreateBucket | internal/s3_agent/s3_agent.go:54-71 | Both "already exists" answers count as success and change nothing; a refusal for any other reason and a lost connection are reported, in the last case perhaps after the bucket was created |
| Agent.S3Agent.DeleteBucket | internal/s3_agent/s3_agent.go:73-79 | Removes the bucket or reports why not; a lost answer is reported although the bucket is gone |
| Agent.S3Agent.SetBucketPolicy | internal/s3_agent/s3_agent.go:81-134 | Installs a compiled policy; an unknown level is reported before any call is made; an error changes nothing, except that the answer to an installed policy may be lost |
| Buckets.BucketReconciler.InitVars | internal/controllers/s3bucket/handler.go:119-133 | Derives the same tenant and user id as the claim controller, and the last-wins access map |
| Buckets.BucketReconciler.EnsureBucket | internal/controllers/s3bucket/provisioner.go:35-41 | Halts iff the call is refused or lost; creates the bucket for the user if it is not there |
| Buckets.BucketReconciler.EnsureBucketPolicy | internal/controllers/s3bucket/provisioner.go:43-53 | The compiled policy is in force, or the step halts and, S3 being down or not, the status reports the very error if Kubernetes can be reached |
| Buckets.BucketReconciler.UpdateBucketStatus | internal/controllers/s3bucket/provisioner.go:58-76 | Writes the status iff it differs |
| Buckets.BucketReconciler.Provision | internal/controllers/s3bucket/provisioner.go:17-86 | However it ends, with every S3 call and Kubernetes failing independently, no remote bucket is removed or changes owner and the finalizer comes last; completed, the bucket exists with the compiled policy, reported status and finalizer; an unknown level or another user's bucket always halts it; with nothing failing it completes iff neither is the case, else the status holds the error |
| Buckets.BucketReconciler.RemoveOrRetainBucket | internal/controllers/s3bucket/cleaner.go:32-52 | Halts iff the bucket is to be removed and the answer is an error other than "no such bucket", which the status then reports; otherwise it is retained or gone |
| Buckets.BucketReconciler.Cleanup | internal/controllers/s3bucket/cleaner.go:16-66 | However it ends, the finalizer goes only when the bucket is retained or gone; with nothing failing it completes iff the remote bucket can be removed; a failed removal is reported in the status, the lost connection included |
| Buckets.BucketReconciler.Reconcile | internal/controllers/s3bucket/handler.go:60-117 | The dispatch: a missing object changes nothing; a missing claim or secret requeues with the world unchanged; if the claim has converged, the agent holds the first key of the claim's own Ceph user; with nothing failing it completes iff claim and secret are there and cleanup or provision can complete |
| BucketLife.NothingLeftBehind | internal/controllers/s3bucket/cleaner.go:16-66 | Over runs of both controllers with failures: once an S3Bucket with finalizer and another policy than retain is gone, its remote bucket is gone |
| BucketLife.BucketSurvives | internal/controllers/s3bucket/cleaner.go:32-36 | Over such runs the remote bucket stays with its owner as long as the object is retained or not being deleted and no cleanup of the owning claim runs |
| BucketLife.DataOutlivesNoReference | api/v1alpha1/s3userclaim_webhook.go:120-141 | While the object exists and references are intact no such cleanup can start, so the data stays |
| BucketLife.CleanupPurgesBuckets | internal/controllers/s3userclaim/cleaner.go:38-48 | The claim's cleanup removes every bucket of its user, retained or not, iff its first call goes through |
| BucketLife.CleanupKeepsOthers | internal/controllers/s3userclaim/cleaner.go:38-48 | And no bucket of any other claim |
| BucketLife.ProvisionKeepsRemote | internal/controllers/s3userclaim/provisioner.go:28-52 | Provision of a claim touches no remote bucket |
| BucketLife.LeftoverBeforeFinalizer | internal/controllers/s3bucket/provisioner.go:78-86 | An attempt that stops right after creation leaves an object without finalizer, and deleting it leaves the remote bucket |
| BucketLife.ProvisionedGrants | internal/controllers/s3bucket/provisioner.go:17-56 | End to end over both controllers: a provisioned bucket's policy grants a Ceph subuser of the referred claim exactly what the last binding that names it gives, on this bucket and its objects only, and a converged claim's subusers exist |
| BucketLife.DeletionPolicyWords | internal/controllers/s3bucket/cleaner.go:32-52 | "retain" never costs the remote bucket, and under "delete" the object does not go while the remote bucket is there |
| BucketLife.CredentialsAreTheUsers | internal/controllers/s3bucket/handler.go:93-117 | For a converged claim the secret that is read exists and holds the first key of the very Ceph user the agent acts as |
| Controller.Reconciler.InitVars | internal/controllers/s3userclaim/handler.go:114-134 | Derives the identities of the request |
| Controller.Reconciler.EnsureCephUser | internal/controllers/s3userclaim/provisioner.go:54-87 | Refines its step function: create or always modify |
| Controller.Reconciler.EnsureCephUserQuota | internal/controllers/s3userclaim/provisioner.go:89-118 | Completed, the Ceph user's quota is enabled with the size limit from the spec's size and the object limit from its objects, rounded; refines its step function |
| Controller.Reconciler.GenerateSubuserAccess | internal/controllers/s3userclaim/provisioner.go:400-425 | The toggling loops compute the diff, with the tag law for every name |
| Controller.Reconciler.RemoveSubuserAndSecret | internal/controllers/s3userclaim/provisioner.go:437-467 | Refines its step function and records an interrupted removal |
| Controller.Reconciler.SyncSubusersList | internal/controllers/s3userclaim/provisioner.go:126-150 | Consumes the map in an arbitrary order, which is returned as an enumeration of it, and has the effect of that order |
| Controller.Reconciler.FindKey | internal/controllers/s3userclaim/provisioner.go:369-380 | The first key of the user, or none |
| Controller.Reconciler.StoreTheSecret | internal/controllers/s3userclaim/provisioner.go:313-341 | Refines its step function: create, leave, take over or refuse |
| Controller.Reconciler.EnsureOneSecret | internal/controllers/s3userclaim/provisioner.go:369-398 | Assembles the secret from the key, or halts without one, and stores it |
| Controller.Reconciler.EnsureOtherSubusersSecret | internal/controllers/s3userclaim/provisioner.go:180-195 | Refines the walk over the desired subusers |
| Controller.Reconciler.EnsureS3User | internal/controllers/s3userclaim/provisioner.go:197-230 | Refines its step function, with the claim reference in its present version |
| Controller.Reconciler.UpdateS3UserClaimStatus | internal/controllers/s3userclaim/provisioner.go:232-250 | Refines its step function, with the optimistic resource version |
| Controller.Reconciler.UpdateNamespaceQuotaStatus | internal/controllers/s3userclaim/provisioner.go:259-292 | Completed, every ResourceQuota of the namespace shows objects, size and buckets of the computed total, each under its own name and in its own unit; refines its step function |
| Controller.Reconciler.AddCleanupFinalizer | internal/controllers/s3userclaim/provisioner.go:303-311 | Refines its step function |
| Controller.Reconciler.RemoveTheCephUser | internal/controllers/s3userclaim/cleaner.go:38-48 | Refines its step function: a missing user is fine |
| Controller.Reconciler.RemoveTheS3User | internal/controllers/s3userclaim/cleaner.go:50-66 | Refines its step function: a missing S3User is fine |
| Controller.Reconciler.RemoveCleanupFinalizer | internal/controllers/s3userclaim/cleaner.go:68-80 | Refines its step function |
| Controller.Reconciler.RunChain | internal/controllers/s3userclaim/provisioner.go:44-51 | The step loop refines the chain, up to the first step that halts |
| Controller.Reconciler.Reconcile | internal/controllers/s3userclaim/handler.go:95-112 | A whole reconcile equals the function that every theorem above is about, for some enumeration of maps and lists |

## Left out

- HTTP, AWS SDK, go-ceph, controller-runtime, JSON and configuration: each external call has the small contract written in `Api` and `Agent`.
- A Kubernetes or Ceph admin call that took effect but whose answer was lost is not a case of its own: it is success followed by a failing next call, and after the last call of a chain it only queues the request once more. For the S3 endpoint it is a case of its own.
- Credential contents and key generation: a credential is an opaque number attached to a Ceph name; access and secret key are one value.
- Authentication at the S3 endpoint: the agent acts as the referred user whatever credential it holds (which one it holds is proved), and the endpoint may refuse it at any call.
- The S3 endpoint's own reasons to refuse a call (too many buckets, invalid credentials, overload) can occur at any call and are not derived from the state of Ceph.
- Caches: reads see the current state; informer staleness is not modelled, nor is `RetryOnConflict`, which sends the same object again and counts as one call.
- Admission.AdmissionIsSafe: assumes that no request is negative, that no request makes a team's 64-bit sum wrap, and that no bucket is created under a terminating claim (each shown to be needed); admissions are serialised and bucket limits are 64-bit counts; overlapping requests, relabelled namespaces and lowered limits can break the invariant and are not covered.
- Orphans.NoOrphans: interleaves users and controller between steps, not between the calls of one step; one worker and a queue that is lost only by a restart.
- Runs.CrashConvergence: changes by others between attempts keep the claim's uid and spec and the shape of its Ceph user; deletion of the claim in between is covered by `Usage.CleanupConverges`.
- Exactness.CrashConvergenceIsExact: takes from Kubernetes that a uid belongs to one object and from Ceph that different names have different credentials.
- Policy.BindingsMeaning: tenants have no `:`, bucket names no `/` and no `*`, as Kubernetes names have none; how Ceph evaluates a policy is taken to be: some Allow statement with the principal, the action and a covering resource.
- SecretSafety.ExistingSecretsAreSafe: a secret that bears the name of a listed or present subuser's secret, `<claim>-<subuser>`, is outside this: admission does not look at these names.
- Naming.ClustersNeverCollide: namespaces are RFC 1123 labels without their limit of 63 characters.
- BucketLife.NothingLeftBehind: assumes that nobody else removes the finalizer, switches the policy to retain or creates the object anew.
- Secrets are not removed by garbage collection when their claim goes; owner references other than the controller are not modelled.
- Finalizers are sets, so their order in the object is lost; so is metadata such as labels and annotations.
- The built-in Kubernetes controller that writes the same ResourceQuota status is not part of the model.
- The class predicate of the claim watch, and with it any claim of another class, is not modelled.
- Quantity arithmetic is exact over nano-units; parsing, formats and the decimal limits of Quantity are left out, and the quota of a claim is always present, as its CRD default makes it.
- Error texts: statuses carry the kind of error in place of its message, and the webhooks' messages are shortened.
- Deep-copy code, manifests, Helm charts, `main.go` and scripts.
