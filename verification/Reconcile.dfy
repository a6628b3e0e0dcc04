/** What one reconcile of an S3UserClaim does, as functions on the whole world.

    A reconcile is a chain of steps.  Each step makes external calls, any of which
    may fail; the first failure ends the attempt.  `Faults` says after how many
    successful calls that happens.  A call whose effect took place but whose answer
    was lost is the same as the next call failing, so it needs no case of its own.
    Orders in which Go walks a map or receives a list are given by `Choices`. */
module Reconcile {
  import opened Naming
  import opened Quotas
  import opened Store
  import opened Accounting
  import opened Subusers

  datatype Config = Config(clusterName: string, s3UserClass: string)

  /** The variables that initVars derives from a request. */
  datatype Job = Job(key: Key, s3UserClass: string, id: string, display: string, s3UserName: string)

  function JobFor(c: Config, k: Key): Job {
    Job(k, c.s3UserClass, CephUserFullId(c.clusterName, k), DisplayName(c.clusterName, k), S3UserName(k))
  }

  /** The variables of one request, spelled out. */
  lemma JobOfAClaim()
    ensures JobFor(Config("okd.c-1", "fast"), Key("team-a", "my.claim"))
         == Job(Key("team-a", "my.claim"), "fast", "okd_c_1__team_a$my.claim", "my.claim in team-a.okd.c-1", "team-a.my.claim")
  {
    NamesOfAClaim();
  }

  datatype Faults = Never | After(calls: nat)

  /** What the reconciler holds in memory between the steps. */
  datatype Vars = Vars(claim: Claim, cephUser: CephUser, desired: seq<string>, used: Quota)

  /** A reconcile in progress.  `halted` means that the chain ended early and the
      request was queued again.  `leaked` records the subuser, if any, whose removal
      ended between the removal from Ceph and the deletion of its secret. */
  datatype Attempt = Attempt(world: World, vars: Vars, faults: Faults, halted: bool, leaked: Option<string>)

  datatype Choices = Choices(subusers: seq<string>, quotas: seq<Key>)

  datatype Step =
    | EnsureCephUser | EnsureCephUserQuota | SyncSubusers | RetrieveCephUser
    | EnsureAdminSecret | EnsureReadonlySecret | EnsureOtherSecrets
    | EnsureS3User | UpdateClaimStatus | UpdateQuotaInclusive | AddFinalizer
    | RemoveCephUser | RemoveS3User | UpdateQuotaExclusive | RemoveFinalizer

  const PROVISION := [
    EnsureCephUser, EnsureCephUserQuota, SyncSubusers, RetrieveCephUser,
    EnsureAdminSecret, EnsureReadonlySecret, EnsureOtherSecrets,
    EnsureS3User, UpdateClaimStatus, UpdateQuotaInclusive, AddFinalizer]

  const CLEANUP := [RemoveCephUser, RemoveS3User, UpdateQuotaExclusive, RemoveFinalizer]

  /** One external call: it goes through, or it ends the attempt. */
  function Call(a: Attempt): Attempt {
    match a.faults
    case Never => a
    case After(n) => if n == 0 then Halt(a) else a.(faults := After(n - 1))
  }

  function Halt(a: Attempt): Attempt {
    a.(halted := true)
  }

  // ---- Provision: the Ceph user --------------------------------------------

  function CreateOrModify(w: World, id: string, display: string, buckets: int): (w': World)
    ensures id in w'.users
  {
    if id in w.users then ModifyUser(w, id, display, buckets) else CreateUser(w, id, display, buckets)
  }

  /** An existing user is always modified: the source compares the pointers to
      the two bucket limits, and these are never equal. */
  function DoEnsureCephUser(j: Job, a: Attempt): Attempt {
    var a := Call(a);
    if a.halted then a else
    var a := Call(a);
    if a.halted then a else
    var buckets := a.vars.claim.spec.quota.buckets;
    var w := CreateOrModify(a.world, j.id, j.display, buckets);
    a.(world := w, vars := a.vars.(cephUser := w.users[j.id], desired := a.vars.claim.spec.subusers))
  }

  function DesiredQuota(claim: Claim): CephQuota {
    CephQuota(true, Value(claim.spec.quota.size), Value(claim.spec.quota.objects))
  }

  function DoEnsureCephUserQuota(id: string, a: Attempt): Attempt {
    var a := Call(a);
    if a.halted then a
    else if id !in a.world.users then Halt(a)
    else
      var q := DesiredQuota(a.vars.claim);
      var a := if a.world.users[id].quota == q then a
               else
                 var b := Call(a);
                 if b.halted then b else b.(world := SetUserQuota(b.world, id, q));
      if a.halted then a else a.(vars := a.vars.(cephUser := a.vars.cephUser.(quota := q)))
  }

  // ---- Provision: the subusers ---------------------------------------------

  function Tags(id: string, a: Attempt): map<string, Tag> {
    Diff(Wanted(id, a.vars.desired), a.vars.cephUser.subusers)
  }

  function DoGenerateSubuser(id: string, name: string, a: Attempt): Attempt {
    var a := Call(a);
    if a.halted then a
    else if id !in a.world.users || name in a.world.users[id].subusers then Halt(a)
    else a.(world := CreateSubuser(a.world, id, name))
  }

  function DoRemoveSubuserAndSecret(id: string, name: string, a: Attempt): Attempt {
    var a := Call(a);
    if a.halted then a
    else if id !in a.world.users then Halt(a)
    else
      var a := a.(world := RemoveSubuser(a.world, id, name));
      match ExtractSubuserName(name)
      case None => Halt(a)
      case Some(subuser) =>
        var a := Call(a);
        if a.halted then a.(leaked := Some(subuser))
        else a.(world := DeleteSecret(a.world, SubuserSecretKey(a.vars.claim, subuser)))
  }

  function SubuserSecretKey(claim: Claim, subuser: string): Key {
    Key(claim.key.ns, SubuserSecretName(claim.key.name, subuser))
  }

  function SyncOne(id: string, name: string, tag: Tag, a: Attempt): Attempt {
    if tag == Create then DoGenerateSubuser(id, name, a) else DoRemoveSubuserAndSecret(id, name, a)
  }

  function SyncAll(id: string, order: seq<string>, tags: map<string, Tag>, a: Attempt): Attempt {
    if order == [] then a
    else
      var b, name := SyncAll(id, order[..|order| - 1], tags, a), order[|order| - 1];
      if b.halted || name !in tags then b else SyncOne(id, name, tags[name], b)
  }

  function DoRetrieveCephUser(id: string, a: Attempt): Attempt {
    var a := Call(a);
    if a.halted then a
    else if id !in a.world.users then Halt(a)
    else a.(vars := a.vars.(cephUser := a.world.users[id]))
  }

  // ---- Provision: the secrets ----------------------------------------------

  /** A secret the claim asks for: whose key it holds, and its name. */
  datatype Demand = Demand(cephName: string, secret: string)

  function AdminDemand(id: string, spec: ClaimSpec): Demand {
    Demand(id, spec.adminSecret)
  }

  function ReadonlyDemand(id: string, spec: ClaimSpec): Demand {
    Demand(SubuserFullId(id, READONLY), spec.readonlySecret)
  }

  function SubuserDemand(id: string, claimName: string, subuser: string): Demand {
    Demand(SubuserFullId(id, subuser), SubuserSecretName(claimName, subuser))
  }

  /** ensureSecret: create it, or take it over if it differs or is not ours. */
  function StoreSecret(key: Key, wanted: Secret, a: Attempt): Attempt {
    var a, claim := Call(a), a.vars.claim;
    if a.halted then a
    else if key in a.world.secrets
            && a.world.secrets[key].data == wanted.data && ControlledBy(a.world.secrets[key], claim.uid) then a
    else if key in a.world.secrets && !Adoptable(a.world.secrets[key], claim.key.name) then Halt(a)
    else
      var a := Call(a);
      if a.halted then a else a.(world := PutSecret(a.world, key, wanted))
  }

  /** assembleCephUserSecret followed by ensureSecret. */
  function EnsureSecret(d: Demand, a: Attempt): Attempt {
    match KeyFor(a.vars.cephUser.keys, d.cephName)
    case None => Halt(a)
    case Some(credential) =>
      StoreSecret(Key(a.vars.claim.key.ns, d.secret), Secret(credential, Some(OwnerOf(a.vars.claim))), a)
  }

  function EnsureSubuserSecrets(id: string, subusers: seq<string>, a: Attempt): Attempt {
    if subusers == [] then a
    else
      var n := |subusers| - 1;
      var b := EnsureSubuserSecrets(id, subusers[..n], a);
      if b.halted then b
      else EnsureSecret(SubuserDemand(id, b.vars.claim.key.name, subusers[n]), b)
  }

  // ---- Provision: S3User, status, quota usage, finalizer -------------------

  function DesiredS3User(j: Job, claim: Claim): S3User {
    S3User(j.s3UserClass, claim.spec.quota, Some(ObjectRef(claim.key, claim.uid, claim.rv)))
  }

  function DoEnsureS3User(j: Job, a: Attempt): Attempt {
    var a := Call(a);
    if a.halted then a
    else
      var wanted := DesiredS3User(j, a.vars.claim);
      if j.s3UserName in a.world.s3users && a.world.s3users[j.s3UserName] == wanted then a
      else
        var a := Call(a);
        if a.halted then a else a.(world := PutS3User(a.world, j.s3UserName, wanted))
  }

  function DesiredStatus(name: string, a: Attempt): ClaimStatus {
    ClaimStatus(Some(a.vars.claim.spec.quota), name, a.vars.claim.spec.subusers)
  }

  function DoUpdateClaimStatus(name: string, a: Attempt): Attempt {
    if a.vars.claim.status == DesiredStatus(name, a) then a
    else
      var a := a.(vars := a.vars.(claim := a.vars.claim.(status := DesiredStatus(name, a))));
      var a := Call(a);
      if a.halted then a
      else if !Current(a.world, a.vars.claim) then Halt(a)
      else
        var w := PutClaimStatus(a.world, a.vars.claim);
        a.(world := w, vars := a.vars.(claim := w.claims[a.vars.claim.key]))
  }

  /** The claims of the namespace except the one at hand, plus the one at hand if
      asked for.  A claim that was not found has an empty name: nobody is excluded. */
  ghost function NamespaceUsed(w: World, claim: Claim, ns: string, inclusive: bool): Quota {
    var others := TotalBut(w.claims, {ns}, Key(ns, claim.key.name));
    Wrap(if inclusive then Plus(others, claim.spec.quota) else others)
  }

  function Assigned(used: map<string, int>, total: Quota): map<string, int> {
    used[S3_OBJECTS := total.objects][S3_SIZE := total.size][S3_BUCKETS := total.buckets * NANO]
  }

  function PublishOne(k: Key, total: Quota, a: Attempt): Attempt {
    if k !in a.world.quotas || Assigned(a.world.quotas[k].used, total) == a.world.quotas[k].used then a
    else
      var used := Assigned(a.world.quotas[k].used, total);
      var a := Call(a);
      if a.halted then a else a.(world := PutUsed(a.world, k, used))
  }

  function Publish(order: seq<Key>, total: Quota, a: Attempt): Attempt {
    if order == [] then a
    else
      var b := Publish(order[..|order| - 1], total, a);
      if b.halted then b else PublishOne(order[|order| - 1], total, b)
  }

  ghost function DoUpdateQuota(ns: string, order: seq<Key>, inclusive: bool, a: Attempt): Attempt {
    var a := Call(a);
    if a.halted then a
    else
      var a := a.(vars := a.vars.(used := NamespaceUsed(a.world, a.vars.claim, ns, inclusive)));
      var a := Call(a);
      if a.halted then a else Publish(order, a.vars.used, a)
  }

  function WriteClaim(claim: Claim, a: Attempt): Attempt {
    var a := Call(a.(vars := a.vars.(claim := claim)));
    if a.halted then a
    else if !Current(a.world, claim) then Halt(a)
    else
      var w := PutClaim(a.world, claim);
      a.(world := w, vars := a.vars.(claim := if claim.key in w.claims then w.claims[claim.key] else claim))
  }

  function DoAddFinalizer(a: Attempt): Attempt {
    var claim := a.vars.claim;
    if CLAIM_FINALIZER in claim.finalizers then a
    else WriteClaim(claim.(finalizers := claim.finalizers + {CLAIM_FINALIZER}), a)
  }

  // ---- Cleanup -------------------------------------------------------------

  function DoRemoveCephUser(id: string, a: Attempt): Attempt {
    var a := Call(a);
    if a.halted || id !in a.world.users then a
    else a.(world := RemoveUser(a.world, id))
  }

  function DoRemoveS3User(name: string, a: Attempt): Attempt {
    var a := Call(a);
    if a.halted then a else a.(world := DeleteS3User(a.world, name))
  }

  function DoRemoveFinalizer(a: Attempt): Attempt {
    var claim := a.vars.claim;
    if CLAIM_FINALIZER !in claim.finalizers then a
    else WriteClaim(claim.(finalizers := claim.finalizers - {CLAIM_FINALIZER}), a)
  }

  // ---- the chain -----------------------------------------------------------

  ghost function Do(j: Job, step: Step, ch: Choices, a: Attempt): Attempt {
    match step
    case EnsureCephUser => DoEnsureCephUser(j, a)
    case EnsureCephUserQuota => DoEnsureCephUserQuota(j.id, a)
    case SyncSubusers => SyncAll(j.id, ch.subusers, Tags(j.id, a), a)
    case RetrieveCephUser => DoRetrieveCephUser(j.id, a)
    case EnsureAdminSecret => EnsureSecret(AdminDemand(j.id, a.vars.claim.spec), a)
    case EnsureReadonlySecret => EnsureSecret(ReadonlyDemand(j.id, a.vars.claim.spec), a)
    case EnsureOtherSecrets => EnsureSubuserSecrets(j.id, a.vars.desired, a)
    case EnsureS3User => DoEnsureS3User(j, a)
    case UpdateClaimStatus => DoUpdateClaimStatus(j.s3UserName, a)
    case UpdateQuotaInclusive => DoUpdateQuota(j.key.ns, ch.quotas, true, a)
    case AddFinalizer => DoAddFinalizer(a)
    case RemoveCephUser => DoRemoveCephUser(j.id, a)
    case RemoveS3User => DoRemoveS3User(j.s3UserName, a)
    case UpdateQuotaExclusive => DoUpdateQuota(j.key.ns, ch.quotas, false, a)
    case RemoveFinalizer => DoRemoveFinalizer(a)
  }

  ghost function QuotasIn(w: World, ns: string): set<Key> {
    set k | k in w.quotas && k.ns == ns
  }

  /** The choices describe an execution: they enumerate what the step walks. */
  ghost predicate Legal(j: Job, step: Step, ch: Choices, a: Attempt) {
    match step
    case SyncSubusers => Enumerates(ch.subusers, Tags(j.id, a).Keys)
    case UpdateQuotaInclusive => Enumerates(ch.quotas, QuotasIn(a.world, j.key.ns))
    case UpdateQuotaExclusive => Enumerates(ch.quotas, QuotasIn(a.world, j.key.ns))
    case _ => true
  }

  ghost function Chain(j: Job, steps: seq<Step>, ch: Choices, a: Attempt): Attempt {
    if steps == [] || a.halted then a else Chain(j, steps[1..], ch, Do(j, steps[0], ch, a))
  }

  ghost predicate LegalChain(j: Job, steps: seq<Step>, ch: Choices, a: Attempt) {
    steps != [] && !a.halted ==>
      Legal(j, steps[0], ch, a) && LegalChain(j, steps[1..], ch, Do(j, steps[0], ch, a))
  }

  /** What is left of Provision after n steps, one step further. */
  lemma Unroll(n: nat, j: Job, ch: Choices, a: Attempt)
    requires n < 11 && !a.halted && LegalChain(j, PROVISION[n..], ch, a)
    ensures Legal(j, PROVISION[n], ch, a)
    ensures var b := Do(j, PROVISION[n], ch, a);
            && LegalChain(j, PROVISION[n + 1..], ch, b)
            && Chain(j, PROVISION[n..], ch, a) == Chain(j, PROVISION[n + 1..], ch, b)
            && (b.halted ==> Chain(j, PROVISION[n..], ch, a) == b)
  {
    assert PROVISION[n..][0] == PROVISION[n] && PROVISION[n..][1..] == PROVISION[n + 1..];
  }

  // ---- the dispatch --------------------------------------------------------

  /** The claim as read, or the zero claim if there is none. */
  function ReadClaim(w: World, k: Key): Claim {
    if k in w.claims then w.claims[k] else ZERO_CLAIM
  }

  function Start(w: World, stale: Vars, k: Key, faults: Faults): Attempt {
    Attempt(w, stale.(claim := ReadClaim(w, k)), faults, false, None)
  }

  /** A missing or terminating claim is cleaned up, any other is provisioned. */
  function StepsFor(w: World, k: Key): seq<Step> {
    if k !in w.claims || w.claims[k].deleting then CLEANUP else PROVISION
  }

  /** A whole reconcile of the request k; the first call reads the claim. */
  ghost function ReconcileKey(c: Config, ch: Choices, w: World, stale: Vars, k: Key, faults: Faults): Attempt {
    Chain(JobFor(c, k), StepsFor(w, k), ch, Call(Start(w, stale, k, faults)))
  }

  ghost predicate LegalReconcile(c: Config, ch: Choices, w: World, stale: Vars, k: Key, faults: Faults) {
    LegalChain(JobFor(c, k), StepsFor(w, k), ch, Call(Start(w, stale, k, faults)))
  }
}
