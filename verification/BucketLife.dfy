/** The lifetime of remote buckets over runs in which both controllers, with any of
    their calls failing, interleave with whatever else changes the Kubernetes API. */
module BucketLife {
  import opened Naming
  import opened Store
  import opened Reconcile
  import opened Isolation
  import opened Policy
  import opened Buckets
  import opened Convergence
  import Admission
  import Orphans
  import Usage
  import Webhook

  /** Between two states: a reconcile of an S3Bucket, a reconcile of an
      S3UserClaim, or a change of anything but the remote buckets. */
  datatype Change =
    | BucketReconcile(k: Key)
    | ClaimReconcile(k: Key, ch: Choices, stale: Vars, faults: Faults)
    | Elsewhere

  ghost predicate Changes(c: Config, x: Change, w: World, w': World) {
    KeyedClaims(w) &&
    match x
    case BucketReconcile(k) => ValidKey(k) && ReconcilesBucket(c.clusterName, k, w, w')
    case ClaimReconcile(k, ch, stale, faults) =>
      ValidKey(k) && LegalReconcile(c, ch, w, stale, k, faults) && w' == ReconcileKey(c, ch, w, stale, k, faults).world
    case Elsewhere => w'.remote == w.remote
  }

  ghost predicate IsRun(c: Config, ws: seq<World>, xs: seq<Change>) {
    |ws| == |xs| + 1 && forall i | 0 <= i < |xs| :: Changes(c, xs[i], ws[i], ws[i + 1])
  }

  function RemoteOf(c: Config, b: Key): Key {
    Key(CephTenant(c.clusterName, b.ns), b.name)
  }

  lemma RemoteInjective(c: Config, b: Key, b': Key)
    requires ValidKey(b) && ValidKey(b') && RemoteOf(c, b) == RemoteOf(c, b')
    ensures b == b'
  {
    TenantInjective(c.clusterName, b.ns, b'.ns);
  }

  // ---- what a claim reconcile does to remote buckets -----------------------

  lemma StepKeepsRemote(j: Job, step: Step, ch: Choices, a: Attempt)
    requires About(j, step, a) && Legal(j, step, ch, a) && step != RemoveCephUser
    ensures Do(j, step, ch, a).world.remote == a.world.remote
  {
    var spec := a.vars.claim.spec;
    match step
    case SyncSubusers => SyncTouches(j, ch.subusers, Tags(j.id, a), a);
    case EnsureOtherSecrets => SecretsTouch(j, a.vars.desired, a);
    case EnsureAdminSecret => EnsureSecretTouches(j, AdminDemand(j.id, spec), a);
    case EnsureReadonlySecret => EnsureSecretTouches(j, ReadonlyDemand(j.id, spec), a);
    case UpdateQuotaInclusive => QuotaStepTouches(j, ch.quotas, true, a);
    case UpdateQuotaExclusive => QuotaStepTouches(j, ch.quotas, false, a);
    case EnsureS3User => S3UserStepsTouch(j, a);
    case RemoveS3User => S3UserStepsTouch(j, a);
    case UpdateClaimStatus => StatusStepTouches(j, a);
    case AddFinalizer => AddFinalizerTouches(j, a);
    case RemoveFinalizer => RemoveFinalizerTouches(j, a);
    case EnsureCephUser => EnsureUserEntry(j, a);
    case EnsureCephUserQuota => EnsureQuotaEntry(j.id, a);
    case RetrieveCephUser =>
  }

  lemma {:induction false} ChainKeepsRemote(j: Job, steps: seq<Step>, ch: Choices, a: Attempt)
    requires a.halted || steps == [] || ChainReady(j, steps, a)
    requires LegalChain(j, steps, ch, a) && RemoveCephUser !in steps
    ensures Chain(j, steps, ch, a).world.remote == a.world.remote
    decreases |steps|
  {
    if steps != [] && !a.halted {
      StepKeepsRemote(j, steps[0], ch, a);
      NextReady(j, steps, ch, a);
      ChainKeepsRemote(j, steps[1..], ch, Do(j, steps[0], ch, a));
    }
  }

  /** A claim that is there and not terminating costs nobody a bucket. */
  lemma ProvisionKeepsRemote(c: Config, ch: Choices, w: World, stale: Vars, k: Key, faults: Faults)
    requires KeyedClaims(w) && LegalReconcile(c, ch, w, stale, k, faults) && StepsFor(w, k) == PROVISION
    ensures ReconcileKey(c, ch, w, stale, k, faults).world.remote == w.remote
  {
    ChainKeepsRemote(JobFor(c, k), PROVISION, ch, Call(Start(w, stale, k, faults)));
  }

  /** And one that is gone or terminating costs nobody else a bucket. */
  lemma CleanupKeepsOthers(c: Config, ch: Choices, w: World, stale: Vars, k: Key, faults: Faults, r: Key, owner: Key)
    requires KeyedClaims(w) && LegalReconcile(c, ch, w, stale, k, faults)
    requires ValidKey(k) && ValidKey(owner) && k != owner
    requires r in w.remote && w.remote[r].owner == CephUserFullId(c.clusterName, owner)
    ensures var w' := ReconcileKey(c, ch, w, stale, k, faults).world; r in w'.remote && w'.remote[r] == w.remote[r]
  {
    OtherClaimsUntouched(c, ch, w, stale, k, faults, owner, ReadClaim(w, owner).spec);
  }

  /** What is retained is retained only as long as the claim: a cleanup whose first
      step goes through removes every bucket of its user, retained or not. */
  lemma CleanupPurgesBuckets(j: Job, a: Attempt, r: Key)
    requires forall b | b in a.world.remote :: a.world.remote[b].owner in a.world.users
    requires !a.halted && r in a.world.remote && a.world.remote[r].owner == j.id
    ensures r in DoRemoveCephUser(j.id, a).world.remote <==> DoRemoveCephUser(j.id, a).halted
  {}

  // ---- a remote bucket survives --------------------------------------------

  /** The bucket is there, as the claim's user owns it. */
  ghost predicate Owned(c: Config, w: World, b: Key, owner: Key) {
    RemoteOf(c, b) in w.remote && w.remote[RemoteOf(c, b)].owner == CephUserFullId(c.clusterName, owner)
  }

  /** The S3Bucket, if it exists, does not ask for the removal of the data. */
  predicate Wanted(w: World, b: Key) {
    b in w.buckets ==> w.buckets[b].deletionPolicy == RETAIN || !w.buckets[b].deleting
  }

  /** The change is a cleanup of this claim. */
  predicate Purges(x: Change, w: World, owner: Key) {
    x.ClaimReconcile? && x.k == owner && StepsFor(w, owner) == CLEANUP
  }

  lemma ChangeKeepsBucket(c: Config, x: Change, w: World, w': World, b: Key, owner: Key)
    requires Changes(c, x, w, w') && ValidKey(b) && ValidKey(owner)
    requires Owned(c, w, b, owner) && Wanted(w, b) && !Purges(x, w, owner)
    ensures Owned(c, w', b, owner)
  {
    match x
    case ClaimReconcile(k, ch, stale, faults) =>
      if k != owner {
        CleanupKeepsOthers(c, ch, w, stale, k, faults, RemoteOf(c, b), owner);
      } else {
        ProvisionKeepsRemote(c, ch, w, stale, k, faults);
      }
    case BucketReconcile(k) =>
      if k in w.buckets && k != b {
        var r := RemoteOf(c, b);
        if RemoteOf(c, k) == r {
          RemoteInjective(c, k, b);
        }
        assert r in w.remote - {RemoteOf(c, k)} && r in w'.remote - {RemoteOf(c, k)};
      }
    case Elsewhere =>
  }

  /** In every run the remote bucket of an S3Bucket stays, under the same owner, as
      long as its object is not being deleted with another policy than retain and no
      cleanup of the owning claim runs; in particular it outlives a retained object. */
  lemma {:induction false} BucketSurvives(c: Config, ws: seq<World>, xs: seq<Change>, b: Key, owner: Key, i: nat)
    requires IsRun(c, ws, xs) && ValidKey(b) && ValidKey(owner) && i < |ws|
    requires Owned(c, ws[0], b, owner)
    requires forall n | 0 <= n < i :: Wanted(ws[n], b) && !Purges(xs[n], ws[n], owner)
    ensures Owned(c, ws[i], b, owner)
  {
    if i > 0 {
      BucketSurvives(c, ws, xs, b, owner, i - 1);
      ChangeKeepsBucket(c, xs[i - 1], ws[i - 1], ws[i], b, owner);
    }
  }

  /** While the object exists and its reference is guarded no cleanup of the claim it
      refers to can start, so nothing at all removes the data under it. */
  lemma DataOutlivesNoReference(c: Config, ws: seq<World>, xs: seq<Change>, b: Key, i: nat)
    requires IsRun(c, ws, xs) && ValidKey(b) && i < |ws|
    requires b in ws[0].buckets && IsSubdomain(ws[0].buckets[b].userRef)
    requires Owned(c, ws[0], b, Key(b.ns, ws[0].buckets[b].userRef))
    requires forall n | 0 <= n < i ::
               Admission.RefGuard(ws[n]) && Wanted(ws[n], b) && b in ws[n].buckets
               && ws[n].buckets[b].userRef == ws[0].buckets[b].userRef
    ensures Owned(c, ws[i], b, Key(b.ns, ws[0].buckets[b].userRef))
  {
    var owner := Key(b.ns, ws[0].buckets[b].userRef);
    forall n | 0 <= n < i ensures !Purges(xs[n], ws[n], owner) {
      assert Admission.Guarded(ws[n], b);
    }
    BucketSurvives(c, ws, xs, b, owner, i);
  }

  // ---- references under reconciles -----------------------------------------

  lemma {:induction false} ProvisionKeepsClaim(n: nat, j: Job, ch: Choices, a: Attempt)
    requires n <= 11 && (a.halted || (InSync(j, a) && !a.vars.claim.deleting)) && j.key in a.world.claims
    requires LegalChain(j, PROVISION[n..], ch, a)
    ensures j.key in Chain(j, PROVISION[n..], ch, a).world.claims
    decreases 11 - n
  {
    if n < 11 && !a.halted {
      Unroll(n, j, ch, a);
      StepMemory(j, PROVISION[n], ch, a);
      Orphans.ProvisionKeepsObjects(j, n, ch, a);
      ProvisionKeepsClaim(n + 1, j, ch, Do(j, PROVISION[n], ch, a));
    }
  }

  /** No reconcile, however it ends, breaks the reference to a claim that is not
      terminating. */
  lemma LiveReferenceStays(c: Config, ch: Choices, w: World, stale: Vars, k: Key, faults: Faults)
    requires KeyedClaims(w) && LegalReconcile(c, ch, w, stale, k, faults) && k in w.claims && !w.claims[k].deleting
    ensures k in ReconcileKey(c, ch, w, stale, k, faults).world.claims
  {
    assert PROVISION[0..] == PROVISION;
    ProvisionKeepsClaim(0, JobFor(c, k), ch, Call(Start(w, stale, k, faults)));
  }

  /** What an admitted bucket's reference is worth: after the next fault-free reconcile
      of the claim it still holds exactly if the claim was not terminating. */
  lemma LateBucketDangles(c: Config, ch: Choices, w: World, stale: Vars, b: Key, bucket: Bucket)
    requires KeyedClaims(w) && Admission.RefInv(w) && Webhook.AdmitsBucketCreate(w, b, bucket)
    requires var k := Key(b.ns, bucket.userRef);
             && k.name != "" && Key(k.ns, "") !in w.claims && w.claims[k].finalizers == {CLAIM_FINALIZER}
             && LegalReconcile(c, ch, w.(buckets := w.buckets[b := bucket]), stale, k, Never)
    ensures var k, w1 := Key(b.ns, bucket.userRef), w.(buckets := w.buckets[b := bucket]);
            var w' := ReconcileKey(c, ch, w1, stale, k, Never).world;
            && Admission.RefInv(w1) && b in w'.buckets && w'.buckets[b] == bucket
            && (Key(b.ns, bucket.userRef) in w'.claims <==> !w.claims[k].deleting)
  {
    var k, w1 := Key(b.ns, bucket.userRef), w.(buckets := w.buckets[b := bucket]);
    Admission.BucketCreateKeepsRefs(w, b, bucket);
    ReconcileTouches(c, ch, w1, stale, k, Never);
    if w.claims[k].deleting {
      Usage.CleanupConverges(c, ch, w1, stale, k);
    } else {
      LiveReferenceStays(c, ch, w1, stale, k, Never);
    }
  }

  // ---- nothing is left behind ----------------------------------------------

  /** An object with another policy than retain either still carries the finalizer or
      is on its way out with its remote bucket gone; without the object there is no
      remote bucket. */
  ghost predicate Accounted(c: Config, w: World, b: Key) {
    if b in w.buckets then
      && w.buckets[b].deletionPolicy != RETAIN
      && (BUCKET_FINALIZER in w.buckets[b].finalizers || (w.buckets[b].deleting && RemoteOf(c, b) !in w.remote))
    else RemoteOf(c, b) !in w.remote
  }

  /** The API server removes an object only once its finalizers are gone and never
      takes a deletion back; nobody else removes the finalizer, changes the policy
      to retain or creates the object anew. */
  ghost predicate LeavesObject(w: World, w': World, b: Key) {
    && (b !in w.buckets ==> b !in w'.buckets)
    && (b in w.buckets && BUCKET_FINALIZER in w.buckets[b].finalizers ==>
          b in w'.buckets && BUCKET_FINALIZER in w'.buckets[b].finalizers)
    && (b in w.buckets && b in w'.buckets ==>
          && (w.buckets[b].deleting ==> w'.buckets[b].deleting)
          && (w.buckets[b].deletionPolicy != RETAIN ==> w'.buckets[b].deletionPolicy != RETAIN))
  }

  lemma ChangeKeepsAccount(c: Config, x: Change, w: World, w': World, b: Key)
    requires Changes(c, x, w, w') && ValidKey(b) && Accounted(c, w, b)
    requires x.Elsewhere? ==> LeavesObject(w, w', b)
    ensures Accounted(c, w', b)
  {
    match x
    case ClaimReconcile(k, ch, stale, faults) => ReconcileTouches(c, ch, w, stale, k, faults);
    case BucketReconcile(k) =>
      if k in w.buckets && k != b {
        var r := RemoteOf(c, b);
        if RemoteOf(c, k) == r {
          RemoteInjective(c, k, b);
        }
        assert r in w.remote - {RemoteOf(c, k)} <==> r in w'.remote - {RemoteOf(c, k)};
        assert b in w.buckets - {k} <==> b in w'.buckets - {k};
        assert b in w.buckets ==> (w.buckets - {k})[b] == (w'.buckets - {k})[b];
      }
    case Elsewhere =>
  }

  /** However many attempts fail in between: once an S3Bucket with the finalizer and a
      policy other than retain is gone, so is its remote bucket. */
  lemma {:induction false} NothingLeftBehind(c: Config, ws: seq<World>, xs: seq<Change>, b: Key, i: nat)
    requires IsRun(c, ws, xs) && ValidKey(b) && i < |ws| && Accounted(c, ws[0], b)
    requires forall n | 0 <= n < i :: xs[n].Elsewhere? ==> LeavesObject(ws[n], ws[n + 1], b)
    ensures Accounted(c, ws[i], b)
    ensures b !in ws[i].buckets ==> RemoteOf(c, b) !in ws[i].remote
  {
    if i > 0 {
      NothingLeftBehind(c, ws, xs, b, i - 1);
      ChangeKeepsAccount(c, xs[i - 1], ws[i - 1], ws[i], b);
    }
  }

  /** The finalizer is what this hangs on, and it comes last: an attempt that ends
      after the bucket was created leaves an object that goes at once when deleted,
      and its remote bucket stays. */
  lemma LeftoverBeforeFinalizer(c: Config, b: Key, bucket: Bucket, w: World)
    requires b in w.buckets && w.buckets[b] == bucket && bucket.finalizers == {} && !bucket.deleting
    requires RemoteOf(c, b) !in w.remote
    ensures var w1 := JustCreated(BucketJobFor(c.clusterName, b, bucket.userRef), w);
            && w1.buckets == w.buckets && ReconcilesBucket(c.clusterName, b, w, w1)
            && !Accounted(c, w1.(buckets := w1.buckets - {b}), b)
  {
    var j := BucketJobFor(c.clusterName, b, bucket.userRef);
    assert Provisions(j, bucket, w, JustCreated(j, w));
  }

  // ---- what a bucket's users get -------------------------------------------

  /** The two words of the deletion policy: "retain" never costs the remote bucket, and
      under "delete" the object does not go while the remote bucket is there. */
  lemma DeletionPolicyWords(j: BucketJob, b: Bucket, w: World, w': World)
    requires CleansUp(j, b, w, w')
    ensures b.deletionPolicy == "retain" ==> w'.remote == w.remote
    ensures b.deletionPolicy == "delete" && j.key !in w'.buckets ==> j.remote !in w'.remote
    ensures b.deletionPolicy == "delete" && CleanedUp(j, b, w') ==> j.remote !in w'.remote
  {}

  /** The credentials the bucket controller reads are those of the referred user: for a
      converged claim, the secret holds the first key of the very Ceph user that it
      acts as. */
  lemma CredentialsAreTheUsers(c: Config, w: World, b: Key)
    requires b in w.buckets && Converged(JobFor(c, Key(b.ns, w.buckets[b].userRef)), w)
    ensures var claim, user := Key(b.ns, w.buckets[b].userRef), BucketJobFor(c.clusterName, b, w.buckets[b].userRef).user;
            && CredentialsReadable(w, b) && user in w.users
            && FirstKey(w.users[user].keys, user, w.secrets[Key(b.ns, w.claims[claim].spec.adminSecret)].data)
  {}

  /** End to end over both controllers: once an S3Bucket has been provisioned, its remote
      bucket carries a policy that grants a Ceph subuser of the referred claim an action
      exactly on this bucket and its objects, and exactly what the last binding that
      names the subuser gives; and if the claim has converged, the subusers it lists are
      there to use it. */
  lemma ProvisionedGrants(c: Config, k: Key, b: Bucket, w: World, s: string, action: string, r: Resource)
    requires Provisioned(BucketJobFor(c.clusterName, k, b.userRef), b, w)
    requires ':' !in c.clusterName && ValidKey(Key(k.ns, b.userRef)) && IsSubdomain(k.name) && ':' !in s
    requires ProperNames(r.tenant, r.bucket)
    ensures var here, claim := Key(CephTenant(c.clusterName, k.ns), k.name), Key(k.ns, b.userRef);
            var id := CephUserFullId(c.clusterName, claim);
            && here in w.remote && w.remote[here].policy.Some?
            && (Grants(w.remote[here].policy.value, id + ":" + s, action, Arn(r))
                <==> r.tenant == here.ns && r.bucket == here.name
                     && exists i :: IsLastFor(b.bindings, s, i) && Gives(b.bindings[i].access, action))
            && (Converged(JobFor(c, claim), w) && s in w.claims[claim].spec.subusers ==>
                  id in w.users && id + ":" + s in w.users[id].subusers)
  {
    var here, claim := Key(CephTenant(c.clusterName, k.ns), k.name), Key(k.ns, b.userRef);
    assert forall x | 0 <= x < |k.name| :: LabelChar(k.name[x]) || k.name[x] == '.';
    GrantsMeaning(w.remote[here].policy.value, b.bindings, c.clusterName, claim, k.name, s, action, r);
  }
}
