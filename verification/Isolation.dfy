/** What a reconcile of one claim can touch, and that it therefore leaves every
    other claim alone. */
module Isolation {
  import opened Naming
  import opened Quotas
  import opened Store
  import opened Subusers
  import opened Reconcile

  /** The secrets a claim with this spec writes or deletes. */
  ghost predicate InFootprint(k: Key, spec: ClaimSpec, s: Key) {
    s.ns == k.ns
    && (s.name == spec.adminSecret || s.name == spec.readonlySecret || k.name + "-" <= s.name)
  }

  /** Everything outside the reach of claim k is the same in both worlds. */
  ghost predicate OnlyTouches(j: Job, spec: ClaimSpec, w: World, w': World) {
    && w.users - {j.id} == w'.users - {j.id}
    && w.claims - {j.key} == w'.claims - {j.key}
    && w.s3users - {j.s3UserName} == w'.s3users - {j.s3UserName}
    && SecretsKept(j.key, spec, w, w')
    && QuotasKept(j.key.ns, w, w')
    && RemoteKept(j.id, w, w')
    && w.namespaces == w'.namespaces && w.clusterQuotas == w'.clusterQuotas && w.buckets == w'.buckets
  }

  ghost predicate SecretsKept(k: Key, spec: ClaimSpec, w: World, w': World) {
    forall s: Key | !InFootprint(k, spec, s) ::
      (s in w.secrets <==> s in w'.secrets) && (s in w.secrets ==> w.secrets[s] == w'.secrets[s])
  }

  ghost predicate QuotasKept(ns: string, w: World, w': World) {
    && w.quotas.Keys == w'.quotas.Keys
    && forall q | q in w.quotas ::
         && w.quotas[q].hard == w'.quotas[q].hard && (q.ns != ns ==> w.quotas[q] == w'.quotas[q])
         && OtherResourcesKept(w.quotas[q].used, w'.quotas[q].used)
  }

  /** The usage of every resource but the operator's own three is the same. */
  ghost predicate OtherResourcesKept(used: map<string, int>, used': map<string, int>) {
    forall r | r !in {"s3/objects", "s3/size", "s3/buckets"} ::
      (r in used <==> r in used') && (r in used ==> used[r] == used'[r])
  }

  /** Only buckets of the user itself can go away, and none appear or change. */
  ghost predicate RemoteKept(id: string, w: World, w': World) {
    && (forall b | b in w'.remote :: b in w.remote && w'.remote[b] == w.remote[b])
    && (forall b | b in w.remote && w.remote[b].owner != id :: b in w'.remote)
  }

  /** The memory of a reconcile of k: a claim that was read is claim k, and one
      that was not found has no finalizer to remove. */
  predicate About(j: Job, step: Step, a: Attempt) {
    a.vars.claim.key == j.key || (a.vars.claim == ZERO_CLAIM && step in CLEANUP)
  }

  lemma SecretsKeptTrans(k: Key, spec: ClaimSpec, w: World, w': World, w'': World)
    requires SecretsKept(k, spec, w, w') && SecretsKept(k, spec, w', w'')
    ensures SecretsKept(k, spec, w, w'')
  {}

  /** A Ceph user, a secret and the counters: all that syncing and storing
      credentials can change. */
  ghost predicate OnlyUserAndSecrets(j: Job, w: World, w': World) {
    && w' == w.(users := w'.users, secrets := w'.secrets, nextKey := w'.nextKey, rev := w'.rev)
    && w.users - {j.id} == w'.users - {j.id}
  }

  lemma RemovalTouches(j: Job, name: string, a: Attempt)
    requires a.vars.claim.key == j.key
    ensures var b := DoRemoveSubuserAndSecret(j.id, name, a);
            && b.vars == a.vars && OnlyUserAndSecrets(j, a.world, b.world)
            && SecretsKept(j.key, a.vars.claim.spec, a.world, b.world)
  {
    var b, k := DoRemoveSubuserAndSecret(j.id, name, a), j.key;
    var extracted := ExtractSubuserName(name);
    if extracted.None? {
      assert b.world.secrets == a.world.secrets;
    } else {
      var s := SubuserSecretKey(a.vars.claim, extracted.value);
      assert b.world.secrets == a.world.secrets || b.world.secrets == a.world.secrets - {s};
      assert InFootprint(j.key, a.vars.claim.spec, s);
    }
  }

  lemma SyncOneTouches(j: Job, name: string, tag: Tag, a: Attempt)
    requires a.vars.claim.key == j.key
    ensures var b := SyncOne(j.id, name, tag, a);
            && b.vars == a.vars && OnlyUserAndSecrets(j, a.world, b.world)
            && SecretsKept(j.key, a.vars.claim.spec, a.world, b.world)
  {
    if tag == Remove {
      RemovalTouches(j, name, a);
    }
  }

  lemma {:induction false} SyncTouches(j: Job, order: seq<string>, tags: map<string, Tag>, a: Attempt)
    requires a.vars.claim.key == j.key
    ensures var b := SyncAll(j.id, order, tags, a);
            && b.vars == a.vars && OnlyUserAndSecrets(j, a.world, b.world)
            && SecretsKept(j.key, a.vars.claim.spec, a.world, b.world)
  {
    if order != [] {
      SyncTouches(j, order[..|order| - 1], tags, a);
      var b, name := SyncAll(j.id, order[..|order| - 1], tags, a), order[|order| - 1];
      if !b.halted && name in tags {
        SyncOneTouches(j, name, tags[name], b);
        SecretsKeptTrans(j.key, a.vars.claim.spec, a.world, b.world, SyncOne(j.id, name, tags[name], b).world);
      }
    }
  }

  /** Storing a secret writes at most that secret, as the claim's own, and leaves the
      memory alone. */
  ghost predicate OnlySecretEntry(key: Key, a: Attempt, b: Attempt) {
    && b.vars == a.vars && b.leaked == a.leaked
    && (b.world == a.world
        || (key in b.world.secrets && b.world.secrets[key].controller == Some(OwnerOf(a.vars.claim))
            && b.world == PutSecret(a.world, key, b.world.secrets[key])))
  }

  lemma StoreEntry(key: Key, wanted: Secret, a: Attempt)
    requires wanted.controller == Some(OwnerOf(a.vars.claim))
    ensures OnlySecretEntry(key, a, StoreSecret(key, wanted, a))
  {
    var a1 := Call(a);
    if !a1.halted && StoreSecret(key, wanted, a).world != a1.world {
      var a2 := Call(a1);
      assert StoreSecret(key, wanted, a) == a2.(world := PutSecret(a2.world, key, wanted));
    }
  }

  lemma EnsureSecretEntry(d: Demand, a: Attempt)
    ensures OnlySecretEntry(Key(a.vars.claim.key.ns, d.secret), a, EnsureSecret(d, a))
  {
    var credential := KeyFor(a.vars.cephUser.keys, d.cephName);
    if credential.Some? {
      StoreEntry(Key(a.vars.claim.key.ns, d.secret), Secret(credential.value, Some(OwnerOf(a.vars.claim))), a);
    }
  }

  /** Only secrets and the revision differ. */
  ghost predicate OnlySecrets(a: Attempt, b: Attempt) {
    b.vars == a.vars && b.leaked == a.leaked && b.world == a.world.(secrets := b.world.secrets, rev := b.world.rev)
  }

  lemma EnsureSecretTouches(j: Job, d: Demand, a: Attempt)
    requires a.vars.claim.key == j.key
    requires InFootprint(j.key, a.vars.claim.spec, Key(j.key.ns, d.secret))
    ensures var b := EnsureSecret(d, a);
            OnlySecrets(a, b) && SecretsKept(j.key, a.vars.claim.spec, a.world, b.world)
  {
    EnsureSecretEntry(d, a);
  }

  lemma {:induction false} SecretsTouch(j: Job, subusers: seq<string>, a: Attempt)
    requires a.vars.claim.key == j.key
    ensures var b := EnsureSubuserSecrets(j.id, subusers, a);
            OnlySecrets(a, b) && SecretsKept(j.key, a.vars.claim.spec, a.world, b.world)
  {
    if subusers != [] {
      var n := |subusers| - 1;
      SecretsTouch(j, subusers[..n], a);
      var b := EnsureSubuserSecrets(j.id, subusers[..n], a);
      if !b.halted {
        var d := SubuserDemand(j.id, b.vars.claim.key.name, subusers[n]);
        EnsureSecretTouches(j, d, b);
        SecretsKeptTrans(j.key, a.vars.claim.spec, a.world, b.world, EnsureSecret(d, b).world);
      }
    }
  }

  /** Only the usage in one namespace differs. */
  ghost predicate OnlyUsage(ns: string, a: Attempt, b: Attempt) {
    && QuotasKept(ns, a.world, b.world)
    && b.vars == a.vars && b.world == a.world.(quotas := b.world.quotas, rev := b.world.rev)
  }

  lemma PublishOneTouches(k: Key, total: Quota, a: Attempt)
    ensures OnlyUsage(k.ns, a, PublishOne(k, total, a))
  {
    var b := PublishOne(k, total, a);
    assert b.world == a.world || (k in a.world.quotas && b.world == PutUsed(a.world, k, Assigned(a.world.quotas[k].used, total)));
  }

  lemma {:induction false} PublishTouches(order: seq<Key>, total: Quota, ns: string, a: Attempt)
    requires forall k | k in order :: k.ns == ns
    ensures OnlyUsage(ns, a, Publish(order, total, a))
  {
    if order != [] {
      var b := Publish(order[..|order| - 1], total, a);
      PublishTouches(order[..|order| - 1], total, ns, a);
      if !b.halted {
        PublishOneTouches(order[|order| - 1], total, b);
      }
    }
  }

  /** One step of a reconcile of a claim, whatever calls fail. */
  lemma StepTouches(j: Job, step: Step, ch: Choices, a: Attempt)
    requires About(j, step, a) && Legal(j, step, ch, a)
    ensures OnlyTouches(j, a.vars.claim.spec, a.world, Do(j, step, ch, a).world)
  {
    var spec := a.vars.claim.spec;
    match step
    case UpdateQuotaInclusive => QuotaStepTouches(j, ch.quotas, true, a);
    case UpdateQuotaExclusive => QuotaStepTouches(j, ch.quotas, false, a);
    case EnsureS3User => S3UserStepsTouch(j, a);
    case RemoveS3User => S3UserStepsTouch(j, a);
    case UpdateClaimStatus => StatusStepTouches(j, a);
    case AddFinalizer => AddFinalizerTouches(j, a);
    case RemoveFinalizer => RemoveFinalizerTouches(j, a);
    case _ => CredentialStepTouches(j, step, ch, a);
  }

  /** The steps that work on the Ceph user and on secrets. */
  predicate OnCredentials(step: Step) {
    step in {EnsureCephUser, EnsureCephUserQuota, SyncSubusers, RetrieveCephUser,
             EnsureAdminSecret, EnsureReadonlySecret, EnsureOtherSecrets, RemoveCephUser}
  }

  lemma CredentialStepTouches(j: Job, step: Step, ch: Choices, a: Attempt)
    requires OnCredentials(step) && About(j, step, a)
    ensures OnlyTouches(j, a.vars.claim.spec, a.world, Do(j, step, ch, a).world)
  {
    var spec := a.vars.claim.spec;
    match step
    case EnsureCephUser => EnsureUserTouches(j, a);
    case EnsureCephUserQuota => EnsureQuotaTouches(j, a);
    case RetrieveCephUser =>
    case RemoveCephUser => RemoveUserTouches(j, a);
    case SyncSubusers => SyncTouches(j, ch.subusers, Tags(j.id, a), a);
    case EnsureOtherSecrets => SecretsTouch(j, a.vars.desired, a);
    case EnsureAdminSecret => EnsureSecretTouches(j, AdminDemand(j.id, spec), a);
    case EnsureReadonlySecret => EnsureSecretTouches(j, ReadonlyDemand(j.id, spec), a);
  }

  /** Only the named Ceph user and its buckets differ. */
  ghost predicate OnlyUser(j: Job, w: World, w': World) {
    && w' == w.(users := w'.users, remote := w'.remote, nextKey := w'.nextKey)
    && w.users - {j.id} == w'.users - {j.id} && RemoteKept(j.id, w, w')
  }

  /** Only the named Ceph user differs: at most one entry was written. */
  ghost predicate OnlyUserEntry(id: string, w: World, w': World) {
    w' == w || (id in w'.users && w' == w.(users := w.users[id := w'.users[id]], nextKey := w'.nextKey))
  }

  lemma OneUserEntry(j: Job, w: World, w': World)
    requires OnlyUserEntry(j.id, w, w')
    ensures OnlyUser(j, w, w') && w'.remote == w.remote
  {}

  lemma EntryWritten(w: World, id: string, u: CephUser, next: nat)
    ensures OnlyUserEntry(id, w, w.(users := w.users[id := u], nextKey := next))
  {}

  lemma CreateOrModifyEntry(w: World, id: string, display: string, buckets: int)
    ensures OnlyUserEntry(id, w, CreateOrModify(w, id, display, buckets))
  {
    if id in w.users {
      EntryWritten(w, id, w.users[id].(displayName := display, maxBuckets := buckets), w.nextKey);
    } else {
      EntryWritten(w, id, CephUser(display, buckets, NO_QUOTA, [], [CephKey(id, w.nextKey)]), w.nextKey + 1);
    }
  }

  lemma EnsureUserEntry(j: Job, a: Attempt)
    ensures var b := DoEnsureCephUser(j, a); OnlyUserEntry(j.id, a.world, b.world) && b.vars.claim == a.vars.claim
  {
    var a2 := Call(Call(a));
    CreateOrModifyEntry(a2.world, j.id, j.display, a2.vars.claim.spec.quota.buckets);
  }

  lemma EnsureQuotaEntry(id: string, a: Attempt)
    ensures var b := DoEnsureCephUserQuota(id, a); OnlyUserEntry(id, a.world, b.world) && b.vars.claim == a.vars.claim
  {}

  lemma EnsureUserTouches(j: Job, a: Attempt)
    ensures var b := DoEnsureCephUser(j, a); OnlyUser(j, a.world, b.world) && b.vars.claim == a.vars.claim
  {
    EnsureUserEntry(j, a);
    OneUserEntry(j, a.world, DoEnsureCephUser(j, a).world);
  }

  lemma EnsureQuotaTouches(j: Job, a: Attempt)
    ensures var b := DoEnsureCephUserQuota(j.id, a); OnlyUser(j, a.world, b.world) && b.vars.claim == a.vars.claim
  {
    EnsureQuotaEntry(j.id, a);
    OneUserEntry(j, a.world, DoEnsureCephUserQuota(j.id, a).world);
  }

  lemma RemoveUserTouches(j: Job, a: Attempt)
    ensures OnlyUser(j, a.world, DoRemoveCephUser(j.id, a).world) && DoRemoveCephUser(j.id, a).vars.claim == a.vars.claim
  {}

  /** Only the claim and the S3User differ. */
  ghost predicate OnlyObjects(j: Job, w: World, w': World) {
    && w' == w.(claims := w'.claims, s3users := w'.s3users, rev := w'.rev)
    && w.claims - {j.key} == w'.claims - {j.key}
    && w.s3users - {j.s3UserName} == w'.s3users - {j.s3UserName}
  }

  lemma EnsureS3UserEnds(j: Job, a: Attempt)
    ensures var b := DoEnsureS3User(j, a);
            && b.vars == a.vars && b.leaked == a.leaked && (a.faults == Never && !a.halted ==> !b.halted && b.faults == Never)
            && (b.world == a.world || b.world == PutS3User(a.world, j.s3UserName, DesiredS3User(j, a.vars.claim)))
            && (!b.halted ==> j.s3UserName in b.world.s3users
                              && b.world.s3users[j.s3UserName] == DesiredS3User(j, a.vars.claim))
  {}

  lemma S3UserStepsTouch(j: Job, a: Attempt)
    ensures var b := DoEnsureS3User(j, a);
            OnlyObjects(j, a.world, b.world) && b.vars == a.vars && b.world.claims == a.world.claims
    ensures var b := DoRemoveS3User(j.s3UserName, a);
            OnlyObjects(j, a.world, b.world) && b.vars == a.vars && b.world.claims == a.world.claims
  {}

  /** The status step writes the status, in memory first, or nothing. */
  ghost predicate StatusEnd(name: string, a: Attempt, b: Attempt) {
    var claim := a.vars.claim.(status := DesiredStatus(name, a));
    || b == a
    || (b.world == a.world && b.halted && b.vars == a.vars.(claim := claim) && b.leaked == a.leaked)
    || (!b.halted && Current(a.world, claim) && b.world == PutClaimStatus(a.world, claim)
        && b.vars == a.vars.(claim := b.world.claims[claim.key]) && b.leaked == a.leaked
        && (a.faults == Never ==> b.faults == Never))
  }

  lemma StatusStepEnds(name: string, a: Attempt)
    ensures StatusEnd(name, a, DoUpdateClaimStatus(name, a))
  {
    if a.vars.claim.status != DesiredStatus(name, a) {
      var claim := a.vars.claim.(status := DesiredStatus(name, a));
      var a2 := Call(a.(vars := a.vars.(claim := claim)));
      assert a2.vars.claim == claim && a2.world == a.world;
    }
  }

  lemma StatusStepTouches(j: Job, a: Attempt)
    requires a.vars.claim.key == j.key
    ensures OnlyObjects(j, a.world, DoUpdateClaimStatus(j.s3UserName, a).world)
    ensures InSync(j, a) ==>
              var b := DoUpdateClaimStatus(j.s3UserName, a);
              && b.vars.claim.spec == a.vars.claim.spec && b.vars.claim.deleting == a.vars.claim.deleting
              && (!b.halted ==> InSync(j, b))
  {
    StatusStepEnds(j.s3UserName, a);
  }

  lemma WriteClaimTouches(j: Job, claim: Claim, a: Attempt)
    requires claim.key == j.key
    ensures OnlyObjects(j, a.world, WriteClaim(claim, a).world)
  {}

  lemma AddFinalizerTouches(j: Job, a: Attempt)
    requires a.vars.claim.key == j.key
    ensures OnlyObjects(j, a.world, DoAddFinalizer(a).world)
  {
    var claim := a.vars.claim;
    WriteClaimTouches(j, claim.(finalizers := claim.finalizers + {CLAIM_FINALIZER}), a);
  }

  lemma RemoveFinalizerTouches(j: Job, a: Attempt)
    requires a.vars.claim.key == j.key || a.vars.claim == ZERO_CLAIM
    ensures OnlyObjects(j, a.world, DoRemoveFinalizer(a).world)
  {
    var claim := a.vars.claim;
    if claim.key == j.key {
      WriteClaimTouches(j, claim.(finalizers := claim.finalizers - {CLAIM_FINALIZER}), a);
    }
  }

  lemma QuotaStepTouches(j: Job, order: seq<Key>, inclusive: bool, a: Attempt)
    requires Enumerates(order, QuotasIn(a.world, j.key.ns))
    ensures var b := DoUpdateQuota(j.key.ns, order, inclusive, a);
            && QuotasKept(j.key.ns, a.world, b.world)
            && b.vars.(used := a.vars.used) == a.vars
            && b.world == a.world.(quotas := b.world.quotas, rev := b.world.rev)
  {
    if !Call(a).halted {
      var a1 := Call(a);
      var a2 := Call(a1.(vars := a1.vars.(used := NamespaceUsed(a1.world, a1.vars.claim, j.key.ns, inclusive))));
      PublishTouches(order, a2.vars.used, j.key.ns, a2);
    }
  }

  // ---- a whole reconcile ---------------------------------------------------

  /** The claim in memory is the claim as stored. */
  ghost predicate InSync(j: Job, a: Attempt) {
    a.vars.claim.key == j.key && j.key in a.world.claims && a.world.claims[j.key] == a.vars.claim
  }

  lemma WriteClaimMemory(j: Job, claim: Claim, a: Attempt)
    requires InSync(j, a) && claim == a.vars.claim.(finalizers := claim.finalizers)
    ensures var b := WriteClaim(claim, a);
            && b.vars.claim.spec == a.vars.claim.spec && b.vars.claim.deleting == a.vars.claim.deleting
            && (!b.halted && !claim.deleting ==> InSync(j, b))
            && b.world == (if b.halted then a.world else PutClaim(a.world, claim))
            && b.leaked == a.leaked && (a.faults == Never && !a.halted ==> !b.halted && b.faults == Never)
            && b.vars == a.vars.(claim := b.vars.claim)
  {}

  /** Whatever happens the claim in memory keeps its spec, and up to the removal of
      the finalizer it stays what is stored. */
  lemma StepMemory(j: Job, step: Step, ch: Choices, a: Attempt)
    requires InSync(j, a) && Legal(j, step, ch, a)
    requires step == AddFinalizer ==> !a.vars.claim.deleting
    ensures var b := Do(j, step, ch, a);
            && b.vars.claim.spec == a.vars.claim.spec && b.vars.claim.deleting == a.vars.claim.deleting
            && (!b.halted && step != RemoveFinalizer ==> InSync(j, b))
  {
    var claim := a.vars.claim;
    match step
    case EnsureCephUser => EnsureUserTouches(j, a);
    case EnsureCephUserQuota => EnsureQuotaTouches(j, a);
    case RetrieveCephUser =>
    case RemoveCephUser => RemoveUserTouches(j, a);
    case SyncSubusers => SyncTouches(j, ch.subusers, Tags(j.id, a), a);
    case EnsureOtherSecrets => SecretsTouch(j, a.vars.desired, a);
    case EnsureAdminSecret => EnsureSecretTouches(j, AdminDemand(j.id, claim.spec), a);
    case EnsureReadonlySecret => EnsureSecretTouches(j, ReadonlyDemand(j.id, claim.spec), a);
    case UpdateQuotaInclusive => QuotaStepTouches(j, ch.quotas, true, a);
    case UpdateQuotaExclusive => QuotaStepTouches(j, ch.quotas, false, a);
    case EnsureS3User => S3UserStepsTouch(j, a);
    case RemoveS3User => S3UserStepsTouch(j, a);
    case UpdateClaimStatus => StatusStepTouches(j, a);
    case AddFinalizer =>
      if CLAIM_FINALIZER !in claim.finalizers {
        WriteClaimMemory(j, claim.(finalizers := claim.finalizers + {CLAIM_FINALIZER}), a);
      }
    case RemoveFinalizer =>
      if CLAIM_FINALIZER in claim.finalizers {
        WriteClaimMemory(j, claim.(finalizers := claim.finalizers - {CLAIM_FINALIZER}), a);
      }
  }

  /** A chain for a claim that is in memory as stored, or for no claim at all. */
  ghost predicate ChainReady(j: Job, steps: seq<Step>, a: Attempt) {
    && (InSync(j, a) || (a.vars.claim == ZERO_CLAIM && forall s | s in steps :: s in CLEANUP))
    && (AddFinalizer in steps ==> !a.vars.claim.deleting)
    && (RemoveFinalizer in steps ==> steps[|steps| - 1] == RemoveFinalizer && RemoveFinalizer !in steps[..|steps| - 1])
  }

  lemma {:induction false} ChainTouches(j: Job, steps: seq<Step>, ch: Choices, a: Attempt)
    requires a.halted || steps == [] || ChainReady(j, steps, a)
    requires LegalChain(j, steps, ch, a)
    ensures OnlyTouches(j, a.vars.claim.spec, a.world, Chain(j, steps, ch, a).world)
    decreases |steps|
  {
    if steps != [] && !a.halted {
      var b, rest := Do(j, steps[0], ch, a), steps[1..];
      StepTouches(j, steps[0], ch, a);
      NextReady(j, steps, ch, a);
      ChainTouches(j, rest, ch, b);
      SecretsKeptTrans(j.key, a.vars.claim.spec, a.world, b.world, Chain(j, rest, ch, b).world);
    }
  }

  lemma ZeroClaimMemory(j: Job, step: Step, ch: Choices, a: Attempt)
    requires a.vars.claim == ZERO_CLAIM && step in CLEANUP && Legal(j, step, ch, a)
    ensures Do(j, step, ch, a).vars.claim == ZERO_CLAIM
  {
    match step
    case RemoveCephUser => RemoveUserTouches(j, a);
    case RemoveS3User => S3UserStepsTouch(j, a);
    case UpdateQuotaExclusive => QuotaStepTouches(j, ch.quotas, false, a);
    case RemoveFinalizer =>
  }

  lemma NextReady(j: Job, steps: seq<Step>, ch: Choices, a: Attempt)
    requires steps != [] && ChainReady(j, steps, a) && Legal(j, steps[0], ch, a)
    ensures var b := Do(j, steps[0], ch, a);
            && b.vars.claim.spec == a.vars.claim.spec
            && (b.halted || steps[1..] == [] || ChainReady(j, steps[1..], b))
  {
    var step, rest := steps[0], steps[1..];
    if InSync(j, a) {
      StepMemory(j, step, ch, a);
    } else {
      ZeroClaimMemory(j, step, ch, a);
    }
    if rest != [] && RemoveFinalizer in rest {
      assert rest[..|rest| - 1] == steps[..|steps| - 1][1..];
    }
  }

  /** Reads are keyed: what is stored under a name carries that name. */
  ghost predicate KeyedClaims(w: World) {
    forall k | k in w.claims :: w.claims[k].key == k
  }

  lemma ReconcileTouches(c: Config, ch: Choices, w: World, stale: Vars, k: Key, faults: Faults)
    requires KeyedClaims(w) && LegalReconcile(c, ch, w, stale, k, faults)
    ensures OnlyTouches(JobFor(c, k), ReadClaim(w, k).spec, w, ReconcileKey(c, ch, w, stale, k, faults).world)
  {
    ChainTouches(JobFor(c, k), StepsFor(w, k), ch, Call(Start(w, stale, k, faults)));
  }

  /** Non-interference: a reconcile of one claim, however it ends, leaves the Ceph
      user, the buckets, the S3User, the object and (unless both live in the same
      namespace and their footprints meet) the secrets of every other claim alone. */
  lemma OtherClaimsUntouched(
    c: Config, ch: Choices, w: World, stale: Vars, k: Key, faults: Faults, k': Key, spec': ClaimSpec)
    requires KeyedClaims(w) && LegalReconcile(c, ch, w, stale, k, faults)
    requires ValidKey(k) && ValidKey(k') && k != k'
    ensures
      var w', id' := ReconcileKey(c, ch, w, stale, k, faults).world, CephUserFullId(c.clusterName, k');
      && (id' in w'.users <==> id' in w.users) && (id' in w.users ==> w'.users[id'] == w.users[id'])
      && (forall b | b in w.remote && w.remote[b].owner == id' :: b in w'.remote && w'.remote[b] == w.remote[b])
      && (S3UserName(k') in w'.s3users <==> S3UserName(k') in w.s3users)
      && (S3UserName(k') in w.s3users ==> w'.s3users[S3UserName(k')] == w.s3users[S3UserName(k')])
      && (k' in w'.claims <==> k' in w.claims) && (k' in w.claims ==> w'.claims[k'] == w.claims[k'])
      && (Separate(k, ReadClaim(w, k).spec, k', spec') ==>
            forall s: Key | InFootprint(k', spec', s) ::
              (s in w.secrets <==> s in w'.secrets) && (s in w.secrets ==> w.secrets[s] == w'.secrets[s]))
  {
    var j, w' := JobFor(c, k), ReconcileKey(c, ch, w, stale, k, faults).world;
    ReconcileTouches(c, ch, w, stale, k, faults);
    var id' := CephUserFullId(c.clusterName, k');
    if id' == j.id {
      FullIdInjective(c.clusterName, k, k');
    }
    if S3UserName(k') == j.s3UserName {
      S3UserNameInjective(k, k');
    }
    assert id' in w.users - {j.id} <==> id' in w'.users - {j.id};
    assert k' in w.claims - {k} <==> k' in w'.claims - {k};
    assert S3UserName(k') in w.s3users - {j.s3UserName} <==> S3UserName(k') in w'.s3users - {j.s3UserName};
    if Separate(k, ReadClaim(w, k).spec, k', spec') {
      forall s: Key | InFootprint(k', spec', s) ensures !InFootprint(k, ReadClaim(w, k).spec, s) {
        SeparateFootprints(k, ReadClaim(w, k).spec, k', spec');
      }
    }
  }

  /** No secret name can be used by both claims. */
  ghost predicate Separate(k: Key, spec: ClaimSpec, k': Key, spec': ClaimSpec) {
    var own, own' := {spec.adminSecret, spec.readonlySecret}, {spec'.adminSecret, spec'.readonlySecret};
    k.ns == k'.ns ==>
      && own !! own'
      && (forall n | n in own :: !(k'.name + "-" <= n)) && (forall n | n in own' :: !(k.name + "-" <= n))
      && k.name != k'.name && !(k.name + "-" <= k'.name + "-") && !(k'.name + "-" <= k.name + "-")
  }

  lemma SeparateFootprints(k: Key, spec: ClaimSpec, k': Key, spec': ClaimSpec)
    ensures Separate(k, spec, k', spec') <==> !exists s: Key :: InFootprint(k, spec, s) && InFootprint(k', spec', s)
  {
    if Separate(k, spec, k', spec') {
      forall s: Key | InFootprint(k, spec, s) ensures !InFootprint(k', spec', s) {
      }
    } else {
      var own, own' := {spec.adminSecret, spec.readonlySecret}, {spec'.adminSecret, spec'.readonlySecret};
      var n :=
        if n :| n in own && (n in own' || k'.name + "-" <= n) then n
        else if n :| n in own' && k.name + "-" <= n then n
        else if k.name + "-" <= k'.name + "-" then k'.name + "-" else k.name + "-";
      assert InFootprint(k, spec, Key(k.ns, n)) && InFootprint(k', spec', Key(k.ns, n));
    }
  }
}
