/** Crash convergence: whatever a claim's reconciles have left behind, one
    fault-free Provision reaches the state that the claim's spec demands. */
module Convergence {
  import opened Naming
  import opened Quotas
  import opened Store
  import opened Accounting
  import opened Subusers
  import opened Reconcile
  import opened Isolation
  import S = Sync

  // ---- what a converged claim looks like -----------------------------------
  // Written out on the objects themselves, without the functions that the steps use.

  predicate UserRight(j: Job, u: CephUser, spec: ClaimSpec) {
    u.displayName == j.display && u.maxBuckets == spec.quota.buckets
  }

  /** Ceph lists "readonly" and the subusers of the spec, and no others. */
  ghost predicate SubusersAre(id: string, subusers: seq<string>, desired: seq<string>) {
    forall name: string ::
      name in subusers <==> name == id + ":readonly" || exists s :: s in desired && name == id + ":" + s
  }

  /** The secret exists, is controlled by the claim and holds the first key that the
      Ceph name has. */
  ghost predicate Holds(secrets: map<Key, Secret>, s: Key, uid: nat, keys: seq<CephKey>, cephName: string) {
    s in secrets && ControlledBy(secrets[s], uid) && FirstKey(keys, cephName, secrets[s].data)
  }

  /** The admin secret holds the key of the user itself, the readonly secret the key of
      its readonly subuser, and "<claim>-<subuser>" the key of each listed subuser. */
  ghost predicate CredentialsRight(j: Job, keys: seq<CephKey>, secrets: map<Key, Secret>, uid: nat, spec: ClaimSpec) {
    && Holds(secrets, Key(j.key.ns, spec.adminSecret), uid, keys, j.id)
    && Holds(secrets, Key(j.key.ns, spec.readonlySecret), uid, keys, j.id + ":readonly")
    && forall s | s in spec.subusers :: Holds(secrets, Key(j.key.ns, j.key.name + "-" + s), uid, keys, j.id + ":" + s)
  }

  /** The S3User, up to the resource version of the claim it was made from. */
  ghost predicate S3UserRight(j: Job, s3users: map<string, S3User>, uid: nat, spec: ClaimSpec) {
    && j.s3UserName in s3users
    && var u := s3users[j.s3UserName];
       && u.s3UserClass == j.s3UserClass && u.quota == spec.quota
       && u.claimRef.Some? && u.claimRef.value.key == j.key && u.claimRef.value.uid == uid
  }

  ghost predicate StatusRight(j: Job, status: ClaimStatus, spec: ClaimSpec) {
    status == ClaimStatus(Some(spec.quota), j.s3UserName, spec.subusers)
  }

  /** Every ResourceQuota of the namespace shows the total of its claims. */
  ghost predicate UsageRight(ns: string, quotas: map<Key, ResourceQuota>, claims: map<Key, Claim>) {
    forall q | q in quotas && q.ns == ns :: Shows(quotas[q].used, Wrap(TotalIn(claims, {ns})))
  }

  /** Objects and size as they are, and buckets as a quantity. */
  predicate Shows(used: map<string, int>, total: Quota) {
    && "s3/objects" in used && used["s3/objects"] == total.objects
    && "s3/size" in used && used["s3/size"] == total.size
    && "s3/buckets" in used && used["s3/buckets"] == total.buckets * NANO
  }

  ghost predicate Converged(j: Job, w: World) {
    && j.key in w.claims && j.id in w.users
    && var claim, spec, u := w.claims[j.key], w.claims[j.key].spec, w.users[j.id];
       && UserRight(j, u, spec) && LimitsSet(u.quota, spec.quota) && SubusersAre(j.id, u.subusers, spec.subusers)
       && CredentialsRight(j, u.keys, w.secrets, claim.uid, spec)
       && S3UserRight(j, w.s3users, claim.uid, spec) && StatusRight(j, claim.status, spec)
       && UsageRight(j.key.ns, w.quotas, w.claims)
       && "s3.snappcloud.io/cleanup-s3userclaim" in claim.finalizers
  }

  // ---- and what the steps work towards -------------------------------------

  ghost function Demands(j: Job, spec: ClaimSpec): set<Demand> {
    {AdminDemand(j.id, spec), ReadonlyDemand(j.id, spec)}
    + (set s | s in spec.subusers :: SubuserDemand(j.id, j.key.name, s))
  }

  ghost predicate SubusersRight(j: Job, u: CephUser, spec: ClaimSpec) {
    S.Elements(u.subusers) == Wanted(j.id, spec.subusers)
  }

  ghost predicate SecretRight(ns: string, keys: seq<CephKey>, secrets: map<Key, Secret>, uid: nat, d: Demand) {
    var key := Key(ns, d.secret);
    key in secrets && ControlledBy(secrets[key], uid) && KeyFor(keys, d.cephName) == Some(secrets[key].data)
  }

  ghost predicate SecretsRight(j: Job, keys: seq<CephKey>, secrets: map<Key, Secret>, uid: nat, spec: ClaimSpec) {
    forall d | d in Demands(j, spec) :: SecretRight(j.key.ns, keys, secrets, uid, d)
  }

  ghost predicate AsDemanded(j: Job, w: World) {
    && j.key in w.claims && j.id in w.users
    && var claim, spec, u := w.claims[j.key], w.claims[j.key].spec, w.users[j.id];
       && UserRight(j, u, spec) && u.quota == DesiredQuota(claim) && SubusersRight(j, u, spec)
       && SecretsRight(j, u.keys, w.secrets, claim.uid, spec)
       && S3UserRight(j, w.s3users, claim.uid, spec) && StatusRight(j, claim.status, spec)
       && UsageRight(j.key.ns, w.quotas, w.claims)
       && CLAIM_FINALIZER in claim.finalizers
  }

  lemma DemandedSubusers(id: string, subusers: seq<string>, desired: seq<string>)
    ensures S.Elements(subusers) == Wanted(id, desired) <==> SubusersAre(id, subusers, desired)
  {
    assert id + ":readonly" == SubuserFullId(id, READONLY);
    forall name: string
      ensures name in Wanted(id, desired) <==> name == id + ":readonly" || exists s :: s in desired && name == id + ":" + s
    {
      if s :| s in desired && name == id + ":" + s {
        assert SubuserFullId(id, s) in Wanted(id, desired);
      }
      if name in Wanted(id, desired) && name != id + ":readonly" {
        var s :| s in desired && SubuserFullId(id, s) == name;
      }
    }
    if S.Elements(subusers) == Wanted(id, desired) {
      forall name: string ensures name in subusers <==> name in Wanted(id, desired) {
        assert name in S.Elements(subusers) <==> name in subusers;
      }
    }
    if SubusersAre(id, subusers, desired) {
      assert forall name: string :: name in S.Elements(subusers) <==> name in Wanted(id, desired);
    }
  }

  lemma DemandedSecrets(j: Job, keys: seq<CephKey>, secrets: map<Key, Secret>, uid: nat, spec: ClaimSpec)
    ensures SecretsRight(j, keys, secrets, uid, spec) <==> CredentialsRight(j, keys, secrets, uid, spec)
  {
    forall name: string, data: nat ensures KeyFor(keys, name) == Some(data) <==> FirstKey(keys, name, data) {
      KeyForIsFirst(keys, name, data);
    }
    if SecretsRight(j, keys, secrets, uid, spec) {
      assert SecretRight(j.key.ns, keys, secrets, uid, AdminDemand(j.id, spec));
      assert SecretRight(j.key.ns, keys, secrets, uid, ReadonlyDemand(j.id, spec));
      forall s | s in spec.subusers ensures Holds(secrets, Key(j.key.ns, j.key.name + "-" + s), uid, keys, j.id + ":" + s) {
        assert SecretRight(j.key.ns, keys, secrets, uid, SubuserDemand(j.id, j.key.name, s));
      }
    }
  }

  /** The steps' own targets amount to exactly this picture. */
  lemma DemandsAreThePicture(j: Job, w: World)
    ensures AsDemanded(j, w) <==> Converged(j, w)
  {
    if j.key in w.claims && j.id in w.users {
      var claim, spec, u := w.claims[j.key], w.claims[j.key].spec, w.users[j.id];
      DemandedSubusers(j.id, u.subusers, spec.subusers);
      DemandedSecrets(j, u.keys, w.secrets, claim.uid, spec);
      DemandedQuota(claim, u.quota);
    }
  }

  lemma DemandedQuota(claim: Claim, limits: CephQuota)
    ensures limits == DesiredQuota(claim) <==> LimitsSet(limits, claim.spec.quota)
  {
    if LimitsSet(limits, claim.spec.quota) {
      RoundedAwayIsUnique(limits.maxSize, DesiredQuota(claim).maxSize, claim.spec.quota.size);
      RoundedAwayIsUnique(limits.maxObjects, DesiredQuota(claim).maxObjects, claim.spec.quota.objects);
    }
  }

  // ---- what it takes -------------------------------------------------------

  /** What every attempt keeps, whatever the spec asks for: the claim is there and not
      terminating, its Ceph user has the shape the operator gives it, and (by the CRD's
      pattern) no subuser name contains ':'. */
  ghost predicate Sound(j: Job, w: World) {
    && j.key in w.claims && w.claims[j.key].key == j.key && !w.claims[j.key].deleting
    && ShapeOk(j, w.users) && NoColons(w.claims[j.key].spec)
  }

  ghost predicate ShapeOk(j: Job, users: map<string, CephUser>) {
    ':' !in j.id && (j.id in users ==> S.Shape(j.id, users[j.id]))
  }

  predicate NoColons(spec: ClaimSpec) {
    forall s | s in spec.subusers :: ':' !in s
  }

  /** What convergence takes besides: no secret name is demanded for two Ceph names, and
      no demanded secret has another controller. */
  ghost predicate SpecOk(j: Job, secrets: map<Key, Secret>, spec: ClaimSpec) {
    && Consistent(j, spec)
    && (forall d | d in Demands(j, spec) :: Free(j, secrets, Key(j.key.ns, d.secret)))
  }

  ghost predicate Consistent(j: Job, spec: ClaimSpec) {
    forall d, d' | d in Demands(j, spec) && d' in Demands(j, spec) :: d.secret == d'.secret ==> d.cephName == d'.cephName
  }

  ghost predicate Free(j: Job, secrets: map<Key, Secret>, key: Key) {
    key in secrets ==> Adoptable(secrets[key], j.key.name)
  }

  ghost predicate Healthy(j: Job, w: World) {
    Sound(j, w) && SpecOk(j, w.secrets, w.claims[j.key].spec)
  }

  ghost function SubusersOf(j: Job, users: map<string, CephUser>): set<string> {
    if j.id in users then S.Elements(users[j.id].subusers) else {}
  }

  /** The secret of a subuser that Ceph has and that is not wanted. */
  ghost predicate Doomed(j: Job, subs: set<string>, spec: ClaimSpec, name: string) {
    exists sub :: SubuserFullId(j.id, sub) in subs && SubuserFullId(j.id, sub) !in Wanted(j.id, spec.subusers)
                  && name == SubuserSecretName(j.key.name, sub)
  }

  /** The secrets that syncing the subusers will not delete. */
  ghost function Surviving(j: Job, w: World, spec: ClaimSpec): map<Key, Secret> {
    map s | s in w.secrets && !(s.ns == j.key.ns && Doomed(j, SubusersOf(j, w.users), spec, s.name)) :: w.secrets[s]
  }

  /** The weakest condition: only the secrets that survive the sync have to be free. */
  ghost predicate Ready(j: Job, w: World) {
    Sound(j, w) && SpecOk(j, Surviving(j, w, w.claims[j.key].spec), w.claims[j.key].spec)
  }

  lemma HealthyIsReady(j: Job, w: World)
    requires Healthy(j, w)
    ensures Ready(j, w)
  {
    var spec := w.claims[j.key].spec;
    SpecOkFrame(j, w.secrets, Surviving(j, w, spec), spec);
  }

  /** n steps of Provision have been completed: what this means for the Ceph user and
      for the memory, whatever the spec asks for. */
  ghost predicate Reached(n: nat, j: Job, a: Attempt) {
    && InSync(j, a) && Sound(j, a.world) && a.leaked == None && !a.halted
    && (n >= 1 ==> j.id in a.world.users && ReachedUser(n, j, a, a.world.users[j.id]))
  }

  ghost predicate ReachedUser(n: nat, j: Job, a: Attempt, u: CephUser) {
    && a.vars.desired == a.vars.claim.spec.subusers
    && (n <= 2 ==> a.vars.cephUser.subusers == u.subusers)
    && (n >= 3 ==> SubusersRight(j, u, a.vars.claim.spec))
    && (n >= 4 ==> a.vars.cephUser == u)
  }

  /** n steps of Provision have been completed, and what they were for is right. */
  ghost predicate Stage(n: nat, j: Job, a: Attempt) {
    && Reached(n, j, a) && SpecOk(j, StageSecrets(n, j, a), a.vars.claim.spec)
    && (n >= 1 ==> StageOfUser(n, j, a, a.world.users[j.id]))
    && (n >= 8 ==> S3UserRight(j, a.world.s3users, a.vars.claim.uid, a.vars.claim.spec))
    && (n >= 9 ==> StatusRight(j, a.vars.claim.status, a.vars.claim.spec))
    && (n >= 10 ==> UsageRight(j.key.ns, a.world.quotas, a.world.claims))
    && (n >= 11 ==> CLAIM_FINALIZER in a.vars.claim.finalizers)
  }

  ghost function StageSecrets(n: nat, j: Job, a: Attempt): map<Key, Secret> {
    if n <= 2 then Surviving(j, a.world, a.vars.claim.spec) else a.world.secrets
  }

  ghost predicate StageOfUser(n: nat, j: Job, a: Attempt, u: CephUser) {
    var claim, spec, ns := a.vars.claim, a.vars.claim.spec, j.key.ns;
    && UserRight(j, u, spec)
    && (n >= 2 ==> u.quota == DesiredQuota(claim))
    && (n >= 5 ==> SecretRight(ns, u.keys, a.world.secrets, claim.uid, AdminDemand(j.id, spec)))
    && (n >= 6 ==> SecretRight(ns, u.keys, a.world.secrets, claim.uid, ReadonlyDemand(j.id, spec)))
    && (n >= 7 ==> SecretsRight(j, u.keys, a.world.secrets, claim.uid, spec))
  }

  /** How the next step ends, whatever the spec asks for. */
  ghost predicate Proceeds(n: nat, j: Job, a: Attempt, b: Attempt) {
    Sound(j, b.world) && SameClaim(j, a.world, b.world) && (b.halted || Reached(n + 1, j, b))
  }

  /** How the next step ends: nothing is spoilt, and unless it is interrupted one
      more step has been completed. */
  ghost predicate Advances(n: nat, j: Job, a: Attempt, b: Attempt) {
    && Sound(j, b.world) && SameClaim(j, a.world, b.world) && (b.halted || Stage(n + 1, j, b))
    && (a.faults == Never ==> !b.halted && b.faults == Never)
  }

  ghost predicate SameClaim(j: Job, w: World, w': World) {
    && j.key in w.claims && j.key in w'.claims
    && w'.claims[j.key].uid == w.claims[j.key].uid && w'.claims[j.key].spec == w.claims[j.key].spec
  }

  // ---- every step keeps the claim sound ------------------------------------

  lemma UserStepProceeds(j: Job, a: Attempt)
    requires Reached(0, j, a)
    ensures Proceeds(0, j, a, DoEnsureCephUser(j, a))
  {
    EnsureUserEntry(j, a);
    var b := DoEnsureCephUser(j, a);
    assert j.id in b.world.users ==> S.Shape(j.id, b.world.users[j.id]);
  }

  lemma QuotaStepProceeds(j: Job, a: Attempt)
    requires Reached(1, j, a)
    ensures Proceeds(1, j, a, DoEnsureCephUserQuota(j.id, a))
  {
    EnsureQuotaTouches(j, a);
  }

  lemma SyncProceeds(j: Job, order: seq<string>, a: Attempt)
    requires Reached(2, j, a) && Enumerates(order, Tags(j.id, a).Keys)
    ensures var b := SyncAll(j.id, order, Tags(j.id, a), a);
            && Proceeds(2, j, a, b) && b.vars == a.vars && OnlyUserAndSecrets(j, a.world, b.world)
            && S.Prefix(j.id, order, Wanted(j.id, a.vars.desired), a, b)
            && S.SecretsFollow(j.id, a.vars.claim, a.world, b)
            && (a.faults == Never ==> !b.halted && b.faults == Never)
  {
    var tags, wanted := Tags(j.id, a), Wanted(j.id, a.vars.desired);
    TagsAreDue(j, order, a);
    S.SyncProgress(j.id, order, tags, wanted, a);
    S.SyncSecrets(j.id, order, tags, wanted, a);
    SyncTouches(j, order, tags, a);
    SyncReaches(j, order, a, SyncAll(j.id, order, tags, a));
  }

  lemma SyncReaches(j: Job, order: seq<string>, a: Attempt, b: Attempt)
    requires Reached(2, j, a) && b.vars == a.vars && OnlyUserAndSecrets(j, a.world, b.world)
    requires S.Prefix(j.id, order, Wanted(j.id, a.vars.desired), a, b)
    requires S.Elements(order) == S.Disagreement(Wanted(j.id, a.vars.desired), S.Current(j.id, a.world))
    requires !b.halted ==> b.leaked == None
    ensures Proceeds(2, j, a, b)
  {
    if !b.halted {
      var wanted := Wanted(j.id, a.vars.desired);
      assert S.Performed(j.id, order, wanted, a, b, |order|);
      assert order[..|order|] == order;
      assert S.Disagreement(wanted, S.Current(j.id, b.world)) == {};
    }
  }

  /** Storing secrets does not move the user or the claim. */
  lemma SecretsProceed(n: nat, j: Job, a: Attempt, b: Attempt)
    requires 4 <= n <= 6 && Reached(n, j, a) && OnlySecrets(a, b)
    ensures Proceeds(n, j, a, b)
  {}

  /** Nor do the steps that work on S3User, status, usage and finalizer. */
  lemma ObjectStepProceeds(n: nat, j: Job, ch: Choices, a: Attempt)
    requires 7 <= n < 11 && Reached(n, j, a) && Legal(j, PROVISION[n], ch, a)
    ensures Proceeds(n, j, a, Do(j, PROVISION[n], ch, a))
  {
    match n
    case 7 => S3UserStepsTouch(j, a);
    case 8 => StatusStepEnds(j.s3UserName, a);
    case 9 =>
      QuotaStepTouches(j, ch.quotas, true, a);
      QuotaStepShows(j, ch.quotas, true, a);
    case 10 =>
      if CLAIM_FINALIZER !in a.vars.claim.finalizers {
        WriteClaimMemory(j, a.vars.claim.(finalizers := a.vars.claim.finalizers + {CLAIM_FINALIZER}), a);
      }
  }

  /** One step on a sound claim, for any spec. */
  lemma StepProceeds(n: nat, j: Job, ch: Choices, a: Attempt)
    requires n < 11 && Reached(n, j, a) && Legal(j, PROVISION[n], ch, a)
    ensures Proceeds(n, j, a, Do(j, PROVISION[n], ch, a))
  {
    if 4 <= n <= 6 {
      StoringStepProceeds(n, PROVISION[n], j, ch, a);
    } else {
      match n
      case 0 => UserStepProceeds(j, a);
      case 1 => QuotaStepProceeds(j, a);
      case 2 => SyncProceeds(j, ch.subusers, a);
      case 3 =>
      case _ => ObjectStepProceeds(n, j, ch, a);
    }
  }

  /** The demand that one of the two explicit secret steps is for. */
  function ExplicitDemand(j: Job, step: Step, spec: ClaimSpec): Demand {
    if step == EnsureAdminSecret then AdminDemand(j.id, spec) else ReadonlyDemand(j.id, spec)
  }

  lemma ExplicitStep(j: Job, step: Step, ch: Choices, a: Attempt)
    requires step in {EnsureAdminSecret, EnsureReadonlySecret}
    ensures Do(j, step, ch, a) == EnsureSecret(ExplicitDemand(j, step, a.vars.claim.spec), a)
    ensures ExplicitDemand(j, step, a.vars.claim.spec) in Demands(j, a.vars.claim.spec)
  {}

  predicate StoresSecrets(step: Step) {
    step in {EnsureAdminSecret, EnsureReadonlySecret, EnsureOtherSecrets}
  }

  lemma StoringStepProceeds(n: nat, step: Step, j: Job, ch: Choices, a: Attempt)
    requires 4 <= n <= 6 && StoresSecrets(step) && Reached(n, j, a)
    ensures Proceeds(n, j, a, Do(j, step, ch, a))
  {
    match step
    case EnsureAdminSecret => SecretProceeds(n, j, AdminDemand(j.id, a.vars.claim.spec), a);
    case EnsureReadonlySecret => SecretProceeds(n, j, ReadonlyDemand(j.id, a.vars.claim.spec), a);
    case EnsureOtherSecrets =>
      SecretsTouch(j, a.vars.desired, a);
      SecretsProceed(n, j, a, EnsureSubuserSecrets(j.id, a.vars.desired, a));
  }

  lemma SecretProceeds(n: nat, j: Job, d: Demand, a: Attempt)
    requires 4 <= n <= 6 && Reached(n, j, a)
    ensures Proceeds(n, j, a, EnsureSecret(d, a))
  {
    EnsureSecretEntry(d, a);
    SecretsProceed(n, j, a, EnsureSecret(d, a));
  }

  lemma {:induction false} ChainProceeds(n: nat, j: Job, ch: Choices, a: Attempt)
    requires n <= 11 && Reached(n, j, a) && LegalChain(j, PROVISION[n..], ch, a)
    ensures var b := Chain(j, PROVISION[n..], ch, a); Sound(j, b.world) && SameClaim(j, a.world, b.world)
    decreases 11 - n
  {
    if n < 11 {
      Unroll(n, j, ch, a);
      StepProceeds(n, j, ch, a);
      var b := Do(j, PROVISION[n], ch, a);
      if !b.halted {
        ChainProceeds(n + 1, j, ch, b);
      }
    }
  }

  /** One attempt on a sound claim, whatever its spec asks for. */
  lemma AttemptKeepsSound(c: Config, ch: Choices, w: World, stale: Vars, k: Key, faults: Faults)
    requires Sound(JobFor(c, k), w) && LegalReconcile(c, ch, w, stale, k, faults)
    ensures var j, w' := JobFor(c, k), ReconcileKey(c, ch, w, stale, k, faults).world;
            Sound(j, w') && SameClaim(j, w, w')
  {
    var j, a := JobFor(c, k), Call(Start(w, stale, k, faults));
    assert PROVISION[0..] == PROVISION;
    if !a.halted {
      assert Reached(0, j, a);
      ChainProceeds(0, j, ch, a);
    }
  }

  // ---- and sets it right ---------------------------------------------------

  lemma EnsureUserQuiet(j: Job, a: Attempt)
    ensures var w := DoEnsureCephUser(j, a).world;
            w.secrets == a.world.secrets && SubusersOf(j, w.users) == SubusersOf(j, a.world.users)
  {
    EnsureUserTouches(j, a);
    var w := DoEnsureCephUser(j, a).world;
    assert (if j.id in w.users then w.users[j.id].subusers else [])
        == (if j.id in a.world.users then a.world.users[j.id].subusers else []);
  }

  lemma EnsureQuotaQuiet(j: Job, a: Attempt)
    ensures var w := DoEnsureCephUserQuota(j.id, a).world;
            w.secrets == a.world.secrets && SubusersOf(j, w.users) == SubusersOf(j, a.world.users)
  {
    EnsureQuotaTouches(j, a);
    var w := DoEnsureCephUserQuota(j.id, a).world;
    assert (if j.id in w.users then w.users[j.id].subusers else [])
        == (if j.id in a.world.users then a.world.users[j.id].subusers else []);
  }

  lemma LateStepsQuiet(n: nat, j: Job, ch: Choices, a: Attempt)
    requires 7 <= n < 11 && a.vars.claim.key == j.key && Legal(j, PROVISION[n], ch, a)
    ensures var w := Do(j, PROVISION[n], ch, a).world;
            w.secrets == a.world.secrets && w.users == a.world.users
  {
    match n
    case 7 => S3UserStepsTouch(j, a);
    case 8 => StatusStepTouches(j, a);
    case 9 => QuotaStepTouches(j, ch.quotas, true, a);
    case 10 => AddFinalizerTouches(j, a);
  }

  lemma QuietStep(n: nat, j: Job, ch: Choices, a: Attempt)
    requires n < 2 || n == 3 || 7 <= n < 11
    requires a.vars.claim.key == j.key && Legal(j, PROVISION[n], ch, a)
    ensures var w := Do(j, PROVISION[n], ch, a).world;
            w.secrets == a.world.secrets && SubusersOf(j, w.users) == SubusersOf(j, a.world.users)
  {
    match n
    case 0 => EnsureUserQuiet(j, a);
    case 1 => EnsureQuotaQuiet(j, a);
    case 3 =>
    case _ => LateStepsQuiet(n, j, ch, a);
  }

  lemma Step0(j: Job, a: Attempt)
    requires Stage(0, j, a)
    ensures Advances(0, j, a, DoEnsureCephUser(j, a))
  {
    UserStepProceeds(j, a);
    EnsureUserQuiet(j, a);
    EnsureUserTouches(j, a);
  }

  lemma Step1(j: Job, a: Attempt)
    requires Stage(1, j, a)
    ensures Advances(1, j, a, DoEnsureCephUserQuota(j.id, a))
  {
    QuotaStepProceeds(j, a);
    EnsureQuotaQuiet(j, a);
    EnsureQuotaTouches(j, a);
  }

  lemma SpecOkFrame(j: Job, secrets: map<Key, Secret>, secrets': map<Key, Secret>, spec: ClaimSpec)
    requires SpecOk(j, secrets, spec)
    requires forall s: Key | s in secrets' ::
               (s in secrets && secrets'[s] == secrets[s]) || Adoptable(secrets'[s], j.key.name)
    ensures SpecOk(j, secrets', spec)
  {
    forall d | d in Demands(j, spec) ensures Free(j, secrets', Key(j.key.ns, d.secret)) {
      assert Free(j, secrets, Key(j.key.ns, d.secret));
    }
  }

  lemma ReadonlyHasNoColon()
    ensures ':' !in READONLY
  {}

  /** The diff of a user of the right shape is due in any order that walks it. */
  lemma TagsAreDue(j: Job, order: seq<string>, a: Attempt)
    requires j.id in a.world.users && S.Shape(j.id, a.world.users[j.id]) && ':' !in j.id
    requires forall s | s in a.vars.desired :: ':' !in s
    requires a.vars.cephUser.subusers == a.world.users[j.id].subusers
    requires Enumerates(order, Tags(j.id, a).Keys)
    ensures S.Due(j.id, order, Tags(j.id, a), Wanted(j.id, a.vars.desired), a.world)
    ensures S.Elements(order) == S.Disagreement(Wanted(j.id, a.vars.desired), S.Current(j.id, a.world))
  {
    var wanted, current := Wanted(j.id, a.vars.desired), a.world.users[j.id].subusers;
    DiffIsSetDifference(wanted, current);
    forall name | name in wanted ensures S.OwnName(j.id, name) {
      ReadonlyHasNoColon();
      var s :| name == SubuserFullId(j.id, s) && ':' !in s;
      assert SubuserFullId(j.id, s)[|j.id| + 1..] == s;
    }
  }

  lemma Step2(j: Job, order: seq<string>, a: Attempt)
    requires Stage(2, j, a) && Enumerates(order, Tags(j.id, a).Keys)
    ensures Advances(2, j, a, SyncAll(j.id, order, Tags(j.id, a), a))
  {
    SyncProceeds(j, order, a);
    var b := SyncAll(j.id, order, Tags(j.id, a), a);
    if !b.halted {
      SyncLeavesSurvivors(j, a, b);
      SpecOkFrame(j, Surviving(j, a.world, a.vars.claim.spec), b.world.secrets, a.vars.claim.spec);
    }
  }

  /** A completed sync has deleted every secret that was not to survive. */
  lemma SyncLeavesSurvivors(j: Job, a: Attempt, b: Attempt)
    requires Reached(2, j, a) && Reached(3, j, b) && b.vars == a.vars
    requires S.SecretsFollow(j.id, a.vars.claim, a.world, b)
    ensures forall s: Key | s in b.world.secrets ::
              var survivors := Surviving(j, a.world, a.vars.claim.spec);
              s in survivors && b.world.secrets[s] == survivors[s]
  {
    var spec := a.vars.claim.spec;
    forall s: Key | s in b.world.secrets && s.ns == j.key.ns ensures !Doomed(j, SubusersOf(j, a.world.users), spec, s.name) {
      if sub :| SubuserFullId(j.id, sub) in SubusersOf(j, a.world.users)
                && SubuserFullId(j.id, sub) !in Wanted(j.id, spec.subusers) && s.name == SubuserSecretName(j.key.name, sub) {
        RemovedSecretIsGone(j, sub, s, a, b);
      }
    }
  }

  lemma RemovedSecretIsGone(j: Job, sub: string, s: Key, a: Attempt, b: Attempt)
    requires Reached(2, j, a) && Reached(3, j, b) && b.vars == a.vars
    requires S.SecretsFollow(j.id, a.vars.claim, a.world, b)
    requires var name := SubuserFullId(j.id, sub);
             name in SubusersOf(j, a.world.users) && name !in Wanted(j.id, a.vars.claim.spec.subusers)
    requires s == Key(j.key.ns, SubuserSecretName(j.key.name, sub))
    ensures s !in b.world.secrets
  {
    var name := SubuserFullId(j.id, sub);
    assert S.OwnName(j.id, name) && name !in S.Current(j.id, b.world);
    assert S.SubuserOf(j.id, name) == sub;
  }

  lemma Step3(j: Job, a: Attempt)
    requires Stage(3, j, a)
    ensures Advances(3, j, a, DoRetrieveCephUser(j.id, a))
  {}

  /** Storing one demanded secret sets it right and leaves the others right. */
  lemma SecretStep(j: Job, d: Demand, a: Attempt)
    requires Stage(4, j, a) && d in Demands(j, a.vars.claim.spec)
    ensures var b := EnsureSecret(d, a);
            && Stored(j, a, b) && SpecOk(j, b.world.secrets, a.vars.claim.spec) && b.leaked == None
            && (a.faults == Never ==> !b.halted && b.faults == Never)
            && (!b.halted ==> OneMoreSecret(j, a, b, d))
  {
    var b, claim := EnsureSecret(d, a), a.vars.claim;
    DemandsHaveKeys(j, a, d);
    var credential := KeyFor(a.vars.cephUser.keys, d.cephName).value;
    assert Free(j, a.world.secrets, Key(j.key.ns, d.secret));
    StoreOutcome(Key(j.key.ns, d.secret), Secret(credential, Some(OwnerOf(claim))), a);
    SpecOkFrame(j, a.world.secrets, b.world.secrets, claim.spec);
  }

  /** ensureSecret either leaves the secrets as they are or stores the wanted one,
      and if it runs to the end the stored secret is right. */
  ghost predicate StoreEnd(key: Key, wanted: Secret, a: Attempt, b: Attempt) {
    && b.vars == a.vars && b.world == a.world.(secrets := b.world.secrets, rev := b.world.rev)
    && b.leaked == a.leaked && (a.faults == Never ==> !b.halted && b.faults == Never)
    && (b.world.secrets == a.world.secrets || b.world.secrets == a.world.secrets[key := wanted])
    && (!b.halted ==>
          && key in b.world.secrets && b.world.secrets[key].data == wanted.data
          && ControlledBy(b.world.secrets[key], a.vars.claim.uid))
  }

  lemma StoreOutcome(key: Key, wanted: Secret, a: Attempt)
    requires !a.halted && wanted.controller == Some(OwnerOf(a.vars.claim))
    requires key in a.world.secrets ==> Adoptable(a.world.secrets[key], a.vars.claim.key.name)
    ensures StoreEnd(key, wanted, a, StoreSecret(key, wanted, a))
  {
    var a1 := Call(a);
    if !a1.halted && StoreSecret(key, wanted, a) != a1 {
      var a2 := Call(a1);
      assert !a2.halted ==> StoreSecret(key, wanted, a) == a2.(world := PutSecret(a2.world, key, wanted));
    }
  }

  /** Between a and b the demand d has been met and no other has been spoilt. */
  ghost predicate OneMoreSecret(j: Job, a: Attempt, b: Attempt, d: Demand) {
    var uid, keys := a.vars.claim.uid, a.vars.cephUser.keys;
    && SecretRight(j.key.ns, keys, b.world.secrets, uid, d)
    && forall d' | d' in Demands(j, a.vars.claim.spec) && SecretRight(j.key.ns, keys, a.world.secrets, uid, d') ::
         SecretRight(j.key.ns, keys, b.world.secrets, uid, d')
  }

  /** Only secrets (and the revision) differ. */
  ghost predicate Stored(j: Job, a: Attempt, b: Attempt) {
    b.vars == a.vars && b.world == a.world.(secrets := b.world.secrets, rev := b.world.rev)
  }

  lemma DemandsHaveKeys(j: Job, a: Attempt, d: Demand)
    requires Reached(4, j, a) && d in Demands(j, a.vars.claim.spec)
    ensures KeyFor(a.vars.cephUser.keys, d.cephName).Some?
  {
    var claim := a.vars.claim;
    if d != AdminDemand(j.id, claim.spec) {
      assert d.cephName in Wanted(j.id, claim.spec.subusers) by {
        if d != ReadonlyDemand(j.id, claim.spec) {
          var s :| s in claim.spec.subusers && d == SubuserDemand(j.id, j.key.name, s);
          assert SubuserFullId(j.id, s) == d.cephName;
        }
      }
      assert d.cephName in S.Elements(a.world.users[j.id].subusers);
    }
  }

  /** A demanded secret that belongs to another controller stops every attempt, and
      it is left as it is. */
  lemma ForeignSecretStops(d: Demand, a: Attempt)
    requires var key := Key(a.vars.claim.key.ns, d.secret);
             && key in a.world.secrets && !Adoptable(a.world.secrets[key], a.vars.claim.key.name)
             && !ControlledBy(a.world.secrets[key], a.vars.claim.uid)
    ensures EnsureSecret(d, a).halted && EnsureSecret(d, a).world == a.world
  {}

  /** Between a and b the secrets of these subusers were stored, all of them if b did
      not end early. */
  ghost predicate ListStored(j: Job, subusers: seq<string>, a: Attempt, b: Attempt) {
    && Stored(j, a, b) && b.leaked == None && SpecOk(j, b.world.secrets, a.vars.claim.spec)
    && (a.faults == Never ==> !b.halted && b.faults == Never)
    && (!b.halted ==> ListRight(j, subusers, a, b) && KeepsRight(j, a, b))
  }

  ghost predicate ListRight(j: Job, subusers: seq<string>, a: Attempt, b: Attempt) {
    forall s | s in subusers ::
      SecretRight(j.key.ns, a.vars.cephUser.keys, b.world.secrets, a.vars.claim.uid, SubuserDemand(j.id, j.key.name, s))
  }

  /** Demands that were met stay met. */
  ghost predicate KeepsRight(j: Job, a: Attempt, b: Attempt) {
    forall d | d in Demands(j, a.vars.claim.spec) && SecretRight(j.key.ns, a.vars.cephUser.keys, a.world.secrets, a.vars.claim.uid, d) ::
      SecretRight(j.key.ns, a.vars.cephUser.keys, b.world.secrets, a.vars.claim.uid, d)
  }

  lemma StoredStage(n: nat, j: Job, a: Attempt, b: Attempt)
    requires 4 <= n <= 6 && Stage(n, j, a) && Stored(j, a, b) && b.leaked == None && !b.halted && KeepsRight(j, a, b)
    requires SpecOk(j, b.world.secrets, a.vars.claim.spec)
    ensures Stage(n, j, b)
  {}

  lemma {:induction false} SubuserSecretsStep(j: Job, subusers: seq<string>, a: Attempt)
    requires Stage(6, j, a) && forall s | s in subusers :: s in a.vars.claim.spec.subusers
    ensures ListStored(j, subusers, a, EnsureSubuserSecrets(j.id, subusers, a))
  {
    if subusers != [] {
      var n := |subusers| - 1;
      var b := EnsureSubuserSecrets(j.id, subusers[..n], a);
      SubuserSecretsStep(j, subusers[..n], a);
      if !b.halted {
        StoredStage(6, j, a, b);
        ListedDemand(j, a.vars.claim.spec, subusers[n]);
        SecretStep(j, SubuserDemand(j.id, j.key.name, subusers[n]), b);
        OneMoreListed(j, subusers, a, b, EnsureSecret(SubuserDemand(j.id, j.key.name, subusers[n]), b));
      }
    }
  }

  lemma ListedDemand(j: Job, spec: ClaimSpec, sub: string)
    requires sub in spec.subusers
    ensures SubuserDemand(j.id, j.key.name, sub) in Demands(j, spec)
  {}

  lemma OneMoreListed(j: Job, subusers: seq<string>, a: Attempt, b: Attempt, e: Attempt)
    requires subusers != [] && (forall s | s in subusers :: s in a.vars.claim.spec.subusers)
    requires ListStored(j, subusers[..|subusers| - 1], a, b) && !b.halted
    requires Stored(j, b, e) && e.leaked == None && SpecOk(j, e.world.secrets, a.vars.claim.spec)
    requires b.faults == Never ==> !e.halted && e.faults == Never
    requires !e.halted ==> OneMoreSecret(j, b, e, SubuserDemand(j.id, j.key.name, subusers[|subusers| - 1]))
    ensures ListStored(j, subusers, a, e)
  {
    var n := |subusers| - 1;
    forall s | s in subusers && !e.halted
      ensures SecretRight(j.key.ns, a.vars.cephUser.keys, e.world.secrets, a.vars.claim.uid, SubuserDemand(j.id, j.key.name, s))
    {
      assert s == subusers[n] || s in subusers[..n];
      ListedDemand(j, a.vars.claim.spec, s);
    }
  }

  lemma Step4(j: Job, a: Attempt)
    requires Stage(4, j, a)
    ensures Advances(4, j, a, EnsureSecret(AdminDemand(j.id, a.vars.claim.spec), a))
  {
    SecretStep(j, AdminDemand(j.id, a.vars.claim.spec), a);
  }

  lemma Step5(j: Job, a: Attempt)
    requires Stage(5, j, a)
    ensures Advances(5, j, a, EnsureSecret(ReadonlyDemand(j.id, a.vars.claim.spec), a))
  {
    SecretStep(j, ReadonlyDemand(j.id, a.vars.claim.spec), a);
  }

  lemma SubuserSecretsSuffice(j: Job, keys: seq<CephKey>, secrets: map<Key, Secret>, uid: nat, spec: ClaimSpec)
    requires SecretRight(j.key.ns, keys, secrets, uid, AdminDemand(j.id, spec))
    requires SecretRight(j.key.ns, keys, secrets, uid, ReadonlyDemand(j.id, spec))
    requires forall s | s in spec.subusers ::
               SecretRight(j.key.ns, keys, secrets, uid, SubuserDemand(j.id, j.key.name, s))
    ensures SecretsRight(j, keys, secrets, uid, spec)
  {}

  lemma Step6(j: Job, a: Attempt)
    requires Stage(6, j, a)
    ensures Advances(6, j, a, EnsureSubuserSecrets(j.id, a.vars.desired, a))
  {
    var b, spec := EnsureSubuserSecrets(j.id, a.vars.desired, a), a.vars.claim.spec;
    SubuserSecretsStep(j, a.vars.desired, a);
    if !b.halted {
      StoredStage(6, j, a, b);
      SubuserSecretsSuffice(j, b.vars.cephUser.keys, b.world.secrets, b.vars.claim.uid, spec);
    }
  }

  lemma Step7(j: Job, a: Attempt)
    requires Stage(7, j, a)
    ensures Advances(7, j, a, DoEnsureS3User(j, a))
  {
    EnsureS3UserEnds(j, a);
  }

  lemma Step8(j: Job, a: Attempt)
    requires Stage(8, j, a)
    ensures Advances(8, j, a, DoUpdateClaimStatus(j.s3UserName, a))
  {
    StatusStepEnds(j.s3UserName, a);
    if a.faults == Never {
      StatusStepGoesOn(j, a);
    }
  }

  lemma StatusStepGoesOn(j: Job, a: Attempt)
    requires InSync(j, a) && !a.halted && a.faults == Never
    ensures !DoUpdateClaimStatus(j.s3UserName, a).halted
  {}

  lemma AssignedShows(used: map<string, int>, total: Quota)
    ensures Shows(Assigned(used, total), total) && (Assigned(used, total) == used <==> Shows(used, total))
  {}

  lemma PublishOneShows(k: Key, total: Quota, a: Attempt)
    requires k in a.world.quotas && !a.halted
    ensures var b := PublishOne(k, total, a);
            && b.leaked == a.leaked && (a.faults == Never ==> !b.halted && b.faults == Never)
            && b.world.quotas.Keys == a.world.quotas.Keys
            && (!b.halted ==> Shows(b.world.quotas[k].used, total))
            && forall q | q in a.world.quotas && Shows(a.world.quotas[q].used, total) :: Shows(b.world.quotas[q].used, total)
  {
    AssignedShows(a.world.quotas[k].used, total);
  }

  lemma {:induction false} PublishSets(order: seq<Key>, total: Quota, a: Attempt)
    requires (forall k | k in order :: k in a.world.quotas) && !a.halted
    ensures var b := Publish(order, total, a);
            && b.leaked == a.leaked && (a.faults == Never ==> !b.halted && b.faults == Never)
            && b.world.quotas.Keys == a.world.quotas.Keys
            && (!b.halted ==> forall k | k in order :: Shows(b.world.quotas[k].used, total))
  {
    if order != [] {
      var m := |order| - 1;
      PublishSets(order[..m], total, a);
      assert order == order[..m] + [order[m]];
      var b := Publish(order[..m], total, a);
      if !b.halted {
        PublishOneShows(order[m], total, b);
      }
    }
  }

  lemma Step9(j: Job, order: seq<Key>, a: Attempt)
    requires Stage(9, j, a) && Enumerates(order, QuotasIn(a.world, j.key.ns))
    ensures Advances(9, j, a, DoUpdateQuota(j.key.ns, order, true, a))
  {
    QuotaStepTouches(j, order, true, a);
    OthersPlusStoredIsTotal(a.world.claims, {j.key.ns}, j.key);
    QuotaStepShows(j, order, true, a);
  }

  /** When the quota step runs to its end, every ResourceQuota of the namespace
      shows what the step computed. */
  lemma QuotaStepShows(j: Job, order: seq<Key>, inclusive: bool, a: Attempt)
    requires !a.halted && Enumerates(order, QuotasIn(a.world, j.key.ns))
    ensures var b := DoUpdateQuota(j.key.ns, order, inclusive, a);
            && b.leaked == a.leaked && (a.faults == Never ==> !b.halted && b.faults == Never)
            && (!b.halted ==> forall q | q in b.world.quotas && q.ns == j.key.ns ::
                  Shows(b.world.quotas[q].used, NamespaceUsed(a.world, a.vars.claim, j.key.ns, inclusive)))
  {
    QuotaStepTouches(j, order, inclusive, a);
    var a1 := Call(a);
    if !a1.halted {
      var a2 := Call(a1.(vars := a1.vars.(used := NamespaceUsed(a1.world, a.vars.claim, j.key.ns, inclusive))));
      if !a2.halted {
        PublishSets(order, a2.vars.used, a2);
      }
    }
  }

  lemma Step10(j: Job, a: Attempt)
    requires Stage(10, j, a)
    ensures Advances(10, j, a, DoAddFinalizer(a))
  {
    var claim, b := a.vars.claim, DoAddFinalizer(a);
    if CLAIM_FINALIZER !in claim.finalizers {
      WriteClaimMemory(j, claim.(finalizers := claim.finalizers + {CLAIM_FINALIZER}), a);
    }
    TotalInFrame(a.world.claims, b.world.claims, {j.key.ns});
  }

  lemma StepAdvances(n: nat, j: Job, ch: Choices, a: Attempt)
    requires n < 11 && Stage(n, j, a) && Legal(j, PROVISION[n], ch, a)
    ensures Advances(n, j, a, Do(j, PROVISION[n], ch, a))
  {
    match n
    case 0 => Step0(j, a);
    case 1 => Step1(j, a);
    case 2 => Step2(j, ch.subusers, a);
    case 3 => Step3(j, a);
    case 4 => Step4(j, a);
    case 5 => Step5(j, a);
    case 6 => Step6(j, a);
    case 7 => Step7(j, a);
    case 8 => Step8(j, a);
    case 9 => Step9(j, ch.quotas, a);
    case 10 => Step10(j, a);
  }

  /** The claim is still sound, and if the chain ran to its end (as it does without
      faults) everything is right. */
  ghost predicate Ends(j: Job, a: Attempt, b: Attempt) {
    && Sound(j, b.world) && SameClaim(j, a.world, b.world) && (b.halted || Stage(11, j, b))
    && (a.faults == Never ==> !b.halted)
  }

  ghost predicate CanAdvance(n: nat, j: Job, ch: Choices, a: Attempt)
    requires n <= 11
  {
    Stage(n, j, a) && LegalChain(j, PROVISION[n..], ch, a)
  }

  ghost predicate ChainEnds(n: nat, j: Job, ch: Choices, a: Attempt)
    requires n <= 11
  {
    Ends(j, a, Chain(j, PROVISION[n..], ch, a))
  }

  lemma NextStage(n: nat, j: Job, ch: Choices, a: Attempt)
    requires n < 11 && CanAdvance(n, j, ch, a)
    ensures var b := Do(j, PROVISION[n], ch, a);
            && (b.halted || CanAdvance(n + 1, j, ch, b))
            && (b.halted || ChainEnds(n + 1, j, ch, b) ==> ChainEnds(n, j, ch, a))
  {
    Unroll(n, j, ch, a);
    StepAdvances(n, j, ch, a);
  }

  /** From any stage, however the attempt ends. */
  lemma {:induction false} ChainAdvances(n: nat, j: Job, ch: Choices, a: Attempt)
    requires n <= 11 && CanAdvance(n, j, ch, a)
    ensures ChainEnds(n, j, ch, a)
    decreases 11 - n
  {
    if n < 11 {
      NextStage(n, j, ch, a);
      var b := Do(j, PROVISION[n], ch, a);
      if !b.halted {
        ChainAdvances(n + 1, j, ch, b);
      }
    }
  }

  lemma LastStage(j: Job, b: Attempt)
    requires Stage(11, j, b)
    ensures Converged(j, b.world) && Healthy(j, b.world)
  {
    DemandsAreThePicture(j, b.world);
  }

  /** One attempt on a claim whose spec can be met. */
  lemma AttemptConverges(c: Config, ch: Choices, w: World, stale: Vars, k: Key, faults: Faults)
    requires Ready(JobFor(c, k), w) && LegalReconcile(c, ch, w, stale, k, faults)
    ensures var j, b := JobFor(c, k), ReconcileKey(c, ch, w, stale, k, faults);
            && (!b.halted ==> Converged(j, b.world) && Healthy(j, b.world))
            && (faults == Never ==> !b.halted)
  {
    var j, a := JobFor(c, k), Call(Start(w, stale, k, faults));
    assert PROVISION[0..] == PROVISION;
    if !a.halted {
      assert Stage(0, j, a);
      ChainAdvances(0, j, ch, a);
      var b := Chain(j, PROVISION, ch, a);
      if !b.halted {
        LastStage(j, b);
      }
    }
  }

  // ---- what is stored is the claim's own -----------------------------------

  /** Every secret is as it was or can be adopted by the claim. */
  ghost predicate OthersKept(j: Job, w: World, w': World) {
    forall s: Key | s in w'.secrets ::
      (s in w.secrets && w'.secrets[s] == w.secrets[s]) || Adoptable(w'.secrets[s], j.key.name)
  }

  lemma {:induction false} SubuserSecretsKeepOthers(j: Job, subusers: seq<string>, a: Attempt)
    requires a.vars.claim.key == j.key
    ensures var b := EnsureSubuserSecrets(j.id, subusers, a); OthersKept(j, a.world, b.world) && b.vars == a.vars
  {
    if subusers != [] {
      var n := |subusers| - 1;
      var b := EnsureSubuserSecrets(j.id, subusers[..n], a);
      SubuserSecretsKeepOthers(j, subusers[..n], a);
      if !b.halted {
        EnsureSecretEntry(SubuserDemand(j.id, b.vars.claim.key.name, subusers[n]), b);
      }
    }
  }

  lemma SyncKeepsOthers(j: Job, order: seq<string>, a: Attempt)
    requires Reached(2, j, a) && Enumerates(order, Tags(j.id, a).Keys)
    ensures OthersKept(j, a.world, SyncAll(j.id, order, Tags(j.id, a), a).world)
  {
    TagsAreDue(j, order, a);
    S.SyncSecrets(j.id, order, Tags(j.id, a), Wanted(j.id, a.vars.desired), a);
  }

  lemma StoringStepKeepsOthers(step: Step, j: Job, ch: Choices, a: Attempt)
    requires StoresSecrets(step) && a.vars.claim.key == j.key
    ensures OthersKept(j, a.world, Do(j, step, ch, a).world)
  {
    match step
    case EnsureAdminSecret => EnsureSecretEntry(AdminDemand(j.id, a.vars.claim.spec), a);
    case EnsureReadonlySecret => EnsureSecretEntry(ReadonlyDemand(j.id, a.vars.claim.spec), a);
    case EnsureOtherSecrets => SubuserSecretsKeepOthers(j, a.vars.desired, a);
  }

  lemma StepKeepsOthers(n: nat, j: Job, ch: Choices, a: Attempt)
    requires n < 11 && Reached(n, j, a) && Legal(j, PROVISION[n], ch, a)
    ensures OthersKept(j, a.world, Do(j, PROVISION[n], ch, a).world)
  {
    if n == 2 {
      SyncKeepsOthers(j, ch.subusers, a);
    } else if 4 <= n <= 6 {
      StoringStepKeepsOthers(PROVISION[n], j, ch, a);
    } else {
      QuietStep(n, j, ch, a);
    }
  }

  lemma {:induction false} ChainKeepsOthers(n: nat, j: Job, ch: Choices, a: Attempt)
    requires n <= 11 && Reached(n, j, a) && LegalChain(j, PROVISION[n..], ch, a)
    ensures OthersKept(j, a.world, Chain(j, PROVISION[n..], ch, a).world)
    decreases 11 - n
  {
    if n < 11 {
      Unroll(n, j, ch, a);
      StepProceeds(n, j, ch, a);
      StepKeepsOthers(n, j, ch, a);
      var b := Do(j, PROVISION[n], ch, a);
      if !b.halted {
        ChainKeepsOthers(n + 1, j, ch, b);
      }
    }
  }

  /** One attempt on a healthy claim. */
  lemma AttemptKeepsHealthy(c: Config, ch: Choices, w: World, stale: Vars, k: Key, faults: Faults)
    requires Healthy(JobFor(c, k), w) && LegalReconcile(c, ch, w, stale, k, faults)
    ensures var j, b := JobFor(c, k), ReconcileKey(c, ch, w, stale, k, faults);
            && Healthy(j, b.world) && SameClaim(j, w, b.world)
            && (!b.halted ==> Converged(j, b.world))
            && (faults == Never ==> !b.halted)
  {
    var j, a := JobFor(c, k), Call(Start(w, stale, k, faults));
    HealthyIsReady(j, w);
    AttemptKeepsSound(c, ch, w, stale, k, faults);
    AttemptConverges(c, ch, w, stale, k, faults);
    if !a.halted {
      assert PROVISION[0..] == PROVISION && Reached(0, j, a);
      ChainKeepsOthers(0, j, ch, a);
      SpecOkFrame(j, w.secrets, Chain(j, PROVISION, ch, a).world.secrets, w.claims[k].spec);
    }
  }
}
