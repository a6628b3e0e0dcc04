/** No orphaned Ceph users.  Here users and the controller interleave step by step:
    claims are created, edited, stripped of finalizers and deleted, and S3Users removed,
    between any two steps of a reconcile, reconciles fail and are queued again, and the operator is
    restarted.  There is one worker and a queue of requests. */
module Orphans {
  import opened Naming
  import opened Quotas
  import opened Store
  import opened Reconcile
  import opened Isolation
  import Subusers

  datatype Worker = Idle | Busy(key: Key, steps: seq<Step>, vars: Vars)

  datatype State = State(world: World, queue: set<Key>, worker: Worker)

  datatype Action =
    | CreateClaim(claim: Claim)
    | DeleteClaim(k: Key)
    | UpdateClaim(k: Key, spec: ClaimSpec, finalizers: set<string>)
    | DropS3User(name: string)
    | Begin(k: Key, stale: Vars)
    | Work(ch: Choices, faults: Faults)
    | Finish
    | Restart

  // ---- events --------------------------------------------------------------

  /** s3UsertoS3UserClaim: an S3User event is a request for the claim it refers to. */
  function RequestsOf(u: S3User): set<Key> {
    match u.claimRef
    case None => {}
    case Some(r) => {r.key}
  }

  /** The requests caused by going from one world to the next: one for each claim
      that was created, changed or removed, and one for each S3User that was. */
  ghost function Events(w: World, w': World): set<Key> {
    (set k | k in w.claims && !(k in w'.claims && w'.claims[k] == w.claims[k]))
    + (set k | k in w'.claims && !(k in w.claims && w'.claims[k] == w.claims[k]))
    + (set n, k | n in w.s3users && !(n in w'.s3users && w'.s3users[n] == w.s3users[n]) && k in RequestsOf(w.s3users[n]) :: k)
    + (set n, k | n in w'.s3users && !(n in w.s3users && w'.s3users[n] == w.s3users[n]) && k in RequestsOf(w'.s3users[n]) :: k)
  }

  /** After a restart every claim and every S3User is listed again. */
  ghost function Listed(w: World): set<Key> {
    w.claims.Keys + (set n, k | n in w.s3users && k in RequestsOf(w.s3users[n]) :: k)
  }

  // ---- actions -------------------------------------------------------------

  function Stored(w: World, claim: Claim): World {
    w.(rev := w.rev + 1, claims := w.claims[claim.key := claim.(rv := w.rev + 1)])
  }

  /** A delete request removes a claim without finalizers and marks any other. */
  function Deleted(w: World, k: Key): World
    requires k in w.claims
  {
    var marked := w.claims[k].(key := k, deleting := true, rv := w.rev + 1);
    w.(rev := w.rev + 1,
       claims := if marked.finalizers == {} then w.claims - {k} else w.claims[k := marked])
  }

  function Edited(w: World, k: Key, spec: ClaimSpec, finalizers: set<string>): World
    requires k in w.claims
  {
    PutClaim(w, w.claims[k].(key := k, spec := spec, finalizers := finalizers))
  }

  ghost predicate Enabled(c: Config, s: State, act: Action) {
    match act
    case CreateClaim(claim) => ValidKey(claim.key) && claim.key !in s.world.claims && !claim.deleting
    case DeleteClaim(k) => k in s.world.claims
    case UpdateClaim(k, _, _) => k in s.world.claims
    case DropS3User(name) => name in s.world.s3users
    case Begin(k, _) => s.worker.Idle? && k in s.queue
    case Work(ch, faults) =>
      && s.worker.Busy? && s.worker.steps != []
      && Legal(JobFor(c, s.worker.key), s.worker.steps[0], ch, Attempt(s.world, s.worker.vars, faults, false, None))
    case Finish => s.worker.Busy? && s.worker.steps == []
    case Restart => true
  }

  ghost function UserAct(s: State, w': World): State {
    s.(world := w', queue := s.queue + Events(s.world, w'))
  }

  ghost function WorkResult(c: Config, s: State, ch: Choices, faults: Faults): Attempt
    requires s.worker.Busy? && s.worker.steps != []
  {
    Do(JobFor(c, s.worker.key), s.worker.steps[0], ch, Attempt(s.world, s.worker.vars, faults, false, None))
  }

  ghost function Next(c: Config, s: State, act: Action): State
    requires Enabled(c, s, act)
  {
    match act
    case CreateClaim(claim) => UserAct(s, Stored(s.world, claim))
    case DeleteClaim(k) => UserAct(s, Deleted(s.world, k))
    case UpdateClaim(k, spec, finalizers) => UserAct(s, Edited(s.world, k, spec, finalizers))
    case DropS3User(name) => UserAct(s, DeleteS3User(s.world, name))
    case Begin(k, stale) =>
      s.(queue := s.queue - {k}, worker := Busy(k, StepsFor(s.world, k), stale.(claim := ReadClaim(s.world, k))))
    case Work(ch, faults) =>
      var b := WorkResult(c, s, ch, faults);
      var queue := s.queue + Events(s.world, b.world);
      if b.halted then State(b.world, queue + {s.worker.key}, Idle)
      else State(b.world, queue, Busy(s.worker.key, s.worker.steps[1..], b.vars))
    case Finish => s.(worker := Idle)
    case Restart => State(s.world, Listed(s.world), Idle)
  }

  // ---- the property --------------------------------------------------------

  ghost predicate HasUser(c: Config, s: State, k: Key) {
    CephUserFullId(c.clusterName, k) in s.world.users
  }

  /** Somebody will look at k: a claim or an S3User still exists, or a request is
      queued or being worked on. */
  ghost predicate Watched(s: State, k: Key) {
    || k in s.world.claims || S3UserName(k) in s.world.s3users
    || k in s.queue || (s.worker.Busy? && s.worker.key == k)
  }

  ghost predicate Orphaned(c: Config, s: State, k: Key) {
    HasUser(c, s, k) && !Watched(s, k)
  }

  /** Only the queue or the worker still knows of the user. */
  ghost predicate Exposed(c: Config, s: State, k: Key) {
    HasUser(c, s, k) && k !in s.world.claims && S3UserName(k) !in s.world.s3users
  }

  // ---- the invariant -------------------------------------------------------

  ghost predicate GoodWorld(w: World) {
    && KeyedClaims(w)
    && (forall k | k in w.claims :: ValidKey(k))
    && (forall n | n in w.s3users :: RefersBack(n, w.s3users[n]))
  }

  /** An S3User is named after the claim it refers to. */
  ghost predicate RefersBack(n: string, u: S3User) {
    u.claimRef.Some? && ValidKey(u.claimRef.value.key) && n == S3UserName(u.claimRef.value.key)
  }

  /** After the S3User step the S3User is there, or its removal has queued a request. */
  ghost predicate Provisioning(k: Key, n: nat, steps: seq<Step>, vars: Vars, w: World, queue: set<Key>) {
    && n <= 11 && steps == PROVISION[n..] && vars.claim.key == k
    && (n >= 8 ==> S3UserName(k) in w.s3users || k in queue)
  }

  ghost predicate Cleaning(c: Config, k: Key, n: nat, steps: seq<Step>, vars: Vars, w: World) {
    && n <= 4 && steps == CLEANUP[n..] && (vars.claim.key == k || vars.claim == ZERO_CLAIM)
    && (n >= 1 ==> CephUserFullId(c.clusterName, k) !in w.users)
  }

  ghost predicate GoodWorker(c: Config, worker: Worker, w: World, queue: set<Key>) {
    worker.Busy? ==>
      && ValidKey(worker.key)
      && ((exists n :: Provisioning(worker.key, n, worker.steps, worker.vars, w, queue))
          || (exists n :: Cleaning(c, worker.key, n, worker.steps, worker.vars, w)))
  }

  ghost predicate Inv(c: Config, s: State) {
    && GoodWorld(s.world) && GoodWorker(c, s.worker, s.world, s.queue)
    && (forall k | k in s.queue :: ValidKey(k))
    && (forall k | ValidKey(k) :: HasUser(c, s, k) ==> Watched(s, k))
  }

  /** An operator that has not started, in a cluster where Ceph knows no user of a
      claim name, satisfies the invariant. */
  lemma FreshStateIsGood(c: Config, s: State)
    requires GoodWorld(s.world) && s.queue == {} && s.worker == Idle
    requires forall k | ValidKey(k) :: !HasUser(c, s, k)
    ensures Inv(c, s)
  {}

  // ---- one step of the worker ----------------------------------------------

  ghost predicate GoodStep(j: Job, step: Step, a: Attempt) {
    && GoodWorld(a.world) && ValidKey(j.key) && j.s3UserName == S3UserName(j.key)
    && About(j, step, a)
  }

  /** What a step leaves of its own claim and S3User: the claim is never created,
      keeps its name, and an S3User that was written refers to it. */
  ghost predicate OwnObjects(j: Job, a: Attempt, b: Attempt) {
    && b.vars.claim.key == j.key
    && (j.key in b.world.claims ==> j.key in a.world.claims && b.world.claims[j.key].key == j.key)
    && (j.s3UserName in b.world.s3users ==>
          (j.s3UserName in a.world.s3users && b.world.s3users[j.s3UserName] == a.world.s3users[j.s3UserName])
          || RequestsOf(b.world.s3users[j.s3UserName]) == {j.key})
  }

  predicate OwnClaim(j: Job, a: Attempt) {
    a.vars.claim.key == j.key && (j.key in a.world.claims ==> a.world.claims[j.key].key == j.key)
  }

  lemma S3UserStepOwn(j: Job, a: Attempt)
    requires OwnClaim(j, a)
    ensures OwnObjects(j, a, DoEnsureS3User(j, a)) && OwnObjects(j, a, DoRemoveS3User(j.s3UserName, a))
  {}

  lemma StatusStepOwn(j: Job, a: Attempt)
    requires OwnClaim(j, a)
    ensures OwnObjects(j, a, DoUpdateClaimStatus(j.s3UserName, a))
  {
    StatusStepEnds(j.s3UserName, a);
  }

  lemma WriteClaimOwn(j: Job, claim: Claim, a: Attempt)
    requires OwnClaim(j, a) && claim.key == j.key
    ensures OwnObjects(j, a, WriteClaim(claim, a))
  {}

  lemma OwnObjectsStayGood(j: Job, step: Step, ch: Choices, a: Attempt)
    requires OwnClaim(j, a) && Legal(j, step, ch, a)
    ensures OwnObjects(j, a, Do(j, step, ch, a))
  {
    var claim := a.vars.claim;
    match step
    case EnsureCephUser => EnsureUserTouches(j, a);
    case EnsureCephUserQuota => EnsureQuotaTouches(j, a);
    case RetrieveCephUser =>
    case RemoveCephUser => RemoveUserTouches(j, a);
    case SyncSubusers => SyncTouches(j, ch.subusers, Tags(j.id, a), a);
    case EnsureOtherSecrets => SecretsTouch(j, a.vars.desired, a);
    case EnsureAdminSecret => EnsureSecretTouches(j, AdminDemand(j.id, claim.spec), a);
    case EnsureReadonlySecret => EnsureSecretTouches(j, ReadonlyDemand(j.id, claim.spec), a);
    case UpdateQuotaInclusive => QuotaStepTouches(j, ch.quotas, true, a);
    case UpdateQuotaExclusive => QuotaStepTouches(j, ch.quotas, false, a);
    case EnsureS3User => S3UserStepOwn(j, a);
    case RemoveS3User => S3UserStepOwn(j, a);
    case UpdateClaimStatus => StatusStepOwn(j, a);
    case AddFinalizer => WriteClaimOwn(j, claim.(finalizers := claim.finalizers + {CLAIM_FINALIZER}), a);
    case RemoveFinalizer => WriteClaimOwn(j, claim.(finalizers := claim.finalizers - {CLAIM_FINALIZER}), a);
  }

  /** The worker keeps its claim's identity in memory and the world good. */
  lemma WorkKeepsGood(j: Job, step: Step, ch: Choices, a: Attempt)
    requires GoodStep(j, step, a) && Legal(j, step, ch, a)
    ensures var b := Do(j, step, ch, a);
            && GoodWorld(b.world)
            && (a.vars.claim.key == j.key ==> b.vars.claim.key == j.key)
            && (a.vars.claim.key != j.key ==> b.vars.claim == ZERO_CLAIM)
  {
    StepTouches(j, step, ch, a);
    if a.vars.claim.key == j.key {
      OwnObjectsStayGood(j, step, ch, a);
      OthersStayGood(j, a, Do(j, step, ch, a));
    } else {
      ZeroClaimMemory(j, step, ch, a);
      ZeroClaimRemoves(j, step, ch, a);
      OthersStayGood(j, a, Do(j, step, ch, a));
    }
  }

  /** Without a claim in memory the worker only removes things. */
  lemma ZeroClaimRemoves(j: Job, step: Step, ch: Choices, a: Attempt)
    requires a.vars.claim == ZERO_CLAIM && step in CLEANUP && Legal(j, step, ch, a)
    ensures var w := Do(j, step, ch, a).world;
            w.claims == a.world.claims && (w.s3users == a.world.s3users || w.s3users == a.world.s3users - {j.s3UserName})
  {
    match step
    case RemoveCephUser => RemoveUserTouches(j, a);
    case RemoveS3User =>
    case UpdateQuotaExclusive => QuotaStepTouches(j, ch.quotas, false, a);
    case RemoveFinalizer =>
  }

  lemma OthersStayGood(j: Job, a: Attempt, b: Attempt)
    requires GoodWorld(a.world) && ValidKey(j.key) && j.s3UserName == S3UserName(j.key)
    requires a.world.claims - {j.key} == b.world.claims - {j.key}
    requires a.world.s3users - {j.s3UserName} == b.world.s3users - {j.s3UserName}
    requires j.key in b.world.claims ==> j.key in a.world.claims && b.world.claims[j.key].key == j.key
    requires j.s3UserName in b.world.s3users ==>
               (j.s3UserName in a.world.s3users && b.world.s3users[j.s3UserName] == a.world.s3users[j.s3UserName])
               || RequestsOf(b.world.s3users[j.s3UserName]) == {j.key}
    ensures GoodWorld(b.world)
  {
    forall k | k in b.world.claims ensures ValidKey(k) && b.world.claims[k].key == k {
      if k != j.key {
        assert k in b.world.claims - {j.key};
      }
    }
    forall n | n in b.world.s3users ensures RefersBack(n, b.world.s3users[n]) {
      var u := b.world.s3users[n];
      if n != j.s3UserName {
        assert n in b.world.s3users - {j.s3UserName};
      } else if RequestsOf(u) == {j.key} {
        assert j.key in RequestsOf(u);
      }
    }
  }

  // ---- the worker's progress -----------------------------------------------

  lemma ProvisionProgress(j: Job, n: nat, ch: Choices, a: Attempt)
    requires n < 11 && a.vars.claim.key == j.key && Legal(j, PROVISION[n], ch, a)
    requires n >= 8 ==> j.s3UserName in a.world.s3users
    ensures var b := Do(j, PROVISION[n], ch, a);
            !b.halted && n >= 7 ==> j.s3UserName in b.world.s3users
  {
    match n
    case 7 =>
    case 8 => StatusStepKeepsS3Users(j, a);
    case 9 => QuotaStepTouches(j, ch.quotas, true, a);
    case 10 => WriteClaimKeepsS3Users(a.vars.claim.(finalizers := a.vars.claim.finalizers + {CLAIM_FINALIZER}), a);
    case _ =>
  }

  lemma StatusStepKeepsS3Users(j: Job, a: Attempt)
    ensures var w := DoUpdateClaimStatus(j.s3UserName, a).world; w.s3users == a.world.s3users && w.users == a.world.users
  {
    StatusStepEnds(j.s3UserName, a);
  }

  lemma WriteClaimKeepsS3Users(claim: Claim, a: Attempt)
    ensures var w := WriteClaim(claim, a).world; w.s3users == a.world.s3users && w.users == a.world.users
  {}

  lemma CleanupProgress(j: Job, n: nat, ch: Choices, a: Attempt)
    requires n < 4 && Legal(j, CLEANUP[n], ch, a)
    requires n >= 1 ==> j.id !in a.world.users
    ensures var b := Do(j, CLEANUP[n], ch, a);
            !b.halted ==> j.id !in b.world.users
  {
    match n
    case 0 =>
    case 1 =>
    case 2 => QuotaStepTouches(j, ch.quotas, false, a);
    case 3 => WriteClaimKeepsS3Users(a.vars.claim.(finalizers := a.vars.claim.finalizers - {CLAIM_FINALIZER}), a);
  }

  // ---- every action keeps the invariant ------------------------------------

  /** Other keys are watched after a step of the worker as they were before. */
  lemma WorkKeepsOthersWatched(c: Config, s: State, ch: Choices, faults: Faults, k: Key)
    requires Inv(c, s) && Enabled(c, s, Work(ch, faults)) && ValidKey(k) && k != s.worker.key
    requires About(JobFor(c, s.worker.key), s.worker.steps[0], Attempt(s.world, s.worker.vars, faults, false, None))
    ensures var s' := Next(c, s, Work(ch, faults));
            && (HasUser(c, s', k) <==> HasUser(c, s, k))
            && (k in s'.world.claims <==> k in s.world.claims)
            && (S3UserName(k) in s'.world.s3users <==> S3UserName(k) in s.world.s3users)
            && (k in s.queue ==> k in s'.queue)
  {
    var key := s.worker.key;
    var j, a, id := JobFor(c, key), Attempt(s.world, s.worker.vars, faults, false, None), CephUserFullId(c.clusterName, k);
    StepTouches(j, s.worker.steps[0], ch, a);
    var w' := Do(j, s.worker.steps[0], ch, a).world;
    if id == j.id {
      FullIdInjective(c.clusterName, k, key);
    }
    if S3UserName(k) == j.s3UserName {
      S3UserNameInjective(k, key);
    }
    assert id in s.world.users - {j.id} <==> id in w'.users - {j.id};
    assert k in s.world.claims - {key} <==> k in w'.claims - {key};
    assert S3UserName(k) in s.world.s3users - {j.s3UserName} <==> S3UserName(k) in w'.s3users - {j.s3UserName};
  }

  /** What the worker is about to do fits what it has in memory. */
  lemma WorkerIsAbout(c: Config, s: State, faults: Faults)
    requires Inv(c, s) && s.worker.Busy? && s.worker.steps != []
    ensures GoodStep(JobFor(c, s.worker.key), s.worker.steps[0], Attempt(s.world, s.worker.vars, faults, false, None))
  {
    var k, steps, vars := s.worker.key, s.worker.steps, s.worker.vars;
    if n: nat :| Provisioning(k, n, steps, vars, s.world, s.queue) {
    } else {
      var n: nat :| Cleaning(c, k, n, steps, vars, s.world);
      assert steps[0] == CLEANUP[n];
    }
  }

  lemma WorkKeepsWorkerGood(c: Config, s: State, ch: Choices, faults: Faults)
    requires Inv(c, s) && Enabled(c, s, Work(ch, faults))
    ensures var s' := Next(c, s, Work(ch, faults));
            GoodWorker(c, s'.worker, s'.world, s'.queue) && GoodWorld(s'.world)
  {
    var k, steps, vars := s.worker.key, s.worker.steps, s.worker.vars;
    var j, a := JobFor(c, k), Attempt(s.world, s.worker.vars, faults, false, None);
    WorkerIsAbout(c, s, faults);
    WorkKeepsGood(j, steps[0], ch, a);
    var b := WorkResult(c, s, ch, faults);
    if n: nat :| Provisioning(k, n, steps, vars, s.world, s.queue) {
      assert steps[0] == PROVISION[n] && steps[1..] == PROVISION[n + 1..];
      if n < 8 || j.s3UserName in s.world.s3users {
        ProvisionProgress(j, n, ch, a);
      }
      assert !b.halted ==> Provisioning(k, n + 1, steps[1..], b.vars, b.world, Next(c, s, Work(ch, faults)).queue);
    } else {
      var n: nat :| Cleaning(c, k, n, steps, vars, s.world);
      assert steps[0] == CLEANUP[n] && steps[1..] == CLEANUP[n + 1..];
      CleanupProgress(j, n, ch, a);
      assert !b.halted ==> Cleaning(c, k, n + 1, steps[1..], b.vars, b.world);
    }
  }

  lemma WorkKeepsInv(c: Config, s: State, ch: Choices, faults: Faults)
    requires Inv(c, s) && Enabled(c, s, Work(ch, faults))
    ensures Inv(c, Next(c, s, Work(ch, faults)))
  {
    var s' := Next(c, s, Work(ch, faults));
    WorkerIsAbout(c, s, faults);
    WorkKeepsWorkerGood(c, s, ch, faults);
    EventsAreValid(s.world, s'.world);
    forall k | ValidKey(k) && HasUser(c, s', k) ensures Watched(s', k) {
      if k != s.worker.key {
        WorkKeepsOthersWatched(c, s, ch, faults, k);
      }
    }
  }

  lemma OneClaimWrite(w: World, w': World, k: Key)
    requires GoodWorld(w) && ValidKey(k) && w'.s3users == w.s3users
    requires w'.claims == w.claims - {k} || (k in w'.claims && w'.claims[k].key == k && w'.claims == w.claims[k := w'.claims[k]])
    ensures GoodWorld(w') && w'.claims - {k} == w.claims - {k}
  {}

  lemma EventsAreValid(w: World, w': World)
    requires GoodWorld(w) && GoodWorld(w')
    ensures forall k | k in Events(w, w') :: ValidKey(k)
  {}

  lemma UserActKeepsInv(c: Config, s: State, w': World, k: Key)
    requires Inv(c, s) && GoodWorld(w') && w' == s.world.(claims := w'.claims, rev := w'.rev)
    requires w'.claims - {k} == s.world.claims - {k}
    ensures Inv(c, UserAct(s, w'))
  {
    var s' := UserAct(s, w');
    EventsAreValid(s.world, w');
    GoodWorkerFrame(c, s.worker, s.world, w', s.queue, s'.queue);
    forall x | ValidKey(x) && HasUser(c, s', x) ensures Watched(s', x) {
      assert HasUser(c, s, x) && Watched(s, x);
      if x in s.world.claims && x !in w'.claims {
        assert x in Events(s.world, w');
      }
    }
  }

  lemma GoodWorkerFrame(c: Config, worker: Worker, w: World, w': World, queue: set<Key>, queue': set<Key>)
    requires GoodWorker(c, worker, w, queue) && w'.users == w.users && queue <= queue'
    requires worker.Busy? && S3UserName(worker.key) in w.s3users ==> S3UserName(worker.key) in w'.s3users || worker.key in queue'
    ensures GoodWorker(c, worker, w', queue')
  {
    if worker.Busy? {
      if n: nat :| Provisioning(worker.key, n, worker.steps, worker.vars, w, queue) {
        assert Provisioning(worker.key, n, worker.steps, worker.vars, w', queue');
      } else {
        var n: nat :| Cleaning(c, worker.key, n, worker.steps, worker.vars, w);
        assert Cleaning(c, worker.key, n, worker.steps, worker.vars, w');
      }
    }
  }

  /** Removing an S3User by hand is noticed: it queues a request for its claim. */
  lemma DroppedS3UserIsNoticed(w: World, name: string, k: Key)
    requires GoodWorld(w) && name in w.s3users && ValidKey(k) && name == S3UserName(k)
    ensures k in Events(w, DeleteS3User(w, name))
  {
    var u := w.s3users[name];
    assert RefersBack(name, u);
    S3UserNameInjective(k, u.claimRef.value.key);
    assert k in RequestsOf(u);
  }

  lemma DropKeepsInv(c: Config, s: State, name: string)
    requires Inv(c, s) && name in s.world.s3users
    ensures Inv(c, UserAct(s, DeleteS3User(s.world, name)))
  {
    var w' := DeleteS3User(s.world, name);
    var s' := UserAct(s, w');
    assert GoodWorld(w');
    EventsAreValid(s.world, w');
    if s.worker.Busy? && S3UserName(s.worker.key) == name {
      DroppedS3UserIsNoticed(s.world, name, s.worker.key);
    }
    GoodWorkerFrame(c, s.worker, s.world, w', s.queue, s'.queue);
    forall x | ValidKey(x) && HasUser(c, s', x) ensures Watched(s', x) {
      assert HasUser(c, s, x) && Watched(s, x);
      if S3UserName(x) == name {
        DroppedS3UserIsNoticed(s.world, name, x);
      }
    }
  }

  lemma FinishKeepsInv(c: Config, s: State)
    requires Inv(c, s) && Enabled(c, s, Finish)
    ensures Inv(c, Next(c, s, Finish))
  {
    var s', k := Next(c, s, Finish), s.worker.key;
    if n: nat :| Provisioning(k, n, s.worker.steps, s.worker.vars, s.world, s.queue) {
      assert n == 11;
    } else {
      var n: nat :| Cleaning(c, k, n, s.worker.steps, s.worker.vars, s.world);
      assert n == 4;
    }
    forall x | ValidKey(x) && HasUser(c, s', x) ensures Watched(s', x) {
      assert HasUser(c, s, x) && Watched(s, x);
    }
  }

  lemma BeginKeepsInv(c: Config, s: State, k: Key, stale: Vars)
    requires Inv(c, s) && Enabled(c, s, Begin(k, stale))
    ensures Inv(c, Next(c, s, Begin(k, stale)))
  {
    var s' := Next(c, s, Begin(k, stale));
    assert PROVISION[0..] == PROVISION && CLEANUP[0..] == CLEANUP;
    if StepsFor(s.world, k) == PROVISION && k in s.world.claims {
      assert Provisioning(k, 0, s'.worker.steps, s'.worker.vars, s.world, s'.queue);
    } else {
      assert Cleaning(c, k, 0, s'.worker.steps, s'.worker.vars, s.world);
    }
    forall x | ValidKey(x) && HasUser(c, s', x) ensures Watched(s', x) {
      assert HasUser(c, s, x) && Watched(s, x);
    }
  }

  lemma UnknownIsNotListed(w: World, k: Key)
    requires forall n | n in w.s3users :: RefersBack(n, w.s3users[n])
    requires k !in w.claims && S3UserName(k) !in w.s3users
    ensures k !in Listed(w)
  {
    forall m | m in w.s3users ensures k !in RequestsOf(w.s3users[m]) {
      assert RefersBack(m, w.s3users[m]);
    }
  }

  /** A restart orphans exactly the users that are exposed when it happens. */
  lemma RestartOrphansExposed(c: Config, s: State, k: Key)
    requires Inv(c, s) && ValidKey(k)
    ensures Orphaned(c, Next(c, s, Restart), k) <==> Exposed(c, s, k)
  {
    var n := S3UserName(k);
    if n in s.world.s3users {
      assert RefersBack(n, s.world.s3users[n]);
      S3UserNameInjective(k, s.world.s3users[n].claimRef.value.key);
      assert k in RequestsOf(s.world.s3users[n]);
    }
    if k !in s.world.claims && n !in s.world.s3users {
      UnknownIsNotListed(s.world, k);
    }
  }

  lemma RestartKeepsInv(c: Config, s: State)
    requires Inv(c, s) && forall k | ValidKey(k) :: !Exposed(c, s, k)
    ensures Inv(c, Next(c, s, Restart))
  {
    var s' := Next(c, s, Restart);
    forall k | ValidKey(k) && HasUser(c, s', k) ensures Watched(s', k) {
      RestartOrphansExposed(c, s, k);
      assert !Exposed(c, s, k);
    }
    assert forall n | n in s.world.s3users :: RefersBack(n, s.world.s3users[n]);
  }

  /** The restarts the property is claimed for. */
  ghost predicate Safe(c: Config, s: State, act: Action) {
    act == Restart ==> forall k | ValidKey(k) :: !Exposed(c, s, k)
  }

  lemma CreateKeepsInv(c: Config, s: State, claim: Claim)
    requires Inv(c, s) && Enabled(c, s, CreateClaim(claim))
    ensures Inv(c, UserAct(s, Stored(s.world, claim)))
  {
    OneClaimWrite(s.world, Stored(s.world, claim), claim.key);
    UserActKeepsInv(c, s, Stored(s.world, claim), claim.key);
  }

  lemma DeleteKeepsInv(c: Config, s: State, k: Key)
    requires Inv(c, s) && k in s.world.claims
    ensures Inv(c, UserAct(s, Deleted(s.world, k)))
  {
    var w' := Deleted(s.world, k);
    OneClaimWrite(s.world, w', k);
    UserActKeepsInv(c, s, w', k);
  }

  lemma EditKeepsInv(c: Config, s: State, k: Key, spec: ClaimSpec, finalizers: set<string>)
    requires Inv(c, s) && k in s.world.claims
    ensures Inv(c, UserAct(s, Edited(s.world, k, spec, finalizers)))
  {
    OneClaimWrite(s.world, Edited(s.world, k, spec, finalizers), k);
    UserActKeepsInv(c, s, Edited(s.world, k, spec, finalizers), k);
  }

  lemma ActionKeepsInv(c: Config, s: State, act: Action)
    requires Inv(c, s) && Enabled(c, s, act) && Safe(c, s, act)
    ensures Inv(c, Next(c, s, act))
  {
    match act
    case CreateClaim(claim) => CreateKeepsInv(c, s, claim);
    case DeleteClaim(k) => DeleteKeepsInv(c, s, k);
    case UpdateClaim(k, spec, finalizers) => EditKeepsInv(c, s, k, spec, finalizers);
    case DropS3User(name) => DropKeepsInv(c, s, name);
    case Begin(k, stale) => BeginKeepsInv(c, s, k, stale);
    case Work(ch, faults) => WorkKeepsInv(c, s, ch, faults);
    case Finish => FinishKeepsInv(c, s);
    case Restart => RestartKeepsInv(c, s);
  }

  // ---- runs ----------------------------------------------------------------

  ghost predicate IsRun(c: Config, states: seq<State>, acts: seq<Action>) {
    && |states| == |acts| + 1
    && forall i | 0 <= i < |acts| :: Moves(c, states[i], acts[i], states[i + 1])
  }

  ghost predicate Moves(c: Config, s: State, act: Action, s': State) {
    Enabled(c, s, act) && Safe(c, s, act) && s' == Next(c, s, act)
  }

  /** In every reachable state no Ceph user of a claim name is orphaned. */
  lemma {:induction false} NoOrphans(c: Config, states: seq<State>, acts: seq<Action>, i: nat, k: Key)
    requires IsRun(c, states, acts) && Inv(c, states[0]) && i < |states| && ValidKey(k)
    ensures !Orphaned(c, states[i], k)
  {
    RunKeepsInv(c, states, acts, i);
  }

  lemma {:induction false} RunKeepsInv(c: Config, states: seq<State>, acts: seq<Action>, i: nat)
    requires IsRun(c, states, acts) && Inv(c, states[0]) && i < |states|
    ensures Inv(c, states[i])
  {
    if i > 0 {
      RunKeepsInv(c, states, acts, i - 1);
      assert Moves(c, states[i - 1], acts[i - 1], states[i]);
      ActionKeepsInv(c, states[i - 1], acts[i - 1]);
    }
  }

  // ---- where exposure comes from -------------------------------------------

  /** A step of Provision removes neither claim nor S3User, and only the first one
      can create the user. */
  ghost predicate KeepsObjects(j: Job, n: nat, w: World, w': World) {
    && (j.key in w.claims ==> j.key in w'.claims)
    && (j.s3UserName in w.s3users ==> j.s3UserName in w'.s3users)
    && (n >= 1 && j.id in w'.users ==> j.id in w.users)
  }

  lemma SyncKeepsUser(id: string, name: string, tag: Subusers.Tag, a: Attempt)
    ensures id in SyncOne(id, name, tag, a).world.users ==> id in a.world.users
  {}

  lemma {:induction false} SyncAllKeepsUser(id: string, order: seq<string>, tags: map<string, Subusers.Tag>, a: Attempt)
    ensures id in SyncAll(id, order, tags, a).world.users ==> id in a.world.users
  {
    if order != [] {
      var b, name := SyncAll(id, order[..|order| - 1], tags, a), order[|order| - 1];
      SyncAllKeepsUser(id, order[..|order| - 1], tags, a);
      if !b.halted && name in tags {
        SyncKeepsUser(id, name, tags[name], b);
      }
    }
  }

  lemma SyncKeepsObjects(j: Job, order: seq<string>, a: Attempt)
    requires a.vars.claim.key == j.key
    ensures KeepsObjects(j, 2, a.world, SyncAll(j.id, order, Tags(j.id, a), a).world)
  {
    SyncTouches(j, order, Tags(j.id, a), a);
    SyncAllKeepsUser(j.id, order, Tags(j.id, a), a);
  }

  lemma SecretKeeps(j: Job, d: Demand, a: Attempt)
    ensures KeepsObjects(j, 4, a.world, EnsureSecret(d, a).world)
  {
    EnsureSecretEntry(d, a);
  }

  lemma EnsureQuotaKeeps(j: Job, a: Attempt)
    ensures KeepsObjects(j, 1, a.world, DoEnsureCephUserQuota(j.id, a).world)
  {}

  lemma ObjectStepsKeep(j: Job, a: Attempt)
    requires a.vars.claim.key == j.key
    ensures KeepsObjects(j, 7, a.world, DoEnsureS3User(j, a).world)
    ensures KeepsObjects(j, 8, a.world, DoUpdateClaimStatus(j.s3UserName, a).world)
  {}

  lemma AddFinalizerKeeps(j: Job, a: Attempt)
    requires a.vars.claim.key == j.key
    ensures KeepsObjects(j, 10, a.world, DoAddFinalizer(a).world)
  {
    assert CLAIM_FINALIZER in a.vars.claim.finalizers + {CLAIM_FINALIZER};
  }

  lemma CredentialStepKeeps(n: nat, step: Step, j: Job, ch: Choices, a: Attempt)
    requires 1 <= n && a.vars.claim.key == j.key && OnCredentials(step) && step !in {EnsureCephUser, RemoveCephUser}
    ensures KeepsObjects(j, n, a.world, Do(j, step, ch, a).world)
  {
    match step
    case EnsureCephUserQuota => EnsureQuotaKeeps(j, a);
    case SyncSubusers => SyncKeepsObjects(j, ch.subusers, a);
    case RetrieveCephUser =>
    case EnsureAdminSecret => SecretKeeps(j, AdminDemand(j.id, a.vars.claim.spec), a);
    case EnsureReadonlySecret => SecretKeeps(j, ReadonlyDemand(j.id, a.vars.claim.spec), a);
    case EnsureOtherSecrets => SecretsTouch(j, a.vars.desired, a);
  }

  lemma ProvisionKeepsObjects(j: Job, n: nat, ch: Choices, a: Attempt)
    requires n < 11 && a.vars.claim.key == j.key && Legal(j, PROVISION[n], ch, a)
    ensures KeepsObjects(j, n, a.world, Do(j, PROVISION[n], ch, a).world)
  {
    if 1 <= n <= 6 {
      CredentialStepKeeps(n, PROVISION[n], j, ch, a);
    } else {
      match n
      case 0 => EnsureUserTouches(j, a);
      case 7 => ObjectStepsKeep(j, a);
      case 8 => ObjectStepsKeep(j, a);
      case 9 => QuotaStepTouches(j, ch.quotas, true, a);
      case 10 => AddFinalizerKeeps(j, a);
    }
  }

  /** A user becomes exposed only when its claim or its S3User is removed by somebody
      else, or when a Provision that read the claim before it vanished creates the user after.  No
      other step of the controller exposes a user, in particular none of Cleanup. */
  lemma ExposureSources(c: Config, s: State, act: Action, k: Key)
    requires Inv(c, s) && Enabled(c, s, act) && ValidKey(k)
    requires !Exposed(c, s, k) && Exposed(c, Next(c, s, act), k)
    ensures || (act.DeleteClaim? && act.k == k) || (act.UpdateClaim? && act.k == k)
            || (act.DropS3User? && act.name == S3UserName(k))
            || (act.Work? && s.worker.key == k && s.worker.steps[0] == EnsureCephUser && k !in s.world.claims)
  {
    if !act.Work? {
      OtherExposure(c, s, act, k);
    } else if s.worker.key != k {
      WorkerIsAbout(c, s, act.faults);
      WorkKeepsOthersWatched(c, s, act.ch, act.faults, k);
    } else {
      OwnExposure(c, s, act.ch, act.faults);
    }
  }

  lemma OtherExposure(c: Config, s: State, act: Action, k: Key)
    requires Enabled(c, s, act) && !act.Work?
    requires !Exposed(c, s, k) && Exposed(c, Next(c, s, act), k)
    ensures || (act.DeleteClaim? && act.k == k) || (act.UpdateClaim? && act.k == k)
            || (act.DropS3User? && act.name == S3UserName(k))
  {
    assert Next(c, s, act).world.users == s.world.users;
  }

  lemma OwnExposure(c: Config, s: State, ch: Choices, faults: Faults)
    requires Inv(c, s) && Enabled(c, s, Work(ch, faults))
    requires !Exposed(c, s, s.worker.key) && Exposed(c, Next(c, s, Work(ch, faults)), s.worker.key)
    ensures s.worker.steps[0] == EnsureCephUser && s.worker.key !in s.world.claims
  {
    var k, steps, vars := s.worker.key, s.worker.steps, s.worker.vars;
    var j, a := JobFor(c, k), Attempt(s.world, vars, faults, false, None);
    if n: nat :| Provisioning(k, n, steps, vars, s.world, s.queue) {
      assert steps[0] == PROVISION[n];
      ProvisionKeepsObjects(j, n, ch, a);
    } else {
      var n: nat :| Cleaning(c, k, n, steps, vars, s.world);
      assert steps[0] == CLEANUP[n];
      CleanupKeepsUserGone(j, n, ch, a);
    }
  }

  /** Cleanup's first step either removes the user or changes nothing, and once it
      is gone it stays gone. */
  lemma CleanupKeepsUserGone(j: Job, n: nat, ch: Choices, a: Attempt)
    requires n < 4 && Legal(j, CLEANUP[n], ch, a) && (n >= 1 ==> j.id !in a.world.users)
    ensures var w := Do(j, CLEANUP[n], ch, a).world; j.id !in w.users || w == a.world
  {
    match n
    case 0 =>
    case 1 =>
    case 2 => QuotaStepTouches(j, ch.quotas, false, a);
    case 3 => WriteClaimKeepsS3Users(a.vars.claim.(finalizers := a.vars.claim.finalizers - {CLAIM_FINALIZER}), a);
  }

  /** The order of Cleanup matters: were the S3User removed first, a world in which a
      claim lost its finalizer by hand would become exposed by the controller. */
  lemma RemovingS3UserFirstExposes(c: Config, s: State, k: Key, vars: Vars, faults: Faults)
    requires HasUser(c, s, k) && k !in s.world.claims
    ensures var b := DoRemoveS3User(S3UserName(k), Attempt(s.world, vars, faults, false, None));
            !b.halted ==> Exposed(c, s.(world := b.world), k)
  {}

  lemma UserIsCreated(j: Job, a: Attempt)
    requires a.faults == Never && !a.halted
    ensures var b := DoEnsureCephUser(j, a);
            && !b.halted && j.id in b.world.users
            && b.world.claims == a.world.claims && b.world.s3users == a.world.s3users
  {}

  /** The remaining gap is real: a claim that is deleted before Provision reaches the
      S3User step leaves a state in which a restart orphans the Ceph user. */
  lemma GapIsReachable(c: Config, s0: State, claim: Claim, stale: Vars, ch: Choices)
    requires Inv(c, s0) && s0.worker.Idle? && ValidKey(claim.key) && !claim.deleting && claim.finalizers == {}
    requires claim.key !in s0.world.claims && S3UserName(claim.key) !in s0.world.s3users
    ensures var k := claim.key;
            var s1 := Next(c, s0, CreateClaim(claim));
            Enabled(c, s1, Begin(k, stale)) &&
            var s2 := Next(c, s1, Begin(k, stale));
            Enabled(c, s2, Work(ch, Never)) &&
            var s3 := Next(c, s2, Work(ch, Never));
            Enabled(c, s3, DeleteClaim(k)) &&
            var s4 := Next(c, s3, DeleteClaim(k));
            Orphaned(c, Next(c, s4, Restart), k)
  {
    var k := claim.key;
    var s1 := Next(c, s0, CreateClaim(claim));
    assert k in Events(s0.world, s1.world);
    GapOpens(c, Next(c, s1, Begin(k, stale)), k, stale.(claim := s1.world.claims[k]), ch);
  }

  lemma GapOpens(c: Config, s: State, k: Key, vars: Vars, ch: Choices)
    requires s.worker == Busy(k, PROVISION, vars) && ValidKey(k)
    requires k in s.world.claims && s.world.claims[k].finalizers == {} && S3UserName(k) !in s.world.s3users
    requires forall n | n in s.world.s3users :: RefersBack(n, s.world.s3users[n])
    ensures Enabled(c, s, Work(ch, Never))
    ensures var s' := Next(c, s, Work(ch, Never));
            Enabled(c, s', DeleteClaim(k)) && Orphaned(c, Next(c, Next(c, s', DeleteClaim(k)), Restart), k)
  {
    UserIsCreated(JobFor(c, k), Attempt(s.world, vars, Never, false, None));
    var s' := Next(c, s, Work(ch, Never));
    UnknownIsNotListed(Next(c, s', DeleteClaim(k)).world, k);
  }
}
