/** The usage published in the ResourceQuotas of a namespace, after any reconcile
    that ran to its end, from any state and whatever earlier attempts did. */
module Usage {
  import opened Naming
  import opened Quotas
  import opened Store
  import opened Accounting
  import opened Reconcile
  import opened Isolation
  import opened Convergence

  /** What the chain from the n-th step on needs to publish the total in the end. */
  ghost predicate Publishes(n: nat, j: Job, ch: Choices, a: Attempt)
    requires n <= 11
  {
    && InSync(j, a) && !a.vars.claim.deleting && !a.halted
    && LegalChain(j, PROVISION[n..], ch, a) && !Chain(j, PROVISION[n..], ch, a).halted
    && (n >= 10 ==> UsageRight(j.key.ns, a.world.quotas, a.world.claims))
  }

  lemma NextPublishes(n: nat, j: Job, ch: Choices, a: Attempt)
    requires n < 11 && Publishes(n, j, ch, a)
    ensures var b := Do(j, PROVISION[n], ch, a);
            Publishes(n + 1, j, ch, b) && Chain(j, PROVISION[n..], ch, a) == Chain(j, PROVISION[n + 1..], ch, b)
  {
    Unroll(n, j, ch, a);
    StepMemory(j, PROVISION[n], ch, a);
    if n == 9 {
      InclusiveStepPublishes(j, ch.quotas, a);
    } else if n == 10 {
      FinalizerKeepsUsage(j, a);
    }
  }

  lemma {:induction false} ProvisionPublishes(n: nat, j: Job, ch: Choices, a: Attempt)
    requires n <= 11 && Publishes(n, j, ch, a)
    ensures var w := Chain(j, PROVISION[n..], ch, a).world;
            UsageRight(j.key.ns, w.quotas, w.claims)
    decreases 11 - n
  {
    if n < 11 {
      NextPublishes(n, j, ch, a);
      ProvisionPublishes(n + 1, j, ch, Do(j, PROVISION[n], ch, a));
    }
  }

  lemma InclusiveStepPublishes(j: Job, order: seq<Key>, a: Attempt)
    requires InSync(j, a) && !a.halted && Enumerates(order, QuotasIn(a.world, j.key.ns))
    requires !DoUpdateQuota(j.key.ns, order, true, a).halted
    ensures var w := DoUpdateQuota(j.key.ns, order, true, a).world;
            UsageRight(j.key.ns, w.quotas, w.claims)
  {
    QuotaStepTouches(j, order, true, a);
    QuotaStepShows(j, order, true, a);
    OthersPlusStoredIsTotal(a.world.claims, {j.key.ns}, j.key);
  }

  lemma FinalizerKeepsUsage(j: Job, a: Attempt)
    requires InSync(j, a) && !a.vars.claim.deleting && UsageRight(j.key.ns, a.world.quotas, a.world.claims)
    ensures var w := DoAddFinalizer(a).world; UsageRight(j.key.ns, w.quotas, w.claims)
  {
    var claim, b := a.vars.claim, DoAddFinalizer(a);
    if CLAIM_FINALIZER !in claim.finalizers {
      WriteClaimMemory(j, claim.(finalizers := claim.finalizers + {CLAIM_FINALIZER}), a);
    }
    TotalInFrame(a.world.claims, b.world.claims, {j.key.ns});
  }

  // ---- Cleanup -------------------------------------------------------------

  /** What a cleanup starts from: the claim in memory is the one stored, or there is
      none and then, names never being empty, nobody is excluded from the sum. */
  ghost predicate CleanupReady(j: Job, a: Attempt) {
    && !a.halted
    && ((InSync(j, a) && a.vars.claim.deleting)
        || (a.vars.claim == ZERO_CLAIM && j.key !in a.world.claims && Key(j.key.ns, "") !in a.world.claims))
  }

  /** What has been achieved after n of the four steps. */
  ghost predicate CleanupStage(n: nat, j: Job, a: Attempt) {
    && CleanupReady(j, a)
    && (n >= 1 ==> j.id !in a.world.users)
    && (n >= 2 ==> j.s3UserName !in a.world.s3users)
    && (n >= 3 ==> UsageWithout(j, a.world))
  }

  /** The published usage is the total of all claims but this one. */
  ghost predicate UsageWithout(j: Job, w: World) {
    UsageRight(j.key.ns, w.quotas, w.claims - {j.key})
  }

  lemma ExclusiveStepPublishes(j: Job, order: seq<Key>, a: Attempt)
    requires CleanupStage(2, j, a) && Enumerates(order, QuotasIn(a.world, j.key.ns))
    requires !DoUpdateQuota(j.key.ns, order, false, a).halted
    ensures var b := DoUpdateQuota(j.key.ns, order, false, a);
            CleanupStage(3, j, b) && b.world.claims == a.world.claims
  {
    var claims, ns := a.world.claims, j.key.ns;
    QuotaStepTouches(j, order, false, a);
    QuotaStepShows(j, order, false, a);
    OthersIsTotalAfterRemoval(claims, {ns}, Key(ns, a.vars.claim.key.name));
    assert claims - {Key(ns, a.vars.claim.key.name)} == claims - {j.key} by {
      if a.vars.claim == ZERO_CLAIM {
        assert claims - {j.key} == claims == claims - {Key(ns, "")};
      }
    }
  }

  lemma RemoveUserStep(j: Job, a: Attempt)
    requires CleanupReady(j, a) && !DoRemoveCephUser(j.id, a).halted
    ensures var b := DoRemoveCephUser(j.id, a);
            CleanupStage(1, j, b) && b.world.claims == a.world.claims
  {}

  lemma RemoveS3UserStep(j: Job, a: Attempt)
    requires CleanupStage(1, j, a) && !DoRemoveS3User(j.s3UserName, a).halted
    ensures var b := DoRemoveS3User(j.s3UserName, a);
            CleanupStage(2, j, b) && b.world.claims == a.world.claims
  {}

  lemma RemoveFinalizerStep(j: Job, a: Attempt)
    requires CleanupStage(3, j, a) && !DoRemoveFinalizer(a).halted
    ensures var w := DoRemoveFinalizer(a).world;
            && j.id !in w.users && j.s3UserName !in w.s3users && UsageWithout(j, w)
            && (j.key in w.claims <==> j.key in a.world.claims && a.world.claims[j.key].finalizers != {CLAIM_FINALIZER})
  {
    var claim, b := a.vars.claim, DoRemoveFinalizer(a);
    if CLAIM_FINALIZER in claim.finalizers {
      WriteClaimMemory(j, claim.(finalizers := claim.finalizers - {CLAIM_FINALIZER}), a);
      assert b.world.claims - {j.key} == a.world.claims - {j.key};
    }
  }

  /** A cleanup that runs to its end, whether the claim is terminating or already
      missing: the Ceph user and the S3User are gone, the published
      usage is the total of the claims without this one, and this claim is gone too
      unless it was never marked by the operator or carries foreign finalizers. */
  lemma CleanupCompletes(c: Config, ch: Choices, w: World, stale: Vars, k: Key, faults: Faults)
    requires KeyedClaims(w) && k.name != "" && Key(k.ns, "") !in w.claims
    requires k in w.claims ==> w.claims[k].deleting
    requires LegalReconcile(c, ch, w, stale, k, faults) && !ReconcileKey(c, ch, w, stale, k, faults).halted
    ensures var j, w' := JobFor(c, k), ReconcileKey(c, ch, w, stale, k, faults).world;
            && j.id !in w'.users && j.s3UserName !in w'.s3users && UsageWithout(j, w')
            && (k in w'.claims <==> k in w.claims && w.claims[k].finalizers != {CLAIM_FINALIZER})
            && (k !in w'.claims ==> UsageRight(k.ns, w'.quotas, w'.claims))
  {
    var j, a := JobFor(c, k), Call(Start(w, stale, k, faults));
    assert CLEANUP[0..] == CLEANUP;
    CleanupRuns(0, j, ch, a);
    var w' := Chain(j, CLEANUP, ch, a).world;
    assert k !in w'.claims ==> w'.claims - {k} == w'.claims;
  }

  lemma {:induction false} CleanupRuns(n: nat, j: Job, ch: Choices, a: Attempt)
    requires n <= 3 && CleanupStage(n, j, a)
    requires LegalChain(j, CLEANUP[n..], ch, a) && !Chain(j, CLEANUP[n..], ch, a).halted
    ensures var w := Chain(j, CLEANUP[n..], ch, a).world;
            && j.id !in w.users && j.s3UserName !in w.s3users && UsageWithout(j, w)
            && (j.key in w.claims <==> j.key in a.world.claims && a.world.claims[j.key].finalizers != {CLAIM_FINALIZER})
    decreases 3 - n
  {
    assert CLEANUP[n..][0] == CLEANUP[n] && CLEANUP[n..][1..] == CLEANUP[n + 1..];
    var b := Do(j, CLEANUP[n], ch, a);
    match n {
      case 0 => RemoveUserStep(j, a);
      case 1 => RemoveS3UserStep(j, a);
      case 2 => ExclusiveStepPublishes(j, ch.quotas, a);
      case 3 => RemoveFinalizerStep(j, a);
    }
    if n < 3 {
      CleanupRuns(n + 1, j, ch, b);
    }
  }

  /** Published usage agrees with the simple sum of the claims that remain, after
      any reconcile that runs to its end: always after a Provision, and after a
      Cleanup unless a foreign finalizer keeps the terminating claim. */
  lemma PublishedUsageIsTotal(c: Config, ch: Choices, w: World, stale: Vars, k: Key, faults: Faults)
    requires KeyedClaims(w) && k.name != "" && Key(k.ns, "") !in w.claims
    requires LegalReconcile(c, ch, w, stale, k, faults) && !ReconcileKey(c, ch, w, stale, k, faults).halted
    requires k in w.claims && w.claims[k].deleting ==> w.claims[k].finalizers == {CLAIM_FINALIZER}
    ensures var w' := ReconcileKey(c, ch, w, stale, k, faults).world;
            UsageRight(k.ns, w'.quotas, w'.claims)
  {
    var j, a := JobFor(c, k), Call(Start(w, stale, k, faults));
    if k !in w.claims || w.claims[k].deleting {
      CleanupCompletes(c, ch, w, stale, k, faults);
    } else {
      assert PROVISION[0..] == PROVISION;
      ProvisionPublishes(0, j, ch, a);
    }
  }

  /** With a foreign finalizer the claim stays although its request has been taken out
      of the published usage: that is then the total exactly if the request is zero. */
  lemma ForeignFinalizerHidesRequest(c: Config, ch: Choices, w: World, stale: Vars, k: Key, faults: Faults, q: Key)
    requires KeyedClaims(w) && k.name != "" && Key(k.ns, "") !in w.claims
    requires k in w.claims && w.claims[k].deleting && w.claims[k].finalizers != {CLAIM_FINALIZER}
    requires LegalReconcile(c, ch, w, stale, k, faults) && !ReconcileKey(c, ch, w, stale, k, faults).halted
    requires q.ns == k.ns && q in ReconcileKey(c, ch, w, stale, k, faults).world.quotas
    ensures var w' := ReconcileKey(c, ch, w, stale, k, faults).world;
            && k in w'.claims
            && var request := w'.claims[k].spec.quota;
               UsageRight(k.ns, w'.quotas, w'.claims)
               <==> request.objects == 0 && request.size == 0 && request.buckets % TWO64 == 0
  {
    CleanupCompletes(c, ch, w, stale, k, faults);
    var w' := ReconcileKey(c, ch, w, stale, k, faults).world;
    var without := TotalIn(w'.claims - {k}, {k.ns});
    OthersPlusStoredIsTotal(w'.claims, {k.ns}, k);
    OthersIsTotalAfterRemoval(w'.claims, {k.ns}, k);
    ShownTotalIsUnique(k.ns, w'.quotas, q, Wrap(without), Wrap(TotalIn(w'.claims, {k.ns})));
    AddingNothing(without, w'.claims[k].spec.quota);
  }

  lemma ShownTotalIsUnique(ns: string, quotas: map<Key, ResourceQuota>, q: Key, shown: Quota, other: Quota)
    requires q in quotas && q.ns == ns && forall x | x in quotas && x.ns == ns :: Shows(quotas[x].used, shown)
    ensures (forall x | x in quotas && x.ns == ns :: Shows(quotas[x].used, other)) <==> other == shown
  {
    assert Shows(quotas[q].used, shown);
    ShowsOne(quotas[q].used, shown, other);
  }

  lemma ShowsOne(used: map<string, int>, shown: Quota, other: Quota)
    requires Shows(used, shown)
    ensures Shows(used, other) <==> other == shown
  {
    assert used[S3_OBJECTS] == shown.objects && used[S3_SIZE] == shown.size && used[S3_BUCKETS] == shown.buckets * NANO;
  }

  lemma AddingNothing(others: Quota, request: Quota)
    ensures Wrap(Plus(others, request)) == Wrap(others)
       <==> request.objects == 0 && request.size == 0 && request.buckets % TWO64 == 0
  {}

  // ---- a cleanup always gets there -----------------------------------------

  ghost predicate GoesOn(j: Job, step: Step, b: Attempt) {
    b.faults == Never && !b.halted && (step != RemoveFinalizer ==> InSync(j, b) || b.vars.claim == ZERO_CLAIM)
  }

  lemma CleanupStepGoesOn(j: Job, step: Step, ch: Choices, a: Attempt)
    requires step in CLEANUP && a.faults == Never && !a.halted && Legal(j, step, ch, a)
    requires InSync(j, a) || a.vars.claim == ZERO_CLAIM
    ensures GoesOn(j, step, Do(j, step, ch, a))
  {
    match step
    case RemoveCephUser => RemoveUserTouches(j, a);
    case RemoveS3User => S3UserStepsTouch(j, a);
    case UpdateQuotaExclusive =>
      QuotaStepTouches(j, ch.quotas, false, a);
      QuotaStepShows(j, ch.quotas, false, a);
    case RemoveFinalizer =>
      if CLAIM_FINALIZER in a.vars.claim.finalizers {
        WriteClaimMemory(j, a.vars.claim.(finalizers := a.vars.claim.finalizers - {CLAIM_FINALIZER}), a);
      }
  }

  lemma {:induction false} CleanupGoesOn(n: nat, j: Job, ch: Choices, a: Attempt)
    requires n <= 4 && a.faults == Never && !a.halted && LegalChain(j, CLEANUP[n..], ch, a)
    requires n < 4 ==> InSync(j, a) || a.vars.claim == ZERO_CLAIM
    ensures !Chain(j, CLEANUP[n..], ch, a).halted
    decreases 4 - n
  {
    if n < 4 {
      assert CLEANUP[n..][0] == CLEANUP[n] && CLEANUP[n..][1..] == CLEANUP[n + 1..];
      CleanupStepGoesOn(j, CLEANUP[n], ch, a);
      CleanupGoesOn(n + 1, j, ch, Do(j, CLEANUP[n], ch, a));
    }
  }

  /** Crash convergence of deletion: from any state, so wherever earlier cleanups or
      provisions stopped, one fault-free cleanup removes the Ceph user, the
      S3User and the claim, and the published usage no longer counts it. */
  lemma CleanupConverges(c: Config, ch: Choices, w: World, stale: Vars, k: Key)
    requires KeyedClaims(w) && k.name != "" && Key(k.ns, "") !in w.claims
    requires k in w.claims ==> w.claims[k].deleting && w.claims[k].finalizers == {CLAIM_FINALIZER}
    requires LegalReconcile(c, ch, w, stale, k, Never)
    ensures var j, b := JobFor(c, k), ReconcileKey(c, ch, w, stale, k, Never);
            && !b.halted && k !in b.world.claims && j.id !in b.world.users && j.s3UserName !in b.world.s3users
            && UsageRight(k.ns, b.world.quotas, b.world.claims)
  {
    assert CLEANUP[0..] == CLEANUP;
    CleanupGoesOn(0, JobFor(c, k), ch, Call(Start(w, stale, k, Never)));
    CleanupCompletes(c, ch, w, stale, k, Never);
  }
}
