/** The reconcile loop triggers itself: it writes its own claim and its S3User, and
    the S3User records the claim's resource version.  It still comes to rest. */
module Quiescence {
  import opened Naming
  import opened Quotas
  import opened Store
  import opened Accounting
  import opened Subusers
  import opened Reconcile
  import opened Isolation
  import opened Convergence
  import S = Sync

  /** Converged, and the S3User refers to the claim in its present version. */
  ghost predicate Settled(j: Job, w: World) {
    && Converged(j, w) && w.claims[j.key].key == j.key
    && var claim := w.claims[j.key];
       w.s3users[j.s3UserName] == S3User(j.s3UserClass, claim.spec.quota, Some(ObjectRef(j.key, claim.uid, claim.rv)))
  }

  /** The measure of the loop. */
  ghost function Unrest(j: Job, w: World): nat {
    if Settled(j, w) then 0 else if Converged(j, w) then 1 else 2
  }

  /** The same, as the steps see it. */
  ghost predicate Steady(j: Job, w: World) {
    && AsDemanded(j, w) && w.claims[j.key].key == j.key
    && w.s3users[j.s3UserName] == DesiredS3User(j, w.claims[j.key])
  }

  lemma SettledIsSteady(j: Job, w: World)
    ensures Settled(j, w) <==> Steady(j, w)
  {
    DemandsAreThePicture(j, w);
  }

  // ---- on a converged world every step but one changes nothing -------------

  lemma UserStep(j: Job, a: Attempt)
    requires Stage(0, j, a) && AsDemanded(j, a.world) && a.faults == Never
    ensures DoEnsureCephUser(j, a).world == a.world
  {
    var u := a.world.users[j.id];
    assert u.(displayName := j.display, maxBuckets := a.vars.claim.spec.quota.buckets) == u;
    assert a.world.users[j.id := u] == a.world.users;
  }

  lemma NoElements(s: seq<string>)
    ensures S.Elements(s) == {} <==> s == []
  {
    if s != [] {
      assert s[0] in S.Elements(s);
    }
  }

  lemma SyncStep(j: Job, order: seq<string>, a: Attempt)
    requires Stage(2, j, a) && AsDemanded(j, a.world) && Enumerates(order, Tags(j.id, a).Keys)
    ensures SyncAll(j.id, order, Tags(j.id, a), a) == a
  {
    TagsAreDue(j, order, a);
    NoElements(order);
  }

  lemma SecretQuiet(j: Job, d: Demand, a: Attempt)
    requires Stage(4, j, a) && AsDemanded(j, a.world) && a.faults == Never && d in Demands(j, a.vars.claim.spec)
    ensures EnsureSecret(d, a) == a
  {
    assert SecretRight(j.key.ns, a.vars.cephUser.keys, a.world.secrets, a.vars.claim.uid, d);
  }

  lemma {:induction false} SubuserSecretsQuiet(j: Job, subusers: seq<string>, a: Attempt)
    requires Stage(6, j, a) && AsDemanded(j, a.world) && a.faults == Never
    requires forall s | s in subusers :: s in a.vars.claim.spec.subusers
    ensures EnsureSubuserSecrets(j.id, subusers, a) == a
  {
    if subusers != [] {
      var n := |subusers| - 1;
      SubuserSecretsQuiet(j, subusers[..n], a);
      assert subusers[n] in a.vars.claim.spec.subusers;
      SecretQuiet(j, SubuserDemand(j.id, j.key.name, subusers[n]), a);
    }
  }

  lemma {:induction false} PublishQuiet(order: seq<Key>, total: Quota, a: Attempt)
    requires forall k | k in order :: k in a.world.quotas && Shows(a.world.quotas[k].used, total)
    ensures Publish(order, total, a) == a
  {
    if order != [] {
      PublishQuiet(order[..|order| - 1], total, a);
      assert order[|order| - 1] in order;
      AssignedShows(a.world.quotas[order[|order| - 1]].used, total);
    }
  }

  lemma UsageStep(j: Job, order: seq<Key>, a: Attempt)
    requires Stage(9, j, a) && a.faults == Never && UsageRight(j.key.ns, a.world.quotas, a.world.claims)
    requires Enumerates(order, QuotasIn(a.world, j.key.ns))
    ensures DoUpdateQuota(j.key.ns, order, true, a).world == a.world
  {
    OthersPlusStoredIsTotal(a.world.claims, {j.key.ns}, j.key);
    var used := NamespaceUsed(a.world, a.vars.claim, j.key.ns, true);
    PublishQuiet(order, used, a.(vars := a.vars.(used := used)));
  }

  lemma StepQuiet(n: nat, j: Job, ch: Choices, a: Attempt)
    requires n < 11 && n != 7 && Stage(n, j, a) && Legal(j, PROVISION[n], ch, a)
    requires AsDemanded(j, a.world) && a.faults == Never
    ensures Do(j, PROVISION[n], ch, a).world == a.world
  {
    match n
    case 0 => UserStep(j, a);
    case 1 =>
    case 2 => SyncStep(j, ch.subusers, a);
    case 3 =>
    case 4 => SecretQuiet(j, AdminDemand(j.id, a.vars.claim.spec), a);
    case 5 => SecretQuiet(j, ReadonlyDemand(j.id, a.vars.claim.spec), a);
    case 6 => SubuserSecretsQuiet(j, a.vars.desired, a);
    case 8 =>
    case 9 => UsageStep(j, ch.quotas, a);
    case 10 =>
  }

  /** The exception: the S3User is rewritten if it records an older version. */
  lemma S3UserStep(j: Job, a: Attempt)
    requires Stage(7, j, a) && AsDemanded(j, a.world) && a.faults == Never
    ensures var w := DoEnsureS3User(j, a).world;
            && Steady(j, w) && (Steady(j, a.world) ==> w == a.world)
            && (w == a.world || w == PutS3User(a.world, j.s3UserName, DesiredS3User(j, a.vars.claim)))
  {}

  lemma {:induction false} ChainQuiet(n: nat, j: Job, ch: Choices, a: Attempt)
    requires n <= 11 && Stage(n, j, a) && LegalChain(j, PROVISION[n..], ch, a)
    requires AsDemanded(j, a.world) && a.faults == Never && (n > 7 ==> Steady(j, a.world))
    ensures var w := Chain(j, PROVISION[n..], ch, a).world;
            && Steady(j, w) && (Steady(j, a.world) ==> w == a.world)
            && (w == a.world || w == PutS3User(a.world, j.s3UserName, DesiredS3User(j, a.vars.claim)))
    decreases 11 - n
  {
    if n < 11 {
      Unroll(n, j, ch, a);
      StepAdvances(n, j, ch, a);
      var b := Do(j, PROVISION[n], ch, a);
      if n == 7 {
        S3UserStep(j, a);
      } else {
        StepQuiet(n, j, ch, a);
      }
      ChainQuiet(n + 1, j, ch, b);
    }
  }

  /** A fault-free reconcile of a converged claim writes at most the S3User. */
  lemma ConvergedReconcile(c: Config, ch: Choices, w: World, stale: Vars, k: Key)
    requires Ready(JobFor(c, k), w) && Converged(JobFor(c, k), w) && LegalReconcile(c, ch, w, stale, k, Never)
    ensures var j, w' := JobFor(c, k), ReconcileKey(c, ch, w, stale, k, Never).world;
            && Settled(j, w') && (Settled(j, w) ==> w' == w)
            && (w' == w || w' == PutS3User(w, j.s3UserName, DesiredS3User(j, w.claims[k])))
  {
    var j, a := JobFor(c, k), Call(Start(w, stale, k, Never));
    assert PROVISION[0..] == PROVISION && Stage(0, j, a);
    DemandsAreThePicture(j, w);
    ChainQuiet(0, j, ch, a);
    SettledIsSteady(j, w);
    SettledIsSteady(j, Chain(j, PROVISION, ch, a).world);
  }

  /** Each fault-free reconcile lowers the measure until it is 0, and at 0 nothing at
      all is written, neither to Kubernetes nor to the state of Ceph. */
  lemma UnrestDecreases(c: Config, ch: Choices, w: World, stale: Vars, k: Key)
    requires Ready(JobFor(c, k), w) && LegalReconcile(c, ch, w, stale, k, Never)
    ensures var j, w' := JobFor(c, k), ReconcileKey(c, ch, w, stale, k, Never).world;
            && Ready(j, w')
            && (if Unrest(j, w) == 0 then w' == w else Unrest(j, w') < Unrest(j, w))
  {
    AttemptConverges(c, ch, w, stale, k, Never);
    HealthyIsReady(JobFor(c, k), ReconcileKey(c, ch, w, stale, k, Never).world);
    if Converged(JobFor(c, k), w) {
      ConvergedReconcile(c, ch, w, stale, k);
    }
  }

  /** From any state whose spec can be met, the third consecutive fault-free reconcile writes
      nothing. */
  lemma ThirdPassIsSilent(
    c: Config, k: Key, w: World, ch1: Choices, ch2: Choices, ch3: Choices, s1: Vars, s2: Vars, s3: Vars)
    requires Ready(JobFor(c, k), w)
    requires LegalReconcile(c, ch1, w, s1, k, Never)
    requires LegalReconcile(c, ch2, ReconcileKey(c, ch1, w, s1, k, Never).world, s2, k, Never)
    requires var w2 := ReconcileKey(c, ch2, ReconcileKey(c, ch1, w, s1, k, Never).world, s2, k, Never).world;
             LegalReconcile(c, ch3, w2, s3, k, Never)
    ensures var w2 := ReconcileKey(c, ch2, ReconcileKey(c, ch1, w, s1, k, Never).world, s2, k, Never).world;
            ReconcileKey(c, ch3, w2, s3, k, Never).world == w2
  {
    var w1 := ReconcileKey(c, ch1, w, s1, k, Never).world;
    var w2 := ReconcileKey(c, ch2, w1, s2, k, Never).world;
    UnrestDecreases(c, ch1, w, s1, k);
    UnrestDecreases(c, ch2, w1, s2, k);
    UnrestDecreases(c, ch3, w2, s3, k);
  }

  // ---- the hypotheses are needed -------------------------------------------

  /** Different Ceph names have different credentials. */
  ghost predicate DistinctCredentials(keys: seq<CephKey>) {
    forall x, y | x in keys && y in keys && x.credential == y.credential :: x.user == y.user
  }

  /** A spec that demands one secret for two Ceph names can never be converged to. */
  lemma ConvergedOnlyIfConsistent(j: Job, w: World)
    requires Converged(j, w) && DistinctCredentials(w.users[j.id].keys)
    ensures Consistent(j, w.claims[j.key].spec)
  {
    var claim, keys := w.claims[j.key], w.users[j.id].keys;
    DemandsAreThePicture(j, w);
    forall d, d' | d in Demands(j, claim.spec) && d' in Demands(j, claim.spec) && d.secret == d'.secret
      ensures d.cephName == d'.cephName
    {
      assert SecretRight(j.key.ns, keys, w.secrets, claim.uid, d);
      assert SecretRight(j.key.ns, keys, w.secrets, claim.uid, d');
    }
  }
}
