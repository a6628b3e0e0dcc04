/** The S3UserClaim reconciler itself: its fields, and its steps as they run, one
    remote call after the other.  Every step is proved to have the effect of the
    function of module Reconcile with the same name, so what the other modules prove
    of those functions holds of the reconciler. */
module Controller {
  import opened Naming
  import opened Quotas
  import opened Store
  import opened Subusers
  import opened Reconcile
  import opened Api
  import opened Accounting
  import opened Convergence
  import QuotaHandler

  // ---- facts about walks that end early ------------------------------------

  ghost function Listing<T(!new)>(items: set<T>): (order: seq<T>)
    ensures Enumerates(order, items)
    decreases |items|
  {
    if items == {} then []
    else var x :| x in items; Listing(items - {x}) + [x]
  }

  /** One more element on a walk. */
  ghost function Visit<T(!new)>(order: seq<T>, x: T, items: set<T>): (longer: seq<T>)
    requires x in items && Enumerates(order, items - {x})
    ensures Enumerates(longer, items) && longer[..|longer| - 1] == order && longer != [] && longer[|longer| - 1] == x
  {
    assert x !in order;
    order + [x]
  }

  lemma JoinWalks<T(!new)>(order: seq<T>, items: set<T>, order': seq<T>, items': set<T>)
    requires Enumerates(order, items) && Enumerates(order', items') && items !! items'
    ensures Enumerates(order + order', items + items')
  {
    forall i, j | 0 <= i < |order| && 0 <= j < |order'| ensures order[i] != order'[j] {
      assert order[i] in order && order'[j] in order';
    }
  }

  lemma {:induction false} SyncAllAfterHalt(id: string, order: seq<string>, rest: seq<string>, tags: map<string, Tag>, a: Attempt)
    requires SyncAll(id, order, tags, a).halted
    ensures SyncAll(id, order + rest, tags, a) == SyncAll(id, order, tags, a)
  {
    if rest == [] {
      assert order + rest == order;
    } else {
      var m := |rest| - 1;
      assert (order + rest)[..|order + rest| - 1] == order + rest[..m];
      SyncAllAfterHalt(id, order, rest[..m], tags, a);
    }
  }

  /** A walk that ended early, completed with what was not visited. */
  lemma EndWalk(id: string, order: seq<string>, tags: map<string, Tag>, rest: set<string>, a: Attempt) returns (full: seq<string>)
    requires rest <= tags.Keys && Enumerates(order, tags.Keys - rest) && SyncAll(id, order, tags, a).halted
    ensures Enumerates(full, tags.Keys) && SyncAll(id, full, tags, a) == SyncAll(id, order, tags, a)
  {
    var skipped := Listing(rest);
    JoinWalks(order, tags.Keys - rest, skipped, rest);
    assert tags.Keys - rest + rest == tags.Keys;
    SyncAllAfterHalt(id, order, skipped, tags, a);
    full := order + skipped;
  }

  lemma {:induction false} PublishAfterHalt(order: seq<Key>, rest: seq<Key>, total: Quota, a: Attempt)
    requires Publish(order, total, a).halted
    ensures Publish(order + rest, total, a) == Publish(order, total, a)
  {
    if rest == [] {
      assert order + rest == order;
    } else {
      var m := |rest| - 1;
      assert (order + rest)[..|order + rest| - 1] == order + rest[..m];
      PublishAfterHalt(order, rest[..m], total, a);
    }
  }

  lemma {:induction false} SecretsAfterHalt(id: string, subusers: seq<string>, n: nat, a: Attempt)
    requires n <= |subusers| && EnsureSubuserSecrets(id, subusers[..n], a).halted
    ensures EnsureSubuserSecrets(id, subusers, a) == EnsureSubuserSecrets(id, subusers[..n], a)
  {
    if n == |subusers| {
      assert subusers[..n] == subusers;
    } else {
      var m := |subusers| - 1;
      assert subusers[..m][..n] == subusers[..n];
      SecretsAfterHalt(id, subusers[..m], n, a);
    }
  }

  /** One more subuser on the walk over the secrets. */
  lemma NextSecret(id: string, subusers: seq<string>, n: nat, a: Attempt)
    requires n < |subusers|
    ensures var b := EnsureSubuserSecrets(id, subusers[..n], a);
            EnsureSubuserSecrets(id, subusers[..n + 1], a)
            == if b.halted then b else EnsureSecret(SubuserDemand(id, b.vars.claim.key.name, subusers[n]), b)
  {
    assert subusers[..n + 1][..n] == subusers[..n];
  }

  // ---- facts about chains --------------------------------------------------

  ghost predicate SameFor(step: Step, ch: Choices, ch': Choices) {
    && (step == SyncSubusers ==> ch.subusers == ch'.subusers)
    && (step in {UpdateQuotaInclusive, UpdateQuotaExclusive} ==> ch.quotas == ch'.quotas)
  }

  /** The choices for a step added to those for the steps before it. */
  ghost function Merge(step: Step, ch: Choices, ch1: Choices): Choices {
    if step == SyncSubusers then ch.(subusers := ch1.subusers)
    else if step in {UpdateQuotaInclusive, UpdateQuotaExclusive} then ch.(quotas := ch1.quotas)
    else ch
  }

  lemma {:induction false} ChainDependsOn(j: Job, steps: seq<Step>, ch: Choices, ch': Choices, a: Attempt)
    requires forall s | s in steps :: SameFor(s, ch, ch')
    requires LegalChain(j, steps, ch, a)
    ensures LegalChain(j, steps, ch', a) && Chain(j, steps, ch', a) == Chain(j, steps, ch, a)
    decreases |steps|
  {
    if steps != [] && !a.halted {
      DoDependsOn(j, steps[0], ch, ch', a);
      ChainDependsOn(j, steps[1..], ch, ch', Do(j, steps[0], ch, a));
    }
  }

  lemma DoDependsOn(j: Job, step: Step, ch: Choices, ch': Choices, a: Attempt)
    requires SameFor(step, ch, ch')
    ensures Do(j, step, ch, a) == Do(j, step, ch', a) && (Legal(j, step, ch, a) <==> Legal(j, step, ch', a))
  {}

  lemma {:induction false} ChainSnoc(j: Job, steps: seq<Step>, step: Step, ch: Choices, a: Attempt)
    requires LegalChain(j, steps, ch, a)
    requires var b := Chain(j, steps, ch, a); !b.halted ==> Legal(j, step, ch, b)
    ensures var b := Chain(j, steps, ch, a);
            && LegalChain(j, steps + [step], ch, a)
            && Chain(j, steps + [step], ch, a) == if b.halted then b else Do(j, step, ch, b)
    decreases |steps|
  {
    if steps == [] {
      assert steps + [step] == [step] && [step][1..] == [];
    } else if !a.halted {
      assert (steps + [step])[1..] == steps[1..] + [step];
      ChainSnoc(j, steps[1..], step, ch, Do(j, steps[0], ch, a));
    }
  }

  lemma {:induction false} ChainAfterHalt(j: Job, steps: seq<Step>, rest: seq<Step>, ch: Choices, a: Attempt)
    requires LegalChain(j, steps, ch, a) && Chain(j, steps, ch, a).halted
    ensures LegalChain(j, steps + rest, ch, a) && Chain(j, steps + rest, ch, a) == Chain(j, steps, ch, a)
    decreases |rest|
  {
    if rest == [] {
      assert steps + rest == steps;
    } else {
      ChainSnoc(j, steps, rest[0], ch, a);
      ChainAfterHalt(j, steps + [rest[0]], rest[1..], ch, a);
      assert steps + [rest[0]] + rest[1..] == steps + rest;
    }
  }

  /** In both chains a step that makes choices occurs once. */
  lemma StepsOnce(steps: seq<Step>, i: nat)
    requires (steps == PROVISION || steps == CLEANUP) && i < |steps|
    ensures forall s | s in steps[..i] ::
              && (steps[i] == SyncSubusers ==> s != SyncSubusers)
              && (steps[i] in {UpdateQuotaInclusive, UpdateQuotaExclusive} ==>
                    s !in {UpdateQuotaInclusive, UpdateQuotaExclusive})
  {}

  lemma ExtendChain(j: Job, steps: seq<Step>, step: Step, ch: Choices, ch1: Choices, a: Attempt)
    requires forall s | s in steps ::
               && (step == SyncSubusers ==> s != SyncSubusers)
               && (step in {UpdateQuotaInclusive, UpdateQuotaExclusive} ==>
                     s !in {UpdateQuotaInclusive, UpdateQuotaExclusive})
    requires LegalChain(j, steps, ch, a) && !Chain(j, steps, ch, a).halted
    requires Legal(j, step, ch1, Chain(j, steps, ch, a))
    ensures LegalChain(j, steps + [step], Merge(step, ch, ch1), a)
    ensures Chain(j, steps + [step], Merge(step, ch, ch1), a) == Do(j, step, ch1, Chain(j, steps, ch, a))
  {
    var merged := Merge(step, ch, ch1);
    ChainDependsOn(j, steps, ch, merged, a);
    DoDependsOn(j, step, ch1, merged, Chain(j, steps, ch, a));
    ChainSnoc(j, steps, step, merged, a);
  }

  /** One turn of the step loop: one more step of the chain, and the whole chain if
      that step halts. */
  lemma TurnOfChain(j: Job, steps: seq<Step>, i: nat, ch: Choices, ch1: Choices, a: Attempt)
    requires (steps == PROVISION || steps == CLEANUP) && i < |steps|
    requires LegalChain(j, steps[..i], ch, a) && !Chain(j, steps[..i], ch, a).halted
    requires Legal(j, steps[i], ch1, Chain(j, steps[..i], ch, a))
    ensures var merged, b := Merge(steps[i], ch, ch1), Do(j, steps[i], ch1, Chain(j, steps[..i], ch, a));
            && LegalChain(j, steps[..i + 1], merged, a) && Chain(j, steps[..i + 1], merged, a) == b
            && (b.halted ==> LegalChain(j, steps, merged, a) && Chain(j, steps, merged, a) == b)
  {
    var merged := Merge(steps[i], ch, ch1);
    StepsOnce(steps, i);
    ExtendChain(j, steps[..i], steps[i], ch, ch1, a);
    assert steps[..i] + [steps[i]] == steps[..i + 1];
    HaltEndsChain(j, steps, i + 1, merged, a);
  }

  lemma HaltEndsChain(j: Job, steps: seq<Step>, i: nat, ch: Choices, a: Attempt)
    requires i <= |steps| && LegalChain(j, steps[..i], ch, a)
    ensures var b := Chain(j, steps[..i], ch, a);
            b.halted ==> LegalChain(j, steps, ch, a) && Chain(j, steps, ch, a) == b
  {
    if Chain(j, steps[..i], ch, a).halted {
      ChainAfterHalt(j, steps[..i], steps[i..], ch, a);
      assert steps[..i] + steps[i..] == steps;
    }
  }

  class Reconciler {
    const cluster: Cluster
    // configuration
    const clusterName: string
    const s3UserClass: string
    // reconcile specific variables
    var s3UserClaim: Claim
    var cephUser: CephUser
    var s3UserClaimNamespace: string
    var cephTenant: string
    var cephUserId: string
    var cephUserFullId: string
    var cephDisplayName: string
    var s3UserName: string
    var readonlyCephUserFullId: string
    var desiredSubusersStringList: seq<string>
    var namespaceUsedQuota: Quota
    /** The subuser whose removal was interrupted in this attempt, if any. */
    ghost var leaked: Option<string>

    constructor (cluster: Cluster, clusterName: string, s3UserClass: string)
      ensures this.cluster == cluster && this.clusterName == clusterName && this.s3UserClass == s3UserClass
    {
      this.cluster, this.clusterName, this.s3UserClass := cluster, clusterName, s3UserClass;
      s3UserClaim := ZERO_CLAIM;
    }

    ghost function TheJob(): Job
      reads this
    {
      Job(Key(s3UserClaimNamespace, cephUserId), s3UserClass, cephUserFullId, cephDisplayName, s3UserName)
    }

    ghost predicate Valid()
      reads this
    {
      readonlyCephUserFullId == SubuserFullId(cephUserFullId, READONLY)
    }

    ghost function Memory(): Vars
      reads this
    {
      Vars(s3UserClaim, cephUser, desiredSubusersStringList, namespaceUsedQuota)
    }

    /** The attempt in progress, as the functions of module Reconcile see it. */
    ghost function View(halted: bool): Attempt
      reads this, cluster
    {
      Attempt(cluster.world, Memory(), cluster.faults, halted, leaked)
    }

    // ---- initVars ----------------------------------------------------------

    method InitVars(req: Key)
      modifies this`s3UserClaimNamespace, this`cephTenant, this`cephUserId, this`cephUserFullId,
               this`cephDisplayName, this`readonlyCephUserFullId, this`s3UserName
      ensures Valid() && TheJob() == JobFor(Config(clusterName, s3UserClass), req)
      ensures cephTenant == CephTenant(clusterName, req.ns)
    {
      s3UserClaimNamespace := req.ns;
      cephTenant := Sanitise(clusterName) + "__" + Sanitise(req.ns);
      cephUserId := req.name;
      cephUserFullId := cephTenant + "$" + cephUserId;
      cephDisplayName := req.name + " in " + req.ns + "." + clusterName;
      readonlyCephUserFullId := cephUserFullId + ":" + READONLY;
      s3UserName := req.ns + "." + req.name;
    }

    // ---- Provision ---------------------------------------------------------

    method EnsureCephUser() returns (halt: bool)
      requires Valid()
      modifies this`cephUser, this`desiredSubusersStringList, cluster
      ensures Valid() && View(halt) == DoEnsureCephUser(TheJob(), old(View(false)))
    {
      var buckets := s3UserClaim.spec.quota.buckets;
      var existing := cluster.GetUser(cephUserFullId);
      match existing {
        case Ok(_) =>
          // the two MaxBuckets pointers always differ
          var modified := cluster.ModifyUser(cephUserFullId, cephDisplayName, buckets);
          if !modified.Ok? { return true; }
          cephUser := modified.value;
        case NotFound =>
          var created := cluster.CreateUser(cephUserFullId, cephDisplayName, buckets);
          if !created.Ok? { return true; }
          cephUser := created.value;
        case Failed =>
          return true;
      }
      desiredSubusersStringList := s3UserClaim.spec.subusers;
      halt := false;
    }

    method EnsureCephUserQuota() returns (halt: bool)
      requires Valid()
      modifies this`cephUser, cluster
      ensures Valid() && View(halt) == DoEnsureCephUserQuota(cephUserFullId, old(View(false)))
      ensures !halt ==> cephUserFullId in cluster.world.users
                        && LimitsSet(cluster.world.users[cephUserFullId].quota, s3UserClaim.spec.quota)
    {
      var desired := CephQuota(true, Value(s3UserClaim.spec.quota.size), Value(s3UserClaim.spec.quota.objects));
      var existing := cluster.GetUser(cephUserFullId);
      if !existing.Ok? { return true; }
      var q := existing.value.quota;
      if q.enabled != desired.enabled || q.maxSize != desired.maxSize || q.maxObjects != desired.maxObjects {
        var ok := cluster.SetUserQuota(cephUserFullId, desired);
        if !ok { return true; }
      }
      cephUser := cephUser.(quota := desired);
      halt := false;
    }

    /** The toggling diff. */
    method GenerateSubuserAccess() returns (access: map<string, Tag>)
      requires Valid()
      ensures access == Diff(Wanted(cephUserFullId, desiredSubusersStringList), cephUser.subusers)
      ensures forall name :: Lookup(access, name)
                == TagOf(name in Wanted(cephUserFullId, desiredSubusersStringList), Occurrences(cephUser.subusers, name))
    {
      access := map[];
      var desired, current := desiredSubusersStringList, cephUser.subusers;
      for i := 0 to |desired|
        invariant access == AllCreate(Named(cephUserFullId, desired[..i]))
      {
        assert desired[..i + 1] == desired[..i] + [desired[i]];
        NamedGrows(cephUserFullId, desired[..i], desired[i]);
        access := access[cephUserFullId + ":" + desired[i] := Create];
      }
      assert desired[..|desired|] == desired;
      // keep the readonly subuser
      access := access[readonlyCephUserFullId := Create];
      ghost var wanted := Wanted(cephUserFullId, desired);
      assert access == AllCreate(wanted);
      for i := 0 to |current|
        invariant access == Diff(wanted, current[..i])
      {
        assert current[..i + 1][..i] == current[..i];
        if current[i] in access {
          access := access - {current[i]};
        } else {
          access := access[current[i] := Remove];
        }
      }
      assert current[..|current|] == current;
      forall name ensures Lookup(access, name) == TagOf(name in wanted, Occurrences(current, name)) {
        DiffLaw(wanted, current, name);
      }
    }

    method GenerateSubuser(name: string) returns (halt: bool)
      requires Valid()
      modifies cluster
      ensures Valid() && View(halt) == DoGenerateSubuser(cephUserFullId, name, old(View(false)))
    {
      var ok := cluster.CreateSubuser(cephUserFullId, name);
      halt := !ok;
    }

    method RemoveSubuserAndSecret(name: string) returns (halt: bool)
      requires Valid()
      modifies this`leaked, cluster
      ensures Valid() && View(halt) == DoRemoveSubuserAndSecret(cephUserFullId, name, old(View(false)))
    {
      var ok := cluster.RemoveSubuser(cephUserFullId, name);
      if !ok { return true; }
      var subuser := ExtractSubuserName(name);
      if subuser.None? { return true; }
      var deleted := cluster.DeleteSecret(
        Key(s3UserClaim.key.ns, SubuserSecretName(s3UserClaim.key.name, subuser.value)));
      if deleted.Failed? {
        leaked := Some(subuser.value);
        return true;
      }
      halt := false;
    }

    method CreateOrRemove(name: string, tag: Tag) returns (halt: bool)
      requires Valid()
      modifies this`leaked, cluster
      ensures Valid() && View(halt) == SyncOne(cephUserFullId, name, tag, old(View(false)))
    {
      if tag == Create {
        halt := GenerateSubuser(name);
      } else {
        halt := RemoveSubuserAndSecret(name);
      }
    }

    method SyncSubusersList() returns (halt: bool, ghost order: seq<string>)
      requires Valid()
      modifies this`leaked, cluster
      ensures Valid() && Enumerates(order, Tags(cephUserFullId, old(View(false))).Keys)
      ensures View(halt) == SyncAll(cephUserFullId, order, Tags(cephUserFullId, old(View(false))), old(View(false)))
    {
      var access := GenerateSubuserAccess();
      halt, order := WalkAccess(access);
    }

    /** The loop over the access map, in whatever order it comes. */
    method WalkAccess(access: map<string, Tag>) returns (halt: bool, ghost order: seq<string>)
      requires Valid()
      modifies this`leaked, cluster
      ensures Valid() && Enumerates(order, access.Keys)
      ensures View(halt) == SyncAll(cephUserFullId, order, access, old(View(false)))
    {
      ghost var start := View(false);
      var rest := access.Keys;
      order := [];
      while rest != {}
        invariant Valid() && rest <= access.Keys && Enumerates(order, access.Keys - rest)
        invariant View(false) == SyncAll(cephUserFullId, order, access, start)
        decreases |rest|
      {
        var name :| name in rest;
        halt := CreateOrRemove(name, access[name]);
        rest := rest - {name};
        order := Visit(order, name, access.Keys - rest);
        if halt {
          order := EndWalk(cephUserFullId, order, access, rest, start);
          return;
        }
      }
      halt := false;
    }

    method RetrieveCephUser() returns (halt: bool)
      requires Valid()
      modifies this`cephUser, cluster`faults
      ensures Valid() && View(halt) == DoRetrieveCephUser(cephUserFullId, old(View(false)))
    {
      var retrieved := cluster.GetUser(cephUserFullId);
      if !retrieved.Ok? { return true; }
      cephUser := retrieved.value;
      halt := false;
    }

    /** The first key of the user, if it has one. */
    method FindKey(userName: string) returns (credential: Option<nat>)
      ensures credential == KeyFor(cephUser.keys, userName)
    {
      var keys := cephUser.keys;
      for i := 0 to |keys|
        invariant KeyFor(keys, userName) == KeyFor(keys[i..], userName)
      {
        if keys[i].user == userName {
          return Some(keys[i].credential);
        }
      }
      credential := None;
    }

    /** ensureSecret */
    method StoreTheSecret(key: Key, wanted: Secret) returns (halt: bool)
      requires Valid()
      modifies cluster
      ensures Valid() && View(halt) == StoreSecret(key, wanted, old(View(false)))
    {
      var existing := cluster.GetSecret(key);
      match existing {
        case NotFound =>
          var ok := cluster.PutSecret(key, wanted);
          return !ok;
        case Failed =>
          return true;
        case Ok(secret) =>
          if secret.data != wanted.data || !ControlledBy(secret, s3UserClaim.uid) {
            if !Adoptable(secret, s3UserClaim.key.name) { return true; }
            var ok := cluster.PutSecret(key, wanted);
            return !ok;
          }
      }
      halt := false;
    }

    /** assembleCephUserSecret, then ensureSecret */
    method EnsureOneSecret(cephName: string, secretName: string) returns (halt: bool)
      requires Valid()
      modifies cluster
      ensures Valid() && View(halt) == EnsureSecret(Demand(cephName, secretName), old(View(false)))
    {
      var credential := FindKey(cephName);
      if credential.None? { return true; }
      halt := StoreTheSecret(Key(s3UserClaim.key.ns, secretName), Secret(credential.value, Some(OwnerOf(s3UserClaim))));
    }

    method EnsureOtherSubusersSecret() returns (halt: bool)
      requires Valid()
      modifies cluster
      ensures Valid()
      ensures View(halt) == EnsureSubuserSecrets(cephUserFullId, desiredSubusersStringList, old(View(false)))
    {
      ghost var start := View(false);
      var subusers := desiredSubusersStringList;
      for i := 0 to |subusers|
        invariant Valid() && View(false) == EnsureSubuserSecrets(cephUserFullId, subusers[..i], start)
      {
        NextSecret(cephUserFullId, subusers, i, start);
        halt := EnsureOneSecret(cephUserFullId + ":" + subusers[i], SubuserSecretName(s3UserClaim.key.name, subusers[i]));
        if halt {
          SecretsAfterHalt(cephUserFullId, subusers, i + 1, start);
          return;
        }
      }
      assert subusers[..|subusers|] == subusers;
      halt := false;
    }

    method EnsureS3User() returns (halt: bool)
      requires Valid()
      modifies cluster
      ensures Valid() && View(halt) == DoEnsureS3User(TheJob(), old(View(false)))
    {
      var claimRef := ObjectRef(s3UserClaim.key, s3UserClaim.uid, s3UserClaim.rv);
      var desired := S3User(s3UserClass, s3UserClaim.spec.quota, Some(claimRef));
      var existing := cluster.GetS3User(s3UserName);
      if existing.Failed? { return true; }
      if existing.NotFound? || existing.value != desired {
        var ok := cluster.PutS3User(s3UserName, desired);
        return !ok;
      }
      halt := false;
    }

    method UpdateS3UserClaimStatus() returns (halt: bool)
      requires Valid()
      modifies this`s3UserClaim, cluster
      ensures Valid() && View(halt) == DoUpdateClaimStatus(s3UserName, old(View(false)))
    {
      var status := ClaimStatus(Some(s3UserClaim.spec.quota), s3UserName, s3UserClaim.spec.subusers);
      if s3UserClaim.status != status {
        s3UserClaim := s3UserClaim.(status := status);
        var updated := cluster.UpdateClaimStatus(s3UserClaim);
        if !updated.Ok? { return true; }
        s3UserClaim := updated.value;
      }
      halt := false;
    }

    method UpdateNamespaceQuotaStatus(addCurrentQuota: bool) returns (halt: bool, ghost order: seq<Key>)
      requires Valid()
      modifies this`namespaceUsedQuota, cluster
      ensures Valid() && Enumerates(order, QuotasIn(old(cluster.world), s3UserClaimNamespace))
      ensures View(halt) == DoUpdateQuota(s3UserClaimNamespace, order, addCurrentQuota, old(View(false)))
      ensures !halt ==>
                forall q | q in cluster.world.quotas && q.ns == s3UserClaimNamespace ::
                  Shows(cluster.world.quotas[q].used,
                        NamespaceUsed(old(cluster.world), old(s3UserClaim), s3UserClaimNamespace, addCurrentQuota))
    {
      order := Listing(QuotasIn(cluster.world, s3UserClaimNamespace));
      var used := QuotaHandler.CalculateNamespaceUsedQuota(cluster, s3UserClaim, s3UserClaimNamespace, addCurrentQuota);
      if !used.Ok? { return true, order; }
      namespaceUsedQuota := used.value;
      var listed := cluster.ListQuotas(s3UserClaimNamespace);
      if !listed.Ok? { return true, order; }
      order := listed.value;
      halt := PublishUsed(listed.value);
      QuotaStepShows(TheJob(), order, addCurrentQuota, old(View(false)));
    }

    /** The loop over the ResourceQuotas. */
    method PublishUsed(quotas: seq<Key>) returns (halt: bool)
      requires Valid() && forall k | k in quotas :: k in cluster.world.quotas
      modifies cluster
      ensures Valid() && View(halt) == Publish(quotas, namespaceUsedQuota, old(View(false)))
    {
      ghost var start, total := View(false), namespaceUsedQuota;
      for i := 0 to |quotas|
        invariant Valid() && View(false) == Publish(quotas[..i], total, start)
        invariant cluster.world.quotas.Keys == start.world.quotas.Keys
      {
        assert quotas[..i + 1][..i] == quotas[..i] && quotas[i] in quotas;
        halt := PublishTo(quotas[i]);
        if halt {
          PublishAfterHalt(quotas[..i + 1], quotas[i + 1..], total, start);
          assert quotas[..i + 1] + quotas[i + 1..] == quotas;
          return;
        }
      }
      assert quotas[..|quotas|] == quotas;
      halt := false;
    }

    method PublishTo(k: Key) returns (halt: bool)
      requires Valid() && k in cluster.world.quotas
      modifies cluster
      ensures Valid() && View(halt) == PublishOne(k, namespaceUsedQuota, old(View(false)))
      ensures cluster.world.quotas.Keys == old(cluster.world).quotas.Keys
    {
      var before := cluster.world.quotas[k].used;
      var after := Assigned(before, namespaceUsedQuota);
      if after != before {
        var ok := cluster.UpdateQuotaStatus(k, after);
        return !ok;
      }
      halt := false;
    }

    method WriteTheClaim(claim: Claim) returns (halt: bool)
      requires Valid()
      modifies this`s3UserClaim, cluster
      ensures Valid() && View(halt) == WriteClaim(claim, old(View(false)))
    {
      s3UserClaim := claim;
      var updated := cluster.UpdateClaim(s3UserClaim);
      if !updated.Ok? { return true; }
      s3UserClaim := updated.value;
      halt := false;
    }

    method AddCleanupFinalizer() returns (halt: bool)
      requires Valid()
      modifies this`s3UserClaim, cluster
      ensures Valid() && View(halt) == DoAddFinalizer(old(View(false)))
    {
      if CLAIM_FINALIZER in s3UserClaim.finalizers { return false; }
      halt := WriteTheClaim(s3UserClaim.(finalizers := s3UserClaim.finalizers + {CLAIM_FINALIZER}));
    }

    // ---- Cleanup -----------------------------------------------------------

    method RemoveTheCephUser() returns (halt: bool)
      requires Valid()
      modifies cluster
      ensures Valid() && View(halt) == DoRemoveCephUser(cephUserFullId, old(View(false)))
    {
      var removed := cluster.RemoveUser(cephUserFullId);
      halt := removed.Failed?;
    }

    method RemoveTheS3User() returns (halt: bool)
      requires Valid()
      modifies cluster
      ensures Valid() && View(halt) == DoRemoveS3User(s3UserName, old(View(false)))
    {
      var deleted := cluster.DeleteS3User(s3UserName);
      halt := deleted.Failed?;
    }

    method RemoveCleanupFinalizer() returns (halt: bool)
      requires Valid()
      modifies this`s3UserClaim, cluster
      ensures Valid() && View(halt) == DoRemoveFinalizer(old(View(false)))
    {
      if CLAIM_FINALIZER !in s3UserClaim.finalizers { return false; }
      halt := WriteTheClaim(s3UserClaim.(finalizers := s3UserClaim.finalizers - {CLAIM_FINALIZER}));
    }

    // ---- the chains --------------------------------------------------------

    method RunStep(step: Step) returns (halt: bool, ghost ch: Choices)
      requires Valid()
      modifies this`s3UserClaim, this`cephUser, this`desiredSubusersStringList, this`namespaceUsedQuota, this`leaked, cluster
      ensures Valid() && TheJob() == old(TheJob())
      ensures Legal(TheJob(), step, ch, old(View(false))) && View(halt) == Do(TheJob(), step, ch, old(View(false)))
    {
      ch := Choices([], []);
      ghost var order: seq<string>, quotas: seq<Key>;
      match step {
        case EnsureCephUser => halt := EnsureCephUser();
        case EnsureCephUserQuota => halt := EnsureCephUserQuota();
        case SyncSubusers =>
          halt, order := SyncSubusersList();
          ch := Choices(order, []);
        case RetrieveCephUser => halt := RetrieveCephUser();
        case EnsureAdminSecret => halt := EnsureOneSecret(cephUserFullId, s3UserClaim.spec.adminSecret);
        case EnsureReadonlySecret => halt := EnsureOneSecret(readonlyCephUserFullId, s3UserClaim.spec.readonlySecret);
        case EnsureOtherSecrets => halt := EnsureOtherSubusersSecret();
        case EnsureS3User => halt := EnsureS3User();
        case UpdateClaimStatus => halt := UpdateS3UserClaimStatus();
        case UpdateQuotaInclusive =>
          halt, quotas := UpdateNamespaceQuotaStatus(true);
          ch := Choices([], quotas);
        case AddFinalizer => halt := AddCleanupFinalizer();
        case RemoveCephUser => halt := RemoveTheCephUser();
        case RemoveS3User => halt := RemoveTheS3User();
        case UpdateQuotaExclusive =>
          halt, quotas := UpdateNamespaceQuotaStatus(false);
          ch := Choices([], quotas);
        case RemoveFinalizer => halt := RemoveCleanupFinalizer();
      }
    }

    /** Provision and Cleanup: the steps in order, up to the first that halts. */
    method RunChain(steps: seq<Step>) returns (halt: bool, ghost ch: Choices)
      requires Valid() && (steps == PROVISION || steps == CLEANUP)
      modifies this`s3UserClaim, this`cephUser, this`desiredSubusersStringList, this`namespaceUsedQuota, this`leaked, cluster
      ensures Valid() && TheJob() == old(TheJob())
      ensures LegalChain(TheJob(), steps, ch, old(View(false)))
      ensures View(halt) == Chain(TheJob(), steps, ch, old(View(false)))
    {
      ghost var start, j := View(false), TheJob();
      ch := Choices([], []);
      for i := 0 to |steps|
        invariant Valid() && TheJob() == j
        invariant LegalChain(j, steps[..i], ch, start) && View(false) == Chain(j, steps[..i], ch, start)
      {
        ghost var ch1;
        halt, ch1 := RunStep(steps[i]);
        TurnOfChain(j, steps, i, ch, ch1, start);
        ch := Merge(steps[i], ch, ch1);
        if halt { return; }
      }
      assert steps[..|steps|] == steps;
      halt := false;
    }

    /** Reconcile: read the claim, then clean up or provision. */
    method Reconcile(req: Key) returns (halt: bool, ghost ch: Choices)
      modifies this, cluster
      ensures var c, w, stale, f := Config(clusterName, s3UserClass), old(cluster.world), old(Memory()), old(cluster.faults);
              && LegalReconcile(c, ch, w, stale, req, f)
              && var r := ReconcileKey(c, ch, w, stale, req, f);
                 cluster.world == r.world && halt == r.halted && leaked == r.leaked
    {
      ch := Choices([], []);
      leaked := None;
      s3UserClaim := ZERO_CLAIM;
      InitVars(req);
      var found := cluster.GetClaim(req);
      var steps := PROVISION;
      match found {
        case Failed =>
          return true, ch;
        case NotFound =>
          steps := CLEANUP;
        case Ok(claim) =>
          s3UserClaim := claim;
          if s3UserClaim.deleting { steps := CLEANUP; }
      }
      assert steps == StepsFor(old(cluster.world), req);
      assert View(false) == Call(Start(old(cluster.world), old(Memory()), req, old(cluster.faults)));
      halt, ch := RunChain(steps);
    }
  }
}
