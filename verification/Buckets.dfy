/** The S3Bucket reconciler and what its attempts can do to the remote bucket. */
module Buckets {
  import opened Naming
  import opened Store
  import opened Reconcile
  import opened Api
  import opened Policy
  import opened Agent
  import opened Convergence

  const RETAIN := "retain"

  /** What a request for an S3Bucket acts on: the object, the remote bucket and the
      Ceph user it acts as. */
  datatype BucketJob = BucketJob(key: Key, remote: Key, user: string)

  function BucketJobFor(clusterName: string, k: Key, userRef: string): BucketJob {
    BucketJob(k, Key(CephTenant(clusterName, k.ns), k.name), CephUserFullId(clusterName, Key(k.ns, userRef)))
  }

  // ---- what an attempt may do ----------------------------------------------

  ghost predicate OnlyBucket(j: BucketJob, w: World, w': World) {
    && w' == w.(remote := w'.remote, buckets := w'.buckets, rev := w'.rev)
    && w'.remote - {j.remote} == w.remote - {j.remote} && w'.buckets - {j.key} == w.buckets - {j.key}
  }

  predicate SameWishes(b: Bucket, b': Bucket) {
    b' == b.(rv := b'.rv, finalizers := b'.finalizers, status := b'.status)
  }

  /** Provisioning never removes a remote bucket or changes its owner, creates it only
      for the referred user, only ever sets the policy compiled from the bindings, and
      adds the finalizer as the very last thing. */
  ghost predicate Provisions(j: BucketJob, b: Bucket, w: World, w': World) {
    && OnlyBucket(j, w, w') && j.key in w'.buckets && SameWishes(b, w'.buckets[j.key])
    && (j.remote in w.remote ==>
          && j.remote in w'.remote && w'.remote[j.remote].owner == w.remote[j.remote].owner
          && w'.remote[j.remote].empty == w.remote[j.remote].empty)
    && (j.remote in w'.remote && j.remote !in w.remote ==> w'.remote[j.remote].owner == j.user)
    && (j.remote in w'.remote ==>
          var before := if j.remote in w.remote then w.remote[j.remote].policy else None;
          w'.remote[j.remote].policy == before || HasPolicy(j, b, w'))
    && (w'.buckets[j.key].finalizers == b.finalizers
        || (w'.buckets[j.key].finalizers == b.finalizers + {BUCKET_FINALIZER} && Provisioned(j, b, w')))
  }

  ghost predicate HasPolicy(j: BucketJob, b: Bucket, w: World) {
    && j.remote in w.remote && w.remote[j.remote].policy.Some?
    && Compiled(w.remote[j.remote].policy.value, AccessMap(b.bindings), j.remote.ns, b.userRef, j.key.name)
  }

  /** A provisioning that runs to its end. */
  ghost predicate Provisioned(j: BucketJob, b: Bucket, w: World) {
    && HasPolicy(j, b, w) && j.key in w.buckets && "s3.snappcloud.io/cleanup-s3bucket" in w.buckets[j.key].finalizers
    && w.buckets[j.key].status == BucketStatus(true, None, PolicyOf(w.remote[j.remote].policy.value))
  }

  ghost predicate UnknownAccessIn(b: Bucket) {
    exists s :: s in AccessMap(b.bindings) && ActionsOf(AccessMap(b.bindings)[s]).None?
  }

  /** Cleaning up removes a remote bucket only if the policy is not to retain it and
      it is the referred user's and empty; and the object goes away only when that is
      settled: under any other policy the remote bucket no longer exists. */
  ghost predicate CleansUp(j: BucketJob, b: Bucket, w: World, w': World) {
    && OnlyBucket(j, w, w')
    && (w'.remote == w.remote
        || (b.deletionPolicy != RETAIN && j.remote in w.remote && w.remote[j.remote].owner == j.user
            && w.remote[j.remote].empty && w'.remote == w.remote - {j.remote}))
    && (j.key !in w'.buckets ==> b.deletionPolicy == RETAIN || j.remote !in w'.remote)
    && (j.key in w'.buckets ==>
          && SameWishes(b, w'.buckets[j.key])
          && (w'.buckets[j.key].finalizers == b.finalizers
              || (w'.buckets[j.key].finalizers == b.finalizers - {BUCKET_FINALIZER}
                  && (b.deletionPolicy == RETAIN || j.remote !in w'.remote))))
  }

  /** A cleanup that runs to its end. */
  ghost predicate CleanedUp(j: BucketJob, b: Bucket, w: World) {
    && (b.deletionPolicy == RETAIN || j.remote !in w.remote)
    && (j.key in w.buckets <==> b.finalizers - {BUCKET_FINALIZER} != {} || BUCKET_FINALIZER !in b.finalizers)
  }

  /** The remote side lets the attempt run to its end: the remote bucket does not
      belong to another user, and every access level is known. */
  ghost predicate Acceptable(j: BucketJob, b: Bucket, w: World) {
    !UnknownAccessIn(b) && OwnIfThere(j, w)
  }

  /** The world of an attempt that got no further than creating the remote bucket. */
  function JustCreated(j: BucketJob, w: World): World {
    if j.remote in w.remote then w else WithRemote(w, j.remote, RemoteBucket(j.user, true, None))
  }

  predicate OwnIfThere(j: BucketJob, w: World) {
    j.remote in w.remote ==> w.remote[j.remote].owner == j.user
  }

  predicate Removable(j: BucketJob, b: Bucket, w: World) {
    b.deletionPolicy == RETAIN || j.remote !in w.remote || DeleteAnswer(w, j.remote, j.user).None?
  }

  /** A whole reconcile of the S3Bucket k, however it ends. */
  ghost predicate ReconcilesBucket(clusterName: string, k: Key, w: World, w': World) {
    if k !in w.buckets then w' == w
    else
      var b := w.buckets[k];
      var j := BucketJobFor(clusterName, k, b.userRef);
      if b.deleting then CleansUp(j, b, w, w') else Provisions(j, b, w, w')
  }

  /** What the policy step gets to see: the compiler's error, or the endpoint's. */
  ghost function PolicyError(j: BucketJob, b: Bucket, o: Outcome, w: World): Option<S3Error> {
    if UnknownAccessIn(b) then Some(UnknownAccess) else Received(o, PolicyAnswer(w, j.remote, j.user))
  }

  /** What the deletion of the remote bucket gets to see. */
  function DeleteError(j: BucketJob, o: Outcome, w: World): Option<S3Error> {
    Received(o, DeleteAnswer(w, j.remote, j.user))
  }

  /** Nothing fails: neither Kubernetes nor the S3 endpoint. */
  predicate Calm(f: Faults, s3: seq<Outcome>) {
    f == Never && AllAnswered(s3)
  }

  /** The policy was sent or not, and the status was written or not. */
  ghost predicate HaltedAtPolicy(j: BucketJob, b: Bucket, w: World, sent: World, w': World, status: BucketStatus) {
    && j.key in sent.buckets
    && (sent == w || PolicySent(w, sent, j.remote, AccessMap(b.bindings), b.userRef))
    && (w' == sent || w' == PutBucketStatus(sent, j.key, status))
  }

  lemma CreationProvisions(j: BucketJob, b: Bucket, w: World)
    requires j.key in w.buckets && w.buckets[j.key] == b
    ensures Provisions(j, b, w, w) && Provisions(j, b, w, JustCreated(j, w))
  {}

  lemma PolicyProvisions(j: BucketJob, b: Bucket, w: World, created: World, sent: World)
    requires j.key in w.buckets && w.buckets[j.key] == b && j.remote.name == j.key.name
    requires created == w || created == JustCreated(j, w)
    requires PolicySent(created, sent, j.remote, AccessMap(b.bindings), b.userRef)
    ensures Provisions(j, b, w, sent) && HasPolicy(j, b, sent) && sent.buckets == w.buckets
  {}

  lemma HaltedProvisions(j: BucketJob, b: Bucket, w: World, created: World, sent: World, w': World, status: BucketStatus)
    requires j.key in w.buckets && w.buckets[j.key] == b && j.remote.name == j.key.name && !b.deleting
    requires created == w || created == JustCreated(j, w)
    requires HaltedAtPolicy(j, b, created, sent, w', status)
    ensures Provisions(j, b, w, w')
  {
    CreationProvisions(j, b, w);
    if sent != created {
      PolicyProvisions(j, b, w, created, sent);
    }
    StatusKeepsProvisions(j, b, w, sent, status);
  }

  /** Writing the status does not matter to provisioning. */
  lemma StatusKeepsProvisions(j: BucketJob, b: Bucket, w: World, sent: World, status: BucketStatus)
    requires Provisions(j, b, w, sent) && sent.buckets[j.key].finalizers == b.finalizers && !b.deleting
    ensures Provisions(j, b, w, PutBucketStatus(sent, j.key, status))
  {}

  /** The finalizer comes after policy and status. */
  lemma FinalizerEndsProvision(j: BucketJob, b: Bucket, w: World, reported: World)
    requires Provisions(j, b, w, reported) && HasPolicy(j, b, reported) && !b.deleting
    requires reported.buckets[j.key].status == BucketStatus(true, None, PolicyOf(reported.remote[j.remote].policy.value))
    requires reported.buckets[j.key].finalizers == b.finalizers
    ensures var w' := PutBucketFinalizers(reported, j.key, b.finalizers + {BUCKET_FINALIZER});
            Provisions(j, b, w, w') && Provisioned(j, b, w')
  {}

  /** If the referred claim has converged, the agent acts as that claim's Ceph user and
      with the first key of the user itself. */
  ghost predicate ActsWithItsKey(c: Config, claim: Key, w: World, user: string, credential: nat) {
    Converged(JobFor(c, claim), w) ==>
      && user == CephTenant(c.clusterName, claim.ns) + "$" + claim.name && user in w.users
      && FirstKey(w.users[user].keys, user, credential)
  }

  class BucketReconciler {
    const cluster: Cluster
    const clusterName: string
    // reconcile specific variables
    var key: Key
    var s3Bucket: Bucket
    var s3Agent: S3Agent
    var s3UserRef: string
    var cephTenant: string
    var cephUserFullId: string
    var subuserAccessMap: map<string, string>
    var bucketPolicy: PolicyText

    constructor (cluster: Cluster, clusterName: string)
      ensures this.cluster == cluster && this.clusterName == clusterName
    {
      this.cluster, this.clusterName := cluster, clusterName;
      s3Agent := new S3Agent(cluster, "", "", 0);
      bucketPolicy := NoPolicy;
    }

    ghost function TheJob(): BucketJob
      reads this
    {
      BucketJob(key, Key(cephTenant, key.name), cephUserFullId)
    }

    ghost predicate Valid()
      reads this, cluster
    {
      && s3Agent.cluster == cluster && s3Agent.tenant == cephTenant && s3Agent.user == cephUserFullId
      && s3UserRef == s3Bucket.userRef && subuserAccessMap == AccessMap(s3Bucket.bindings)
      && key in cluster.world.buckets && cluster.world.buckets[key] == s3Bucket
    }

    /** The bindings, last one wins, and the names derived from request and userRef. */
    method InitVars(req: Key)
      requires s3UserRef == s3Bucket.userRef
      modifies this`key, this`cephTenant, this`cephUserFullId, this`subuserAccessMap
      ensures TheJob() == BucketJobFor(clusterName, req, s3UserRef) && key == req
      ensures cephTenant == CephTenant(clusterName, req.ns)
      ensures subuserAccessMap == AccessMap(s3Bucket.bindings)
    {
      key := req;
      cephTenant := Sanitise(clusterName) + "__" + Sanitise(req.ns);
      cephUserFullId := cephTenant + "$" + s3UserRef;
      subuserAccessMap := map[];
      var bindings := s3Bucket.bindings;
      for i := 0 to |bindings|
        modifies this`subuserAccessMap
        invariant subuserAccessMap == AccessMap(bindings[..i])
      {
        assert bindings[..i + 1][..i] == bindings[..i];
        subuserAccessMap := subuserAccessMap[bindings[i].name := bindings[i].access];
      }
      assert bindings[..|bindings|] == bindings;
    }

    /** Writes the status if it differs. */
    method UpdateBucketStatus(created: bool, reason: Option<S3Error>, policy: PolicyText) returns (halt: bool)
      requires Valid()
      modifies this`s3Bucket, cluster`world, cluster`faults
      ensures var status := BucketStatus(created, reason, policy);
              cluster.world == if halt || old(s3Bucket).status == status then old(cluster.world)
                               else PutBucketStatus(old(cluster.world), key, status)
      ensures !halt ==> Valid() && s3Bucket.status == BucketStatus(created, reason, policy)
      ensures Down(old(cluster.faults)) ==> cluster.world == old(cluster.world)
      ensures old(cluster.faults) == Never ==> !halt && cluster.faults == Never
    {
      var status := BucketStatus(created, reason, policy);
      if s3Bucket.status != status {
        s3Bucket := s3Bucket.(status := status);
        var updated := cluster.UpdateBucketStatus(key, s3Bucket);
        if !updated.Ok? { return true; }
        s3Bucket := updated.value;
      }
      halt := false;
    }

    method EnsureBucket() returns (halt: bool)
      requires Valid()
      modifies cluster`world, cluster`s3
      ensures Valid() && cluster.s3 == Later(old(cluster.s3)) && (halt <==> Coming(old(cluster.s3)) != Answered)
      ensures cluster.world == if Coming(old(cluster.s3)) in {Answered, AnswerLost} then JustCreated(TheJob(), old(cluster.world))
                               else old(cluster.world)
    {
      var failed := s3Agent.CreateBucket(key.name);
      halt := failed.Some?;
    }

    /** The policy of the bindings is in force, or the status says why not.  The
        connection to S3 may fail and the status still be written. */
    method EnsureBucketPolicy() returns (halt: bool)
      requires Valid()
      modifies this`s3Bucket, this`bucketPolicy, cluster`world, cluster`faults, cluster`s3
      ensures halt <==> PolicyError(TheJob(), old(s3Bucket), Coming(old(cluster.s3)), old(cluster.world)).Some?
      ensures !halt ==>
                && Valid() && s3Bucket == old(s3Bucket) && cluster.faults == old(cluster.faults)
                && PolicySent(old(cluster.world), cluster.world, TheJob().remote, subuserAccessMap, s3UserRef)
                && bucketPolicy == PolicyOf(cluster.world.remote[TheJob().remote].policy.value)
      ensures halt ==>
                var e := PolicyError(TheJob(), old(s3Bucket), Coming(old(cluster.s3)), old(cluster.world));
                exists sent: World :: HaltedAtPolicy(TheJob(), old(s3Bucket), old(cluster.world), sent, cluster.world, BucketStatus(true, e, NoPolicy))
      ensures halt && Down(old(cluster.faults)) && Coming(old(cluster.s3)) != AnswerLost ==> cluster.world == old(cluster.world)
      ensures halt && old(cluster.faults) == Never ==>
                cluster.world.buckets[key].status
                == BucketStatus(true, PolicyError(TheJob(), old(s3Bucket), Coming(old(cluster.s3)), old(cluster.world)), NoPolicy)
    {
      ghost var before := s3Bucket;
      ghost var w := cluster.world;
      var sent := s3Agent.SetBucketPolicy(subuserAccessMap, s3UserRef, key.name);
      if sent.Error? {
        bucketPolicy := NoPolicy;
        ghost var w1 := cluster.world;
        halt := UpdateBucketStatus(true, Some(sent.error), bucketPolicy);
        assert HaltedAtPolicy(TheJob(), before, w, w1, cluster.world, BucketStatus(true, Some(sent.error), NoPolicy));
        return true;
      }
      bucketPolicy := PolicyOf(sent.value);
      halt := false;
    }

    /** Both finalizer steps: write only if the set changes. */
    method UpdateFinalizers(finalizers: set<string>) returns (halt: bool)
      requires Valid()
      modifies this`s3Bucket, cluster`world, cluster`faults
      ensures cluster.world == if halt || old(s3Bucket).finalizers == finalizers then old(cluster.world)
                               else PutBucketFinalizers(old(cluster.world), key, finalizers)
      ensures Down(old(cluster.faults)) ==> cluster.world == old(cluster.world)
      ensures old(cluster.faults) == Never ==> !halt
    {
      if s3Bucket.finalizers != finalizers {
        var updated := cluster.UpdateBucketFinalizers(key, s3Bucket.(finalizers := finalizers));
        if !updated.Ok? { return true; }
        s3Bucket := updated.value;
      }
      halt := false;
    }

    /** The first two steps of Provision. */
    method CreateAndSend() returns (halt: bool)
      requires Valid() && !s3Bucket.deleting
      modifies this`s3Bucket, this`bucketPolicy, cluster`world, cluster`faults, cluster`s3
      ensures Provisions(TheJob(), old(s3Bucket), old(cluster.world), cluster.world)
      ensures halt <==> || Coming(old(cluster.s3)) != Answered
                        || PolicyError(TheJob(), old(s3Bucket), Coming(Later(old(cluster.s3))),
                                       JustCreated(TheJob(), old(cluster.world))).Some?
      ensures !halt ==>
                && Valid() && s3Bucket == old(s3Bucket) && cluster.faults == old(cluster.faults)
                && HasPolicy(TheJob(), s3Bucket, cluster.world)
                && bucketPolicy == PolicyOf(cluster.world.remote[TheJob().remote].policy.value)
      ensures halt && old(cluster.faults) == Never && Coming(old(cluster.s3)) == Answered ==>
                var created := JustCreated(TheJob(), old(cluster.world));
                cluster.world.buckets[key].status
                == BucketStatus(true, PolicyError(TheJob(), old(s3Bucket), Coming(Later(old(cluster.s3))), created), NoPolicy)
      ensures Down(old(cluster.faults)) && old(cluster.s3) == [Answered, Dropped] ==>
                halt && cluster.world == JustCreated(TheJob(), old(cluster.world))
    {
      ghost var j, b, w := TheJob(), s3Bucket, cluster.world;
      CreationProvisions(j, b, w);
      halt := EnsureBucket();
      if halt { return; }
      ghost var created := cluster.world;
      halt := EnsureBucketPolicy();
      if halt {
        ghost var status := BucketStatus(true, PolicyError(j, b, Coming(Later(old(cluster.s3))), created), NoPolicy);
        ghost var sent: World :| HaltedAtPolicy(j, b, created, sent, cluster.world, status);
        HaltedProvisions(j, b, w, created, sent, cluster.world, status);
      } else {
        PolicyProvisions(j, b, w, created, cluster.world);
      }
    }

    method Provision() returns (halt: bool)
      requires Valid() && !s3Bucket.deleting
      modifies this`s3Bucket, this`bucketPolicy, cluster`world, cluster`faults, cluster`s3
      ensures Provisions(TheJob(), old(s3Bucket), old(cluster.world), cluster.world)
      ensures !halt ==> Provisioned(TheJob(), old(s3Bucket), cluster.world)
      ensures UnknownAccessIn(old(s3Bucket)) || !OwnIfThere(TheJob(), old(cluster.world)) ==> halt
      ensures Calm(old(cluster.faults), old(cluster.s3)) ==>
                (!halt <==> Acceptable(TheJob(), old(s3Bucket), old(cluster.world)))
      ensures halt && old(cluster.faults) == Never && Coming(old(cluster.s3)) == Answered ==>
                var created := JustCreated(TheJob(), old(cluster.world));
                cluster.world.buckets[key].status
                == BucketStatus(true, PolicyError(TheJob(), old(s3Bucket), Coming(Later(old(cluster.s3))), created), NoPolicy)
      ensures Down(old(cluster.faults)) && old(cluster.s3) == [Answered, Dropped] ==>
                halt && cluster.world == JustCreated(TheJob(), old(cluster.world))
    {
      ghost var j, b, w := TheJob(), s3Bucket, cluster.world;
      halt := CreateAndSend();
      if halt { return; }
      ghost var sent := cluster.world;
      halt := UpdateBucketStatus(true, None, bucketPolicy);
      StatusKeepsProvisions(j, b, w, sent, BucketStatus(true, None, bucketPolicy));
      if halt { return; }
      FinalizerEndsProvision(j, b, w, cluster.world);
      halt := UpdateFinalizers(s3Bucket.finalizers + {BUCKET_FINALIZER});
    }

    method Cleanup() returns (halt: bool)
      requires Valid() && s3Bucket.deleting
      modifies this`s3Bucket, cluster`world, cluster`faults, cluster`s3
      ensures CleansUp(TheJob(), old(s3Bucket), old(cluster.world), cluster.world)
      ensures !halt ==> CleanedUp(TheJob(), old(s3Bucket), cluster.world)
      ensures Calm(old(cluster.faults), old(cluster.s3)) ==> (!halt <==> Removable(TheJob(), old(s3Bucket), old(cluster.world)))
      ensures old(cluster.faults) == Never && StopsAtDelete(old(s3Bucket), Coming(old(cluster.s3)), old(cluster.world)) ==>
                && halt && key in cluster.world.buckets
                && cluster.world.buckets[key].status
                   == BucketStatus(true, DeleteError(TheJob(), Coming(old(cluster.s3)), old(cluster.world)), UnknownPolicy)
    {
      halt := RemoveOrRetainBucket();
      if halt { return; }
      halt := UpdateFinalizers(s3Bucket.finalizers - {BUCKET_FINALIZER});
    }

    /** The bucket is to be removed, and the answer is neither yes nor "no such bucket". */
    predicate StopsAtDelete(b: Bucket, o: Outcome, w: World)
      reads this
    {
      var e := Received(o, DeleteAnswer(w, Key(cephTenant, key.name), cephUserFullId));
      b.deletionPolicy != RETAIN && e.Some? && e != Some(NoSuchBucket)
    }

    /** Goes on only when the policy is retain or the remote bucket is gone; otherwise
        the status says why, if Kubernetes can be reached. */
    method RemoveOrRetainBucket() returns (halt: bool)
      requires Valid()
      modifies this`s3Bucket, cluster`world, cluster`faults, cluster`s3
      ensures CleansUp(TheJob(), old(s3Bucket), old(cluster.world), cluster.world) && key in cluster.world.buckets
      ensures halt <==> StopsAtDelete(old(s3Bucket), Coming(old(cluster.s3)), old(cluster.world))
      ensures !halt ==>
                && Valid() && s3Bucket == old(s3Bucket) && cluster.faults == old(cluster.faults)
                && (s3Bucket.deletionPolicy == RETAIN || TheJob().remote !in cluster.world.remote)
      ensures halt && old(cluster.faults) == Never ==>
                cluster.world.buckets[key].status
                == BucketStatus(true, DeleteError(TheJob(), Coming(old(cluster.s3)), old(cluster.world)), UnknownPolicy)
    {
      if s3Bucket.deletionPolicy == RETAIN { return false; }
      var err := s3Agent.DeleteBucket(key.name);
      if err.Some? {
        if err.value.NoSuchBucket? { return false; }
        halt := UpdateBucketStatus(true, err, UnknownPolicy);
        return true;
      }
      halt := false;
    }

    /** Reconcile: nothing to do for a missing object; without the claim or its admin
        secret the request is queued again before anything is touched.  The last clause
        is the attempt that ends right after the remote bucket was created. */
    method Reconcile(req: Key) returns (halt: bool)
      modifies this, cluster
      ensures ReconcilesBucket(clusterName, req, old(cluster.world), cluster.world)
      ensures req in old(cluster.world).buckets ==>
                var w, claim := old(cluster.world), Key(req.ns, old(cluster.world).buckets[req].userRef);
                claim !in w.claims || Key(req.ns, w.claims[claim].spec.adminSecret) !in w.secrets ==>
                  halt && cluster.world == w
      ensures req in old(cluster.world).buckets
              && (!halt || (old(cluster.faults) == Never && CredentialsReadable(old(cluster.world), req))) ==>
                forall s3UserClass ::
                  ActsWithItsKey(Config(clusterName, s3UserClass), Key(req.ns, old(cluster.world).buckets[req].userRef),
                                 old(cluster.world), s3Agent.user, s3Agent.credential)
      ensures req in old(cluster.world).buckets && !halt ==>
                var b := old(cluster.world).buckets[req];
                var j := BucketJobFor(clusterName, req, b.userRef);
                if b.deleting then CleanedUp(j, b, cluster.world) else Provisioned(j, b, cluster.world)
      ensures Calm(old(cluster.faults), old(cluster.s3)) && req in old(cluster.world).buckets ==>
                var w, b := old(cluster.world), old(cluster.world).buckets[req];
                var j := BucketJobFor(clusterName, req, b.userRef);
                !halt <==> CredentialsReadable(w, req) && (if b.deleting then Removable(j, b, w) else Acceptable(j, b, w))
      ensures old(cluster.faults) == After(3) && old(cluster.s3) == [Answered, Dropped] && req in old(cluster.world).buckets ==>
                var w, b := old(cluster.world), old(cluster.world).buckets[req];
                !b.deleting && CredentialsReadable(w, req) ==>
                  cluster.world == JustCreated(BucketJobFor(clusterName, req, b.userRef), w)
    {
      var found := cluster.GetBucket(req);
      if !found.Ok? { return found.Failed?; }
      s3Bucket := found.value;
      s3UserRef := s3Bucket.userRef;
      var claim := cluster.GetClaim(Key(req.ns, s3UserRef));
      if !claim.Ok? { return true; }
      var secret := cluster.GetSecret(Key(req.ns, claim.value.spec.adminSecret));
      if !secret.Ok? { return true; }
      InitVars(req);
      s3Agent := new S3Agent(cluster, cephTenant, cephUserFullId, secret.value.data);
      if s3Bucket.deleting {
        halt := Cleanup();
      } else {
        halt := Provision();
      }
    }
  }

  /** The claim that the bucket refers to and its admin secret are there. */
  predicate CredentialsReadable(w: World, k: Key)
    requires k in w.buckets
  {
    var claim := Key(k.ns, w.buckets[k].userRef);
    claim in w.claims && Key(k.ns, w.claims[claim].spec.adminSecret) in w.secrets
  }
}
