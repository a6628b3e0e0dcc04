/** The admission webhooks for claims and buckets.  Each validator is proved to admit
    exactly the requests that its predicate describes when its reads succeed, and no
    others when they do not. */
module Webhook {
  import opened Naming
  import opened Quotas
  import opened Store
  import opened Accounting
  import opened Reconcile
  import opened Api
  import opened QuotaHandler

  datatype QuotaError = ExceededNamespaceQuota | ExceededClusterQuota | ClusterQuotaNotDefined | ReadError

  datatype FieldError = Forbidden(field: string, reason: string) | InternalError(field: string)

  // ---- what is admitted ----------------------------------------------------

  /** Within the limits that are defined; the bucket limit is rounded up to a whole
      number. */
  predicate Fits(total: Quota, hard: map<string, int>) {
    && (S3_OBJECTS in hard ==> total.objects <= hard[S3_OBJECTS])
    && (S3_SIZE in hard ==> total.size <= hard[S3_SIZE])
    && (S3_BUCKETS in hard ==> total.buckets <= Value(hard[S3_BUCKETS]))
  }

  ghost predicate FitsNamespace(w: World, claim: Claim) {
    forall q | q in w.quotas && q.ns == claim.key.ns ::
      Fits(NamespaceUsed(w, claim, claim.key.ns, true), w.quotas[q].hard)
  }

  predicate AllDefined(hard: map<string, int>) {
    S3_OBJECTS in hard && S3_SIZE in hard && S3_BUCKETS in hard
  }

  ghost predicate TeamDefined(w: World, ns: string) {
    var team := TeamOf(w, ns);
    team.Some? && team.value in w.clusterQuotas && AllDefined(w.clusterQuotas[team.value])
  }

  ghost predicate FitsTeam(w: World, claim: Claim) {
    && TeamDefined(w, claim.key.ns)
    && var team := TeamOf(w, claim.key.ns).value;
       Fits(TeamUsed(w, claim, team, true), w.clusterQuotas[team])
  }

  ghost predicate FitsQuotas(w: World, claim: Claim) {
    FitsNamespace(w, claim) && FitsTeam(w, claim)
  }

  ghost predicate SecretsAbsent(w: World, ns: string, names: seq<string>) {
    forall n | n in names :: Key(ns, n) !in w.secrets
  }

  ghost predicate AdmitsCreate(w: World, claim: Claim) {
    FitsQuotas(w, claim) && SecretsAbsent(w, claim.key.ns, [claim.spec.adminSecret, claim.spec.readonlySecret])
  }

  ghost predicate AdmitsUpdate(w: World, was: Claim, claim: Claim) {
    && claim.spec.s3UserClass == was.spec.s3UserClass
    && FitsQuotas(w, claim)
    && (claim.spec.adminSecret != was.spec.adminSecret ==> Key(claim.key.ns, claim.spec.adminSecret) !in w.secrets)
    && (claim.spec.readonlySecret != was.spec.readonlySecret ==> Key(claim.key.ns, claim.spec.readonlySecret) !in w.secrets)
  }

  /** A claim can be deleted once no bucket of its namespace refers to it. */
  ghost predicate AdmitsDelete(w: World, k: Key) {
    forall b | b in w.buckets && b.ns == k.ns :: w.buckets[b].userRef != k.name
  }

  ghost predicate AdmitsBucketCreate(w: World, b: Key, bucket: Bucket) {
    Key(b.ns, bucket.userRef) in w.claims
  }

  ghost predicate AdmitsBucketUpdate(was: Bucket, bucket: Bucket) {
    bucket.userRef == was.userRef
  }

  // ---- the validators ------------------------------------------------------

  /** How a validator's verdict relates to what it should admit: an empty verdict is
      always right, and without faults the verdict is exact. */
  ghost predicate Judges(passed: bool, admitted: bool, before: Faults, after: Faults) {
    && (passed ==> admitted)
    && (before == Never ==> after == Never && (passed <==> admitted))
  }

  /** "Exceeded" is true, and without faults it is all that can be wrong. */
  ghost predicate NamespaceVerdict(w: World, claim: Claim, e: Option<QuotaError>, faults: Faults) {
    && (e == Some(ExceededNamespaceQuota) ==> !FitsNamespace(w, claim))
    && (faults == Never ==> if FitsNamespace(w, claim) then e == None else e == Some(ExceededNamespaceQuota))
  }

  /** "Not defined" and "exceeded" are true, and without faults a read error means that
      the namespace has no team. */
  ghost predicate ClusterVerdict(w: World, claim: Claim, e: Option<QuotaError>, faults: Faults) {
    var team := TeamOf(w, claim.key.ns);
    && (e == Some(ClusterQuotaNotDefined) ==> team.Some? && !TeamDefined(w, claim.key.ns))
    && (e == Some(ExceededClusterQuota) ==>
          team.Some? && team.value in w.clusterQuotas && !Fits(TeamUsed(w, claim, team.value, true), w.clusterQuotas[team.value]))
    && e != Some(ExceededNamespaceQuota)
    && (faults == Never ==> (e == None <==> FitsTeam(w, claim)) && (e == Some(ReadError) <==> team.None?))
  }

  method ValidateAgainstNamespaceQuota(cluster: Cluster, suc: Claim) returns (e: Option<QuotaError>)
    modifies cluster`faults
    ensures Judges(e.None?, FitsNamespace(cluster.world, suc), old(cluster.faults), cluster.faults)
    ensures NamespaceVerdict(cluster.world, suc, e, old(cluster.faults))
  {
    var used := CalculateNamespaceUsedQuota(cluster, suc, suc.key.ns, true);
    if !used.Ok? { return Some(ReadError); }
    var listed := cluster.ListQuotas(suc.key.ns);
    if !listed.Ok? { return Some(ReadError); }
    var quotas, total := listed.value, used.value;
    for i := 0 to |quotas|
      invariant forall q | q in quotas[..i] :: q in cluster.world.quotas && Fits(total, cluster.world.quotas[q].hard)
    {
      assert quotas[i] in quotas && quotas[..i + 1] == quotas[..i] + [quotas[i]];
      var hard := cluster.world.quotas[quotas[i]].hard;
      if S3_OBJECTS in hard && total.objects > hard[S3_OBJECTS] { return Some(ExceededNamespaceQuota); }
      if S3_SIZE in hard && total.size > hard[S3_SIZE] { return Some(ExceededNamespaceQuota); }
      if S3_BUCKETS in hard && total.buckets > Value(hard[S3_BUCKETS]) { return Some(ExceededNamespaceQuota); }
    }
    assert quotas[..|quotas|] == quotas;
    e := None;
  }

  method ValidateAgainstClusterQuota(cluster: Cluster, suc: Claim) returns (e: Option<QuotaError>)
    modifies cluster`faults
    ensures Judges(e.None?, FitsTeam(cluster.world, suc), old(cluster.faults), cluster.faults)
    ensures ClusterVerdict(cluster.world, suc, e, old(cluster.faults))
  {
    var used := CalculateClusterUsedQuota(cluster, suc, true);
    if !used.Ok? { return Some(ReadError); }
    var (total, team) := used.value;
    var found := cluster.GetClusterQuota(team);
    if !found.Ok? { return Some(if found.NotFound? then ClusterQuotaNotDefined else ReadError); }
    var hard := found.value;
    if S3_OBJECTS !in hard { return Some(ClusterQuotaNotDefined); }
    if total.objects > hard[S3_OBJECTS] { return Some(ExceededClusterQuota); }
    if S3_SIZE !in hard { return Some(ClusterQuotaNotDefined); }
    if total.size > hard[S3_SIZE] { return Some(ExceededClusterQuota); }
    if S3_BUCKETS !in hard { return Some(ClusterQuotaNotDefined); }
    if total.buckets > Value(hard[S3_BUCKETS]) { return Some(ExceededClusterQuota); }
    e := None;
  }

  const NAMESPACE_EXCEEDED := Forbidden("spec.quota", "exceeded namespace quota")
  const CLUSTER_EXCEEDED := Forbidden("spec.quota", "exceeded cluster quota")
  const CLUSTER_UNDEFINED := Forbidden("spec.quota", "cluster quota is not defined")

  function SecretExists(name: string): FieldError {
    Forbidden("spec", "secret " + name + " exists")
  }

  /** What the quota errors among the new ones say: each is right, and without faults
      the namespace is reported exactly if it is exceeded and the team is reported, in
      one way, exactly if it does not fit. */
  ghost predicate QuotaReport(w: World, claim: Claim, errs: seq<FieldError>, faults: Faults) {
    var team := TeamOf(w, claim.key.ns);
    && (NAMESPACE_EXCEEDED in errs ==> !FitsNamespace(w, claim))
    && (CLUSTER_UNDEFINED in errs ==> team.Some? && !TeamDefined(w, claim.key.ns))
    && (CLUSTER_EXCEEDED in errs ==>
          team.Some? && team.value in w.clusterQuotas && !Fits(TeamUsed(w, claim, team.value, true), w.clusterQuotas[team.value]))
    && (faults == Never ==>
          && (NAMESPACE_EXCEEDED in errs <==> !FitsNamespace(w, claim))
          && (CLUSTER_UNDEFINED in errs || CLUSTER_EXCEEDED in errs || InternalError("spec.quota") in errs <==> !FitsTeam(w, claim))
          && (InternalError("spec.quota") in errs <==> team.None?))
  }

  lemma ReportIsRight(w: World, claim: Claim, e1: Option<QuotaError>, e2: Option<QuotaError>, faults: Faults)
    requires NamespaceVerdict(w, claim, e1, faults) && ClusterVerdict(w, claim, e2, faults)
    ensures QuotaReport(w, claim, NamespaceErrors(e1) + ClusterErrors(e2), faults)
  {
    QuotaErrorsSay(e1, e2);
  }

  /** Without faults every secret that exists is reported, and no other. */
  ghost predicate SecretReport(w: World, ns: string, names: seq<string>, errs: seq<FieldError>) {
    forall e :: e in errs <==> exists n :: n in names && Key(ns, n) in w.secrets && e == SecretExists(n)
  }

  method ValidateQuota(cluster: Cluster, suc: Claim, allErrs: seq<FieldError>) returns (errs: seq<FieldError>)
    modifies cluster`faults
    ensures allErrs <= errs
    ensures Judges(errs == allErrs, FitsQuotas(cluster.world, suc), old(cluster.faults), cluster.faults)
    ensures QuotaReport(cluster.world, suc, errs[|allErrs|..], old(cluster.faults))
  {
    var first, second := [], [];
    var e1 := ValidateAgainstNamespaceQuota(cluster, suc);
    if e1 == Some(ExceededNamespaceQuota) {
      first := [NAMESPACE_EXCEEDED];
    } else if e1.Some? {
      first := [InternalError("spec.quota")];
    }
    var e2 := ValidateAgainstClusterQuota(cluster, suc);
    if e2 == Some(ExceededClusterQuota) {
      second := [CLUSTER_EXCEEDED];
    } else if e2 == Some(ClusterQuotaNotDefined) {
      second := [CLUSTER_UNDEFINED];
    } else if e2.Some? {
      second := [InternalError("spec.quota")];
    }
    assert first == NamespaceErrors(e1) && second == ClusterErrors(e2);
    errs := allErrs + first + second;
    assert errs == allErrs + (first + second) && errs[|allErrs|..] == first + second;
    ReportIsRight(cluster.world, suc, e1, e2, old(cluster.faults));
  }

  function NamespaceErrors(e: Option<QuotaError>): seq<FieldError> {
    if e.None? then [] else if e.value.ExceededNamespaceQuota? then [NAMESPACE_EXCEEDED] else [InternalError("spec.quota")]
  }

  function ClusterErrors(e: Option<QuotaError>): seq<FieldError> {
    if e.None? then []
    else if e.value.ExceededClusterQuota? then [CLUSTER_EXCEEDED]
    else if e.value.ClusterQuotaNotDefined? then [CLUSTER_UNDEFINED]
    else [InternalError("spec.quota")]
  }

  lemma QuotaErrorsSay(e1: Option<QuotaError>, e2: Option<QuotaError>)
    ensures var errs := NamespaceErrors(e1) + ClusterErrors(e2);
            && (NAMESPACE_EXCEEDED in errs <==> e1 == Some(ExceededNamespaceQuota))
            && (CLUSTER_EXCEEDED in errs <==> e2 == Some(ExceededClusterQuota))
            && (CLUSTER_UNDEFINED in errs <==> e2 == Some(ClusterQuotaNotDefined))
            && (InternalError("spec.quota") in errs
                <==> || (e1.Some? && e1 != Some(ExceededNamespaceQuota))
                     || (e2.Some? && e2.value !in {ExceededClusterQuota, ClusterQuotaNotDefined}))
  {
    assert NAMESPACE_EXCEEDED.reason[9] != CLUSTER_EXCEEDED.reason[9];
    assert CLUSTER_UNDEFINED.reason[0] != CLUSTER_EXCEEDED.reason[0] == NAMESPACE_EXCEEDED.reason[0];
  }

  lemma OneMoreName(w: World, ns: string, names: seq<string>, name: string, errs: seq<FieldError>)
    requires SecretReport(w, ns, names, errs)
    ensures SecretReport(w, ns, names + [name], if Key(ns, name) in w.secrets then errs + [SecretExists(name)] else errs)
  {
    var longer, errs' := names + [name], if Key(ns, name) in w.secrets then errs + [SecretExists(name)] else errs;
    assert name in longer;
    forall e ensures e in errs' <==> exists n :: n in longer && Key(ns, n) in w.secrets && e == SecretExists(n) {
      if e in errs {
        var n :| n in names && Key(ns, n) in w.secrets && e == SecretExists(n);
        assert n in longer;
      }
    }
  }

  method ValidateSecrets(cluster: Cluster, secretNames: seq<string>, ns: string, allErrs: seq<FieldError>)
    returns (errs: seq<FieldError>)
    modifies cluster`faults
    ensures allErrs <= errs
    ensures Judges(errs == allErrs, SecretsAbsent(cluster.world, ns, secretNames), old(cluster.faults), cluster.faults)
    ensures old(cluster.faults) == Never ==> SecretReport(cluster.world, ns, secretNames, errs[|allErrs|..])
  {
    errs := allErrs;
    for i := 0 to |secretNames|
      invariant allErrs <= errs
      invariant Judges(errs == allErrs, SecretsAbsent(cluster.world, ns, secretNames[..i]), old(cluster.faults), cluster.faults)
      invariant old(cluster.faults) == Never ==> SecretReport(cluster.world, ns, secretNames[..i], errs[|allErrs|..])
    {
      assert secretNames[..i + 1] == secretNames[..i] + [secretNames[i]];
      ghost var before := errs;
      var existing := cluster.GetSecret(Key(ns, secretNames[i]));
      match existing {
        case NotFound =>
        case Failed => errs := errs + [InternalError("spec")];
        case Ok(_) => errs := errs + [SecretExists(secretNames[i])];
      }
      assert errs != before ==> errs[|allErrs|..] == before[|allErrs|..] + [errs[|before|]];
      if old(cluster.faults) == Never {
        OneMoreName(cluster.world, ns, secretNames[..i], secretNames[i], before[|allErrs|..]);
      }
    }
    assert secretNames[..|secretNames|] == secretNames;
  }

  method ValidateCreate(cluster: Cluster, suc: Claim) returns (errs: seq<FieldError>)
    modifies cluster`faults
    ensures Judges(errs == [], AdmitsCreate(cluster.world, suc), old(cluster.faults), cluster.faults)
    ensures old(cluster.faults) == Never ==>
              && (!FitsNamespace(cluster.world, suc) ==> NAMESPACE_EXCEEDED in errs)
              && forall n | n in [suc.spec.adminSecret, suc.spec.readonlySecret] ::
                   Key(suc.key.ns, n) in cluster.world.secrets ==> SecretExists(n) in errs
  {
    var quotaErrs := ValidateQuota(cluster, suc, []);
    assert quotaErrs[0..] == quotaErrs;
    var secretNames := [suc.spec.adminSecret, suc.spec.readonlySecret];
    errs := ValidateSecrets(cluster, secretNames, suc.key.ns, quotaErrs);
    assert errs == quotaErrs + errs[|quotaErrs|..];
    assert secretNames[0] in secretNames && secretNames[1] in secretNames;
  }

  method ValidateUpdate(cluster: Cluster, was: Claim, suc: Claim) returns (errs: seq<FieldError>)
    modifies cluster`faults
    ensures Judges(errs == [], AdmitsUpdate(cluster.world, was, suc), old(cluster.faults), cluster.faults)
    ensures suc.spec.s3UserClass != was.spec.s3UserClass ==> Forbidden("spec.s3UserClass", "s3UserClass is immutable") in errs
  {
    errs := [];
    if suc.spec.s3UserClass != was.spec.s3UserClass {
      errs := errs + [Forbidden("spec.s3UserClass", "s3UserClass is immutable")];
    }
    errs := ValidateQuota(cluster, suc, errs);
    ghost var early := errs;
    var secretNames := [];
    if was.spec.adminSecret != suc.spec.adminSecret {
      secretNames := secretNames + [suc.spec.adminSecret];
    }
    if was.spec.readonlySecret != suc.spec.readonlySecret {
      secretNames := secretNames + [suc.spec.readonlySecret];
    }
    errs := ValidateSecrets(cluster, secretNames, suc.key.ns, errs);
    assert early != [] ==> errs[0] == early[0];
  }

  method ValidateDelete(cluster: Cluster, suc: Claim) returns (ok: bool)
    modifies cluster`faults
    ensures Judges(ok, AdmitsDelete(cluster.world, suc.key), old(cluster.faults), cluster.faults)
  {
    var listed := cluster.ListBuckets(suc.key.ns);
    if !listed.Ok? { return false; }
    var buckets := listed.value;
    for i := 0 to |buckets|
      invariant forall b | b in buckets[..i] :: b in cluster.world.buckets && cluster.world.buckets[b].userRef != suc.key.name
    {
      assert buckets[i] in buckets && buckets[..i + 1] == buckets[..i] + [buckets[i]];
      if cluster.world.buckets[buckets[i]].userRef == suc.key.name { return false; }
    }
    assert buckets[..|buckets|] == buckets;
    ok := true;
  }

  method ValidateBucketCreate(cluster: Cluster, b: Key, bucket: Bucket) returns (errs: seq<FieldError>)
    modifies cluster`faults
    ensures Judges(errs == [], AdmitsBucketCreate(cluster.world, b, bucket), old(cluster.faults), cluster.faults)
  {
    var claim := cluster.GetClaim(Key(b.ns, bucket.userRef));
    errs := if claim.Ok? then []
            else [Forbidden("spec.s3UserRef", "there is no s3UserClaim regarding the defined s3UserRef")];
  }

  method ValidateBucketUpdate(was: Bucket, bucket: Bucket) returns (errs: seq<FieldError>)
    ensures errs == [] <==> AdmitsBucketUpdate(was, bucket)
  {
    errs := if bucket.userRef == was.userRef then [] else [Forbidden("spec.s3UserRef", "s3UserRef is immutable")];
  }
}
