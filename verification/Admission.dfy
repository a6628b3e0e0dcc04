/** What admission keeps true over whole runs.  Admissions are serialised: each
    request is judged against the state it is then applied to.  Limits and team
    labels are fixed. */
module Admission {
  import opened Naming
  import opened Quotas
  import opened Store
  import opened Accounting
  import opened Reconcile
  import opened QuotaHandler
  import opened Webhook
  import opened Convergence

  // ---- the quota invariant -------------------------------------------------

  /** Hard bucket limits are 64-bit counts, so Value() is exact. */
  predicate Int64Limit(hard: map<string, int>) {
    S3_BUCKETS in hard ==> 0 <= Value(hard[S3_BUCKETS]) < TWO63
  }

  ghost predicate LimitsOk(w: World) {
    && (forall q | q in w.quotas :: Int64Limit(w.quotas[q].hard))
    && (forall t | t in w.clusterQuotas :: Int64Limit(w.clusterQuotas[t]))
  }

  ghost predicate ClaimOk(w: World, k: Key, claim: Claim) {
    claim.key == k && NonNegative(claim.spec.quota) && TeamDefined(w, k.ns)
  }

  ghost predicate TeamFits(w: World, team: string) {
    team in w.clusterQuotas ==> Fits(TotalIn(w.claims, TeamNamespaces(w, team)), w.clusterQuotas[team])
  }

  ghost predicate NamespaceFits(w: World, q: Key) {
    q in w.quotas ==> Fits(TotalIn(w.claims, {q.ns}), w.quotas[q].hard)
  }

  /** Every namespace total is within every limit its ResourceQuotas define and every
      team total is within its ClusterResourceQuota.  The totals are plain sums. */
  ghost predicate QuotaInv(w: World) {
    && LimitsOk(w) && (forall k | k in w.claims :: ClaimOk(w, k, w.claims[k]))
    && (forall q :: NamespaceFits(w, q)) && (forall t :: TeamFits(w, t))
  }

  /** What the team requests in plain numbers once the request is stored. */
  ghost function TeamTotalWith(w: World, claim: Claim): Quota
    requires TeamDefined(w, claim.key.ns)
  {
    Plus(TotalBut(w.claims, TeamNamespaces(w, TeamOf(w, claim.key.ns).value), claim.key), claim.spec.quota)
  }

  /** The 64-bit sum over the team with the request stored does not wrap. */
  ghost predicate NoWrap(w: World, claim: Claim) {
    TeamDefined(w, claim.key.ns) ==> TeamTotalWith(w, claim).buckets < TWO63
  }

  lemma NonNegativeTotals(w: World, keys: set<Key>)
    requires QuotaInv(w) && keys <= w.claims.Keys
    ensures NonNegative(Total(w.claims, keys))
  {
    assert forall k | k in keys :: ClaimOk(w, k, w.claims[k]);
    TotalNonNegative(w.claims, keys);
  }

  lemma PartOfTotal(w: World, part: set<Key>, keys: set<Key>)
    requires QuotaInv(w) && part <= keys <= w.claims.Keys
    ensures AtMost(Total(w.claims, part), Total(w.claims, keys))
  {
    assert forall k | k in keys :: ClaimOk(w, k, w.claims[k]);
    TotalMonotone(w.claims, part, keys);
  }

  /** Then no partial sum overflows either, in whatever order the others are summed. */
  lemma NoOverflow(w: World, claim: Claim, part: set<Key>)
    requires QuotaInv(w) && NonNegative(claim.spec.quota) && TeamDefined(w, claim.key.ns) && NoWrap(w, claim)
    requires part <= In(w.claims, TeamNamespaces(w, TeamOf(w, claim.key.ns).value)) - {claim.key}
    ensures 0 <= Total(w.claims, part).buckets + claim.spec.quota.buckets < TWO63
  {
    PartOfTotal(w, part, In(w.claims, TeamNamespaces(w, TeamOf(w, claim.key.ns).value)) - {claim.key});
    NonNegativeTotals(w, part);
  }

  /** Then the webhook's sums are the totals of the state that the request leads to. */
  lemma SumsAreNewTotals(w: World, claim: Claim)
    requires QuotaInv(w) && NonNegative(claim.spec.quota) && TeamDefined(w, claim.key.ns) && NoWrap(w, claim)
    ensures var team, claims' := TeamOf(w, claim.key.ns).value, w.claims[claim.key := claim];
            && NamespaceUsed(w, claim, claim.key.ns, true) == TotalIn(claims', {claim.key.ns})
            && TeamUsed(w, claim, team, true) == TotalIn(claims', TeamNamespaces(w, team))
  {
    var team, ns, k := TeamOf(w, claim.key.ns).value, claim.key.ns, claim.key;
    var nss := TeamNamespaces(w, team);
    RequestPlusOthersIsNewTotal(w.claims, {ns}, claim);
    RequestPlusOthersIsNewTotal(w.claims, nss, claim);
    assert Key(ns, claim.key.name) == k;
    NoOverflow(w, claim, In(w.claims, {ns}) - {k});
    NoOverflow(w, claim, In(w.claims, nss) - {k});
  }

  /** Storing an admitted claim keeps the quota invariant. */
  lemma AdmittedWriteKeepsQuota(w: World, w': World, claim: Claim)
    requires QuotaInv(w) && FitsQuotas(w, claim) && NonNegative(claim.spec.quota) && NoWrap(w, claim)
    requires SameLimits(w, w') && claim.key in w'.claims && w'.claims == w.claims[claim.key := w'.claims[claim.key]]
    requires w'.claims[claim.key].key == claim.key && w'.claims[claim.key].spec == claim.spec
    ensures QuotaInv(w')
  {
    var ns, team := claim.key.ns, TeamOf(w, claim.key.ns).value;
    var stored := w'.claims[claim.key];
    SumsAreNewTotals(w, claim);
    forall nss: set<string> ensures ns in nss ==> TotalIn(w'.claims, nss) == TotalIn(w.claims[claim.key := claim], nss) {
      TotalInFrame(w'.claims, w.claims[claim.key := claim], nss);
    }
    forall q ensures NamespaceFits(w', q) {
      if q in w'.quotas {
        assert NamespaceFits(w, q) && w'.quotas[q].hard == w.quotas[q].hard;
        if q.ns != ns {
          TotalUnaffected(w.claims, {q.ns}, stored);
        }
      }
    }
    forall t ensures TeamFits(w', t) {
      assert TeamFits(w, t) && TeamNamespaces(w', t) == TeamNamespaces(w, t);
      if t != team {
        TotalUnaffected(w.claims, TeamNamespaces(w, t), stored);
      }
    }
    WrittenClaimsOk(w, w', claim);
  }

  /** The condition is exact: storing a claim that passes the quota checks keeps the
      invariant if and only if the sum over its team does not wrap. */
  lemma WriteKeepsQuotaExactly(w: World, w': World, claim: Claim)
    requires QuotaInv(w) && FitsQuotas(w, claim) && NonNegative(claim.spec.quota)
    requires SameLimits(w, w') && claim.key in w'.claims && w'.claims == w.claims[claim.key := w'.claims[claim.key]]
    requires w'.claims[claim.key].key == claim.key && w'.claims[claim.key].spec == claim.spec
    ensures QuotaInv(w') <==> NoWrap(w, claim)
  {
    if NoWrap(w, claim) {
      AdmittedWriteKeepsQuota(w, w', claim);
    } else {
      var team := TeamOf(w, claim.key.ns).value;
      RequestPlusOthersIsNewTotal(w.claims, TeamNamespaces(w, team), claim);
      TotalInFrame(w'.claims, w.claims[claim.key := claim], TeamNamespaces(w, team));
      assert TeamNamespaces(w', team) == TeamNamespaces(w, team);
      assert QuotaInv(w') ==> TeamFits(w', team);
    }
  }

  lemma WrittenClaimsOk(w: World, w': World, claim: Claim)
    requires QuotaInv(w) && TeamDefined(w, claim.key.ns) && NonNegative(claim.spec.quota) && SameLimits(w, w')
    requires claim.key in w'.claims && w'.claims == w.claims[claim.key := w'.claims[claim.key]]
    requires w'.claims[claim.key].key == claim.key && w'.claims[claim.key].spec == claim.spec
    ensures forall k | k in w'.claims :: ClaimOk(w', k, w'.claims[k])
  {
    forall k | k in w'.claims ensures ClaimOk(w', k, w'.claims[k]) {
      assert k != claim.key ==> ClaimOk(w, k, w.claims[k]);
    }
  }

  ghost predicate SameLimits(w: World, w': World) {
    && w'.namespaces == w.namespaces && w'.clusterQuotas == w.clusterQuotas
    && w'.quotas.Keys == w.quotas.Keys && forall q | q in w.quotas :: w'.quotas[q].hard == w.quotas[q].hard
  }

  /** A claim that goes away takes its request with it. */
  lemma RemovalKeepsQuota(w: World, w': World, k: Key)
    requires QuotaInv(w) && SameLimits(w, w') && w'.claims == w.claims - {k}
    ensures QuotaInv(w')
  {
    forall nss: set<string> ensures AtMost(TotalIn(w'.claims, nss), TotalIn(w.claims, nss)) {
      OthersIsTotalAfterRemoval(w.claims, nss, k);
      PartOfTotal(w, In(w.claims, nss) - {k}, In(w.claims, nss));
    }
    forall q ensures NamespaceFits(w', q) {
      assert NamespaceFits(w, q);
    }
    forall t ensures TeamFits(w', t) {
      assert TeamFits(w, t) && TeamNamespaces(w', t) == TeamNamespaces(w, t);
    }
    forall x | x in w'.claims ensures ClaimOk(w', x, w'.claims[x]) {
      assert ClaimOk(w, x, w.claims[x]);
    }
  }

  /** Nothing that leaves names, quotas and limits alone matters. */
  lemma UnrelatedKeepsQuota(w: World, w': World)
    requires QuotaInv(w) && SameLimits(w, w') && SameRequests(w, w')
    ensures QuotaInv(w')
  {
    forall nss: set<string> ensures TotalIn(w'.claims, nss) == TotalIn(w.claims, nss) {
      TotalInFrame(w.claims, w'.claims, nss);
    }
    forall q ensures NamespaceFits(w', q) {
      assert NamespaceFits(w, q);
    }
    forall t ensures TeamFits(w', t) {
      assert TeamFits(w, t) && TeamNamespaces(w', t) == TeamNamespaces(w, t);
    }
    forall x | x in w'.claims ensures ClaimOk(w', x, w'.claims[x]) {
      assert ClaimOk(w, x, w.claims[x]);
    }
  }

  ghost predicate SameRequests(w: World, w': World) {
    && w'.claims.Keys == w.claims.Keys
    && forall k | k in w.claims :: w'.claims[k].key == w.claims[k].key && w'.claims[k].spec == w.claims[k].spec
  }

  // ---- the hypotheses are needed -------------------------------------------

  function Created(w: World, claim: Claim): World {
    w.(rev := w.rev + 1, claims := w.claims[claim.key := claim])
  }

  /** A create of a claim that is not there: what the webhook sums up. */
  lemma FreshSums(w: World, claim: Claim)
    requires claim.key !in w.claims && TeamDefined(w, claim.key.ns)
    ensures var ns, team := claim.key.ns, TeamOf(w, claim.key.ns).value;
            && NamespaceUsed(w, claim, ns, true) == Wrap(Plus(TotalIn(w.claims, {ns}), claim.spec.quota))
            && TeamUsed(w, claim, team, true) == Wrap(TeamTotalWith(w, claim))
            && TeamTotalWith(w, claim) == Plus(TotalIn(w.claims, TeamNamespaces(w, team)), claim.spec.quota)
            && TotalIn(Created(w, claim).claims, TeamNamespaces(w, team)) == TeamTotalWith(w, claim)
  {
    var nss, ns := TeamNamespaces(w, TeamOf(w, claim.key.ns).value), claim.key.ns;
    assert In(w.claims, nss) - {claim.key} == In(w.claims, nss);
    assert In(w.claims, {ns}) - {Key(ns, claim.key.name)} == In(w.claims, {ns});
    RequestPlusOthersIsNewTotal(w.claims, nss, claim);
  }

  /** A sum that wraps is negative, so it passes every bucket limit. */
  lemma WrappedFits(total: Quota, buckets: int, hard: map<string, int>)
    requires Fits(total, hard) && Int64Limit(hard)
    requires S3_BUCKETS in hard ==> total.buckets < TWO63 && buckets < TWO63 <= total.buckets + buckets
    ensures Fits(Wrap(Plus(total, Quota(0, 0, buckets))), hard)
  {
    if S3_BUCKETS in hard {
      WrapIsNegative(total.buckets + buckets);
    }
  }

  lemma WrapIsNegative(x: int)
    requires TWO63 <= x < TWO64
    ensures Wrap64(x) < 0
  {}

  /** Every 64-bit request that makes the sums wrap is admitted, whatever the bucket
      limits are, and the team's total is then over its limit. */
  lemma WrappingCreateIsAdmitted(w: World, claim: Claim)
    requires QuotaInv(w) && claim.key !in w.claims && TeamDefined(w, claim.key.ns)
    requires SecretsAbsent(w, claim.key.ns, [claim.spec.adminSecret, claim.spec.readonlySecret])
    requires claim.spec.quota == Quota(0, 0, claim.spec.quota.buckets) && claim.spec.quota.buckets < TWO63
    requires TWO63 <= TotalIn(w.claims, TeamNamespaces(w, TeamOf(w, claim.key.ns).value)).buckets + claim.spec.quota.buckets
    requires forall q | q in w.quotas && q.ns == claim.key.ns && S3_BUCKETS in w.quotas[q].hard ::
               TWO63 <= TotalIn(w.claims, {q.ns}).buckets + claim.spec.quota.buckets
    ensures AdmitsCreate(w, claim) && !NoWrap(w, claim) && !QuotaInv(Created(w, claim))
  {
    var team, ns, buckets := TeamOf(w, claim.key.ns).value, claim.key.ns, claim.spec.quota.buckets;
    FreshSums(w, claim);
    assert TeamFits(w, team);
    WrappedFits(TotalIn(w.claims, TeamNamespaces(w, team)), buckets, w.clusterQuotas[team]);
    forall q | q in w.quotas && q.ns == ns ensures Fits(NamespaceUsed(w, claim, ns, true), w.quotas[q].hard) {
      assert NamespaceFits(w, q);
      WrappedFits(TotalIn(w.claims, {ns}), buckets, w.quotas[q].hard);
    }
    NonNegativeTotals(w, In(w.claims, TeamNamespaces(w, team)));
    OverTop(w, claim);
  }

  /** A fresh request within all that is left of the team is admitted. */
  lemma FittingCreateIsAdmitted(w: World, claim: Claim)
    requires QuotaInv(w) && claim.key !in w.claims && TeamDefined(w, claim.key.ns) && NonNegative(claim.spec.quota)
    requires SecretsAbsent(w, claim.key.ns, [claim.spec.adminSecret, claim.spec.readonlySecret])
    requires forall q | q in w.quotas :: q.ns != claim.key.ns
    requires Fits(TeamTotalWith(w, claim), w.clusterQuotas[TeamOf(w, claim.key.ns).value])
    ensures AdmitsCreate(w, claim) && Harmless(w, claim)
  {
    var team := TeamOf(w, claim.key.ns).value;
    FreshSums(w, claim);
    NonNegativeTotals(w, In(w.claims, TeamNamespaces(w, team)));
    assert Int64Limit(w.clusterQuotas[team]);
  }

  /** A team without buckets yet, in a namespace without a ResourceQuota. */
  ghost predicate Idle(w: World, ns: string) {
    && TeamDefined(w, ns) && (forall q | q in w.quotas :: q.ns != ns)
    && var team := TeamOf(w, ns).value;
       TotalIn(w.claims, TeamNamespaces(w, team)).buckets == 0 && Value(w.clusterQuotas[team][S3_BUCKETS]) >= 1
  }

  /** A new claim for buckets only. */
  ghost predicate AsksFor(w: World, claim: Claim, buckets: int) {
    && claim.key !in w.claims && !claim.deleting && claim.spec.quota == Quota(0, 0, buckets)
    && SecretsAbsent(w, claim.key.ns, [claim.spec.adminSecret, claim.spec.readonlySecret])
  }

  lemma HarmlessCreateKeepsQuota(w: World, claim: Claim)
    requires QuotaInv(w) && AdmitsCreate(w, claim) && Harmless(w, claim)
    ensures QuotaInv(Created(w, claim))
  {
    AdmittedWriteKeepsQuota(w, Created(w, claim), claim);
  }

  lemma CreatedTotal(w: World, claim: Claim)
    requires claim.key !in w.claims && TeamDefined(w, claim.key.ns)
    ensures var w1, team := Created(w, claim), TeamOf(w, claim.key.ns).value;
            && TotalIn(w1.claims, TeamNamespaces(w1, team)) == TeamTotalWith(w, claim)
            && TeamTotalWith(w, claim) == Plus(TotalIn(w.claims, TeamNamespaces(w, team)), claim.spec.quota)
  {
    FreshSums(w, claim);
    assert TeamNamespaces(Created(w, claim), TeamOf(w, claim.key.ns).value) == TeamNamespaces(w, TeamOf(w, claim.key.ns).value);
  }

  lemma FirstBucket(w: World, one: Claim)
    requires QuotaInv(w) && Idle(w, one.key.ns) && AsksFor(w, one, 1)
    ensures AdmitsCreate(w, one) && Harmless(w, one)
  {
    CreatedTotal(w, one);
    assert TeamFits(w, TeamOf(w, one.key.ns).value);
    FittingCreateIsAdmitted(w, one);
  }

  lemma AfterFirstBucket(w: World, one: Claim)
    requires QuotaInv(w) && Idle(w, one.key.ns) && AsksFor(w, one, 1)
    ensures var w1, team := Created(w, one), TeamOf(w, one.key.ns).value;
            QuotaInv(w1) && TotalIn(w1.claims, TeamNamespaces(w1, team)).buckets == 1
  {
    FirstBucket(w, one);
    HarmlessCreateKeepsQuota(w, one);
    CreatedTotal(w, one);
  }

  lemma SecondCreateWraps(w: World, one: Claim, rest: Claim)
    requires QuotaInv(w) && Idle(w, one.key.ns) && AsksFor(w, one, 1) && AsksFor(w, rest, TWO63 - 1)
    requires rest.key.ns == one.key.ns && rest.key != one.key
    ensures AdmitsCreate(Created(w, one), rest) && !QuotaInv(Created(Created(w, one), rest))
  {
    AfterFirstBucket(w, one);
    assert TeamOf(Created(w, one), rest.key.ns) == TeamOf(w, one.key.ns);
    WrappingCreateIsAdmitted(Created(w, one), rest);
  }

  /** Two creates in an idle team are enough: one bucket, then 2^63 - 1 more. */
  lemma TwoCreatesWrap(w: World, one: Claim, rest: Claim)
    requires QuotaInv(w) && Idle(w, one.key.ns) && AsksFor(w, one, 1) && AsksFor(w, rest, TWO63 - 1)
    requires rest.key.ns == one.key.ns && rest.key != one.key
    ensures Admitted(w, CreateClaim(one)) && AdmitsCreate(Created(w, one), rest)
    ensures !QuotaInv(Created(Created(w, one), rest))
  {
    FirstBucket(w, one);
    SecondCreateWraps(w, one, rest);
  }

  lemma OverTop(w: World, claim: Claim)
    requires LimitsOk(w) && TeamDefined(w, claim.key.ns) && !NoWrap(w, claim)
    ensures !QuotaInv(Created(w, claim))
  {
    var team, w' := TeamOf(w, claim.key.ns).value, Created(w, claim);
    RequestPlusOthersIsNewTotal(w.claims, TeamNamespaces(w, team), claim);
    assert TeamNamespaces(w', team) == TeamNamespaces(w, team);
    assert !TeamFits(w', team);
  }

  /** Deleting a claim keeps a limit exactly when by no key the total is further above
      the limit than the claim's own request. */
  lemma RemovalFitsExactly(w: World, k: Key, nss: set<string>, hard: map<string, int>)
    requires k in w.claims && k.ns in nss
    ensures var t, q := TotalIn(w.claims, nss), w.claims[k].spec.quota;
            Fits(TotalIn(w.claims - {k}, nss), hard)
            <==> && (S3_OBJECTS in hard ==> t.objects - hard[S3_OBJECTS] <= q.objects)
                 && (S3_SIZE in hard ==> t.size - hard[S3_SIZE] <= q.size)
                 && (S3_BUCKETS in hard ==> t.buckets - Value(hard[S3_BUCKETS]) <= q.buckets)
  {
    OthersPlusStoredIsTotal(w.claims, nss, k);
    OthersIsTotalAfterRemoval(w.claims, nss, k);
  }

  /** Two claims that add up to what the limit leaves: one asks for `debt` objects less
      than nothing, the other for all that is left and `debt` more. */
  ghost predicate Scheme(w: World, debtor: Claim, other: Claim, debt: int) {
    var ns := debtor.key.ns;
    && debt > 0 && other.key.ns == ns && other.key != debtor.key
    && debtor.key !in w.claims && other.key !in w.claims && TeamDefined(w, ns)
    && (forall q | q in w.quotas :: q.ns != ns)
    && SecretsAbsent(w, ns, [debtor.spec.adminSecret, debtor.spec.readonlySecret])
    && SecretsAbsent(w, ns, [other.spec.adminSecret, other.spec.readonlySecret])
    && AdmitsDelete(w, debtor.key)
    && debtor.spec.quota == Quota(-debt, 0, 0)
    && other.spec.quota == Quota(RoomForObjects(w, ns) + debt, 0, 0)
  }

  ghost function RoomForObjects(w: World, ns: string): int
    requires TeamDefined(w, ns)
  {
    var team := TeamOf(w, ns).value;
    w.clusterQuotas[team][S3_OBJECTS] - TotalIn(w.claims, TeamNamespaces(w, team)).objects
  }

  /** Without non-negative requests the limits do not hold over runs: from any state
      within them, create the one, create the other, delete the first.  Each request is
      admitted, and in the end the team is `debt` objects over its limit. */
  lemma NegativeRequestHidesExcess(w: World, debtor: Claim, other: Claim, debt: int)
    requires QuotaInv(w) && Scheme(w, debtor, other, debt)
    ensures AdmitsCreate(w, debtor)
    ensures AdmitsCreate(Created(w, debtor), other)
    ensures AdmitsDelete(Created(Created(w, debtor), other), debtor.key)
    ensures var w' := Created(Created(w, debtor), other);
            var team := TeamOf(w, debtor.key.ns).value;
            && TotalIn(w'.claims - {debtor.key}, TeamNamespaces(w', team)).objects == w.clusterQuotas[team][S3_OBJECTS] + debt
            && !QuotaInv(w'.(claims := w'.claims - {debtor.key}))
  {
    var team := TeamOf(w, debtor.key.ns).value;
    var nss, w1 := TeamNamespaces(w, team), Created(w, debtor);
    var w2 := Created(w1, other);
    assert TeamFits(w, team);
    NonNegativeTotals(w, In(w.claims, nss));
    FreshSums(w, debtor);
    assert TeamNamespaces(w1, team) == nss == TeamNamespaces(w2, team);
    FreshSums(w1, other);
    OthersPlusStoredIsTotal(w2.claims, nss, debtor.key);
    OthersIsTotalAfterRemoval(w2.claims, nss, debtor.key);
    var w3 := w2.(claims := w2.claims - {debtor.key});
    assert TeamNamespaces(w3, team) == nss && !TeamFits(w3, team);
  }

  // ---- the controller is never refused -------------------------------------

  /** An update that keeps class and secret names and asks for no more than before is
      admitted in every state that satisfies the quota invariant. */
  lemma NoIncreaseIsAdmitted(w: World, claim: Claim)
    requires QuotaInv(w) && claim.key in w.claims
    requires var was := w.claims[claim.key].spec;
             && claim.spec.s3UserClass == was.s3UserClass
             && claim.spec.adminSecret == was.adminSecret && claim.spec.readonlySecret == was.readonlySecret
             && AtMost(claim.spec.quota, was.quota) && claim.spec.quota.buckets >= -TWO63
    ensures AdmitsUpdate(w, w.claims[claim.key], claim)
  {
    var k, ns := claim.key, claim.key.ns;
    assert ClaimOk(w, k, w.claims[k]) && Key(ns, claim.key.name) == k;
    var team := TeamOf(w, ns).value;
    var nss := TeamNamespaces(w, team);
    assert TeamFits(w, team);
    OthersPlusStoredIsTotal(w.claims, nss, k);
    NonNegativeTotals(w, In(w.claims, nss) - {k});
    OthersPlusStoredIsTotal(w.claims, {ns}, k);
    NonNegativeTotals(w, In(w.claims, {ns}) - {k});
    PartOfTotal(w, In(w.claims, {ns}), In(w.claims, nss));
    forall q | q in w.quotas && q.ns == ns ensures Fits(NamespaceUsed(w, claim, ns, true), w.quotas[q].hard) {
      assert NamespaceFits(w, q);
    }
  }

  /** In particular the controller's own writes of finalizers are admitted. */
  lemma FinalizerWritesAreAdmitted(w: World, k: Key, finalizers: set<string>)
    requires QuotaInv(w) && k in w.claims && w.claims[k].spec.quota.buckets < TWO63
    ensures AdmitsUpdate(w, w.claims[k], w.claims[k].(finalizers := finalizers))
  {
    assert ClaimOk(w, k, w.claims[k]);
    NoIncreaseIsAdmitted(w, w.claims[k].(finalizers := finalizers));
  }

  // ---- referential integrity -----------------------------------------------

  ghost predicate RefOk(w: World, b: Key) {
    b in w.buckets ==> Key(b.ns, w.buckets[b].userRef) in w.claims
  }

  /** Every S3Bucket refers to an existing claim. */
  ghost predicate RefInv(w: World) {
    forall b :: RefOk(w, b)
  }

  /** What keeps it so: none of these claims is on its way out. */
  ghost predicate Guarded(w: World, b: Key) {
    b in w.buckets ==>
      var k := Key(b.ns, w.buckets[b].userRef);
      k in w.claims && !w.claims[k].deleting
  }

  ghost predicate RefGuard(w: World) {
    forall b :: Guarded(w, b)
  }

  lemma GuardedRefs(w: World)
    requires RefGuard(w)
    ensures RefInv(w)
  {
    forall b ensures RefOk(w, b) {
      assert Guarded(w, b);
    }
  }

  /** The webhook's check is enough for the moment of admission. */
  lemma BucketCreateKeepsRefs(w: World, b: Key, bucket: Bucket)
    requires RefInv(w)
    ensures RefInv(w.(buckets := w.buckets[b := bucket])) <==> AdmitsBucketCreate(w, b, bucket)
  {
    var w' := w.(buckets := w.buckets[b := bucket]);
    assert RefOk(w', b) <==> AdmitsBucketCreate(w, b, bucket);
    forall x ensures x != b ==> RefOk(w', x) {
      assert RefOk(w, x);
    }
  }

  /** Likewise for the end of a claim: no reference breaks exactly if the webhook admits
      the deletion. */
  lemma ClaimDeleteKeepsRefs(w: World, k: Key)
    requires RefInv(w) && k in w.claims
    ensures RefInv(w.(claims := w.claims - {k})) <==> AdmitsDelete(w, k)
  {
    var w' := w.(claims := w.claims - {k});
    forall b ensures RefOk(w', b) <==> !(b in w.buckets && Key(b.ns, w.buckets[b].userRef) == k) {
      assert RefOk(w, b);
    }
    if RefInv(w') {
      forall b | b in w.buckets && b.ns == k.ns ensures w.buckets[b].userRef != k.name {
        assert RefOk(w', b);
      }
    }
  }

  /** A cluster without claims and buckets, and with limits that are not negative,
      satisfies all invariants. */
  lemma EmptyClusterIsSafe(w: World)
    requires w.claims == map[] && w.buckets == map[] && LimitsOk(w)
    requires forall q | q in w.quotas :: Fits(ZERO, w.quotas[q].hard)
    requires forall t | t in w.clusterQuotas :: Fits(ZERO, w.clusterQuotas[t])
    ensures QuotaInv(w) && RefGuard(w)
  {
    forall nss: set<string> ensures TotalIn(w.claims, nss) == ZERO {
      assert In(w.claims, nss) == {};
    }
  }

  // ---- the invariant, spelled out ------------------------------------------

  /** The namespaces whose label names the team. */
  ghost function LabelledNamespaces(w: World, team: string): set<string> {
    set ns | ns in w.namespaces && "snappcloud.io/team" in w.namespaces[ns] && w.namespaces[ns]["snappcloud.io/team"] == team
  }

  /** No total of plain numbers is above its limit; of buckets there are at most as many
      as the limit rounded up. */
  predicate NotAbove(total: Quota, hard: map<string, int>) {
    && ("s3/objects" in hard ==> total.objects <= hard["s3/objects"])
    && ("s3/size" in hard ==> total.size <= hard["s3/size"])
    && ("s3/buckets" in hard ==> total.buckets * NANO < hard["s3/buckets"] + NANO)
  }

  /** Every ResourceQuota holds for the claims of its namespace, every
      ClusterResourceQuota for the claims in all namespaces labelled with its name, and
      every claim lives in a labelled namespace whose team has all three limits. */
  ghost predicate LimitsHold(w: World) {
    && (forall q | q in w.quotas :: NotAbove(TotalIn(w.claims, {q.ns}), w.quotas[q].hard))
    && (forall t | t in w.clusterQuotas :: NotAbove(TotalIn(w.claims, LabelledNamespaces(w, t)), w.clusterQuotas[t]))
    && (forall k | k in w.claims :: HasTeam(w, k.ns))
  }

  ghost predicate HasTeam(w: World, ns: string) {
    && ns in w.namespaces && "snappcloud.io/team" in w.namespaces[ns]
    && var team := w.namespaces[ns]["snappcloud.io/team"];
       team in w.clusterQuotas && {"s3/objects", "s3/size", "s3/buckets"} <= w.clusterQuotas[team].Keys
  }

  lemma InvariantMeansLimitsHold(w: World)
    requires QuotaInv(w)
    ensures LimitsHold(w)
  {
    forall q | q in w.quotas ensures NotAbove(TotalIn(w.claims, {q.ns}), w.quotas[q].hard) {
      assert NamespaceFits(w, q);
      FitsIsNotAbove(w, In(w.claims, {q.ns}), w.quotas[q].hard);
    }
    forall t | t in w.clusterQuotas ensures NotAbove(TotalIn(w.claims, LabelledNamespaces(w, t)), w.clusterQuotas[t]) {
      assert TeamFits(w, t);
      PartOfTotal(w, In(w.claims, LabelledNamespaces(w, t)), In(w.claims, TeamNamespaces(w, t)));
      FitsIsNotAbove(w, In(w.claims, LabelledNamespaces(w, t)), w.clusterQuotas[t]);
    }
    forall k | k in w.claims ensures HasTeam(w, k.ns) {
      assert ClaimOk(w, k, w.claims[k]);
    }
  }

  lemma FitsIsNotAbove(w: World, keys: set<Key>, hard: map<string, int>)
    requires keys <= w.claims.Keys && Fits(Total(w.claims, keys), hard) && Int64Limit(hard)
    ensures NotAbove(Total(w.claims, keys), hard)
  {}

  // ---- runs ----------------------------------------------------------------

  /** Requests to the API server; `Elsewhere` is everything that bypasses these
      webhooks: Ceph, secrets, S3Users, statuses, published usage. */
  datatype Request =
    | CreateClaim(claim: Claim)
    | UpdateClaim(claim: Claim)
    | DeleteClaim(k: Key)
    | CreateBucket(b: Key, bucket: Bucket)
    | UpdateBucket(b: Key, bucket: Bucket)
    | RemoveBucket(b: Key)
    | Elsewhere(w: World)

  /** The hypotheses on requests for claims: no negative request, no sum that wraps. */
  ghost predicate Harmless(w: World, claim: Claim) {
    NonNegative(claim.spec.quota) && NoWrap(w, claim)
  }

  /** The request passes its webhook and meets the hypotheses of the property; for a
      bucket this is that its claim is not terminating. */
  ghost predicate Admitted(w: World, r: Request) {
    match r
    case CreateClaim(claim) => claim.key !in w.claims && !claim.deleting && AdmitsCreate(w, claim) && Harmless(w, claim)
    case UpdateClaim(claim) => claim.key in w.claims && AdmitsUpdate(w, w.claims[claim.key], claim) && Harmless(w, claim)
    case DeleteClaim(k) => k in w.claims && AdmitsDelete(w, k)
    case CreateBucket(b, bucket) =>
      b !in w.buckets && AdmitsBucketCreate(w, b, bucket) && !w.claims[Key(b.ns, bucket.userRef)].deleting
    case UpdateBucket(b, bucket) => b in w.buckets && AdmitsBucketUpdate(w.buckets[b], bucket)
    case RemoveBucket(b) => b in w.buckets
    case Elsewhere(w') =>
      && SameLimits(w, w') && SameRequests(w, w') && w'.buckets == w.buckets
      && forall k | k in w.claims :: w'.claims[k].deleting == w.claims[k].deleting
  }

  function MarkDeleted(claim: Claim): Claim {
    claim.(deleting := true)
  }

  ghost function Applied(w: World, r: Request): World
    requires Admitted(w, r)
  {
    match r
    case CreateClaim(claim) => Created(w, claim)
    case UpdateClaim(claim) => PutClaim(w, claim)
    case DeleteClaim(k) =>
      w.(rev := w.rev + 1,
         claims := if w.claims[k].finalizers == {} then w.claims - {k} else w.claims[k := MarkDeleted(w.claims[k])])
    case CreateBucket(b, bucket) => w.(buckets := w.buckets[b := bucket])
    case UpdateBucket(b, bucket) => w.(buckets := w.buckets[b := bucket])
    case RemoveBucket(b) => w.(buckets := w.buckets - {b})
    case Elsewhere(w') => w'
  }

  lemma UpdateKeepsQuota(w: World, claim: Claim)
    requires QuotaInv(w) && claim.key in w.claims && FitsQuotas(w, claim) && Harmless(w, claim)
    ensures QuotaInv(PutClaim(w, claim))
  {
    var w' := PutClaim(w, claim);
    assert ClaimOk(w, claim.key, w.claims[claim.key]);
    if claim.key in w'.claims {
      AdmittedWriteKeepsQuota(w, w', claim);
    } else {
      RemovalKeepsQuota(w, w', claim.key);
    }
  }

  lemma RequestKeepsQuota(w: World, r: Request)
    requires QuotaInv(w) && Admitted(w, r)
    ensures QuotaInv(Applied(w, r))
  {
    var w' := Applied(w, r);
    match r
    case CreateClaim(claim) => AdmittedWriteKeepsQuota(w, w', claim);
    case UpdateClaim(claim) => UpdateKeepsQuota(w, claim);
    case DeleteClaim(k) =>
      if k in w'.claims {
        UnrelatedKeepsQuota(w, w');
      } else {
        RemovalKeepsQuota(w, w', k);
      }
    case _ => UnrelatedKeepsQuota(w, w');
  }

  lemma RequestKeepsRefs(w: World, r: Request)
    requires RefGuard(w) && QuotaInv(w) && Admitted(w, r)
    ensures RefGuard(Applied(w, r))
  {
    var w' := Applied(w, r);
    forall b ensures Guarded(w', b) {
      if b in w.buckets {
        assert Guarded(w, b);
        assert r.DeleteClaim? && r.k.ns == b.ns ==> w.buckets[b].userRef != r.k.name;
      }
    }
  }

  ghost predicate IsRun(ws: seq<World>, rs: seq<Request>) {
    |ws| == |rs| + 1 && forall i | 0 <= i < |rs| :: Moves(ws[i], rs[i], ws[i + 1])
  }

  ghost predicate Moves(w: World, r: Request, w': World) {
    Admitted(w, r) && w' == Applied(w, r)
  }

  /** In every state reached by admitted requests all totals are within all limits and
      every S3Bucket refers to an existing claim of its namespace. */
  lemma {:induction false} AdmissionIsSafe(ws: seq<World>, rs: seq<Request>, i: nat)
    requires IsRun(ws, rs) && QuotaInv(ws[0]) && RefGuard(ws[0]) && i < |ws|
    ensures QuotaInv(ws[i]) && LimitsHold(ws[i]) && RefInv(ws[i])
  {
    RunKeepsInvariants(ws, rs, i);
    InvariantMeansLimitsHold(ws[i]);
    GuardedRefs(ws[i]);
  }

  lemma {:induction false} RunKeepsInvariants(ws: seq<World>, rs: seq<Request>, i: nat)
    requires IsRun(ws, rs) && QuotaInv(ws[0]) && RefGuard(ws[0]) && i < |ws|
    ensures QuotaInv(ws[i]) && RefGuard(ws[i])
  {
    if i > 0 {
      RunKeepsInvariants(ws, rs, i - 1);
      assert Moves(ws[i - 1], rs[i - 1], ws[i]);
      RequestKeepsQuota(ws[i - 1], rs[i - 1]);
      RequestKeepsRefs(ws[i - 1], rs[i - 1]);
    }
  }

  // ---- what never changes, and what is never touched -----------------------

  lemma RequestKeepsClass(w: World, r: Request, w': World, k: Key)
    requires Moves(w, r, w') && k in w.claims && k in w'.claims
    ensures w'.claims[k].spec.s3UserClass == w.claims[k].spec.s3UserClass
  {}

  lemma RequestKeepsUserRef(w: World, r: Request, w': World, b: Key)
    requires Moves(w, r, w') && b in w.buckets && b in w'.buckets
    ensures w'.buckets[b].userRef == w.buckets[b].userRef
  {}

  /** Over every run, a claim that stays keeps its class. */
  lemma {:induction false} ClassIsImmutable(ws: seq<World>, rs: seq<Request>, k: Key, i: nat)
    requires IsRun(ws, rs) && i < |ws| && forall n | 0 <= n <= i :: k in ws[n].claims
    ensures ws[i].claims[k].spec.s3UserClass == ws[0].claims[k].spec.s3UserClass
  {
    if i > 0 {
      ClassIsImmutable(ws, rs, k, i - 1);
      RequestKeepsClass(ws[i - 1], rs[i - 1], ws[i], k);
    }
  }

  /** And a bucket that stays keeps its reference. */
  lemma {:induction false} UserRefIsImmutable(ws: seq<World>, rs: seq<Request>, b: Key, i: nat)
    requires IsRun(ws, rs) && i < |ws| && forall n | 0 <= n <= i :: b in ws[n].buckets
    ensures ws[i].buckets[b].userRef == ws[0].buckets[b].userRef
  {
    if i > 0 {
      UserRefIsImmutable(ws, rs, b, i - 1);
      RequestKeepsUserRef(ws[i - 1], rs[i - 1], ws[i], b);
    }
  }

  /** The claim names the secret as its admin or its readonly secret. */
  predicate Names(w: World, k: Key, s: Key) {
    k in w.claims && s.ns == k.ns
    && (w.claims[k].spec.adminSecret == s.name || w.claims[k].spec.readonlySecret == s.name)
  }

  lemma RequestNeverPointsAt(w: World, r: Request, w': World, k: Key, s: Key)
    requires Moves(w, r, w') && s in w.secrets && !Names(w, k, s)
    ensures !Names(w', k, s)
  {
    if (r.CreateClaim? || r.UpdateClaim?) && r.claim.key == k && s.ns == k.ns {
      assert Key(k.ns, s.name) == s;
      if r.CreateClaim? {
        assert r.claim.spec.adminSecret in [r.claim.spec.adminSecret, r.claim.spec.readonlySecret];
        assert r.claim.spec.readonlySecret in [r.claim.spec.adminSecret, r.claim.spec.readonlySecret];
      }
    }
  }

  /** Over every run: a secret that exists all the while and that the claim does not
      name, or that there was before the claim, is never named by it later, whether it
      is edited or deleted and created anew. */
  lemma {:induction false} NeverPointedAt(ws: seq<World>, rs: seq<Request>, k: Key, s: Key, i: nat)
    requires IsRun(ws, rs) && i < |ws| && !Names(ws[0], k, s)
    requires forall n | 0 <= n <= i :: s in ws[n].secrets
    ensures !Names(ws[i], k, s)
  {
    if i > 0 {
      NeverPointedAt(ws, rs, k, s, i - 1);
      assert Moves(ws[i - 1], rs[i - 1], ws[i]);
      RequestNeverPointsAt(ws[i - 1], rs[i - 1], ws[i], k, s);
    }
  }

  /** The webhook does not refuse more than that: a create or an update within the
      quotas and, for the update, of the same class, is admitted exactly if it names no
      existing secret that the claim did not name in that place before. */
  lemma RefusedOnlyForSecrets(w: World, claim: Claim)
    requires FitsQuotas(w, claim)
    ensures AdmitsCreate(w, claim)
       <==> Key(claim.key.ns, claim.spec.adminSecret) !in w.secrets && Key(claim.key.ns, claim.spec.readonlySecret) !in w.secrets
    ensures claim.key in w.claims && w.claims[claim.key].spec.s3UserClass == claim.spec.s3UserClass ==>
              var was := w.claims[claim.key].spec;
              AdmitsUpdate(w, w.claims[claim.key], claim)
              <==> && (Key(claim.key.ns, claim.spec.adminSecret) in w.secrets ==> claim.spec.adminSecret == was.adminSecret)
                   && (Key(claim.key.ns, claim.spec.readonlySecret) in w.secrets ==> claim.spec.readonlySecret == was.readonlySecret)
  {
    var names := [claim.spec.adminSecret, claim.spec.readonlySecret];
    assert names[0] in names && names[1] in names;
  }

  // ---- what Ceph enforces --------------------------------------------------

  /** The user quotas that are in force in Ceph for a team's claims, once these have
      converged, exceed its hard limits by less than one unit per claim, and not at all
      when every request is integral. */
  lemma EnforcedWithinLimits(c: Config, w: World, team: string)
    requires QuotaInv(w) && team in w.clusterQuotas && AllDefined(w.clusterQuotas[team])
    requires forall k | k in In(w.claims, TeamNamespaces(w, team)) :: Converged(JobFor(c, k), w)
    ensures var keys, hard := In(w.claims, TeamNamespaces(w, team)), w.clusterQuotas[team];
            && AllSet(c.clusterName, w.users, w.claims, keys)
            && var e := InForce(c.clusterName, w.users, keys);
               && (keys != {} ==> e.0 * NANO < hard[S3_SIZE] + |keys| * NANO && e.1 * NANO < hard[S3_OBJECTS] + |keys| * NANO)
               && Total(w.claims, keys).buckets * NANO < hard[S3_BUCKETS] + NANO
               && (Integral(w.claims, keys) ==> e.0 * NANO <= hard[S3_SIZE] && e.1 * NANO <= hard[S3_OBJECTS])
  {
    var keys := In(w.claims, TeamNamespaces(w, team));
    forall k | k in keys
      ensures NonNegative(w.claims[k].spec.quota)
           && CephUserFullId(c.clusterName, k) in w.users
           && LimitsSet(w.users[CephUserFullId(c.clusterName, k)].quota, w.claims[k].spec.quota)
    {
      assert ClaimOk(w, k, w.claims[k]) && Converged(JobFor(c, k), w);
    }
    assert TeamFits(w, team);
    RoundingBound(c.clusterName, w.users, w.claims, keys);
  }
}
