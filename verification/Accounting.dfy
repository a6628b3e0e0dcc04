/** What a set of claims requests in total, and how that total moves when one
    claim is added, removed or changed. */
module Accounting {
  import opened Naming
  import opened Quotas
  import opened Store

  ghost function Pick(keys: set<Key>): (k: Key)
    requires keys != {}
    ensures k in keys
  {
    var k :| k in keys; k
  }

  /** The plain sum of the quotas of the claims named by `keys`. */
  ghost function Total(claims: map<Key, Claim>, keys: set<Key>): Quota
    requires keys <= claims.Keys
    decreases |keys|
  {
    if keys == {} then ZERO
    else Plus(claims[Pick(keys)].spec.quota, Total(claims, keys - {Pick(keys)}))
  }

  /** The total does not depend on the order in which the claims are taken. */
  lemma {:induction false} TotalRemove(claims: map<Key, Claim>, keys: set<Key>, k: Key)
    requires keys <= claims.Keys && k in keys
    ensures Total(claims, keys) == Plus(claims[k].spec.quota, Total(claims, keys - {k}))
    ensures var t, q, rest := Total(claims, keys), claims[k].spec.quota, Total(claims, keys - {k});
            t.objects == q.objects + rest.objects && t.size == q.size + rest.size && t.buckets == q.buckets + rest.buckets
    decreases |keys|
  {
    var p := Pick(keys);
    if p != k {
      TotalRemove(claims, keys - {p}, k);
      TotalRemove(claims, keys - {k}, p);
      assert keys - {p} - {k} == keys - {k} - {p};
    }
  }

  lemma TotalInsert(claims: map<Key, Claim>, keys: set<Key>, k: Key)
    requires keys <= claims.Keys && k in claims && k !in keys
    ensures Total(claims, keys + {k}) == Plus(claims[k].spec.quota, Total(claims, keys))
  {
    TotalRemove(claims, keys + {k}, k);
    assert keys + {k} - {k} == keys;
  }

  /** Only the quotas of the claims in question matter. */
  lemma {:induction false} TotalFrame(claims: map<Key, Claim>, claims': map<Key, Claim>, keys: set<Key>)
    requires keys <= claims.Keys && keys <= claims'.Keys
    requires forall k | k in keys :: claims[k].spec.quota == claims'[k].spec.quota
    ensures Total(claims, keys) == Total(claims', keys)
    decreases |keys|
  {
    if keys != {} {
      TotalFrame(claims, claims', keys - {Pick(keys)});
    }
  }

  lemma {:induction false} TotalNonNegative(claims: map<Key, Claim>, keys: set<Key>)
    requires keys <= claims.Keys && forall k | k in keys :: NonNegative(claims[k].spec.quota)
    ensures NonNegative(Total(claims, keys))
    decreases |keys|
  {
    if keys != {} {
      TotalNonNegative(claims, keys - {Pick(keys)});
    }
  }

  /** Part of a set of non-negative claims requests at most what the whole does. */
  lemma {:induction false} TotalMonotone(claims: map<Key, Claim>, part: set<Key>, keys: set<Key>)
    requires part <= keys <= claims.Keys && forall k | k in keys :: NonNegative(claims[k].spec.quota)
    ensures AtMost(Total(claims, part), Total(claims, keys))
    decreases |keys|
  {
    if part == {} {
      TotalNonNegative(claims, keys);
    } else {
      var k := Pick(part);
      TotalMonotone(claims, part - {k}, keys - {k});
      TotalRemove(claims, keys, k);
    }
  }

  // ---- totals over namespaces and teams ------------------------------------

  ghost function In(claims: map<Key, Claim>, nss: set<string>): (keys: set<Key>)
    ensures forall k :: k in keys <==> k in claims && k.ns in nss
  {
    set k | k in claims && k.ns in nss
  }

  /** The total of all claims in some namespaces. */
  ghost function TotalIn(claims: map<Key, Claim>, nss: set<string>): Quota {
    Total(claims, In(claims, nss))
  }

  /** The total of the claims in some namespaces except the one named k. */
  ghost function TotalBut(claims: map<Key, Claim>, nss: set<string>, k: Key): Quota {
    Total(claims, In(claims, nss) - {k})
  }

  /** "Sum of the others plus the request" is the total of the state that results
      from storing the request, for a create and for an update alike. */
  lemma RequestPlusOthersIsNewTotal(claims: map<Key, Claim>, nss: set<string>, claim: Claim)
    requires claim.key.ns in nss
    ensures TotalIn(claims[claim.key := claim], nss)
         == Plus(TotalBut(claims, nss, claim.key), claim.spec.quota)
  {
    var k, claims' := claim.key, claims[claim.key := claim];
    TotalRemove(claims', In(claims', nss), k);
    assert In(claims', nss) - {k} == In(claims, nss) - {k};
    TotalFrame(claims, claims', In(claims, nss) - {k});
  }

  lemma OthersIsTotalAfterRemoval(claims: map<Key, Claim>, nss: set<string>, k: Key)
    ensures TotalBut(claims, nss, k) == TotalIn(claims - {k}, nss)
  {
    assert In(claims - {k}, nss) == In(claims, nss) - {k};
    TotalFrame(claims, claims - {k}, In(claims, nss) - {k});
  }

  lemma OthersPlusStoredIsTotal(claims: map<Key, Claim>, nss: set<string>, k: Key)
    requires k in claims && k.ns in nss
    ensures TotalIn(claims, nss) == Plus(TotalBut(claims, nss, k), claims[k].spec.quota)
  {
    TotalRemove(claims, In(claims, nss), k);
  }

  /** Claims outside the namespaces do not count. */
  lemma TotalUnaffected(claims: map<Key, Claim>, nss: set<string>, claim: Claim)
    requires claim.key.ns !in nss
    ensures TotalIn(claims[claim.key := claim], nss) == TotalIn(claims, nss)
  {
    assert In(claims[claim.key := claim], nss) == In(claims, nss);
    TotalFrame(claims, claims[claim.key := claim], In(claims, nss));
  }

  /** A write that changes no quota changes no total. */
  lemma TotalInFrame(claims: map<Key, Claim>, claims': map<Key, Claim>, nss: set<string>)
    requires claims.Keys == claims'.Keys
    requires forall k | k in claims :: claims[k].spec.quota == claims'[k].spec.quota
    ensures TotalIn(claims, nss) == TotalIn(claims', nss)
  {
    assert In(claims, nss) == In(claims', nss);
    TotalFrame(claims, claims', In(claims, nss));
  }

  // ---- what Ceph enforces, against what was admitted -----------------------

  /** The quota of a Ceph user is the claim's: enabled, the size limit in whole bytes
      and the object limit in whole objects, rounded. */
  predicate LimitsSet(limits: CephQuota, request: Quota) {
    && limits.enabled
    && RoundsAway(limits.maxSize, request.size) && RoundsAway(limits.maxObjects, request.objects)
  }

  /** The Ceph users of all these claims exist, with their quotas set. */
  ghost predicate AllSet(cluster: string, users: map<string, CephUser>, claims: map<Key, Claim>, keys: set<Key>)
    requires keys <= claims.Keys
  {
    forall k | k in keys ::
      CephUserFullId(cluster, k) in users && LimitsSet(users[CephUserFullId(cluster, k)].quota, claims[k].spec.quota)
  }

  /** The sums of the size limits and of the object limits of the claims' Ceph users. */
  ghost function InForce(cluster: string, users: map<string, CephUser>, keys: set<Key>): (int, int)
    requires forall k | k in keys :: CephUserFullId(cluster, k) in users
    decreases |keys|
  {
    if keys == {} then (0, 0)
    else
      var limits, rest := users[CephUserFullId(cluster, Pick(keys))].quota, InForce(cluster, users, keys - {Pick(keys)});
      (limits.maxSize + rest.0, limits.maxObjects + rest.1)
  }

  ghost predicate Integral(claims: map<Key, Claim>, keys: set<Key>)
    requires keys <= claims.Keys
  {
    forall k | k in keys :: claims[k].spec.quota.size % NANO == 0 && claims[k].spec.quota.objects % NANO == 0
  }

  /** The limits in force in Ceph over n claims cover the admitted total and exceed it
      by less than n whole units, and by nothing when every request is integral. */
  lemma {:induction false} RoundingBound(cluster: string, users: map<string, CephUser>, claims: map<Key, Claim>, keys: set<Key>)
    requires keys <= claims.Keys && forall k | k in keys :: NonNegative(claims[k].spec.quota)
    requires AllSet(cluster, users, claims, keys)
    ensures var t, e := Total(claims, keys), InForce(cluster, users, keys);
            && t.size <= e.0 * NANO && t.objects <= e.1 * NANO
            && (keys != {} ==> e.0 * NANO < t.size + |keys| * NANO && e.1 * NANO < t.objects + |keys| * NANO)
            && (Integral(claims, keys) ==> t.size == e.0 * NANO && t.objects == e.1 * NANO)
    decreases |keys|
  {
    if keys != {} {
      var k := Pick(keys);
      var rest := keys - {k};
      RoundingBound(cluster, users, claims, rest);
      var limits, q := users[CephUserFullId(cluster, k)].quota, claims[k].spec.quota;
      var t, e := Total(claims, rest), InForce(cluster, users, rest);
      assert |keys| == |rest| + 1 && LimitsSet(limits, q);
      OneMoreRounded(limits.maxSize, q.size, e.0, t.size, |rest|);
      OneMoreRounded(limits.maxObjects, q.objects, e.1, t.objects, |rest|);
    }
  }

  /** Rounding one more request adds less than one unit to what was added before. */
  lemma OneMoreRounded(units: int, quantity: int, rounded: int, total: int, n: nat)
    requires quantity >= 0 && RoundsAway(units, quantity) && total <= rounded * NANO
    requires if n == 0 then rounded * NANO == total else rounded * NANO < total + n * NANO
    ensures quantity + total <= (units + rounded) * NANO < quantity + total + (n + 1) * NANO
    ensures quantity % NANO == 0 && total == rounded * NANO ==> quantity + total == (units + rounded) * NANO
  {}
}
