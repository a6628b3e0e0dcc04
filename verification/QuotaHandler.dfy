/** The quota sums, shared by the webhook and the controller: everybody else's
    requests plus, if asked for, the one at hand. */
module QuotaHandler {
  import opened Naming
  import opened Quotas
  import opened Store
  import opened Accounting
  import opened Reconcile
  import opened Api

  const LABEL_TEAM := "snappcloud.io/team"

  /** The team label as a map lookup sees it: empty if absent. */
  function LabelOr(labels: map<string, string>): string {
    if LABEL_TEAM in labels then labels[LABEL_TEAM] else ""
  }

  /** findTeam: a namespace that is missing or has no label is an error. */
  function TeamOf(w: World, ns: string): Option<string> {
    if ns in w.namespaces && LABEL_TEAM in w.namespaces[ns] then Some(w.namespaces[ns][LABEL_TEAM]) else None
  }

  /** findTeamNamespaces: an empty team matches unlabelled namespaces as well. */
  function TeamNamespaces(w: World, team: string): set<string> {
    set ns | ns in w.namespaces && LabelOr(w.namespaces[ns]) == team
  }

  /** For a team with a name, these are exactly the namespaces that carry it. */
  lemma NamedTeamNamespaces(w: World, team: string, ns: string)
    requires team != ""
    ensures ns in TeamNamespaces(w, team) <==> TeamOf(w, ns) == Some(team)
  {}

  ghost function TeamUsed(w: World, claim: Claim, team: string, inclusive: bool): Quota {
    var others := TotalBut(w.claims, TeamNamespaces(w, team), claim.key);
    Wrap(if inclusive then Plus(others, claim.spec.quota) else others)
  }

  /** One addition of a running total. */
  function Accumulate(total: Quota, q: Quota): Quota {
    Quota(total.objects + q.objects, total.size + q.size, Wrap64(total.buckets + q.buckets))
  }

  lemma AccumulateTotal(claims: map<Key, Claim>, seen: set<Key>, k: Key)
    requires seen <= claims.Keys && k in claims && k !in seen
    ensures Accumulate(Wrap(Total(claims, seen)), claims[k].spec.quota) == Wrap(Total(claims, seen + {k}))
  {
    TotalInsert(claims, seen, k);
    WrapPlus(Total(claims, seen), claims[k].spec.quota);
  }

  lemma AccumulateRequest(others: Quota, q: Quota)
    ensures Accumulate(Wrap(others), q) == Wrap(Plus(others, q))
  {
    WrapPlus(others, q);
  }

  /** One list result added to a running total, the claim `excluded` left out. */
  method AddAll(ghost claims: map<Key, Claim>, ns: string, items: seq<Item>, ghost before: set<Key>,
                excluded: Key, start: Quota) returns (total: Quota)
    requires Lists(items, claims, ns) && before <= claims.Keys && forall k | k in before :: k.ns != ns
    requires start == Wrap(Total(claims, before))
    ensures total == Wrap(Total(claims, before + (In(claims, {ns}) - {excluded})))
  {
    total := start;
    ghost var seen := before;
    for i := 0 to |items|
      invariant before <= seen <= claims.Keys && total == Wrap(Total(claims, seen))
      invariant forall k :: k in seen <==> k in before || (k != excluded && exists m :: 0 <= m < i && items[m].key == k)
    {
      var item := items[i];
      if item.key != excluded {
        AccumulateTotal(claims, seen, item.key);
        total := Accumulate(total, item.claim.spec.quota);
        seen := seen + {item.key};
      }
    }
    assert seen == before + (In(claims, {ns}) - {excluded});
  }

  method CalculateNamespaceUsedQuota(cluster: Cluster, suc: Claim, ns: string, addCurrentQuota: bool)
    returns (r: Reply<Quota>)
    modifies cluster`faults
    ensures cluster.faults == Spent(old(cluster.faults)) && !r.NotFound?
    ensures r.Failed? == Down(old(cluster.faults))
    ensures r.Ok? ==> r.value == NamespaceUsed(cluster.world, suc, ns, addCurrentQuota)
  {
    var listed := cluster.ListClaims(ns);
    if !listed.Ok? { return Failed; }
    var total := AddAll(cluster.world.claims, ns, listed.value, {}, Key(ns, suc.key.name), ZERO);
    ghost var others := In(cluster.world.claims, {ns}) - {Key(ns, suc.key.name)};
    assert {} + others == others;
    if addCurrentQuota {
      AccumulateRequest(Total(cluster.world.claims, others), suc.spec.quota);
      total := Accumulate(total, suc.spec.quota);
    }
    r := Ok(total);
  }

  method FindTeam(cluster: Cluster, suc: Claim) returns (r: Reply<string>)
    modifies cluster`faults
    ensures cluster.faults == Spent(old(cluster.faults))
    ensures r == if Down(old(cluster.faults)) then Failed
                 else if TeamOf(cluster.world, suc.key.ns).Some? then Ok(TeamOf(cluster.world, suc.key.ns).value)
                 else NotFound
  {
    var ns := cluster.GetNamespace(suc.key.ns);
    match ns
    case Failed => r := Failed;
    case NotFound => r := NotFound;
    case Ok(labels) => r := if LABEL_TEAM in labels then Ok(labels[LABEL_TEAM]) else NotFound;
  }

  method FindTeamNamespaces(cluster: Cluster, team: string) returns (r: Reply<seq<string>>)
    modifies cluster`faults
    ensures cluster.faults == Spent(old(cluster.faults)) && r.Failed? == Down(old(cluster.faults)) && !r.NotFound?
    ensures r.Ok? ==> Enumerates(r.value, TeamNamespaces(cluster.world, team))
  {
    var listed := cluster.ListNamespaces();
    if !listed.Ok? { return Failed; }
    var all, namespaces := listed.value, [];
    for i := 0 to |all|
      invariant NoDup(namespaces)
      invariant forall ns :: ns in namespaces <==> ns in all[..i] && ns in TeamNamespaces(cluster.world, team)
    {
      assert all[i] !in all[..i] && all[..i + 1] == all[..i] + [all[i]] && all[i] in all;
      if LabelOr(cluster.world.namespaces[all[i]]) == team {
        namespaces := namespaces + [all[i]];
      }
    }
    assert all[..|all|] == all;
    r := Ok(namespaces);
  }

  lemma SeenGrows(claims: map<Key, Claim>, namespaces: seq<string>, i: nat, excluded: Key)
    requires NoDup(namespaces) && i < |namespaces|
    ensures var before := SeenIn(claims, namespaces[..i]) - {excluded};
            && (forall k | k in before :: k.ns != namespaces[i])
            && before + (In(claims, {namespaces[i]}) - {excluded}) == SeenIn(claims, namespaces[..i + 1]) - {excluded}
  {
    assert namespaces[..i + 1] == namespaces[..i] + [namespaces[i]] && namespaces[i] !in namespaces[..i];
  }

  /** The nested loops: every claim of the namespaces but the excluded one. */
  method SumNamespaces(cluster: Cluster, namespaces: seq<string>, excluded: Key) returns (r: Reply<Quota>)
    requires NoDup(namespaces)
    modifies cluster`faults
    ensures r.Ok? ==> r.value == Wrap(Total(cluster.world.claims, SeenIn(cluster.world.claims, namespaces) - {excluded}))
    ensures old(cluster.faults) == Never ==> cluster.faults == Never && r.Ok?
  {
    ghost var claims := cluster.world.claims;
    var total := ZERO;
    for i := 0 to |namespaces|
      invariant old(cluster.faults) == Never ==> cluster.faults == Never
      invariant total == Wrap(Total(claims, SeenIn(claims, namespaces[..i]) - {excluded}))
    {
      var items := cluster.ListClaims(namespaces[i]);
      if !items.Ok? { return Failed; }
      SeenGrows(claims, namespaces, i, excluded);
      total := AddAll(claims, namespaces[i], items.value, SeenIn(claims, namespaces[..i]) - {excluded}, excluded, total);
    }
    assert namespaces[..|namespaces|] == namespaces;
    r := Ok(total);
  }

  /** The nested sum over the namespaces of the claim's team. */
  method CalculateClusterUsedQuota(cluster: Cluster, suc: Claim, addCurrentQuota: bool)
    returns (r: Reply<(Quota, string)>)
    modifies cluster`faults
    ensures r.Ok? ==>
              && TeamOf(cluster.world, suc.key.ns) == Some(r.value.1)
              && r.value.0 == TeamUsed(cluster.world, suc, r.value.1, addCurrentQuota)
    ensures old(cluster.faults) == Never ==>
              cluster.faults == Never && (r.Ok? <==> TeamOf(cluster.world, suc.key.ns).Some?)
  {
    var found := FindTeam(cluster, suc);
    if !found.Ok? { return if found.NotFound? then NotFound else Failed; }
    var team := found.value;
    var listed := FindTeamNamespaces(cluster, team);
    if !listed.Ok? { return Failed; }
    ghost var claims := cluster.world.claims;
    var summed := SumNamespaces(cluster, listed.value, suc.key);
    if !summed.Ok? { return Failed; }
    var total := summed.value;
    assert SeenIn(claims, listed.value) == In(claims, TeamNamespaces(cluster.world, team));
    if addCurrentQuota {
      AccumulateRequest(TotalBut(claims, TeamNamespaces(cluster.world, team), suc.key), suc.spec.quota);
      total := Accumulate(total, suc.spec.quota);
    }
    r := Ok((total, team));
  }

  ghost function SeenIn(claims: map<Key, Claim>, namespaces: seq<string>): set<Key> {
    set k | k in claims && k.ns in namespaces
  }
}
