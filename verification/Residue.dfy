/** The residue is real, and it is permanent: a secret that neither the spec nor a
    subuser in Ceph leads to is never touched again by any attempt. */
module Residue {
  import opened Naming
  import opened Store
  import opened Subusers
  import opened Reconcile
  import opened Isolation
  import opened Convergence
  import opened Runs
  import S = Sync

  /** No demand of the spec is for this secret. */
  ghost predicate Undemanded(j: Job, spec: ClaimSpec, s: Key) {
    s.ns == j.key.ns && forall d | d in Demands(j, spec) :: d.secret != s.name
  }

  /** The secret exists, is not demanded, and is the secret of no subuser in Ceph. */
  ghost predicate Forgotten(j: Job, w: World, s: Key) {
    && s in w.secrets && j.key in w.claims && Undemanded(j, w.claims[j.key].spec, s)
    && !Via(j, SubusersOf(j, w.users), s.name)
  }

  /** The secret has another controller, which the claim may not replace. */
  predicate Foreign(j: Job, secrets: map<Key, Secret>, uid: nat, s: Key) {
    s in secrets && !Adoptable(secrets[s], j.key.name) && !ControlledBy(secrets[s], uid)
  }

  /** Not demanded, or not to be taken over. */
  ghost predicate Spared(j: Job, secrets: map<Key, Secret>, claim: Claim, s: Key) {
    Undemanded(j, claim.spec, s) || (s.ns == j.key.ns && Foreign(j, secrets, claim.uid, s))
  }

  lemma DoomedIsVia(j: Job, subs: set<string>, spec: ClaimSpec, name: string)
    requires Doomed(j, subs, spec, name)
    ensures Via(j, subs, name)
  {
    var sub :| SubuserFullId(j.id, sub) in subs && SubuserFullId(j.id, sub) !in Wanted(j.id, spec.subusers)
               && name == SubuserSecretName(j.key.name, sub);
    assert sub != READONLY;
  }

  /** What a step leaves: the secret as it is, and no subuser that was neither there
      nor wanted. */
  ghost predicate LeavesAlone(j: Job, spec: ClaimSpec, s: Key, w: World, w': World) {
    && (s in w.secrets ==> s in w'.secrets && w'.secrets[s] == w.secrets[s])
    && SubusersOf(j, w'.users) <= SubusersOf(j, w.users) + Wanted(j.id, spec.subusers)
  }

  lemma ListedIsDemanded(j: Job, spec: ClaimSpec, sub: string)
    requires sub in spec.subusers
    ensures SubuserDemand(j.id, j.key.name, sub) in Demands(j, spec)
  {}

  lemma ViaGrowsOnlyByDemands(j: Job, spec: ClaimSpec, subs: set<string>, subs': set<string>, s: Key)
    requires subs' <= subs + Wanted(j.id, spec.subusers) && Undemanded(j, spec, s)
    ensures Via(j, subs', s.name) ==> Via(j, subs, s.name)
  {
    if Via(j, subs', s.name) {
      var sub :| sub != READONLY && SubuserFullId(j.id, sub) in subs' && s.name == SubuserSecretName(j.key.name, sub);
      if SubuserFullId(j.id, sub) !in subs {
        WantedIsListed(j, spec, sub);
        ListedIsDemanded(j, spec, sub);
      }
    }
  }

  lemma SyncLeavesAlone(j: Job, order: seq<string>, a: Attempt, s: Key)
    requires Reached(2, j, a) && Enumerates(order, Tags(j.id, a).Keys)
    requires s.ns == j.key.ns && !Doomed(j, SubusersOf(j, a.world.users), a.vars.claim.spec, s.name)
    ensures LeavesAlone(j, a.vars.claim.spec, s, a.world, SyncAll(j.id, order, Tags(j.id, a), a).world)
  {
    var tags, wanted := Tags(j.id, a), Wanted(j.id, a.vars.desired);
    var b := SyncAll(j.id, order, tags, a);
    TagsAreDue(j, order, a);
    S.SyncProgress(j.id, order, tags, wanted, a);
    S.SyncSecrets(j.id, order, tags, wanted, a);
    S.SyncDeletesUnwanted(j.id, order, tags, wanted, a);
    forall name | name in SubusersOf(j, b.world.users) ensures name in SubusersOf(j, a.world.users) + wanted {
      if name !in wanted {
        assert name in S.Disagreement(wanted, S.Current(j.id, b.world));
      }
    }
    if s in a.world.secrets && s !in b.world.secrets {
      assert S.BelongsToUnwanted(j.id, a.vars.claim, wanted, a.world, s);
      UnwantedIsDoomed(j, a, s);
    }
  }

  lemma UnwantedIsDoomed(j: Job, a: Attempt, s: Key)
    requires j.id in a.world.users && a.vars.claim.key == j.key && a.vars.desired == a.vars.claim.spec.subusers
    requires S.BelongsToUnwanted(j.id, a.vars.claim, Wanted(j.id, a.vars.desired), a.world, s)
    ensures Doomed(j, SubusersOf(j, a.world.users), a.vars.claim.spec, s.name)
  {
    var name :| S.OwnName(j.id, name) && name in S.Current(j.id, a.world) && name !in Wanted(j.id, a.vars.desired)
                && s == SubuserSecretKey(a.vars.claim, S.SubuserOf(j.id, name));
    S.OwnNameExtracts(j.id, name);
    assert SubuserFullId(j.id, S.SubuserOf(j.id, name)) == name;
  }

  lemma StoreLeavesAlone(j: Job, d: Demand, a: Attempt, s: Key)
    requires a.vars.claim.key == j.key && d in Demands(j, a.vars.claim.spec)
    requires Spared(j, a.world.secrets, a.vars.claim, s)
    ensures var b := EnsureSecret(d, a);
            && OnlySecrets(a, b) && b.world.users == a.world.users
            && LeavesAlone(j, a.vars.claim.spec, s, a.world, b.world)
  {
    EnsureSecretEntry(d, a);
    if s == Key(j.key.ns, d.secret) {
      ForeignSecretStops(d, a);
    }
  }

  lemma {:induction false} SecretsLeaveAlone(j: Job, subusers: seq<string>, a: Attempt, s: Key)
    requires a.vars.claim.key == j.key && Spared(j, a.world.secrets, a.vars.claim, s)
    requires forall x | x in subusers :: x in a.vars.claim.spec.subusers
    ensures var b := EnsureSubuserSecrets(j.id, subusers, a);
            && OnlySecrets(a, b) && b.world.users == a.world.users
            && LeavesAlone(j, a.vars.claim.spec, s, a.world, b.world)
  {
    if subusers != [] {
      var n := |subusers| - 1;
      var b := EnsureSubuserSecrets(j.id, subusers[..n], a);
      SecretsLeaveAlone(j, subusers[..n], a, s);
      if !b.halted {
        ListedIsDemanded(j, a.vars.claim.spec, subusers[n]);
        StoreLeavesAlone(j, SubuserDemand(j.id, j.key.name, subusers[n]), b, s);
      }
    }
  }

  lemma StoringStepLeavesAlone(step: Step, j: Job, ch: Choices, a: Attempt, s: Key)
    requires StoresSecrets(step) && Reached(4, j, a) && Spared(j, a.world.secrets, a.vars.claim, s)
    ensures LeavesAlone(j, a.vars.claim.spec, s, a.world, Do(j, step, ch, a).world)
  {
    if step == EnsureOtherSecrets {
      SecretsLeaveAlone(j, a.vars.desired, a, s);
    } else {
      ExplicitStep(j, step, ch, a);
      StoreLeavesAlone(j, ExplicitDemand(j, step, a.vars.claim.spec), a, s);
    }
  }

  lemma StepLeavesAlone(n: nat, j: Job, ch: Choices, a: Attempt, s: Key)
    requires n < 11 && Reached(n, j, a) && Legal(j, PROVISION[n], ch, a)
    requires Spared(j, a.world.secrets, a.vars.claim, s)
    requires n <= 2 ==> !Doomed(j, SubusersOf(j, a.world.users), a.vars.claim.spec, s.name)
    ensures LeavesAlone(j, a.vars.claim.spec, s, a.world, Do(j, PROVISION[n], ch, a).world)
  {
    if n == 2 {
      SyncLeavesAlone(j, ch.subusers, a, s);
    } else if 4 <= n <= 6 {
      StoringStepLeavesAlone(PROVISION[n], j, ch, a, s);
    } else {
      QuietStep(n, j, ch, a);
    }
  }

  /** What the steps from the n-th on need to leave the secret alone. */
  ghost predicate Safe(n: nat, j: Job, a: Attempt, s: Key) {
    && Spared(j, a.world.secrets, a.vars.claim, s)
    && (n <= 2 ==> !Doomed(j, SubusersOf(j, a.world.users), a.vars.claim.spec, s.name))
  }

  /** The chain from the n-th step on leaves the secret alone. */
  ghost predicate ChainLeaves(n: nat, j: Job, ch: Choices, a: Attempt, s: Key)
    requires n <= 11
  {
    LeavesAlone(j, a.vars.claim.spec, s, a.world, Chain(j, PROVISION[n..], ch, a).world)
  }

  lemma NextIsSafe(n: nat, j: Job, ch: Choices, a: Attempt, s: Key)
    requires n < 11 && Reached(n, j, a) && LegalChain(j, PROVISION[n..], ch, a) && Safe(n, j, a, s)
    ensures var b := Do(j, PROVISION[n], ch, a);
            && LeavesAlone(j, a.vars.claim.spec, s, a.world, b.world)
            && (b.halted || CanGoOn(n + 1, j, ch, b, s))
            && (b.halted || ChainLeaves(n + 1, j, ch, b, s) ==> ChainLeaves(n, j, ch, a, s))
  {
    Unroll(n, j, ch, a);
    StepProceeds(n, j, ch, a);
    StepLeavesAlone(n, j, ch, a, s);
    if n < 2 {
      QuietStep(n, j, ch, a);
    }
  }

  ghost predicate CanGoOn(n: nat, j: Job, ch: Choices, a: Attempt, s: Key)
    requires n <= 11
  {
    Reached(n, j, a) && LegalChain(j, PROVISION[n..], ch, a) && Safe(n, j, a, s)
  }

  lemma {:induction false} ChainLeavesAlone(n: nat, j: Job, ch: Choices, a: Attempt, s: Key)
    requires n <= 11 && CanGoOn(n, j, ch, a, s)
    ensures ChainLeaves(n, j, ch, a, s)
    decreases 11 - n
  {
    if n < 11 {
      NextIsSafe(n, j, ch, a, s);
      var b := Do(j, PROVISION[n], ch, a);
      if !b.halted {
        ChainLeavesAlone(n + 1, j, ch, b, s);
      }
    }
  }

  lemma AttemptLeavesAlone(c: Config, ch: Choices, w: World, stale: Vars, k: Key, faults: Faults, s: Key)
    requires Sound(JobFor(c, k), w) && LegalReconcile(c, ch, w, stale, k, faults)
    requires Spared(JobFor(c, k), w.secrets, w.claims[k], s)
    requires !Doomed(JobFor(c, k), SubusersOf(JobFor(c, k), w.users), w.claims[k].spec, s.name)
    ensures LeavesAlone(JobFor(c, k), w.claims[k].spec, s, w, ReconcileKey(c, ch, w, stale, k, faults).world)
  {
    var j, a := JobFor(c, k), Call(Start(w, stale, k, faults));
    if !a.halted {
      assert PROVISION[0..] == PROVISION && Reached(0, j, a);
      ChainLeavesAlone(0, j, ch, a, s);
    }
  }

  /** No attempt, however it ends, takes over or rewrites a secret with another
      controller.  Only as the secret of an unwanted subuser can it be deleted. */
  lemma ForeignSecretIsSpared(c: Config, ch: Choices, w: World, stale: Vars, k: Key, faults: Faults, s: Key)
    requires Sound(JobFor(c, k), w) && LegalReconcile(c, ch, w, stale, k, faults)
    requires s.ns == k.ns && Foreign(JobFor(c, k), w.secrets, w.claims[k].uid, s)
    requires !Doomed(JobFor(c, k), SubusersOf(JobFor(c, k), w.users), w.claims[k].spec, s.name)
    ensures var w' := ReconcileKey(c, ch, w, stale, k, faults).world;
            s in w'.secrets && w'.secrets[s] == w.secrets[s]
  {
    AttemptLeavesAlone(c, ch, w, stale, k, faults, s);
  }

  /** However an attempt ends, a forgotten secret stays as it is and stays forgotten. */
  lemma AttemptForgets(c: Config, ch: Choices, w: World, stale: Vars, k: Key, faults: Faults, s: Key)
    requires Sound(JobFor(c, k), w) && LegalReconcile(c, ch, w, stale, k, faults)
    requires Forgotten(JobFor(c, k), w, s)
    ensures var w' := ReconcileKey(c, ch, w, stale, k, faults).world;
            Forgotten(JobFor(c, k), w', s) && w'.secrets[s] == w.secrets[s]
  {
    var j, w' := JobFor(c, k), ReconcileKey(c, ch, w, stale, k, faults).world;
    if Doomed(j, SubusersOf(j, w.users), w.claims[k].spec, s.name) {
      DoomedIsVia(j, SubusersOf(j, w.users), w.claims[k].spec, s.name);
    }
    AttemptKeepsSound(c, ch, w, stale, k, faults);
    AttemptLeavesAlone(c, ch, w, stale, k, faults, s);
    ViaGrowsOnlyByDemands(j, w.claims[k].spec, SubusersOf(j, w.users), SubusersOf(j, w'.users), s);
  }

  /** The event does not ask for the secret, nor do others touch it or give it back to
      a subuser. */
  ghost predicate KeepsForgotten(j: Job, w: World, e: Event, s: Key) {
    match e
    case Edit(spec) => Undemanded(j, spec, s)
    case Try(_, _, _) => true
    case Outside(w') =>
      && (s in w.secrets ==> s in w'.secrets && w'.secrets[s] == w.secrets[s])
      && !Via(j, SubusersOf(j, w'.users), s.name)
  }

  /** No run of attempts, interrupted or not, and of edits and changes by others that do
      not ask for it ever removes or rewrites a forgotten secret. */
  lemma {:induction false} ForgottenForGood(c: Config, k: Key, ws: seq<World>, events: seq<Event>, s: Key)
    requires IsRun(c, k, ws, events) && Sound(JobFor(c, k), ws[0]) && Forgotten(JobFor(c, k), ws[0], s)
    requires forall i | 0 <= i < |events| :: KeepsForgotten(JobFor(c, k), ws[i], events[i], s)
    ensures var w := ws[|events|];
            Sound(JobFor(c, k), w) && Forgotten(JobFor(c, k), w, s) && w.secrets[s] == ws[0].secrets[s]
  {
    if events != [] {
      var n := |events| - 1;
      ForgottenForGood(c, k, ws[..n + 1], events[..n], s);
      assert Follows(c, k, ws[n], events[n], ws[n + 1]) && KeepsForgotten(JobFor(c, k), ws[n], events[n], s);
      if events[n].Try? {
        AttemptKeepsSound(c, events[n].ch, ws[n], events[n].stale, k, events[n].faults);
        AttemptForgets(c, events[n].ch, ws[n], events[n].stale, k, events[n].faults, s);
      }
    }
  }

  /** How secrets come to be forgotten: a removal that ends between Ceph and the secret
      leaves exactly this secret behind. */
  lemma InterruptedRemovalForgets(j: Job, sub: string, a: Attempt)
    requires InSync(j, a) && !a.halted && a.leaked == None && a.faults == After(1) && j.id in a.world.users
    requires ':' !in j.id && ':' !in sub && sub != READONLY
    requires var s := SubuserSecretKey(a.vars.claim, sub);
             s in a.world.secrets && Undemanded(j, a.vars.claim.spec, s)
    ensures var s, b := SubuserSecretKey(a.vars.claim, sub), DoRemoveSubuserAndSecret(j.id, SubuserFullId(j.id, sub), a);
            b.halted && Forgotten(j, b.world, s) && b.world.secrets == a.world.secrets && Leak(j, b) == {s.name}
  {
    var name := SubuserFullId(j.id, sub);
    ExtractInvertsGenerate(j.id, sub);
    var b := DoRemoveSubuserAndSecret(j.id, name, a);
    var s := SubuserSecretKey(a.vars.claim, sub);
    if x :| x != READONLY && SubuserFullId(j.id, x) in SubusersOf(j, b.world.users) && s.name == SubuserSecretName(j.key.name, x) {
      SecretNameInjectiveInClaim(j.key.name, sub, x);
      assert false;
    }
  }

  // ---- a run that forgets a secret -----------------------------------------

  /** The spec without one of its subusers. */
  function Dropping(spec: ClaimSpec, sub: string): ClaimSpec {
    spec.(subusers := Without(spec.subusers, sub))
  }

  lemma WantedWithout(id: string, subusers: seq<string>, sub: string)
    requires sub in subusers && sub != READONLY
    ensures Wanted(id, Without(subusers, sub)) == Wanted(id, subusers) - {SubuserFullId(id, sub)}
    ensures SubuserFullId(id, sub) in Wanted(id, subusers)
  {
    var full, rest := SubuserFullId(id, sub), Without(subusers, sub);
    forall name ensures name in Wanted(id, rest) <==> name in Wanted(id, subusers) && name != full {
      if name in Wanted(id, rest) {
        var s :| (s in rest || s == READONLY) && name == SubuserFullId(id, s);
        if name == full {
          SubuserFullIdInjectiveInUser(id, s, sub);
        }
      }
      if name in Wanted(id, subusers) && name != full {
        var s :| (s in subusers || s == READONLY) && name == SubuserFullId(id, s);
        assert s == READONLY || s in rest;
      }
    }
  }

  lemma DroppedIsUndemanded(j: Job, spec: ClaimSpec, sub: string)
    requires SubuserSecretName(j.key.name, sub) != spec.adminSecret && SubuserSecretName(j.key.name, sub) != spec.readonlySecret
    ensures Undemanded(j, Dropping(spec, sub), Key(j.key.ns, SubuserSecretName(j.key.name, sub)))
  {
    forall s | s in Without(spec.subusers, sub) ensures SubuserSecretName(j.key.name, s) != SubuserSecretName(j.key.name, sub) {
      if SubuserSecretName(j.key.name, s) == SubuserSecretName(j.key.name, sub) {
        SecretNameInjectiveInClaim(j.key.name, s, sub);
      }
    }
  }

  /** The first two steps of the attempt: four calls, and nothing that matters here. */
  ghost function BeforeSync(j: Job, a: Attempt): Attempt {
    DoEnsureCephUserQuota(j.id, DoEnsureCephUser(j, a))
  }

  lemma FourCallsGoThrough(j: Job, a: Attempt)
    requires Reached(0, j, a) && a.faults == After(4) && j.id in a.world.users
    requires a.world.users[j.id].quota == DesiredQuota(a.vars.claim)
    ensures var b := BeforeSync(j, a);
            && !DoEnsureCephUser(j, a).halted && Reached(2, j, b) && b.faults == After(1)
            && b.world.secrets == a.world.secrets && SubusersOf(j, b.world.users) == SubusersOf(j, a.world.users)
            && b.vars.claim == a.vars.claim
  {
    var b := DoEnsureCephUser(j, a);
    assert b.faults == After(2) && !b.halted;
    UserStepProceeds(j, a);
    EnsureUserQuiet(j, a);
    EnsureUserEntry(j, a);
    assert b.world.users[j.id].quota == DesiredQuota(b.vars.claim);
    QuotaStepProceeds(j, b);
    EnsureQuotaQuiet(j, b);
    EnsureQuotaEntry(j.id, b);
  }

  /** With one subuser to remove the sync is its removal. */
  lemma OnlyRemoval(j: Job, full: string, a: Attempt)
    requires Reached(2, j, a) && full in SubusersOf(j, a.world.users)
    requires SubusersOf(j, a.world.users) - {full} == Wanted(j.id, a.vars.desired) && full !in Wanted(j.id, a.vars.desired)
    ensures Enumerates([full], Tags(j.id, a).Keys)
    ensures SyncAll(j.id, [full], Tags(j.id, a), a) == DoRemoveSubuserAndSecret(j.id, full, a)
  {
    var wanted, current := Wanted(j.id, a.vars.desired), a.world.users[j.id].subusers;
    DiffIsSetDifference(wanted, current);
    assert Tags(j.id, a).Keys == {full} && Tags(j.id, a)[full] == Remove;
    assert [full][..0] == [];
  }

  lemma HaltsAtSync(j: Job, ch: Choices, a: Attempt)
    requires var b := BeforeSync(j, a);
             && !a.halted && !DoEnsureCephUser(j, a).halted && !b.halted
             && Legal(j, SyncSubusers, ch, b) && Do(j, SyncSubusers, ch, b).halted
    ensures LegalChain(j, PROVISION, ch, a) && Chain(j, PROVISION, ch, a) == Do(j, SyncSubusers, ch, BeforeSync(j, a))
  {
    var rest, rest' := PROVISION[1..], PROVISION[1..][1..];
    var a1, b := DoEnsureCephUser(j, a), BeforeSync(j, a);
    assert PROVISION[0] == EnsureCephUser && rest[0] == EnsureCephUserQuota && rest'[0] == SyncSubusers;
    var end := Do(j, SyncSubusers, ch, b);
    assert Chain(j, rest', ch, b) == Chain(j, rest'[1..], ch, end) == end;
    assert LegalChain(j, rest', ch, b);
    assert Chain(j, rest, ch, a1) == end && LegalChain(j, rest, ch, a1);
  }

  /** The residue is reached: from every converged claim, dropping a subuser from the
      spec and an attempt whose sixth call fails is a run that ends with the secret of
      that subuser forgotten. */
  lemma RunThatForgets(c: Config, k: Key, w: World, sub: string, quotas: seq<Key>, stale: Vars)
    requires Sound(JobFor(c, k), w) && Converged(JobFor(c, k), w)
    requires var spec := w.claims[k].spec;
             && sub in spec.subusers && sub != READONLY
             && SubuserSecretName(k.name, sub) != spec.adminSecret && SubuserSecretName(k.name, sub) != spec.readonlySecret
    ensures var j := JobFor(c, k);
            var edit := Edit(Dropping(w.claims[k].spec, sub));
            var attempt := Try(Choices([SubuserFullId(j.id, sub)], quotas), After(5), stale);
            var w1 := Apply(c, k, w, edit);
            var w2 := Apply(c, k, w1, attempt);
            && IsRun(c, k, [w, w1, w2], [edit, attempt])
            && Forgotten(j, w2, Key(k.ns, SubuserSecretName(k.name, sub)))
  {
    var j, spec, full := JobFor(c, k), w.claims[k].spec, SubuserFullId(JobFor(c, k).id, sub);
    var ch, s := Choices([full], quotas), Key(k.ns, SubuserSecretName(k.name, sub));
    var w1 := SetSpec(w, k, Dropping(spec, sub));
    var a := Call(Start(w1, stale, k, After(5)));
    DemandsAreThePicture(j, w);
    assert SecretRight(k.ns, w.users[j.id].keys, w.secrets, w.claims[k].uid, SubuserDemand(j.id, k.name, sub));
    assert Reached(0, j, a);
    FourCallsGoThrough(j, a);
    var b := BeforeSync(j, a);
    WantedWithout(j.id, spec.subusers, sub);
    DroppedIsUndemanded(j, spec, sub);
    OnlyRemoval(j, full, b);
    InterruptedRemovalForgets(j, sub, b);
    HaltsAtSync(j, ch, a);
    TwoEventsAreARun(c, k, w, Edit(Dropping(spec, sub)), Try(ch, After(5), stale));
  }

  lemma TwoEventsAreARun(c: Config, k: Key, w: World, e: Event, e': Event)
    requires k in w.claims && LegalEvent(c, k, w, e)
    requires var w1 := Apply(c, k, w, e); k in w1.claims && LegalEvent(c, k, w1, e')
    ensures var w1 := Apply(c, k, w, e); IsRun(c, k, [w, w1, Apply(c, k, w1, e')], [e, e'])
  {
    var w1 := Apply(c, k, w, e);
    assert Follows(c, k, w, e, w1) && Follows(c, k, w1, e', Apply(c, k, w1, e'));
  }

  /** The invariant of Runs starts somewhere: a claim whose Ceph user does not exist
      yet and that controls no secret is tidy. */
  lemma NewClaimIsTidy(c: Config, k: Key, w: World)
    requires Sound(JobFor(c, k), w) && CephUserFullId(c.clusterName, k) !in w.users
    requires forall s | s in w.secrets :: !ControlledBy(w.secrets[s], w.claims[k].uid)
    ensures Tidy(c, k, w, SpecNames(JobFor(c, k), w.claims[k].spec))
  {}
}
