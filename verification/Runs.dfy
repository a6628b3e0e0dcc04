/** Runs of one claim's reconciles: any number of attempts, each ended by a fault at
    an arbitrary external call, with the spec edited in between.  Two questions are
    answered: does a fault-free attempt repair everything, and which secrets can be
    left over. */
module Runs {
  import opened Naming
  import opened Store
  import opened Subusers
  import opened Reconcile
  import opened Isolation
  import opened Convergence
  import S = Sync

  // ---- the secrets a claim controls, accounted for -------------------------

  /** Names that a spec can leave behind: the two explicit secret names, and the
      secret of a subuser called "readonly", which is never removed again. */
  ghost function SpecNames(j: Job, spec: ClaimSpec): set<string> {
    {spec.adminSecret, spec.readonlySecret}
    + (if READONLY in spec.subusers then {SubuserSecretName(j.key.name, READONLY)} else {})
  }

  /** The secret left behind by an attempt that ended between the removal of a
      subuser from Ceph and the deletion of its secret: at most one per attempt. */
  ghost function Leak(j: Job, b: Attempt): set<string> {
    if b.leaked.Some? then {SubuserSecretName(j.key.name, b.leaked.value)} else {}
  }

  ghost predicate Via(j: Job, subs: set<string>, name: string) {
    exists s :: s != READONLY && SubuserFullId(j.id, s) in subs && name == SubuserSecretName(j.key.name, s)
  }

  /** Every secret the claim controls is explained by a name from the history or by
      a subuser that Ceph still has. */
  ghost predicate Accounted(j: Job, secrets: map<Key, Secret>, uid: nat, names: set<string>, subs: set<string>) {
    forall s | s in secrets && s.ns == j.key.ns && ControlledBy(secrets[s], uid) ::
      s.name in names || Via(j, subs, s.name)
  }

  lemma SyncAccounted(j: Job, order: seq<string>, a: Attempt, names: set<string>)
    requires Reached(2, j, a) && Enumerates(order, Tags(j.id, a).Keys)
    requires Accounted(j, a.world.secrets, a.vars.claim.uid, names, SubusersOf(j, a.world.users))
    ensures var b := SyncAll(j.id, order, Tags(j.id, a), a);
            Accounted(j, b.world.secrets, a.vars.claim.uid, names + Leak(j, b), SubusersOf(j, b.world.users))
  {
    var tags, b, uid := Tags(j.id, a), SyncAll(j.id, order, Tags(j.id, a), a), a.vars.claim.uid;
    TagsAreDue(j, order, a);
    S.SyncProgress(j.id, order, tags, Wanted(j.id, a.vars.desired), a);
    S.SyncSecrets(j.id, order, tags, Wanted(j.id, a.vars.desired), a);
    forall s | s in b.world.secrets && s.ns == j.key.ns && ControlledBy(b.world.secrets[s], uid)
      ensures s.name in names + Leak(j, b) || Via(j, SubusersOf(j, b.world.users), s.name)
    {
      FollowsAccounted(j, a, b, names, s);
    }
  }

  lemma FollowsAccounted(j: Job, a: Attempt, b: Attempt, names: set<string>, s: Key)
    requires j.id in a.world.users && j.id in b.world.users && S.Shape(j.id, a.world.users[j.id])
    requires a.vars.claim.key == j.key
    requires S.SecretsFollow(j.id, a.vars.claim, a.world, b)
    requires Accounted(j, a.world.secrets, a.vars.claim.uid, names, SubusersOf(j, a.world.users))
    requires s in b.world.secrets && s.ns == j.key.ns && ControlledBy(b.world.secrets[s], a.vars.claim.uid)
    ensures s.name in names + Leak(j, b) || Via(j, SubusersOf(j, b.world.users), s.name)
  {
    if s.name !in names {
      var sub :| sub != READONLY && SubuserFullId(j.id, sub) in SubusersOf(j, a.world.users)
                 && s.name == SubuserSecretName(j.key.name, sub);
      var name := SubuserFullId(j.id, sub);
      assert S.OwnName(j.id, name) && S.SubuserOf(j.id, name) == sub;
      if name !in SubusersOf(j, b.world.users) {
        assert SubuserSecretKey(a.vars.claim, sub) == s;
      }
    }
  }

  lemma StoreAccounted(j: Job, d: Demand, a: Attempt, names: set<string>)
    requires a.vars.claim.key == j.key
    requires d.secret in names || Via(j, SubusersOf(j, a.world.users), d.secret)
    requires Accounted(j, a.world.secrets, a.vars.claim.uid, names, SubusersOf(j, a.world.users))
    ensures var b := EnsureSecret(d, a);
            && b.world.users == a.world.users && b.vars == a.vars
            && Accounted(j, b.world.secrets, a.vars.claim.uid, names, SubusersOf(j, b.world.users))
  {
    EnsureSecretEntry(d, a);
  }

  lemma {:induction false} SubuserSecretsAccounted(j: Job, subusers: seq<string>, a: Attempt, names: set<string>)
    requires Reached(6, j, a) && forall s | s in subusers :: s in a.vars.claim.spec.subusers
    requires SpecNames(j, a.vars.claim.spec) <= names
    requires Accounted(j, a.world.secrets, a.vars.claim.uid, names, SubusersOf(j, a.world.users))
    ensures var b := EnsureSubuserSecrets(j.id, subusers, a);
            && b.world.users == a.world.users && b.vars == a.vars
            && Accounted(j, b.world.secrets, a.vars.claim.uid, names, SubusersOf(j, b.world.users))
  {
    if subusers != [] {
      var n := |subusers| - 1;
      var b, sub := EnsureSubuserSecrets(j.id, subusers[..n], a), subusers[n];
      SubuserSecretsAccounted(j, subusers[..n], a, names);
      if !b.halted {
        ListedIsAccounted(j, a, sub, names);
        StoreAccounted(j, SubuserDemand(j.id, j.key.name, sub), b, names);
      }
    }
  }

  lemma ListedIsAccounted(j: Job, a: Attempt, sub: string, names: set<string>)
    requires Reached(6, j, a) && sub in a.vars.claim.spec.subusers && SpecNames(j, a.vars.claim.spec) <= names
    ensures var name := SubuserSecretName(j.key.name, sub); name in names || Via(j, SubusersOf(j, a.world.users), name)
  {
    assert SubuserFullId(j.id, sub) in Wanted(j.id, a.vars.claim.spec.subusers);
  }

  lemma AccountedMore(j: Job, secrets: map<Key, Secret>, uid: nat, names: set<string>, more: set<string>, subs: set<string>)
    requires Accounted(j, secrets, uid, names, subs)
    ensures Accounted(j, secrets, uid, names + more, subs)
  {}

  lemma StepAccounted(n: nat, j: Job, ch: Choices, a: Attempt, names: set<string>)
    requires n < 11 && Reached(n, j, a) && Legal(j, PROVISION[n], ch, a)
    requires SpecNames(j, a.vars.claim.spec) <= names
    requires Accounted(j, a.world.secrets, a.vars.claim.uid, names, SubusersOf(j, a.world.users))
    ensures var b := Do(j, PROVISION[n], ch, a);
            Accounted(j, b.world.secrets, a.vars.claim.uid, names + Leak(j, b), SubusersOf(j, b.world.users))
  {
    if n == 2 {
      SyncAccounted(j, ch.subusers, a, names);
    } else {
      OtherStepAccounted(n, j, ch, a, names);
      var b := Do(j, PROVISION[n], ch, a);
      AccountedMore(j, b.world.secrets, a.vars.claim.uid, names, Leak(j, b), SubusersOf(j, b.world.users));
    }
  }

  lemma OtherStepAccounted(n: nat, j: Job, ch: Choices, a: Attempt, names: set<string>)
    requires n < 11 && n != 2 && Reached(n, j, a) && Legal(j, PROVISION[n], ch, a)
    requires SpecNames(j, a.vars.claim.spec) <= names
    requires Accounted(j, a.world.secrets, a.vars.claim.uid, names, SubusersOf(j, a.world.users))
    ensures var b := Do(j, PROVISION[n], ch, a);
            Accounted(j, b.world.secrets, a.vars.claim.uid, names, SubusersOf(j, b.world.users))
  {
    if 4 <= n <= 6 {
      StoringStepAccounted(PROVISION[n], j, ch, a, names);
    } else {
      QuietStep(n, j, ch, a);
    }
  }

  ghost predicate AccountedAfter(j: Job, a: Attempt, b: Attempt, names: set<string>) {
    Accounted(j, b.world.secrets, a.vars.claim.uid, names, SubusersOf(j, b.world.users))
  }

  lemma StoringStepAccounted(step: Step, j: Job, ch: Choices, a: Attempt, names: set<string>)
    requires StoresSecrets(step)
    requires a.vars.claim.key == j.key && SpecNames(j, a.vars.claim.spec) <= names
    requires step == EnsureOtherSecrets ==> Reached(6, j, a)
    requires Accounted(j, a.world.secrets, a.vars.claim.uid, names, SubusersOf(j, a.world.users))
    ensures AccountedAfter(j, a, Do(j, step, ch, a), names)
  {
    if step == EnsureOtherSecrets {
      OtherSecretsAccounted(j, ch, a, names);
    } else {
      ExplicitStepAccounted(step, j, ch, a, names);
    }
  }

  lemma OtherSecretsAccounted(j: Job, ch: Choices, a: Attempt, names: set<string>)
    requires Reached(6, j, a) && SpecNames(j, a.vars.claim.spec) <= names
    requires Accounted(j, a.world.secrets, a.vars.claim.uid, names, SubusersOf(j, a.world.users))
    ensures AccountedAfter(j, a, Do(j, EnsureOtherSecrets, ch, a), names)
  {
    SubuserSecretsAccounted(j, a.vars.desired, a, names);
  }

  lemma ExplicitStepAccounted(step: Step, j: Job, ch: Choices, a: Attempt, names: set<string>)
    requires step in {EnsureAdminSecret, EnsureReadonlySecret}
    requires a.vars.claim.key == j.key && SpecNames(j, a.vars.claim.spec) <= names
    requires Accounted(j, a.world.secrets, a.vars.claim.uid, names, SubusersOf(j, a.world.users))
    ensures AccountedAfter(j, a, Do(j, step, ch, a), names)
  {
    ExplicitStep(j, step, ch, a);
    ExplicitAccounted(j, ExplicitDemand(j, step, a.vars.claim.spec), a, names);
  }

  lemma ExplicitAccounted(j: Job, d: Demand, a: Attempt, names: set<string>)
    requires a.vars.claim.key == j.key && SpecNames(j, a.vars.claim.spec) <= names
    requires d == AdminDemand(j.id, a.vars.claim.spec) || d == ReadonlyDemand(j.id, a.vars.claim.spec)
    requires Accounted(j, a.world.secrets, a.vars.claim.uid, names, SubusersOf(j, a.world.users))
    ensures AccountedAfter(j, a, EnsureSecret(d, a), names)
  {
    assert d.secret in SpecNames(j, a.vars.claim.spec);
    StoreAccounted(j, d, a, names);
  }

  /** What the chain from the n-th step on starts from, and what it ends with. */
  ghost predicate CanAccount(n: nat, j: Job, ch: Choices, a: Attempt, names: set<string>)
    requires n <= 11
  {
    && Reached(n, j, a) && LegalChain(j, PROVISION[n..], ch, a) && SpecNames(j, a.vars.claim.spec) <= names
    && AccountedAfter(j, a, a, names)
  }

  ghost predicate ChainAccounts(n: nat, j: Job, ch: Choices, a: Attempt, names: set<string>)
    requires n <= 11
  {
    var b := Chain(j, PROVISION[n..], ch, a); AccountedAfter(j, a, b, names + Leak(j, b))
  }

  lemma NextAccounts(n: nat, j: Job, ch: Choices, a: Attempt, names: set<string>)
    requires n < 11 && CanAccount(n, j, ch, a, names)
    ensures var b := Do(j, PROVISION[n], ch, a);
            && (b.halted || CanAccount(n + 1, j, ch, b, names))
            && (b.halted || ChainAccounts(n + 1, j, ch, b, names) ==> ChainAccounts(n, j, ch, a, names))
  {
    Unroll(n, j, ch, a);
    StepProceeds(n, j, ch, a);
    StepAccounted(n, j, ch, a, names);
    var b := Do(j, PROVISION[n], ch, a);
    if !b.halted {
      NextAccounted(n, j, a, b, names);
    }
  }

  lemma NothingLeft(j: Job, ch: Choices, a: Attempt, names: set<string>)
    requires CanAccount(11, j, ch, a, names)
    ensures ChainAccounts(11, j, ch, a, names)
  {
    assert Leak(j, a) == {} && names + {} == names;
  }

  lemma {:induction false} ChainAccounted(n: nat, j: Job, ch: Choices, a: Attempt, names: set<string>)
    requires n <= 11 && CanAccount(n, j, ch, a, names)
    ensures ChainAccounts(n, j, ch, a, names)
    decreases 11 - n
  {
    if n == 11 {
      NothingLeft(j, ch, a, names);
    } else {
      NextAccounts(n, j, ch, a, names);
      var b := Do(j, PROVISION[n], ch, a);
      if !b.halted {
        ChainAccounted(n + 1, j, ch, b, names);
      }
    }
  }

  lemma NextAccounted(n: nat, j: Job, a: Attempt, b: Attempt, names: set<string>)
    requires Reached(n, j, a) && Reached(n + 1, j, b) && SameClaim(j, a.world, b.world)
    requires Accounted(j, b.world.secrets, a.vars.claim.uid, names + Leak(j, b), SubusersOf(j, b.world.users))
    ensures b.vars.claim.uid == a.vars.claim.uid && b.vars.claim.spec == a.vars.claim.spec
    ensures Accounted(j, b.world.secrets, a.vars.claim.uid, names, SubusersOf(j, b.world.users))
  {
    assert Leak(j, b) == {} && names + {} == names;
  }

  // ---- runs ----------------------------------------------------------------

  /** Between two states of a run the spec is edited, to anything the CRD admits; or an
      attempt is made; or somebody else changes whatever they like outside the claim
      and the shape of its Ceph user. */
  datatype Event = Edit(spec: ClaimSpec) | Try(ch: Choices, faults: Faults, stale: Vars) | Outside(w: World)

  function SetSpec(w: World, k: Key, spec: ClaimSpec): World
    requires k in w.claims
  {
    w.(rev := w.rev + 1, claims := w.claims[k := w.claims[k].(spec := spec, rv := w.rev + 1)])
  }

  ghost function Apply(c: Config, k: Key, w: World, e: Event): World
    requires k in w.claims
  {
    match e
    case Edit(spec) => SetSpec(w, k, spec)
    case Try(ch, faults, stale) => ReconcileKey(c, ch, w, stale, k, faults).world
    case Outside(w') => w'
  }

  ghost predicate LegalEvent(c: Config, k: Key, w: World, e: Event) {
    match e
    case Edit(spec) => NoColons(spec)
    case Try(ch, faults, stale) => LegalReconcile(c, ch, w, stale, k, faults)
    case Outside(w') => Sound(JobFor(c, k), w') && SameClaim(JobFor(c, k), w, w')
  }

  /** The secrets that somebody else's change left to the claim without explanation. */
  ghost function Brought(j: Job, w: World, w': World): set<string>
    requires j.key in w.claims
  {
    var uid := w.claims[j.key].uid;
    set s | s in w'.secrets && s.ns == j.key.ns && ControlledBy(w'.secrets[s], uid)
            && (s !in w.secrets || !ControlledBy(w.secrets[s], uid)
                || (Via(j, SubusersOf(j, w.users), s.name) && !Via(j, SubusersOf(j, w'.users), s.name))) :: s.name
  }

  /** The names that an event can leave secrets under. */
  ghost function NamesFrom(c: Config, k: Key, w: World, e: Event): set<string>
    requires k in w.claims
  {
    match e
    case Edit(spec) => SpecNames(JobFor(c, k), spec)
    case Try(ch, faults, stale) => Leak(JobFor(c, k), ReconcileKey(c, ch, w, stale, k, faults))
    case Outside(w') => Brought(JobFor(c, k), w, w')
  }

  /** One step of a run. */
  ghost predicate Follows(c: Config, k: Key, w: World, e: Event, w': World) {
    k in w.claims && LegalEvent(c, k, w, e) && w' == Apply(c, k, w, e)
  }

  /** ws are the worlds that the events lead through. */
  ghost predicate IsRun(c: Config, k: Key, ws: seq<World>, events: seq<Event>) {
    |ws| == |events| + 1 && forall i | 0 <= i < |events| :: Follows(c, k, ws[i], events[i], ws[i + 1])
  }

  /** All names that the run can have left secrets under. */
  ghost function History(c: Config, k: Key, ws: seq<World>, events: seq<Event>): set<string>
    requires IsRun(c, k, ws, events)
  {
    if events == [] then {}
    else
      var n := |events| - 1;
      assert Follows(c, k, ws[n], events[n], ws[n + 1]);
      History(c, k, ws[..n + 1], events[..n]) + NamesFrom(c, k, ws[n], events[n])
  }

  lemma {:induction false} RunKeepsSound(c: Config, k: Key, ws: seq<World>, events: seq<Event>)
    requires IsRun(c, k, ws, events) && Sound(JobFor(c, k), ws[0])
    ensures Sound(JobFor(c, k), ws[|events|])
  {
    if events != [] {
      var n := |events| - 1;
      RunKeepsSound(c, k, ws[..n + 1], events[..n]);
      assert Follows(c, k, ws[n], events[n], ws[n + 1]);
      if events[n].Try? {
        AttemptKeepsSound(c, events[n].ch, ws[n], events[n].stale, k, events[n].faults);
      }
    }
  }

  /** What holds throughout a run. */
  ghost predicate Tidy(c: Config, k: Key, w: World, names: set<string>) {
    var j := JobFor(c, k);
    && Sound(j, w) && SpecNames(j, w.claims[k].spec) <= names
    && Accounted(j, w.secrets, w.claims[k].uid, names, SubusersOf(j, w.users))
  }

  lemma AttemptKeepsTidy(c: Config, ch: Choices, w: World, stale: Vars, k: Key, faults: Faults, names: set<string>)
    requires Tidy(c, k, w, names) && LegalReconcile(c, ch, w, stale, k, faults)
    ensures var b := ReconcileKey(c, ch, w, stale, k, faults);
            Tidy(c, k, b.world, names + Leak(JobFor(c, k), b))
  {
    var j, a := JobFor(c, k), Call(Start(w, stale, k, faults));
    AttemptKeepsSound(c, ch, w, stale, k, faults);
    if a.halted {
      assert names + {} == names;
    } else {
      assert PROVISION[0..] == PROVISION && Reached(0, j, a);
      ChainAccounted(0, j, ch, a, names);
    }
  }

  lemma EditKeepsTidy(c: Config, k: Key, w: World, spec: ClaimSpec, names: set<string>)
    requires Tidy(c, k, w, names) && NoColons(spec)
    ensures Tidy(c, k, SetSpec(w, k, spec), names + SpecNames(JobFor(c, k), spec))
  {
    var j := JobFor(c, k);
    AccountedMore(j, w.secrets, w.claims[k].uid, names, SpecNames(j, spec), SubusersOf(j, w.users));
  }

  lemma OutsideKeepsTidy(c: Config, k: Key, w: World, w': World, names: set<string>)
    requires Tidy(c, k, w, names) && Sound(JobFor(c, k), w') && SameClaim(JobFor(c, k), w, w')
    ensures Tidy(c, k, w', names + Brought(JobFor(c, k), w, w'))
  {
    var j, uid := JobFor(c, k), w.claims[k].uid;
    forall s | s in w'.secrets && s.ns == k.ns && ControlledBy(w'.secrets[s], uid)
      ensures s.name in names + Brought(j, w, w') || Via(j, SubusersOf(j, w'.users), s.name)
    {
      if s.name !in Brought(j, w, w') {
        assert s in w.secrets && ControlledBy(w.secrets[s], uid);
      }
    }
  }

  lemma EventKeepsTidy(c: Config, k: Key, w: World, e: Event, w': World, names: set<string>)
    requires Follows(c, k, w, e, w') && Tidy(c, k, w, names)
    ensures Tidy(c, k, w', names + NamesFrom(c, k, w, e))
  {
    match e
    case Edit(spec) => EditKeepsTidy(c, k, w, spec, names);
    case Try(ch, faults, stale) => AttemptKeepsTidy(c, ch, w, stale, k, faults, names);
    case Outside(o) => OutsideKeepsTidy(c, k, w, o, names);
  }

  lemma {:induction false} RunKeepsTidy(c: Config, k: Key, ws: seq<World>, events: seq<Event>, names: set<string>)
    requires IsRun(c, k, ws, events) && Tidy(c, k, ws[0], names)
    ensures Tidy(c, k, ws[|events|], names + History(c, k, ws, events))
  {
    if events == [] {
      assert names + {} == names;
    } else {
      var n := |events| - 1;
      var names' := names + History(c, k, ws[..n + 1], events[..n]);
      RunKeepsTidy(c, k, ws[..n + 1], events[..n], names);
      EventKeepsTidy(c, k, ws[n], events[n], ws[n + 1], names');
      assert names + History(c, k, ws, events) == names' + NamesFrom(c, k, ws[n], events[n]);
    }
  }

  /** Crash convergence.  After any run of interrupted attempts, edits and changes by
      others, if the last spec can be met, one fault-free reconcile runs to its end,
      reaches the state that spec demands, and adds nothing to the residue.  Specs that
      could not be met in between do not matter. */
  lemma CrashConvergence(c: Config, k: Key, ws: seq<World>, events: seq<Event>, ch: Choices, stale: Vars)
    requires IsRun(c, k, ws, events) && Sound(JobFor(c, k), ws[0]) && Ready(JobFor(c, k), ws[|events|])
    requires LegalReconcile(c, ch, ws[|events|], stale, k, Never)
    ensures var b := ReconcileKey(c, ch, ws[|events|], stale, k, Never);
            && !b.halted && Converged(JobFor(c, k), b.world) && Leak(JobFor(c, k), b) == {}
  {
    AttemptConverges(c, ch, ws[|events|], stale, k, Never);
    ChainLeaksOnlyWhenHalted(c, ch, ws[|events|], stale, k);
  }

  ghost predicate IsDemanded(j: Job, spec: ClaimSpec, name: string) {
    exists d :: d in Demands(j, spec) && d.secret == name
  }

  /** The residue.  In every converged state that a run reaches, every secret the claim
      controls is demanded, or bears an explicit secret name of an earlier spec, or is
      the secret of a subuser whose removal was the one interrupted in some attempt, or
      is "<claim>-readonly" after "readonly" was listed. */
  lemma ResidueOfRun(c: Config, k: Key, ws: seq<World>, events: seq<Event>, names: set<string>, s: Key)
    requires IsRun(c, k, ws, events) && Tidy(c, k, ws[0], names)
    requires var w := ws[|events|];
             && Converged(JobFor(c, k), w)
             && s in w.secrets && s.ns == k.ns && ControlledBy(w.secrets[s], w.claims[k].uid)
    ensures IsDemanded(JobFor(c, k), ws[|events|].claims[k].spec, s.name) || s.name in names + History(c, k, ws, events)
  {
    var j, w, all := JobFor(c, k), ws[|events|], names + History(c, k, ws, events);
    RunKeepsTidy(c, k, ws, events, names);
    DemandsAreThePicture(j, w);
    if s.name !in all {
      ViaWanted(j, w.claims[k].spec, SubusersOf(j, w.users), s.name);
    }
  }

  lemma ViaWanted(j: Job, spec: ClaimSpec, subs: set<string>, name: string)
    requires Via(j, subs, name) && subs == Wanted(j.id, spec.subusers)
    ensures IsDemanded(j, spec, name)
  {
    var sub :| sub != READONLY && SubuserFullId(j.id, sub) in subs && name == SubuserSecretName(j.key.name, sub);
    WantedIsListed(j, spec, sub);
    assert SubuserDemand(j.id, j.key.name, sub) in Demands(j, spec);
  }

  lemma WantedIsListed(j: Job, spec: ClaimSpec, sub: string)
    requires sub != READONLY && SubuserFullId(j.id, sub) in Wanted(j.id, spec.subusers)
    ensures sub in spec.subusers
  {
    if SubuserFullId(j.id, sub) == SubuserFullId(j.id, READONLY) {
      SubuserFullIdInjectiveInUser(j.id, sub, READONLY);
    }
    var s :| (s in spec.subusers || s == READONLY) && SubuserFullId(j.id, s) == SubuserFullId(j.id, sub);
    SubuserFullIdInjectiveInUser(j.id, s, sub);
  }

  lemma ChainLeaksOnlyWhenHalted(c: Config, ch: Choices, w: World, stale: Vars, k: Key)
    requires Ready(JobFor(c, k), w) && LegalReconcile(c, ch, w, stale, k, Never)
    ensures ReconcileKey(c, ch, w, stale, k, Never).leaked == None
  {
    var j, a := JobFor(c, k), Call(Start(w, stale, k, Never));
    assert PROVISION[0..] == PROVISION && Stage(0, j, a);
    ChainAdvances(0, j, ch, a);
  }
}
