/** Exactly when a fault-free reconcile converges: the condition on the spec that the
    convergence theorem asks for is not only enough, it is needed. */
module Exactness {
  import opened Naming
  import opened Store
  import opened Reconcile
  import opened Convergence
  import opened Runs
  import opened Residue
  import opened Quiescence

  /** A uid belongs to one object: what the claim's uid controls names the claim. */
  ghost predicate UidNamesOwner(j: Job, w: World)
    requires j.key in w.claims
  {
    forall s | s in w.secrets && ControlledBy(w.secrets[s], w.claims[j.key].uid) :: Adoptable(w.secrets[s], j.key.name)
  }

  /** Ceph gives different names different credentials. */
  ghost predicate CephIsSane(j: Job, w: World) {
    j.id in w.users ==> DistinctCredentials(w.users[j.id].keys)
  }

  /** A demanded secret that survives the sync is free if it was right in the end. */
  lemma ConvergedWasFree(c: Config, ch: Choices, w: World, stale: Vars, k: Key, d: Demand)
    requires Sound(JobFor(c, k), w) && LegalReconcile(c, ch, w, stale, k, Never) && UidNamesOwner(JobFor(c, k), w)
    requires d in Demands(JobFor(c, k), w.claims[k].spec)
    requires Converged(JobFor(c, k), ReconcileKey(c, ch, w, stale, k, Never).world)
    ensures var j := JobFor(c, k); Free(j, Surviving(j, w, w.claims[k].spec), Key(k.ns, d.secret))
  {
    var j, s, w' := JobFor(c, k), Key(k.ns, d.secret), ReconcileKey(c, ch, w, stale, k, Never).world;
    AttemptKeepsSound(c, ch, w, stale, k, Never);
    DemandsAreThePicture(j, w');
    assert SecretRight(k.ns, w'.users[j.id].keys, w'.secrets, w'.claims[k].uid, d);
    if s in Surviving(j, w, w.claims[k].spec) && !Adoptable(w.secrets[s], k.name) {
      ForeignSecretIsSpared(c, ch, w, stale, k, Never, s);
    }
  }

  /** A fault-free reconcile of a sound claim completes and converges exactly if the
      spec demands no secret for two Ceph names and every demanded secret that survives
      the sync is free. */
  lemma ConvergesExactlyIfReady(c: Config, ch: Choices, w: World, stale: Vars, k: Key)
    requires Sound(JobFor(c, k), w) && LegalReconcile(c, ch, w, stale, k, Never) && UidNamesOwner(JobFor(c, k), w)
    requires CephIsSane(JobFor(c, k), ReconcileKey(c, ch, w, stale, k, Never).world)
    ensures var j, b := JobFor(c, k), ReconcileKey(c, ch, w, stale, k, Never);
            !b.halted && Converged(j, b.world) <==> Ready(j, w)
  {
    var j, b := JobFor(c, k), ReconcileKey(c, ch, w, stale, k, Never);
    if Ready(j, w) {
      AttemptConverges(c, ch, w, stale, k, Never);
    } else if !b.halted && Converged(j, b.world) {
      AttemptKeepsSound(c, ch, w, stale, k, Never);
      ConvergedOnlyIfConsistent(j, b.world);
      forall d | d in Demands(j, w.claims[k].spec)
        ensures Free(j, Surviving(j, w, w.claims[k].spec), Key(k.ns, d.secret))
      {
        ConvergedWasFree(c, ch, w, stale, k, d);
      }
      assert false;
    }
  }

  /** So at the end of every run. */
  lemma CrashConvergenceIsExact(c: Config, k: Key, ws: seq<World>, events: seq<Event>, ch: Choices, stale: Vars)
    requires IsRun(c, k, ws, events) && Sound(JobFor(c, k), ws[0])
    requires LegalReconcile(c, ch, ws[|events|], stale, k, Never)
    requires k in ws[|events|].claims && UidNamesOwner(JobFor(c, k), ws[|events|])
    requires CephIsSane(JobFor(c, k), ReconcileKey(c, ch, ws[|events|], stale, k, Never).world)
    ensures var j, b := JobFor(c, k), ReconcileKey(c, ch, ws[|events|], stale, k, Never);
            !b.halted && Converged(j, b.world) <==> Ready(j, ws[|events|])
  {
    RunKeepsSound(c, k, ws, events);
    ConvergesExactlyIfReady(c, ch, ws[|events|], stale, k);
  }
}
