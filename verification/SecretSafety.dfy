/** Admission and controller together: which secrets of a namespace a claim can ever
    touch. */
module SecretSafety {
  import opened Naming
  import opened Store
  import opened Reconcile
  import opened Convergence
  import opened Admission
  import Residue

  /** The secret is that of no subuser that the spec lists or that Ceph still has. */
  ghost predicate NoSubusersSecret(j: Job, w: World, s: Key)
    requires j.key in w.claims
  {
    && (forall x | x in w.claims[j.key].spec.subusers :: s.name != j.key.name + "-" + x)
    && !Doomed(j, SubusersOf(j, w.users), w.claims[j.key].spec, s.name)
  }

  lemma UnnamedIsUndemanded(j: Job, w: World, s: Key)
    requires j.key in w.claims && s.ns == j.key.ns && !Names(w, j.key, s) && NoSubusersSecret(j, w, s)
    ensures Residue.Undemanded(j, w.claims[j.key].spec, s)
  {
    forall d | d in Demands(j, w.claims[j.key].spec) ensures d.secret != s.name {
      if x :| x in w.claims[j.key].spec.subusers && d == SubuserDemand(j.id, j.key.name, x) {
        assert s.name != j.key.name + "-" + x;
      }
    }
  }

  /** Whatever requests are admitted, an existing secret that the claim did not name at
      the start is as it was after any later reconcile of the claim, however that ends,
      unless it bears the name of a subuser's secret. */
  lemma ExistingSecretsAreSafe(
    c: Config, ws: seq<World>, rs: seq<Request>, i: nat, k: Key, s: Key, ch: Choices, stale: Vars, faults: Faults)
    requires IsRun(ws, rs) && i < |ws| && s.ns == k.ns && !Names(ws[0], k, s)
    requires forall n | 0 <= n <= i :: s in ws[n].secrets
    requires Sound(JobFor(c, k), ws[i]) && NoSubusersSecret(JobFor(c, k), ws[i], s)
    requires LegalReconcile(c, ch, ws[i], stale, k, faults)
    ensures var w' := ReconcileKey(c, ch, ws[i], stale, k, faults).world;
            s in w'.secrets && w'.secrets[s] == ws[i].secrets[s]
  {
    NeverPointedAt(ws, rs, k, s, i);
    UnnamedIsUndemanded(JobFor(c, k), ws[i], s);
    Residue.AttemptLeavesAlone(c, ch, ws[i], stale, k, faults, s);
  }
}
