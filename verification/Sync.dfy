/** Synchronising the subusers: in whatever order the diff is walked and wherever
    it is interrupted, every operation that takes place removes exactly one name
    from the difference between what Ceph has and what is wanted. */
module Sync {
  import opened Naming
  import opened Store
  import opened Subusers
  import opened Reconcile

  function Elements(s: seq<string>): set<string> {
    set x | x in s
  }

  /** The names on which Ceph and the wanted set disagree. */
  function Disagreement(wanted: set<string>, current: set<string>): set<string> {
    (wanted - current) + (current - wanted)
  }

  function Current(id: string, w: World): set<string>
    requires id in w.users
  {
    Elements(w.users[id].subusers)
  }

  /** The shape of a Ceph user that the operator manages: every subuser is listed
      once, is named after the user, and it and the user have a key. */
  ghost predicate Shape(id: string, u: CephUser) {
    && NoDup(u.subusers)
    && KeyFor(u.keys, id).Some?
    && forall name | name in u.subusers :: OwnName(id, name) && KeyFor(u.keys, name).Some?
  }

  /** "<id>:<subuser>" with no further ':' in it. */
  predicate OwnName(id: string, name: string) {
    id + ":" <= name && ':' !in id && ':' !in name[|id| + 1..]
  }

  function SubuserOf(id: string, name: string): string
    requires OwnName(id, name)
  {
    name[|id| + 1..]
  }

  lemma OwnNameExtracts(id: string, name: string)
    requires OwnName(id, name)
    ensures name == SubuserFullId(id, SubuserOf(id, name))
    ensures ExtractSubuserName(name) == Some(SubuserOf(id, name))
  {
    assert name == SubuserFullId(id, SubuserOf(id, name));
    ExtractInvertsGenerate(id, SubuserOf(id, name));
  }

  lemma {:induction false} KeyForAppend(keys: seq<CephKey>, k: CephKey, user: string)
    ensures KeyFor(keys, user).Some? ==> KeyFor(keys + [k], user) == KeyFor(keys, user)
    ensures KeyFor(keys + [k], k.user).Some?
  {
    if keys != [] {
      assert (keys + [k])[1..] == keys[1..] + [k];
      KeyForAppend(keys[1..], k, user);
    }
  }

  lemma {:induction false} KeyForWithout(keys: seq<CephKey>, gone: string, user: string)
    requires user != gone
    ensures KeyFor(KeysWithout(keys, gone), user) == KeyFor(keys, user)
  {
    if keys != [] {
      KeyForWithout(keys[1..], gone, user);
      assert keys[0].user != gone ==> KeysWithout(keys, gone)[1..] == KeysWithout(keys[1..], gone);
    }
  }

  /** Two states of a Ceph user that differ at most in subusers and keys. */
  predicate SameLimits(u: CephUser, u': CephUser) {
    u' == u.(subusers := u'.subusers, keys := u'.keys)
  }

  lemma CreateKeepsShape(id: string, name: string, credential: nat, u: CephUser)
    requires Shape(id, u) && OwnName(id, name) && name !in u.subusers
    ensures var u' := WithSubuser(u, name, credential);
            Shape(id, u') && Elements(u'.subusers) == Elements(u.subusers) + {name}
  {
    var u', k := WithSubuser(u, name, credential), CephKey(name, credential);
    KeyForAppend(u.keys, k, id);
    forall n | n in u'.subusers ensures OwnName(id, n) && KeyFor(u'.keys, n).Some? {
      KeyForAppend(u.keys, k, n);
    }
  }

  lemma RemoveKeepsNamesAndKeys(id: string, name: string, u: CephUser, n: string)
    requires Shape(id, u) && n in WithoutSubuser(u, name).subusers
    ensures OwnName(id, n) && KeyFor(WithoutSubuser(u, name).keys, n).Some?
  {
    assert n in u.subusers && n != name;
    KeyForWithout(u.keys, name, n);
  }

  lemma ElementsWithout(s: seq<string>, x: string)
    ensures Elements(Without(s, x)) == Elements(s) - {x}
  {}

  lemma RemoveKeepsShape(id: string, name: string, u: CephUser)
    requires Shape(id, u) && name != id
    ensures var u' := WithoutSubuser(u, name);
            Shape(id, u') && Elements(u'.subusers) == Elements(u.subusers) - {name}
  {
    WithoutKeepsNoDup(u.subusers, name);
    ElementsWithout(u.subusers, name);
    KeyForWithout(u.keys, name, id);
    forall n | n in WithoutSubuser(u, name).subusers
      ensures OwnName(id, n) && KeyFor(WithoutSubuser(u, name).keys, n).Some?
    {
      RemoveKeepsNamesAndKeys(id, name, u, n);
    }
  }

  // ---- one operation -------------------------------------------------------

  /** How a creation ends: before Ceph was reached, or done. */
  lemma CreationOutcome(id: string, name: string, a: Attempt)
    requires !a.halted && id in a.world.users && name !in a.world.users[id].subusers
    ensures var b := DoGenerateSubuser(id, name, a);
            && b.vars == a.vars && b.leaked == a.leaked && (a.faults == Never ==> !b.halted && b.faults == Never)
            && b.world == (if b.halted then a.world else CreateSubuser(a.world, id, name))
  {}

  /** How a removal ends: before Ceph was reached, between Ceph and the secret (and
      then the subuser is recorded), or done. */
  ghost predicate RemovalEnd(id: string, name: string, a: Attempt, b: Attempt)
    requires id in a.world.users && OwnName(id, name)
  {
    var subuser, w := SubuserOf(id, name), RemoveSubuser(a.world, id, name);
    && b.vars == a.vars && (a.faults == Never ==> !b.halted && b.faults == Never)
    && (b.leaked == None || (b.leaked == Some(subuser) && b.halted))
    && b.world == (if !b.halted then DeleteSecret(w, SubuserSecretKey(a.vars.claim, subuser))
                   else if b.leaked == None then a.world else w)
  }

  lemma RemovalOutcome(id: string, name: string, a: Attempt)
    requires !a.halted && a.leaked == None && id in a.world.users && OwnName(id, name)
    ensures RemovalEnd(id, name, a, DoRemoveSubuserAndSecret(id, name, a))
  {
    OwnNameExtracts(id, name);
  }

  /** Secrets are only deleted, and the secret of every subuser that Ceph no longer
      has is gone, unless its removal is the one that was interrupted. */
  ghost predicate SecretsFollow(id: string, claim: Claim, w: World, b: Attempt)
    requires id in w.users && id in b.world.users
  {
    && (forall k | k in b.world.secrets :: k in w.secrets && b.world.secrets[k] == w.secrets[k])
    && (b.leaked.Some? ==> b.halted)
    && forall name | name in Current(id, w) && name !in Current(id, b.world) && OwnName(id, name) ::
         SubuserSecretKey(claim, SubuserOf(id, name)) !in b.world.secrets || b.leaked == Some(SubuserOf(id, name))
  }

  /** The user after an operation: as before if the attempt ended first, else with
      one disagreement less; the shape and the limits stay. */
  ghost predicate OneStep(id: string, name: string, wanted: set<string>, a: Attempt, b: Attempt)
    requires id in a.world.users
  {
    && id in b.world.users && Shape(id, b.world.users[id]) && SameLimits(a.world.users[id], b.world.users[id])
    && ((b.halted && Current(id, b.world) == Current(id, a.world))
        || Disagreement(wanted, Current(id, b.world)) == Disagreement(wanted, Current(id, a.world)) - {name})
  }

  lemma CreationEffect(id: string, name: string, wanted: set<string>, a: Attempt)
    requires !a.halted && a.leaked == None && id in a.world.users && Shape(id, a.world.users[id])
    requires OwnName(id, name) && name in wanted && name !in Current(id, a.world)
    ensures OneStep(id, name, wanted, a, DoGenerateSubuser(id, name, a))
    ensures SecretsFollow(id, a.vars.claim, a.world, DoGenerateSubuser(id, name, a))
  {
    CreationOutcome(id, name, a);
    CreateKeepsShape(id, name, a.world.nextKey, a.world.users[id]);
    assert Disagreement(wanted, Current(id, a.world) + {name}) == Disagreement(wanted, Current(id, a.world)) - {name};
  }

  lemma RemovalEffect(id: string, name: string, wanted: set<string>, a: Attempt, b: Attempt)
    requires id in a.world.users && Shape(id, a.world.users[id])
    requires OwnName(id, name) && name !in wanted && name in Current(id, a.world)
    requires RemovalEnd(id, name, a, b)
    ensures OneStep(id, name, wanted, a, b)
  {
    RemoveKeepsShape(id, name, a.world.users[id]);
    assert Disagreement(wanted, Current(id, a.world) - {name}) == Disagreement(wanted, Current(id, a.world)) - {name};
  }

  lemma RemovalSecrets(id: string, name: string, a: Attempt, b: Attempt)
    requires id in a.world.users && OwnName(id, name) && RemovalEnd(id, name, a, b)
    ensures id in b.world.users && SecretsFollow(id, a.vars.claim, a.world, b)
  {
    assert forall n | n in Current(id, a.world) && n !in Current(id, b.world) :: n == name;
  }

  lemma SyncOneEffect(id: string, name: string, tag: Tag, wanted: set<string>, a: Attempt)
    requires !a.halted && a.leaked == None && id in a.world.users && Shape(id, a.world.users[id])
    requires OwnName(id, name) && name in Disagreement(wanted, Current(id, a.world))
    requires tag == Create <==> name in wanted
    ensures var b := SyncOne(id, name, tag, a);
            && OneStep(id, name, wanted, a, b) && SecretsFollow(id, a.vars.claim, a.world, b)
            && b.vars == a.vars && (!b.halted ==> b.leaked == None)
            && (a.faults == Never ==> !b.halted && b.faults == Never)
  {
    if tag == Create {
      CreationOutcome(id, name, a);
      CreationEffect(id, name, wanted, a);
    } else {
      RemovalOutcome(id, name, a);
      var b := DoRemoveSubuserAndSecret(id, name, a);
      RemovalEffect(id, name, wanted, a, b);
      RemovalSecrets(id, name, a, b);
    }
  }

  // ---- the whole walk ------------------------------------------------------

  /** The order walks operations that are due. */
  ghost predicate Due(id: string, order: seq<string>, tags: map<string, Tag>, wanted: set<string>, w: World)
    requires id in w.users
  {
    && NoDup(order)
    && forall name | name in order ::
         && name in tags && OwnName(id, name) && name in Disagreement(wanted, Current(id, w))
         && (tags[name] == Create <==> name in wanted)
  }

  /** In any order and wherever it stops, the walk has performed exactly a prefix
      of its operations: each removed one disagreement and nothing else changed.
      So a later attempt has only the remaining operations to do. */
  lemma {:induction false} SyncProgress(
    id: string, order: seq<string>, tags: map<string, Tag>, wanted: set<string>, a: Attempt)
    requires !a.halted && a.leaked == None && id in a.world.users && Shape(id, a.world.users[id])
    requires Due(id, order, tags, wanted, a.world)
    ensures var b := SyncAll(id, order, tags, a);
            && Prefix(id, order, wanted, a, b)
            && b.vars == a.vars && (!b.halted ==> b.leaked == None)
            && (a.faults == Never ==> !b.halted && b.faults == Never)
  {
    if order == [] {
      assert order[..0] == [];
    } else {
      var m := |order| - 1;
      var name, b := order[m], SyncAll(id, order[..m], tags, a);
      SyncProgress(id, order[..m], tags, wanted, a);
      PrefixGrows(id, order, wanted, a, b);
      if !b.halted {
        assert name in Disagreement(wanted, Current(id, b.world)) by {
          assert name !in order[..m];
        }
        SyncOneEffect(id, name, tags[name], wanted, b);
        PrefixStep(id, order, wanted, a, b, SyncOne(id, name, tags[name], b));
      }
    }
  }

  /** Between a and b exactly a prefix of the operations was performed, and all of
      them if b did not end early. */
  ghost predicate Prefix(id: string, order: seq<string>, wanted: set<string>, a: Attempt, b: Attempt)
    requires id in a.world.users
  {
    && id in b.world.users && Shape(id, b.world.users[id]) && SameLimits(a.world.users[id], b.world.users[id])
    && (exists n | 0 <= n <= |order| :: Performed(id, order, wanted, a, b, n))
    && (!b.halted ==> Performed(id, order, wanted, a, b, |order|))
  }

  ghost predicate Performed(id: string, order: seq<string>, wanted: set<string>, a: Attempt, b: Attempt, n: nat)
    requires id in a.world.users && id in b.world.users && n <= |order|
  {
    Disagreement(wanted, Current(id, b.world))
    == Disagreement(wanted, Current(id, a.world)) - Elements(order[..n])
  }

  lemma PrefixGrows(id: string, order: seq<string>, wanted: set<string>, a: Attempt, b: Attempt)
    requires id in a.world.users && order != []
    requires Prefix(id, order[..|order| - 1], wanted, a, b)
    ensures exists n | 0 <= n <= |order| :: Performed(id, order, wanted, a, b, n)
    ensures !b.halted ==> Performed(id, order, wanted, a, b, |order| - 1)
  {
    var shorter := order[..|order| - 1];
    var n :| 0 <= n <= |shorter| && Performed(id, shorter, wanted, a, b, n);
    assert shorter[..n] == order[..n] && shorter[..|shorter|] == shorter;
    assert Performed(id, order, wanted, a, b, n);
  }

  lemma PrefixStep(id: string, order: seq<string>, wanted: set<string>, a: Attempt, b: Attempt, d: Attempt)
    requires id in a.world.users && id in b.world.users && order != []
    requires SameLimits(a.world.users[id], b.world.users[id])
    requires Performed(id, order, wanted, a, b, |order| - 1)
    requires OneStep(id, order[|order| - 1], wanted, b, d)
    ensures Prefix(id, order, wanted, a, d)
  {
    var m := |order| - 1;
    assert order[..m + 1] == order && order == order[..m] + [order[m]];
    assert Elements(order) == Elements(order[..m]) + {order[m]};
    if d.halted && Current(id, d.world) == Current(id, b.world) {
      assert Performed(id, order, wanted, a, d, m);
    } else {
      assert Performed(id, order, wanted, a, d, |order|);
    }
  }

  lemma {:induction false} SyncSecrets(
    id: string, order: seq<string>, tags: map<string, Tag>, wanted: set<string>, a: Attempt)
    requires !a.halted && a.leaked == None && id in a.world.users && Shape(id, a.world.users[id])
    requires Due(id, order, tags, wanted, a.world)
    ensures var b := SyncAll(id, order, tags, a);
            id in b.world.users && SecretsFollow(id, a.vars.claim, a.world, b)
  {
    if order != [] {
      var m := |order| - 1;
      var name, b := order[m], SyncAll(id, order[..m], tags, a);
      SyncSecrets(id, order[..m], tags, wanted, a);
      SyncProgress(id, order[..m], tags, wanted, a);
      if !b.halted {
        PrefixGrows(id, order, wanted, a, b);
        assert name in Disagreement(wanted, Current(id, b.world)) by {
          assert name !in order[..m];
        }
        SyncOneEffect(id, name, tags[name], wanted, b);
      }
    }
  }

  /** Only secrets of subusers that are there and not wanted are deleted. */
  ghost predicate DeletesUnwanted(id: string, claim: Claim, wanted: set<string>, w: World, w': World)
    requires id in w.users
  {
    forall k | k in w.secrets && k !in w'.secrets :: BelongsToUnwanted(id, claim, wanted, w, k)
  }

  ghost predicate BelongsToUnwanted(id: string, claim: Claim, wanted: set<string>, w: World, k: Key)
    requires id in w.users
  {
    exists name | OwnName(id, name) ::
      name in Current(id, w) && name !in wanted && k == SubuserSecretKey(claim, SubuserOf(id, name))
  }

  lemma OneDeletesUnwanted(id: string, name: string, tag: Tag, wanted: set<string>, a: Attempt)
    requires !a.halted && a.leaked == None && id in a.world.users
    requires OwnName(id, name) && name in Disagreement(wanted, Current(id, a.world))
    requires tag == Create <==> name in wanted
    ensures DeletesUnwanted(id, a.vars.claim, wanted, a.world, SyncOne(id, name, tag, a).world)
  {
    if tag == Create {
      CreationOutcome(id, name, a);
    } else {
      RemovalOutcome(id, name, a);
      assert BelongsToUnwanted(id, a.vars.claim, wanted, a.world, SubuserSecretKey(a.vars.claim, SubuserOf(id, name)));
    }
  }

  lemma {:induction false} SyncDeletesUnwanted(
    id: string, order: seq<string>, tags: map<string, Tag>, wanted: set<string>, a: Attempt)
    requires !a.halted && a.leaked == None && id in a.world.users && Shape(id, a.world.users[id])
    requires Due(id, order, tags, wanted, a.world)
    ensures DeletesUnwanted(id, a.vars.claim, wanted, a.world, SyncAll(id, order, tags, a).world)
  {
    if order != [] {
      var m := |order| - 1;
      var name, b := order[m], SyncAll(id, order[..m], tags, a);
      SyncDeletesUnwanted(id, order[..m], tags, wanted, a);
      SyncProgress(id, order[..m], tags, wanted, a);
      PrefixGrows(id, order, wanted, a, b);
      if !b.halted {
        assert name !in order[..m];
        OneDeletesUnwanted(id, name, tags[name], wanted, b);
        UnwantedWasThere(id, order, wanted, a, b);
      }
    }
  }

  /** Syncing adds nothing unwanted. */
  lemma UnwantedWasThere(id: string, order: seq<string>, wanted: set<string>, a: Attempt, b: Attempt)
    requires id in a.world.users && id in b.world.users && order != []
    requires Performed(id, order, wanted, a, b, |order| - 1)
    ensures Current(id, b.world) - wanted <= Current(id, a.world)
  {
    forall name | name in Current(id, b.world) - wanted ensures name in Current(id, a.world) {
      assert name in Disagreement(wanted, Current(id, b.world));
    }
  }
}
