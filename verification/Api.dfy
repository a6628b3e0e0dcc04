/** The external calls.  A `Cluster` stands for the Kubernetes API and the Ceph admin
    API together: each method is one remote call that takes effect and answers, or
    fails.  After a failed call of these the controllers make no further one, so it
    is enough to say how many succeed.  The S3 endpoint is another matter: there each
    call has an outcome of its own, independent of the others and of Kubernetes.
    Lists and maps come back in an arbitrary order. */
module Api {
  import opened Naming
  import opened Store
  import opened Reconcile

  datatype Reply<+T> = Ok(value: T) | NotFound | Failed

  predicate Down(f: Faults) {
    f == After(0)
  }

  function Spent(f: Faults): Faults {
    match f
    case Never => Never
    case After(n) => if n == 0 then f else After(n - 1)
  }

  /** How a call to the S3 endpoint goes: it is answered, or refused out of hand; or the
      connection fails before or after the call took effect. */
  datatype Outcome = Answered | Rejected(why: Refusal) | Dropped | AnswerLost

  /** The outcome of the next call; calls beyond the list are answered. */
  function Coming(s3: seq<Outcome>): (o: Outcome)
    ensures AllAnswered(s3) ==> o == Answered
  {
    if s3 == [] then Answered else s3[0]
  }

  function Later(s3: seq<Outcome>): (rest: seq<Outcome>)
    ensures AllAnswered(s3) ==> AllAnswered(rest)
  {
    if s3 == [] then [] else s3[1..]
  }

  predicate AllAnswered(s3: seq<Outcome>) {
    forall i | 0 <= i < |s3| :: s3[i] == Answered
  }

  datatype Item = Item(key: Key, claim: Claim)

  /** A list result: every claim of the namespace once, in some order. */
  ghost predicate Lists(items: seq<Item>, claims: map<Key, Claim>, ns: string) {
    && (forall i | 0 <= i < |items| ::
          items[i].key in claims && items[i].key.ns == ns && items[i].claim == claims[items[i].key])
    && (forall i, j | 0 <= i < j < |items| :: items[i].key != items[j].key)
    && (forall k | k in claims && k.ns == ns :: exists i :: 0 <= i < |items| && items[i].key == k)
  }

  /** Any order in which the elements of a set can be walked. */
  method Walk<T(==,!new)>(items: set<T>) returns (order: seq<T>)
    ensures Enumerates(order, items)
  {
    order := [];
    var rest := items;
    while rest != {}
      invariant NoDup(order) && rest <= items
      invariant forall x :: x in order <==> x in items - rest
      decreases |rest|
    {
      var x :| x in rest;
      assert x !in order;
      order, rest := order + [x], rest - {x};
    }
  }

  class Cluster {
    var world: World
    var faults: Faults
    var s3: seq<Outcome>

    constructor (w: World, f: Faults, s3: seq<Outcome>)
      ensures world == w && faults == f && this.s3 == s3
    {
      world, faults, this.s3 := w, f, s3;
    }

    /** One call to the S3 endpoint. */
    method CallS3() returns (o: Outcome)
      modifies this`s3
      ensures o == Coming(old(s3)) && s3 == Later(old(s3))
    {
      o := Answered;
      if s3 != [] {
        o, s3 := s3[0], s3[1..];
      }
    }

    /** One remote call reaches the other side, or not. */
    method Reach() returns (up: bool)
      modifies this`faults
      ensures up == !Down(old(faults)) && faults == Spent(old(faults))
    {
      up := faults != After(0);
      if faults.After? && faults.calls > 0 {
        faults := After(faults.calls - 1);
      }
    }

    // ---- Ceph admin API ----------------------------------------------------

    method GetUser(id: string) returns (r: Reply<CephUser>)
      modifies this`faults
      ensures faults == Spent(old(faults))
      ensures r == if Down(old(faults)) then Failed
                   else if id in world.users then Ok(world.users[id]) else NotFound
    {
      var up := Reach();
      r := if !up then Failed else if id in world.users then Ok(world.users[id]) else NotFound;
    }

    method CreateUser(id: string, displayName: string, maxBuckets: int) returns (r: Reply<CephUser>)
      requires id !in world.users
      modifies this
      ensures faults == Spent(old(faults))
      ensures Down(old(faults)) ==> r == Failed && world == old(world)
      ensures !Down(old(faults)) ==> world == Store.CreateUser(old(world), id, displayName, maxBuckets) && r == Ok(world.users[id])
    {
      var up := Reach();
      if !up { return Failed; }
      world := Store.CreateUser(world, id, displayName, maxBuckets);
      r := Ok(world.users[id]);
    }

    method ModifyUser(id: string, displayName: string, maxBuckets: int) returns (r: Reply<CephUser>)
      requires id in world.users
      modifies this
      ensures faults == Spent(old(faults))
      ensures Down(old(faults)) ==> r == Failed && world == old(world)
      ensures !Down(old(faults)) ==> world == Store.ModifyUser(old(world), id, displayName, maxBuckets) && r == Ok(world.users[id])
    {
      var up := Reach();
      if !up { return Failed; }
      world := Store.ModifyUser(world, id, displayName, maxBuckets);
      r := Ok(world.users[id]);
    }

    method SetUserQuota(id: string, quota: CephQuota) returns (ok: bool)
      requires id in world.users
      modifies this
      ensures faults == Spent(old(faults)) && ok == !Down(old(faults))
      ensures world == if ok then Store.SetUserQuota(old(world), id, quota) else old(world)
    {
      ok := Reach();
      if ok { world := Store.SetUserQuota(world, id, quota); }
    }

    method CreateSubuser(id: string, name: string) returns (ok: bool)
      modifies this
      ensures faults == Spent(old(faults))
      ensures ok == (!Down(old(faults)) && id in old(world).users && name !in old(world).users[id].subusers)
      ensures world == if ok then Store.CreateSubuser(old(world), id, name) else old(world)
    {
      ok := Reach();
      ok := ok && id in world.users && name !in world.users[id].subusers;
      if ok { world := Store.CreateSubuser(world, id, name); }
    }

    method RemoveSubuser(id: string, name: string) returns (ok: bool)
      modifies this
      ensures faults == Spent(old(faults))
      ensures ok == (!Down(old(faults)) && id in old(world).users)
      ensures world == if ok then Store.RemoveSubuser(old(world), id, name) else old(world)
    {
      ok := Reach();
      ok := ok && id in world.users;
      if ok { world := Store.RemoveSubuser(world, id, name); }
    }

    method RemoveUser(id: string) returns (r: Reply<()>)
      modifies this
      ensures faults == Spent(old(faults))
      ensures r == if Down(old(faults)) then Failed else if id in old(world).users then Ok(()) else NotFound
      ensures world == if r.Ok? then Store.RemoveUser(old(world), id) else old(world)
    {
      var up := Reach();
      r := if !up then Failed else if id in world.users then Ok(()) else NotFound;
      if r.Ok? { world := Store.RemoveUser(world, id); }
    }

    // ---- Kubernetes API ----------------------------------------------------

    method GetClaim(k: Key) returns (r: Reply<Claim>)
      modifies this`faults
      ensures faults == Spent(old(faults))
      ensures r == if Down(old(faults)) then Failed
                   else if k in world.claims then Ok(world.claims[k]) else NotFound
    {
      var up := Reach();
      r := if !up then Failed else if k in world.claims then Ok(world.claims[k]) else NotFound;
    }

    /** Both claim writes carry the resource version that was read. */
    method UpdateClaimStatus(claim: Claim) returns (r: Reply<Claim>)
      modifies this
      ensures faults == Spent(old(faults))
      ensures r.Ok? == (!Down(old(faults)) && Current(old(world), claim)) && !r.NotFound?
      ensures r.Failed? ==> world == old(world)
      ensures r.Ok? ==> world == PutClaimStatus(old(world), claim) && r.value == world.claims[claim.key]
    {
      var up := Reach();
      if !up || !(claim.key in world.claims && world.claims[claim.key].rv == claim.rv) { return Failed; }
      world := PutClaimStatus(world, claim);
      r := Ok(world.claims[claim.key]);
    }

    method UpdateClaim(claim: Claim) returns (r: Reply<Claim>)
      modifies this
      ensures faults == Spent(old(faults))
      ensures r.Ok? == (!Down(old(faults)) && Current(old(world), claim)) && !r.NotFound?
      ensures r.Failed? ==> world == old(world)
      ensures r.Ok? ==>
                && world == PutClaim(old(world), claim)
                && r.value == if claim.key in world.claims then world.claims[claim.key] else claim
    {
      var up := Reach();
      if !up || !(claim.key in world.claims && world.claims[claim.key].rv == claim.rv) { return Failed; }
      world := PutClaim(world, claim);
      r := Ok(if claim.key in world.claims then world.claims[claim.key] else claim);
    }

    method ListClaims(ns: string) returns (r: Reply<seq<Item>>)
      modifies this`faults
      ensures faults == Spent(old(faults))
      ensures r.Failed? == Down(old(faults)) && !r.NotFound?
      ensures r.Ok? ==> Lists(r.value, world.claims, ns)
    {
      var up := Reach();
      if !up { return Failed; }
      var claims := world.claims;
      var order := Walk(set k | k in claims && k.ns == ns);
      assert forall i | 0 <= i < |order| :: order[i] in order;
      var items := seq(|order|, i requires 0 <= i < |order| && order[i] in claims => Item(order[i], claims[order[i]]));
      forall k | k in claims && k.ns == ns ensures exists i :: 0 <= i < |items| && items[i].key == k {
        assert k in order;
        var i :| 0 <= i < |order| && order[i] == k;
        assert items[i].key == k;
      }
      r := Ok(items);
    }

    method GetSecret(k: Key) returns (r: Reply<Secret>)
      modifies this`faults
      ensures faults == Spent(old(faults))
      ensures r == if Down(old(faults)) then Failed
                   else if k in world.secrets then Ok(world.secrets[k]) else NotFound
    {
      var up := Reach();
      r := if !up then Failed else if k in world.secrets then Ok(world.secrets[k]) else NotFound;
    }

    method PutSecret(k: Key, s: Secret) returns (ok: bool)
      modifies this
      ensures faults == Spent(old(faults)) && ok == !Down(old(faults))
      ensures world == if ok then Store.PutSecret(old(world), k, s) else old(world)
    {
      ok := Reach();
      if ok { world := Store.PutSecret(world, k, s); }
    }

    method DeleteSecret(k: Key) returns (r: Reply<()>)
      modifies this
      ensures faults == Spent(old(faults))
      ensures r == if Down(old(faults)) then Failed else if k in old(world).secrets then Ok(()) else NotFound
      ensures world == if r.Failed? then old(world) else Store.DeleteSecret(old(world), k)
    {
      var up := Reach();
      r := if !up then Failed else if k in world.secrets then Ok(()) else NotFound;
      if r.Ok? { world := Store.DeleteSecret(world, k); }
    }

    method GetS3User(name: string) returns (r: Reply<S3User>)
      modifies this`faults
      ensures faults == Spent(old(faults))
      ensures r == if Down(old(faults)) then Failed
                   else if name in world.s3users then Ok(world.s3users[name]) else NotFound
    {
      var up := Reach();
      r := if !up then Failed else if name in world.s3users then Ok(world.s3users[name]) else NotFound;
    }

    method PutS3User(name: string, u: S3User) returns (ok: bool)
      modifies this
      ensures faults == Spent(old(faults)) && ok == !Down(old(faults))
      ensures world == if ok then Store.PutS3User(old(world), name, u) else old(world)
    {
      ok := Reach();
      if ok { world := Store.PutS3User(world, name, u); }
    }

    method DeleteS3User(name: string) returns (r: Reply<()>)
      modifies this
      ensures faults == Spent(old(faults))
      ensures r == if Down(old(faults)) then Failed else if name in old(world).s3users then Ok(()) else NotFound
      ensures world == if r.Failed? then old(world) else Store.DeleteS3User(old(world), name)
    {
      var up := Reach();
      r := if !up then Failed else if name in world.s3users then Ok(()) else NotFound;
      if r.Ok? { world := Store.DeleteS3User(world, name); }
    }

    method ListQuotas(ns: string) returns (r: Reply<seq<Key>>)
      modifies this`faults
      ensures faults == Spent(old(faults))
      ensures r.Failed? == Down(old(faults)) && !r.NotFound?
      ensures r.Ok? ==> Enumerates(r.value, QuotasIn(world, ns))
    {
      var up := Reach();
      if !up { return Failed; }
      var order := Walk(set k | k in world.quotas && k.ns == ns);
      r := Ok(order);
    }

    method UpdateQuotaStatus(k: Key, used: map<string, int>) returns (ok: bool)
      requires k in world.quotas
      modifies this
      ensures faults == Spent(old(faults)) && ok == !Down(old(faults))
      ensures world == if ok then PutUsed(old(world), k, used) else old(world)
    {
      ok := Reach();
      if ok { world := PutUsed(world, k, used); }
    }

    method GetNamespace(ns: string) returns (r: Reply<map<string, string>>)
      modifies this`faults
      ensures faults == Spent(old(faults))
      ensures r == if Down(old(faults)) then Failed
                   else if ns in world.namespaces then Ok(world.namespaces[ns]) else NotFound
    {
      var up := Reach();
      r := if !up then Failed else if ns in world.namespaces then Ok(world.namespaces[ns]) else NotFound;
    }

    method ListNamespaces() returns (r: Reply<seq<string>>)
      modifies this`faults
      ensures faults == Spent(old(faults))
      ensures r.Failed? == Down(old(faults)) && !r.NotFound?
      ensures r.Ok? ==> Enumerates(r.value, world.namespaces.Keys)
    {
      var up := Reach();
      if !up { return Failed; }
      var order := Walk(world.namespaces.Keys);
      r := Ok(order);
    }

    method GetClusterQuota(team: string) returns (r: Reply<map<string, int>>)
      modifies this`faults
      ensures faults == Spent(old(faults))
      ensures r == if Down(old(faults)) then Failed
                   else if team in world.clusterQuotas then Ok(world.clusterQuotas[team]) else NotFound
    {
      var up := Reach();
      r := if !up then Failed else if team in world.clusterQuotas then Ok(world.clusterQuotas[team]) else NotFound;
    }

    method ListBuckets(ns: string) returns (r: Reply<seq<Key>>)
      modifies this`faults
      ensures faults == Spent(old(faults))
      ensures r.Failed? == Down(old(faults)) && !r.NotFound?
      ensures r.Ok? ==> Enumerates(r.value, set k | k in world.buckets && k.ns == ns)
    {
      var up := Reach();
      if !up { return Failed; }
      var order := Walk(set k | k in world.buckets && k.ns == ns);
      r := Ok(order);
    }

    method GetBucket(k: Key) returns (r: Reply<Bucket>)
      modifies this`faults
      ensures faults == Spent(old(faults))
      ensures r == if Down(old(faults)) then Failed
                   else if k in world.buckets then Ok(world.buckets[k]) else NotFound
    {
      var up := Reach();
      r := if !up then Failed else if k in world.buckets then Ok(world.buckets[k]) else NotFound;
    }

    /** Both bucket writes carry the resource version that was read. */
    method UpdateBucketStatus(k: Key, bucket: Bucket) returns (r: Reply<Bucket>)
      modifies this`world, this`faults
      ensures faults == Spent(old(faults))
      ensures r.Ok? == (!Down(old(faults)) && k in old(world).buckets && old(world).buckets[k].rv == bucket.rv) && !r.NotFound?
      ensures r.Failed? ==> world == old(world)
      ensures r.Ok? ==> world == PutBucketStatus(old(world), k, bucket.status) && r.value == world.buckets[k]
    {
      var up := Reach();
      if !up || !(k in world.buckets && world.buckets[k].rv == bucket.rv) { return Failed; }
      world := PutBucketStatus(world, k, bucket.status);
      r := Ok(world.buckets[k]);
    }

    method UpdateBucketFinalizers(k: Key, bucket: Bucket) returns (r: Reply<Bucket>)
      modifies this`world, this`faults
      ensures faults == Spent(old(faults))
      ensures r.Ok? == (!Down(old(faults)) && k in old(world).buckets && old(world).buckets[k].rv == bucket.rv) && !r.NotFound?
      ensures r.Failed? ==> world == old(world)
      ensures r.Ok? ==>
                && world == PutBucketFinalizers(old(world), k, bucket.finalizers)
                && r.value == if k in world.buckets then world.buckets[k] else bucket
    {
      var up := Reach();
      if !up || !(k in world.buckets && world.buckets[k].rv == bucket.rv) { return Failed; }
      world := PutBucketFinalizers(world, k, bucket.finalizers);
      r := Ok(if k in world.buckets then world.buckets[k] else bucket);
    }
  }
}
