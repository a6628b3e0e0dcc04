/** The stores the operator works on: the objects in the Kubernetes API and the
    users and buckets in Ceph.  The functions at the end are the effects of the
    external calls, the contract that is assumed of code outside the operator. */
module Store {
  import opened Naming
  import opened Quotas

  // ---- Kubernetes objects --------------------------------------------------

  datatype ClaimSpec = ClaimSpec(
    s3UserClass: string, readonlySecret: string, adminSecret: string, quota: Quota, subusers: seq<string>)

  datatype ClaimStatus = ClaimStatus(quota: Option<Quota>, s3UserName: string, subusers: seq<string>)

  datatype Claim = Claim(
    key: Key, uid: nat, rv: nat, deleting: bool, finalizers: set<string>, spec: ClaimSpec, status: ClaimStatus)

  /** The S3UserClaim before anything was read into it. */
  const ZERO_CLAIM := Claim(Key("", ""), 0, 0, false, {}, ClaimSpec("", "", "", ZERO, []), ClaimStatus(None, "", []))

  datatype ObjectRef = ObjectRef(key: Key, uid: nat, rv: nat)

  datatype S3User = S3User(s3UserClass: string, quota: Quota, claimRef: Option<ObjectRef>)

  datatype Owner = Owner(kind: string, name: string, uid: nat)

  /** A secret holds an opaque credential and at most one controller reference. */
  datatype Secret = Secret(data: nat, controller: Option<Owner>)

  datatype ResourceQuota = ResourceQuota(hard: map<string, int>, used: map<string, int>)

  datatype SubuserBinding = SubuserBinding(name: string, access: string)

  /** Reasons of its own that the S3 endpoint can have to refuse any call. */
  datatype Refusal = TooManyBuckets | InvalidCredentials | ServiceUnavailable

  /** What the S3 endpoint, the connection to it or the policy compiler can report. */
  datatype S3Error =
    | BucketAlreadyExists | BucketAlreadyOwnedByYou | NoSuchBucket | BucketNotEmpty | AccessDenied
    | Refused(why: Refusal) | Unreachable
    | UnknownAccess

  /** The policy a status reports: empty, the word "unknown", or a policy as sent. */
  datatype PolicyText = NoPolicy | UnknownPolicy | PolicyOf(statements: seq<Statement>)

  /** `reason` is the error that was met, None being the empty text. */
  datatype BucketStatus = BucketStatus(created: bool, reason: Option<S3Error>, policy: PolicyText)

  datatype Bucket = Bucket(
    rv: nat, deleting: bool, finalizers: set<string>,
    userRef: string, deletionPolicy: string, bindings: seq<SubuserBinding>, status: BucketStatus)

  // ---- Ceph objects --------------------------------------------------------

  datatype CephKey = CephKey(user: string, credential: nat)

  datatype CephQuota = CephQuota(enabled: bool, maxSize: int, maxObjects: int)

  datatype CephUser = CephUser(
    displayName: string, maxBuckets: int, quota: CephQuota, subusers: seq<string>, keys: seq<CephKey>)

  datatype Statement = Statement(principals: seq<string>, actions: seq<string>, resources: seq<string>)

  datatype RemoteBucket = RemoteBucket(owner: string, empty: bool, policy: Option<seq<Statement>>)

  /** `users` is indexed by full id, `remote` by tenant and bucket name, `rev` is
      the revision counter that every Kubernetes write advances. */
  datatype World = World(
    users: map<string, CephUser>,
    remote: map<Key, RemoteBucket>,
    nextKey: nat,
    rev: nat,
    claims: map<Key, Claim>,
    secrets: map<Key, Secret>,
    s3users: map<string, S3User>,
    quotas: map<Key, ResourceQuota>,
    namespaces: map<string, map<string, string>>,
    clusterQuotas: map<string, map<string, int>>,
    buckets: map<Key, Bucket>)

  const CLAIM_KIND := "S3UserClaim"
  const CLAIM_FINALIZER := "s3.snappcloud.io/cleanup-s3userclaim"
  const BUCKET_FINALIZER := "s3.snappcloud.io/cleanup-s3bucket"

  // ---- enumerations: the order in which a map or a list result is walked ---

  predicate NoDup<T(==)>(s: seq<T>) {
    forall i, j | 0 <= i < j < |s| :: s[i] != s[j]
  }

  ghost predicate Enumerates<T(!new)>(order: seq<T>, items: set<T>) {
    NoDup(order) && forall x :: x in order <==> x in items
  }

  // ---- secrets and their controller ----------------------------------------

  function OwnerOf(claim: Claim): Owner {
    Owner(CLAIM_KIND, claim.key.name, claim.uid)
  }

  /** metav1.IsControlledBy compares the UID only. */
  predicate ControlledBy(s: Secret, uid: nat) {
    s.controller.Some? && s.controller.value.uid == uid
  }

  /** SetControllerReference refuses an object whose controller differs in kind
      or name, and replaces the reference otherwise. */
  predicate Adoptable(s: Secret, claimName: string) {
    s.controller.None? || (s.controller.value.kind == CLAIM_KIND && s.controller.value.name == claimName)
  }

  // ---- effects on Kubernetes objects ---------------------------------------

  /** Optimistic concurrency: a write of a claim read earlier goes through only
      if nobody has written or removed it since. */
  predicate Current(w: World, claim: Claim) {
    claim.key in w.claims && w.claims[claim.key].rv == claim.rv
  }

  /** Status().Update: only the status is taken from the object sent. */
  function PutClaimStatus(w: World, claim: Claim): World
    requires claim.key in w.claims
  {
    w.(rev := w.rev + 1,
       claims := w.claims[claim.key := w.claims[claim.key].(status := claim.status, rv := w.rev + 1)])
  }

  /** Update: spec and finalizers are taken from the object sent; a terminating
      object without finalizers goes away. */
  function PutClaim(w: World, claim: Claim): World
    requires claim.key in w.claims
  {
    var stored := w.claims[claim.key].(spec := claim.spec, finalizers := claim.finalizers, rv := w.rev + 1);
    w.(rev := w.rev + 1,
       claims := if stored.deleting && stored.finalizers == {} then w.claims - {claim.key}
                 else w.claims[claim.key := stored])
  }

  function PutSecret(w: World, k: Key, s: Secret): World {
    w.(rev := w.rev + 1, secrets := w.secrets[k := s])
  }

  function DeleteSecret(w: World, k: Key): World {
    if k in w.secrets then w.(rev := w.rev + 1, secrets := w.secrets - {k}) else w
  }

  function PutS3User(w: World, name: string, u: S3User): World {
    w.(rev := w.rev + 1, s3users := w.s3users[name := u])
  }

  function DeleteS3User(w: World, name: string): World {
    if name in w.s3users then w.(rev := w.rev + 1, s3users := w.s3users - {name}) else w
  }

  function PutUsed(w: World, k: Key, used: map<string, int>): World
    requires k in w.quotas
  {
    w.(rev := w.rev + 1, quotas := w.quotas[k := w.quotas[k].(used := used)])
  }

  function PutBucketStatus(w: World, k: Key, status: BucketStatus): World
    requires k in w.buckets
  {
    w.(rev := w.rev + 1, buckets := w.buckets[k := w.buckets[k].(status := status, rv := w.rev + 1)])
  }

  function PutBucketFinalizers(w: World, k: Key, finalizers: set<string>): World
    requires k in w.buckets
  {
    var stored := w.buckets[k].(finalizers := finalizers, rv := w.rev + 1);
    w.(rev := w.rev + 1,
       buckets := if stored.deleting && stored.finalizers == {} then w.buckets - {k} else w.buckets[k := stored])
  }

  // ---- effects on Ceph -----------------------------------------------------

  const NO_QUOTA := CephQuota(false, -1, -1)

  /** A new user comes with one key of its own. */
  function CreateUser(w: World, id: string, displayName: string, maxBuckets: int): World {
    w.(users := w.users[id := CephUser(displayName, maxBuckets, NO_QUOTA, [], [CephKey(id, w.nextKey)])],
       nextKey := w.nextKey + 1)
  }

  function ModifyUser(w: World, id: string, displayName: string, maxBuckets: int): World
    requires id in w.users
  {
    w.(users := w.users[id := w.users[id].(displayName := displayName, maxBuckets := maxBuckets)])
  }

  function SetUserQuota(w: World, id: string, quota: CephQuota): World
    requires id in w.users
  {
    w.(users := w.users[id := w.users[id].(quota := quota)])
  }

  /** A new subuser comes with one key. */
  function WithSubuser(u: CephUser, name: string, credential: nat): CephUser {
    u.(subusers := u.subusers + [name], keys := u.keys + [CephKey(name, credential)])
  }

  function CreateSubuser(w: World, id: string, name: string): World
    requires id in w.users
  {
    w.(users := w.users[id := WithSubuser(w.users[id], name, w.nextKey)], nextKey := w.nextKey + 1)
  }

  /** Removing a subuser purges its keys. */
  function WithoutSubuser(u: CephUser, name: string): CephUser {
    u.(subusers := Without(u.subusers, name), keys := KeysWithout(u.keys, name))
  }

  function RemoveSubuser(w: World, id: string, name: string): World
    requires id in w.users
  {
    w.(users := w.users[id := WithoutSubuser(w.users[id], name)])
  }

  /** Removing a user with PurgeData removes the buckets it owns. */
  function RemoveUser(w: World, id: string): World {
    w.(users := w.users - {id},
       remote := map b | b in w.remote && w.remote[b].owner != id :: w.remote[b])
  }

  function Without(s: seq<string>, x: string): (r: seq<string>)
    ensures forall y :: y in r <==> y in s && y != x
  {
    if s == [] then []
    else
      var rest := Without(s[1..], x);
      if s[0] == x then rest else [s[0]] + rest
  }

  lemma {:induction false} WithoutKeepsNoDup(s: seq<string>, x: string)
    requires NoDup(s)
    ensures NoDup(Without(s, x))
  {
    if s != [] {
      WithoutKeepsNoDup(s[1..], x);
      forall y | y in s[1..] ensures y != s[0] {
        var i :| 0 <= i < |s[1..]| && s[1..][i] == y;
        assert s[i + 1] == y;
      }
      var rest := Without(s[1..], x);
      forall i | 0 <= i < |rest| ensures rest[i] != s[0] {
        assert rest[i] in rest;
      }
    }
  }

  function KeysWithout(keys: seq<CephKey>, user: string): (r: seq<CephKey>)
    ensures forall k :: k in r <==> k in keys && k.user != user
  {
    if keys == [] then []
    else
      var rest := KeysWithout(keys[1..], user);
      if keys[0].user == user then rest else [keys[0]] + rest
  }

  /** The first key of a user, if it has any. */
  function KeyFor(keys: seq<CephKey>, user: string): (r: Option<nat>)
    ensures r.None? <==> forall k | k in keys :: k.user != user
    ensures r.Some? ==> CephKey(user, r.value) in keys
  {
    if keys == [] then None
    else if keys[0].user == user then Some(keys[0].credential)
    else KeyFor(keys[1..], user)
  }

  /** The first key of the user is this one. */
  ghost predicate FirstKey(keys: seq<CephKey>, user: string, credential: nat) {
    exists i :: 0 <= i < |keys| && keys[i] == CephKey(user, credential) && forall h | 0 <= h < i :: keys[h].user != user
  }

  lemma FirstKeyIsHead(keys: seq<CephKey>, user: string, credential: nat)
    requires keys != [] && keys[0].user == user
    ensures FirstKey(keys, user, credential) <==> keys[0].credential == credential
  {
    if keys[0].credential == credential {
      assert keys[0] == CephKey(user, credential);
    }
  }

  lemma FirstKeyInTail(keys: seq<CephKey>, user: string, credential: nat)
    requires keys != [] && keys[0].user != user
    ensures FirstKey(keys, user, credential) <==> FirstKey(keys[1..], user, credential)
  {
    if i :| 0 <= i < |keys| && keys[i] == CephKey(user, credential) && forall h | 0 <= h < i :: keys[h].user != user {
      assert keys[1..][i - 1] == CephKey(user, credential);
    }
    if i :| 0 <= i < |keys[1..]| && keys[1..][i] == CephKey(user, credential)
            && forall h | 0 <= h < i :: keys[1..][h].user != user {
      assert keys[i + 1] == CephKey(user, credential);
      assert forall h | 0 <= h < i + 1 :: keys[h].user != user by {
        forall h | 0 < h < i + 1 ensures keys[h].user != user {
          assert keys[1..][h - 1].user != user;
        }
      }
    }
  }

  lemma {:induction false} KeyForIsFirst(keys: seq<CephKey>, user: string, credential: nat)
    ensures KeyFor(keys, user) == Some(credential) <==> FirstKey(keys, user, credential)
  {
    if keys != [] {
      if keys[0].user == user {
        FirstKeyIsHead(keys, user, credential);
      } else {
        FirstKeyInTail(keys, user, credential);
        KeyForIsFirst(keys[1..], user, credential);
      }
    }
  }
}
