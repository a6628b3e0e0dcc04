/** The S3 client of the bucket controller, acting as one Ceph user in one tenant, and
    how it classifies the errors it gets back. */
module Agent {
  import opened Naming
  import opened Store
  import opened Reconcile
  import opened Api
  import opened Policy

  datatype Result<+T> = Done(value: T) | Error(error: S3Error)

  // ---- what the remote side answers ----------------------------------------

  function CreateAnswer(w: World, b: Key, user: string): Option<S3Error> {
    if b !in w.remote then None
    else if w.remote[b].owner == user then Some(BucketAlreadyOwnedByYou) else Some(BucketAlreadyExists)
  }

  function DeleteAnswer(w: World, b: Key, user: string): Option<S3Error> {
    if b !in w.remote then Some(NoSuchBucket)
    else if w.remote[b].owner != user then Some(AccessDenied)
    else if !w.remote[b].empty then Some(BucketNotEmpty) else None
  }

  function PolicyAnswer(w: World, b: Key, user: string): Option<S3Error> {
    if b !in w.remote then Some(NoSuchBucket)
    else if w.remote[b].owner != user then Some(AccessDenied) else None
  }

  function WithRemote(w: World, b: Key, r: RemoteBucket): World {
    w.(remote := w.remote[b := r])
  }

  function WithoutRemote(w: World, b: Key): World {
    w.(remote := w.remote - {b})
  }

  /** What the agent gets to see of an answer. */
  function Received(o: Outcome, answer: Option<S3Error>): Option<S3Error> {
    match o
    case Answered => answer
    case Rejected(why) => Some(Refused(why))
    case Dropped => Some(Unreachable)
    case AnswerLost => Some(Unreachable)
  }

  /** The call takes effect, seen or unseen. */
  predicate Effective(o: Outcome, answer: Option<S3Error>) {
    (o == Answered || o == AnswerLost) && answer.None?
  }

  class S3Agent {
    const cluster: Cluster
    const tenant: string
    const user: string
    const credential: nat

    constructor (cluster: Cluster, tenant: string, user: string, credential: nat)
      ensures this.cluster == cluster && this.tenant == tenant && this.user == user && this.credential == credential
    {
      this.cluster, this.tenant, this.user, this.credential := cluster, tenant, user, credential;
    }

    /** A bucket that already exists counts as created, whoever owns it, and is left as
        it is; every other error is reported. */
    method CreateBucket(name: string) returns (failed: Option<S3Error>)
      modifies cluster`world, cluster`s3
      ensures cluster.s3 == Later(old(cluster.s3))
      ensures failed.None? <==> Coming(old(cluster.s3)) == Answered
      ensures failed.Some? ==> failed == Received(Coming(old(cluster.s3)), None)
      ensures var o, w, b := Coming(old(cluster.s3)), old(cluster.world), Key(tenant, name);
              cluster.world == if b !in w.remote && (o == Answered || o == AnswerLost)
                               then WithRemote(w, b, RemoteBucket(user, true, None)) else w
    {
      var o := cluster.CallS3();
      var answer := CreateAnswer(cluster.world, Key(tenant, name), user);
      if Effective(o, answer) {
        cluster.world := WithRemote(cluster.world, Key(tenant, name), RemoteBucket(user, true, None));
      }
      match Received(o, answer) {
        case None => return None;
        case Some(BucketAlreadyExists) => return None;
        case Some(BucketAlreadyOwnedByYou) => return None;
        case Some(e) => return Some(e);
      }
    }

    method DeleteBucket(name: string) returns (err: Option<S3Error>)
      modifies cluster`world, cluster`s3
      ensures cluster.s3 == Later(old(cluster.s3))
      ensures var o, w, b := Coming(old(cluster.s3)), old(cluster.world), Key(tenant, name);
              && err == Received(o, DeleteAnswer(w, b, user))
              && cluster.world == if Effective(o, DeleteAnswer(w, b, user)) then WithoutRemote(w, b) else w
    {
      var o := cluster.CallS3();
      var answer := DeleteAnswer(cluster.world, Key(tenant, name), user);
      if Effective(o, answer) { cluster.world := WithoutRemote(cluster.world, Key(tenant, name)); }
      err := Received(o, answer);
    }

    /** Compiles and sends the policy.  With an unknown access level nothing is sent:
        no call is made and the remote side is not touched. */
    method SetBucketPolicy(m: map<string, string>, owner: string, bucket: string) returns (r: Result<seq<Statement>>)
      modifies cluster`world, cluster`s3
      ensures var unknown, b := exists s :: s in m && ActionsOf(m[s]).None?, Key(tenant, bucket);
              var o, answer := Coming(old(cluster.s3)), PolicyAnswer(old(cluster.world), b, user);
              && (unknown ==> r == Error(UnknownAccess) && cluster.s3 == old(cluster.s3) && cluster.world == old(cluster.world))
              && (!unknown ==>
                    && cluster.s3 == Later(old(cluster.s3))
                    && (if Received(o, answer).Some? then r == Error(Received(o, answer).value) else r.Done?)
                    && (if Effective(o, answer) then PolicySent(old(cluster.world), cluster.world, b, m, owner)
                        else cluster.world == old(cluster.world))
                    && (r.Done? ==> cluster.world.remote[b].policy == Some(r.value)))
    {
      var compiled := Compile(m, tenant, owner, bucket);
      if compiled.None? { return Error(UnknownAccess); }
      var b := Key(tenant, bucket);
      var o := cluster.CallS3();
      var answer := PolicyAnswer(cluster.world, b, user);
      if Effective(o, answer) {
        cluster.world := WithRemote(cluster.world, b, cluster.world.remote[b].(policy := compiled));
      }
      match Received(o, answer) {
        case Some(e) => r := Error(e);
        case None => r := Done(compiled.value);
      }
    }
  }

  /** The bucket's policy was replaced by one compiled from the access map. */
  ghost predicate PolicySent(w: World, w': World, b: Key, m: map<string, string>, owner: string) {
    && b in w.remote && b in w'.remote && w'.remote[b].policy.Some?
    && Compiled(w'.remote[b].policy.value, m, b.ns, owner, b.name)
    && w' == WithRemote(w, b, w.remote[b].(policy := w'.remote[b].policy))
  }
}
