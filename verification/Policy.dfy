/** Bucket policies: the subuser bindings of an S3Bucket compiled into Allow
    statements, one for each access level in use. */
module Policy {
  import opened Naming
  import opened Store
  import Api

  const READ := "read"
  const WRITE := "write"
  const READ_ACTIONS := ["s3:ListBucket", "s3:GetObject"]
  const WRITE_ACTIONS := READ_ACTIONS + ["s3:DeleteObject", "s3:PutObject"]

  /** generateBucketAccessAction */
  function ActionsOf(access: string): Option<seq<string>> {
    if access == READ then Some(READ_ACTIONS) else if access == WRITE then Some(WRITE_ACTIONS) else None
  }

  /** What the access levels give, spelled out: reading lists and gets, writing also
      deletes and puts, and nothing else gives anything. */
  predicate Gives(access: string, action: string) {
    || (access == "read" && action in {"s3:ListBucket", "s3:GetObject"})
    || (access == "write" && action in {"s3:ListBucket", "s3:GetObject", "s3:DeleteObject", "s3:PutObject"})
  }

  lemma ActionTable(access: string, action: string)
    ensures ActionsOf(access).Some? && action in ActionsOf(access).value <==> Gives(access, action)
    ensures ActionsOf(access).Some? <==> access == "read" || access == "write"
  {}

  lemma WriteIncludesRead(action: string)
    requires action in READ_ACTIONS
    ensures action in WRITE_ACTIONS
  {}

  // ---- from bindings to the access map -------------------------------------

  /** Later bindings of a name replace earlier ones. */
  function AccessMap(bindings: seq<SubuserBinding>): map<string, string> {
    if bindings == [] then map[]
    else
      var last := bindings[|bindings| - 1];
      AccessMap(bindings[..|bindings| - 1])[last.name := last.access]
  }

  /** The i-th binding is the last one for its name. */
  predicate IsLastFor(bindings: seq<SubuserBinding>, name: string, i: int) {
    0 <= i < |bindings| && bindings[i].name == name && forall j | i < j < |bindings| :: bindings[j].name != name
  }

  lemma {:induction false} AccessMapIsLast(bindings: seq<SubuserBinding>, name: string)
    ensures name in AccessMap(bindings) <==> exists i :: IsLastFor(bindings, name, i)
    ensures forall i | IsLastFor(bindings, name, i) :: name in AccessMap(bindings) && AccessMap(bindings)[name] == bindings[i].access
  {
    if bindings != [] {
      var m := |bindings| - 1;
      AccessMapIsLast(bindings[..m], name);
      if bindings[m].name == name {
        assert IsLastFor(bindings, name, m);
      } else {
        assert forall i :: IsLastFor(bindings, name, i) <==> IsLastFor(bindings[..m], name, i);
      }
    }
  }

  // ---- the compiled policy -------------------------------------------------

  function Resources(tenant: string, bucket: string): seq<string> {
    ["arn:aws:s3::" + tenant + ":" + bucket, "arn:aws:s3::" + tenant + ":" + bucket + "/*"]
  }

  /** What a request is for: a bucket or an object in it. */
  datatype Resource = TheBucket(tenant: string, bucket: string) | AnObject(tenant: string, bucket: string, key: string)

  function Arn(r: Resource): string {
    match r
    case TheBucket(tenant, bucket) => "arn:aws:s3::" + tenant + ":" + bucket
    case AnObject(tenant, bucket, key) => "arn:aws:s3::" + tenant + ":" + bucket + "/" + key
  }

  /** A resource of a statement covers an ARN: literally, or up to a final '*'. */
  predicate Covers(pattern: string, arn: string) {
    pattern == arn || (pattern != "" && pattern[|pattern| - 1] == '*' && pattern[..|pattern| - 1] <= arn)
  }

  /** Some Allow statement gives the principal the action on the resource. */
  ghost predicate Permits(statements: seq<Statement>, principal: string, action: string, arn: string) {
    exists i :: 0 <= i < |statements| && principal in statements[i].principals && action in statements[i].actions
                && CoveredBy(statements[i].resources, arn)
  }

  ghost predicate CoveredBy(resources: seq<string>, arn: string) {
    exists r :: r in resources && Covers(r, arn)
  }

  /** Tenants without ':', bucket names without '/' and '*'. */
  predicate ProperNames(tenant: string, bucket: string) {
    ':' !in tenant && '/' !in bucket && '*' !in bucket
  }

  /** The resources of a policy cover its own bucket and every object in it, and nothing
      of any other bucket. */
  lemma ResourcesCover(tenant: string, bucket: string, r: Resource)
    requires ProperNames(tenant, bucket) && ProperNames(r.tenant, r.bucket)
    ensures CoveredBy(Resources(tenant, bucket), Arn(r)) <==> r.tenant == tenant && r.bucket == bucket
  {
    var exact, within := "arn:aws:s3::" + tenant + ":" + bucket, "arn:aws:s3::" + tenant + ":" + bucket + "/*";
    if r.tenant == tenant && r.bucket == bucket {
      assert exact in Resources(tenant, bucket) && within in Resources(tenant, bucket);
      assert r.AnObject? ==> within[..|within| - 1] == exact + "/" && Arn(r) == (exact + "/") + r.key;
      assert Covers(exact, Arn(r)) || Covers(within, Arn(r));
    }
    if x :| x in Resources(tenant, bucket) && Covers(x, Arn(r)) {
      CoveredStartsRight(tenant, bucket, r, x);
    }
  }

  const S3_ARN := "arn:aws:s3::"

  function Path(r: Resource): string {
    if r.TheBucket? then r.bucket else r.bucket + (['/'] + r.key)
  }

  lemma ArnParts(r: Resource)
    ensures Arn(r) == S3_ARN + (r.tenant + ([':'] + Path(r)))
  {
    if r.TheBucket? {
      assert S3_ARN + r.tenant + ":" + r.bucket == S3_ARN + (r.tenant + ([':'] + r.bucket));
    } else {
      assert S3_ARN + r.tenant + ":" + r.bucket + "/" + r.key == S3_ARN + (r.tenant + ([':'] + (r.bucket + (['/'] + r.key))));
    }
  }

  /** An ARN that begins like a bucket's ARN has its tenant, and a path that begins like
      the bucket. */
  lemma SameStart(tenant: string, bucket: string, r: Resource, y: string)
    requires ':' !in tenant && ':' !in r.tenant && Arn(r) == Arn(TheBucket(tenant, bucket)) + y
    ensures r.tenant == tenant && Path(r) == bucket + y
  {
    ArnParts(r);
    ArnParts(TheBucket(tenant, bucket));
    var s, s' := r.tenant + ([':'] + Path(r)), tenant + ([':'] + (bucket + y));
    assert S3_ARN + (tenant + ([':'] + bucket)) + y == S3_ARN + s';
    CommonPrefix(S3_ARN, s, s');
    assert s == r.tenant + [':'] + Path(r) && s' == tenant + [':'] + (bucket + y);
    CutPoint(r.tenant, Path(r), tenant, bucket + y, ':');
  }

  lemma CoveredStartsRight(tenant: string, bucket: string, r: Resource, x: string)
    requires ProperNames(tenant, bucket) && ProperNames(r.tenant, r.bucket)
    requires x in Resources(tenant, bucket) && Covers(x, Arn(r))
    ensures r.tenant == tenant && r.bucket == bucket
  {
    var y := WhatFollows(tenant, bucket, x, Arn(r));
    SameStart(tenant, bucket, r, y);
    SameBucket(bucket, y, r);
  }

  lemma WhatFollows(tenant: string, bucket: string, x: string, arn: string) returns (y: string)
    requires '*' !in bucket && x in Resources(tenant, bucket) && Covers(x, arn)
    ensures arn == Arn(TheBucket(tenant, bucket)) + y && (y == "" || y[0] == '/')
  {
    var exact := Arn(TheBucket(tenant, bucket));
    if x == arn {
      y := if x == exact then "" else "/*";
    } else {
      NoStarAtEnd(tenant, bucket);
      assert x == exact + "/*" && x[..|x| - 1] == exact + "/";
      y := arn[|exact|..];
    }
  }

  lemma NoStarAtEnd(tenant: string, bucket: string)
    requires '*' !in bucket
    ensures var exact := Arn(TheBucket(tenant, bucket)); exact[|exact| - 1] != '*'
  {
    var exact := Arn(TheBucket(tenant, bucket));
    if bucket != "" {
      assert exact[|exact| - 1] == bucket[|bucket| - 1];
      assert bucket[|bucket| - 1] in bucket;
    }
  }

  lemma SameBucket(bucket: string, y: string, r: Resource)
    requires '/' !in bucket && '/' !in r.bucket && (y == "" || y[0] == '/')
    requires Path(r) == bucket + y
    ensures r.bucket == bucket
  {
    if r.AnObject? {
      SlashInside(r.bucket, r.key);
    }
    if y == "" {
      assert bucket + y == bucket;
    } else {
      assert bucket + y == bucket + (['/'] + y[1..]);
      SlashInside(bucket, y[1..]);
      if r.AnObject? {
        assert bucket + (['/'] + y[1..]) == bucket + ['/'] + y[1..] && r.bucket + (['/'] + r.key) == r.bucket + ['/'] + r.key;
        CutPoint(bucket, y[1..], r.bucket, r.key, '/');
      }
    }
  }

  lemma SlashInside(a: string, b: string)
    ensures '/' in a + (['/'] + b)
  {
    assert (a + (['/'] + b))[|a|] == '/';
  }

  /** The principals are those of the subusers with this access, each once. */
  ghost predicate Grouped(principals: seq<string>, m: map<string, string>, subusers: set<string>,
                          access: string, tenant: string, owner: string) {
    && NoDup(principals)
    && (forall s | s in subusers && s in m && m[s] == access :: Principal(tenant, owner, s) in principals)
    && (forall p | p in principals :: exists s :: s in subusers && s in m && m[s] == access && p == Principal(tenant, owner, s))
  }

  ghost predicate IsStatementFor(st: Statement, m: map<string, string>, access: string,
                                 tenant: string, owner: string, bucket: string) {
    && ActionsOf(access) == Some(st.actions) && st.resources == Resources(tenant, bucket)
    && Grouped(st.principals, m, m.Keys, access, tenant, owner)
  }

  /** One statement for each access level in use, in some order. */
  ghost predicate Compiled(statements: seq<Statement>, m: map<string, string>, tenant: string, owner: string, bucket: string) {
    exists levels: seq<string> :: CompiledInOrder(statements, levels, m, tenant, owner, bucket)
  }

  ghost predicate CompiledInOrder(statements: seq<Statement>, levels: seq<string>, m: map<string, string>,
                                  tenant: string, owner: string, bucket: string) {
    && Enumerates(levels, m.Values) && |levels| == |statements|
    && forall i | 0 <= i < |levels| :: IsStatementFor(statements[i], m, levels[i], tenant, owner, bucket)
  }

  /** In whatever order the two maps are walked, the policy permits a subuser an action
      on a resource exactly when its access level gives the action and the resource is
      the policy's bucket or an object in it. */
  lemma PolicyMeaning(statements: seq<Statement>, m: map<string, string>, tenant: string, owner: string, bucket: string,
                      s: string, action: string, r: Resource)
    requires Compiled(statements, m, tenant, owner, bucket)
    requires ProperNames(tenant, bucket) && ProperNames(r.tenant, r.bucket)
    ensures Permits(statements, Principal(tenant, owner, s), action, Arn(r))
       <==> r.tenant == tenant && r.bucket == bucket && s in m && Gives(m[s], action)
  {
    var levels :| CompiledInOrder(statements, levels, m, tenant, owner, bucket);
    var p := Principal(tenant, owner, s);
    ResourcesCover(tenant, bucket, r);
    if i :| 0 <= i < |statements| && p in statements[i].principals && action in statements[i].actions
            && CoveredBy(statements[i].resources, Arn(r)) {
      assert IsStatementFor(statements[i], m, levels[i], tenant, owner, bucket);
      OnlyOwnPrincipal(statements[i].principals, m, levels[i], tenant, owner, s);
      ActionTable(m[s], action);
    }
    if r.tenant == tenant && r.bucket == bucket && s in m && Gives(m[s], action) {
      ActionTable(m[s], action);
      assert m[s] in m.Values && m[s] in levels;
      var i :| 0 <= i < |levels| && levels[i] == m[s];
      assert IsStatementFor(statements[i], m, levels[i], tenant, owner, bucket);
      assert p in statements[i].principals;
    }
  }

  lemma OnlyOwnPrincipal(principals: seq<string>, m: map<string, string>, access: string, tenant: string, owner: string, s: string)
    requires Grouped(principals, m, m.Keys, access, tenant, owner) && Principal(tenant, owner, s) in principals
    ensures s in m && m[s] == access
  {
    var x :| x in m && m[x] == access && Principal(tenant, owner, s) == Principal(tenant, owner, x);
    SamePrincipal(tenant, owner, s, x);
  }

  lemma EverySubuserHasAStatement(statements: seq<Statement>, m: map<string, string>, tenant: string, owner: string,
                                  bucket: string, s: string)
    requires Compiled(statements, m, tenant, owner, bucket) && s in m
    ensures exists i :: 0 <= i < |statements| && Principal(tenant, owner, s) in statements[i].principals
  {
    var levels :| CompiledInOrder(statements, levels, m, tenant, owner, bucket);
    assert m[s] in m.Values && m[s] in levels;
    var i :| 0 <= i < |levels| && levels[i] == m[s];
    assert IsStatementFor(statements[i], m, levels[i], tenant, owner, bucket);
  }

  lemma OnlyOneStatement(statements: seq<Statement>, m: map<string, string>, tenant: string, owner: string, bucket: string,
                         s: string, i: nat, j: nat)
    requires Compiled(statements, m, tenant, owner, bucket) && i < |statements| && j < |statements|
    requires Principal(tenant, owner, s) in statements[i].principals && Principal(tenant, owner, s) in statements[j].principals
    ensures s in m && i == j
  {
    var levels :| CompiledInOrder(statements, levels, m, tenant, owner, bucket);
    assert IsStatementFor(statements[i], m, levels[i], tenant, owner, bucket);
    assert IsStatementFor(statements[j], m, levels[j], tenant, owner, bucket);
    OnlyOwnPrincipal(statements[i].principals, m, levels[i], tenant, owner, s);
    OnlyOwnPrincipal(statements[j].principals, m, levels[j], tenant, owner, s);
  }

  /** Every bound subuser occurs in exactly one statement, and nobody else in any. */
  lemma OneStatementEach(statements: seq<Statement>, m: map<string, string>, tenant: string, owner: string, bucket: string)
    requires Compiled(statements, m, tenant, owner, bucket)
    ensures forall s | s in m :: exists i :: 0 <= i < |statements| && Principal(tenant, owner, s) in statements[i].principals
    ensures forall s, i, j | 0 <= i < |statements| && 0 <= j < |statements|
              && Principal(tenant, owner, s) in statements[i].principals
              && Principal(tenant, owner, s) in statements[j].principals :: s in m && i == j
    ensures forall i | 0 <= i < |statements| :: NoDup(statements[i].principals)
  {
    forall s | s in m ensures exists i :: 0 <= i < |statements| && Principal(tenant, owner, s) in statements[i].principals {
      EverySubuserHasAStatement(statements, m, tenant, owner, bucket, s);
    }
    forall s, i, j | 0 <= i < |statements| && 0 <= j < |statements|
              && Principal(tenant, owner, s) in statements[i].principals
              && Principal(tenant, owner, s) in statements[j].principals
      ensures s in m && i == j
    {
      OnlyOneStatement(statements, m, tenant, owner, bucket, s, i, j);
    }
    var levels :| CompiledInOrder(statements, levels, m, tenant, owner, bucket);
    forall i | 0 <= i < |statements| ensures NoDup(statements[i].principals) {
      assert IsStatementFor(statements[i], m, levels[i], tenant, owner, bucket);
    }
  }

  /** What the last binding of a subuser gives, on this bucket alone, and nothing for a
      subuser without a binding. */
  lemma BindingsMeaning(statements: seq<Statement>, bindings: seq<SubuserBinding>, tenant: string, owner: string, bucket: string,
                        s: string, action: string, r: Resource)
    requires Compiled(statements, AccessMap(bindings), tenant, owner, bucket)
    requires ProperNames(tenant, bucket) && ProperNames(r.tenant, r.bucket)
    ensures Permits(statements, Principal(tenant, owner, s), action, Arn(r))
       <==> r.tenant == tenant && r.bucket == bucket
            && exists i :: IsLastFor(bindings, s, i) && Gives(bindings[i].access, action)
  {
    AccessMapIsLast(bindings, s);
    PolicyMeaning(statements, AccessMap(bindings), tenant, owner, bucket, s, action, r);
  }

  /** Every principal of a compiled policy is that of a bound subuser. */
  lemma PrincipalsAreBound(statements: seq<Statement>, m: map<string, string>, tenant: string, owner: string, bucket: string,
                           i: nat, p: string)
    requires Compiled(statements, m, tenant, owner, bucket) && i < |statements| && p in statements[i].principals
    ensures exists x :: x in m && p == Principal(tenant, owner, x)
  {
    var levels :| CompiledInOrder(statements, levels, m, tenant, owner, bucket);
    assert IsStatementFor(statements[i], m, levels[i], tenant, owner, bucket);
  }

  /** The policy, read by who a principal stands for, gives a Ceph subuser the action. */
  ghost predicate Grants(statements: seq<Statement>, cephSubuser: string, action: string, arn: string) {
    exists p :: DecodePrincipal(p) == Some(cephSubuser) && Permits(statements, p, action, arn)
  }

  /** End to end, for a bucket of a claim: the policy grants the Ceph subuser s of that
      claim an action on a resource exactly when the resource is the bucket or an object
      in it and the last binding that names s gives the action. */
  lemma GrantsMeaning(statements: seq<Statement>, bindings: seq<SubuserBinding>, cluster: string, claim: Key, bucket: string,
                      s: string, action: string, r: Resource)
    requires ':' !in cluster && ValidKey(claim) && ':' !in s
    requires ProperNames(r.tenant, r.bucket) && '/' !in bucket && '*' !in bucket
    requires Compiled(statements, AccessMap(bindings), CephTenant(cluster, claim.ns), claim.name, bucket)
    ensures Grants(statements, CephUserFullId(cluster, claim) + ":" + s, action, Arn(r))
       <==> r.tenant == CephTenant(cluster, claim.ns) && r.bucket == bucket
            && exists i :: IsLastFor(bindings, s, i) && Gives(bindings[i].access, action)
  {
    var tenant, m, id := CephTenant(cluster, claim.ns), AccessMap(bindings), CephUserFullId(cluster, claim) + ":" + s;
    NoColonInTenant(cluster, claim.ns);
    BindingsMeaning(statements, bindings, tenant, claim.name, bucket, s, action, r);
    PrincipalDecodes(cluster, claim, s, s);
    if p :| DecodePrincipal(p) == Some(id) && Permits(statements, p, action, Arn(r)) {
      var i :| 0 <= i < |statements| && p in statements[i].principals && action in statements[i].actions
               && CoveredBy(statements[i].resources, Arn(r));
      PrincipalsAreBound(statements, m, tenant, claim.name, bucket, i, p);
      var x :| x in m && p == Principal(tenant, claim.name, x);
      PrincipalDecodes(cluster, claim, x, s);
      assert p == Principal(tenant, claim.name, s);
    }
  }

  // ---- the compiler --------------------------------------------------------

  /** The two loops of SetBucketPolicy, up to the remote call: None if some access
      level is unknown, else the statements. */
  method Compile(m: map<string, string>, tenant: string, owner: string, bucket: string) returns (r: Option<seq<Statement>>)
    ensures r.None? <==> exists s :: s in m && ActionsOf(m[s]).None?
    ensures r.Some? ==> Compiled(r.value, m, tenant, owner, bucket)
  {
    var byAccess := GroupByAccess(m, tenant, owner);
    var levels := Api.Walk(byAccess.Keys);
    var statements: seq<Statement> := [];
    for i := 0 to |levels|
      invariant |statements| == i
      invariant forall x | 0 <= x < i :: IsStatementFor(statements[x], m, levels[x], tenant, owner, bucket)
    {
      assert levels[i] in levels;
      var actions := ActionsOf(levels[i]);
      if actions.None? {
        assert levels[i] in m.Values;
        return None;
      }
      statements := statements + [Statement(byAccess[levels[i]], actions.value, Resources(tenant, bucket))];
    }
    forall s | s in m ensures ActionsOf(m[s]).Some? {
      assert m[s] in m.Values && m[s] in levels;
      var x :| 0 <= x < |levels| && levels[x] == m[s];
      assert IsStatementFor(statements[x], m, levels[x], tenant, owner, bucket);
    }
    assert CompiledInOrder(statements, levels, m, tenant, owner, bucket);
    r := Some(statements);
  }

  /** The subusers seen so far, grouped by access level. */
  ghost predicate GroupedMap(byAccess: map<string, seq<string>>, m: map<string, string>, seen: set<string>,
                             tenant: string, owner: string) {
    && (forall access | access in byAccess :: Grouped(byAccess[access], m, seen, access, tenant, owner))
    && (forall access | access in byAccess :: access in m.Values)
    && (forall s | s in seen && s in m :: m[s] in byAccess)
  }

  method GroupByAccess(m: map<string, string>, tenant: string, owner: string) returns (byAccess: map<string, seq<string>>)
    ensures byAccess.Keys == m.Values
    ensures forall access | access in byAccess :: Grouped(byAccess[access], m, m.Keys, access, tenant, owner)
  {
    byAccess := map[];
    var rest := m.Keys;
    while rest != {}
      invariant rest <= m.Keys && GroupedMap(byAccess, m, m.Keys - rest, tenant, owner)
      decreases |rest|
    {
      var s :| s in rest;
      var before := if m[s] in byAccess then byAccess[m[s]] else [];
      MapGrows(byAccess, before, m, m.Keys - rest, tenant, owner, s);
      assert m.Keys - rest + {s} == m.Keys - (rest - {s});
      byAccess, rest := byAccess[m[s] := before + [Principal(tenant, owner, s)]], rest - {s};
    }
    assert m.Keys - rest == m.Keys;
    AllGrouped(byAccess, m, tenant, owner);
  }

  lemma AllGrouped(byAccess: map<string, seq<string>>, m: map<string, string>, tenant: string, owner: string)
    requires GroupedMap(byAccess, m, m.Keys, tenant, owner)
    ensures byAccess.Keys == m.Values
  {
    forall access | access in m.Values ensures access in byAccess {
      var s :| s in m && m[s] == access;
    }
  }

  lemma MapGrows(byAccess: map<string, seq<string>>, before: seq<string>, m: map<string, string>, seen: set<string>,
                 tenant: string, owner: string, s: string)
    requires GroupedMap(byAccess, m, seen, tenant, owner) && s in m && s !in seen
    requires before == if m[s] in byAccess then byAccess[m[s]] else []
    ensures GroupedMap(byAccess[m[s] := before + [Principal(tenant, owner, s)]], m, seen + {s}, tenant, owner)
  {
    GroupGrows(before, m, seen, m[s], tenant, owner, s);
    assert m[s] in m.Values;
    forall other | other in byAccess && other != m[s]
      ensures Grouped(byAccess[other], m, seen + {s}, other, tenant, owner)
    {
      assert Grouped(byAccess[other], m, seen, other, tenant, owner);
    }
  }

  lemma GroupGrows(principals: seq<string>, m: map<string, string>, seen: set<string>,
                   access: string, tenant: string, owner: string, s: string)
    requires Grouped(principals, m, seen, access, tenant, owner) && s in m && m[s] == access && s !in seen
    ensures Grouped(principals + [Principal(tenant, owner, s)], m, seen + {s}, access, tenant, owner)
  {
    if Principal(tenant, owner, s) in principals {
      var x :| x in seen && Principal(tenant, owner, s) == Principal(tenant, owner, x);
      SamePrincipal(tenant, owner, s, x);
    }
  }
}
