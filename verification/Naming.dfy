/** The names the operator builds by concatenation and sanitisation, and what
    they can and cannot collide with.  A claim is identified by the namespaced
    name in the reconcile request; everything it owns outside its namespace is
    found again only through these strings. */
module Naming {

  datatype Option<+T> = None | Some(value: T)

  /** A Kubernetes namespaced name. */
  datatype Key = Key(ns: string, name: string)

  /** The characters of an RFC 1123 label, which every namespace name is. */
  predicate IsLabel(s: string) {
    forall i | 0 <= i < |s| :: LabelChar(s[i])
  }

  predicate LabelChar(c: char) {
    'a' <= c <= 'z' || '0' <= c <= '9' || c == '-'
  }

  /** The characters of an RFC 1123 subdomain, which every object name is
      (and what the pattern on a subuser admits). */
  predicate IsSubdomain(s: string) {
    forall i | 0 <= i < |s| :: LabelChar(s[i]) || s[i] == '.'
  }

  predicate ValidKey(k: Key) {
    IsLabel(k.ns) && IsSubdomain(k.name)
  }

  // ---- the generated names -------------------------------------------------

  function Fold(c: char): char {
    if c == '.' || c == '-' then '_' else c
  }

  /** Only alphanumerics and underscore are allowed in a tenant name. */
  function Sanitise(s: string): string {
    seq(|s|, i requires 0 <= i < |s| => Fold(s[i]))
  }

  function CephTenant(cluster: string, ns: string): string {
    Sanitise(cluster) + "__" + Sanitise(ns)
  }

  function CephUserFullId(cluster: string, k: Key): string {
    CephTenant(cluster, k.ns) + "$" + k.name
  }

  function SubuserFullId(userFullId: string, subuser: string): string {
    userFullId + ":" + subuser
  }

  const READONLY := "readonly"

  function DisplayName(cluster: string, k: Key): string {
    k.name + " in " + k.ns + "." + cluster
  }

  function S3UserName(k: Key): string {
    k.ns + "." + k.name
  }

  function SubuserSecretName(claim: string, subuser: string): string {
    claim + "-" + subuser
  }

  /** strings.Split(s, sep) for a one-character separator. */
  function Split(s: string, sep: char): (parts: seq<string>)
    ensures |parts| >= 1
  {
    if s == "" then [""]
    else
      var rest := Split(s[1..], sep);
      if s[0] == sep then [""] + rest else [[s[0]] + rest[0]] + rest[1..]
  }

  function ExtractSubuserName(subuserFullId: string): Option<string> {
    var parts := Split(subuserFullId, ':');
    if |parts| == 2 then Some(parts[1]) else None
  }

  /** The AWS IAM name of a subuser as it appears in a bucket policy. */
  function Principal(tenant: string, owner: string, subuser: string): string {
    "arn:aws:iam::" + tenant + ":user/" + owner + ":" + subuser
  }

  // ---- cutting a string at the first occurrence of a separator -------------

  lemma CutPoint(a: string, b: string, a': string, b': string, c: char)
    requires c !in a && c !in a'
    requires a + [c] + b == a' + [c] + b'
    ensures a == a' && b == b'
  {
    var s := a + [c] + b;
    assert s[|a|] == c && s[|a'|] == c;
    assert a == s[..|a|] && a' == s[..|a'|];
    assert b == s[|a| + 1..] && b' == s[|a'| + 1..];
  }

  lemma CommonPrefix(p: string, a: string, b: string)
    requires p + a == p + b
    ensures a == b
  {
    assert a == (p + a)[|p|..] && b == (p + b)[|p|..];
  }

  // ---- injectivity ---------------------------------------------------------

  lemma SanitiseInjectiveOnLabels(a: string, b: string)
    requires IsLabel(a) && IsLabel(b) && Sanitise(a) == Sanitise(b)
    ensures a == b
  {
    assert |a| == |Sanitise(a)| == |Sanitise(b)| == |b|;
    forall i | 0 <= i < |a| ensures a[i] == b[i] {
      assert Sanitise(a)[i] == Sanitise(b)[i] && LabelChar(a[i]) && LabelChar(b[i]);
    }
  }

  // ---- tenants of different clusters ---------------------------------------

  /** What a tenant starts with, before the namespace. */
  function TenantPrefix(cluster: string): string {
    Sanitise(cluster) + "__"
  }

  /** One prefix extends the other by y, and the namespaces make up for it. */
  ghost predicate Overlaps(cluster: string, ns: string, cluster': string, ns': string) {
    exists y: string :: TenantPrefix(cluster) == TenantPrefix(cluster') + y && Sanitise(ns') == y + Sanitise(ns)
  }

  /** Exactly when two (cluster, namespace) pairs get the same tenant. */
  lemma TenantCollision(cluster: string, ns: string, cluster': string, ns': string)
    ensures CephTenant(cluster, ns) == CephTenant(cluster', ns')
       <==> Overlaps(cluster, ns, cluster', ns') || Overlaps(cluster', ns', cluster, ns)
  {
    if CephTenant(cluster, ns) == CephTenant(cluster', ns') {
      if |TenantPrefix(cluster)| >= |TenantPrefix(cluster')| {
        SameTenantOverlaps(cluster, ns, cluster', ns');
      } else {
        SameTenantOverlaps(cluster', ns', cluster, ns);
      }
    } else if Overlaps(cluster, ns, cluster', ns') {
      OverlapCollides(cluster, ns, cluster', ns');
    } else if Overlaps(cluster', ns', cluster, ns) {
      OverlapCollides(cluster', ns', cluster, ns);
    }
  }

  lemma SameTenantOverlaps(cluster: string, ns: string, cluster': string, ns': string)
    requires CephTenant(cluster, ns) == CephTenant(cluster', ns') && |TenantPrefix(cluster)| >= |TenantPrefix(cluster')|
    ensures Overlaps(cluster, ns, cluster', ns')
  {
    var p, p', t := TenantPrefix(cluster), TenantPrefix(cluster'), CephTenant(cluster, ns);
    var y := p[|p'|..];
    assert p == t[..|p|] && p' == t[..|p'|];
    assert p == p' + y;
    assert t == p' + (y + Sanitise(ns)) == p' + Sanitise(ns');
    CommonPrefix(p', y + Sanitise(ns), Sanitise(ns'));
  }

  lemma OverlapCollides(cluster: string, ns: string, cluster': string, ns': string)
    requires Overlaps(cluster, ns, cluster', ns')
    ensures CephTenant(cluster, ns) == CephTenant(cluster', ns')
  {
    var y: string :| TenantPrefix(cluster) == TenantPrefix(cluster') + y && Sanitise(ns') == y + Sanitise(ns);
    assert CephTenant(cluster, ns) == TenantPrefix(cluster') + y + Sanitise(ns) == TenantPrefix(cluster') + (y + Sanitise(ns));
  }

  /** A namespace name: an RFC 1123 label begins and ends with an alphanumeric. */
  predicate IsNamespace(s: string) {
    IsLabel(s) && s != "" && s[0] != '-' && s[|s| - 1] != '-'
  }

  predicate FoldedLabelChar(c: char) {
    'a' <= c <= 'z' || '0' <= c <= '9' || c == '_'
  }

  /** The longer prefix is the shorter one, or the rest can begin a folded namespace. */
  predicate Reaches(cluster: string, cluster': string) {
    TenantPrefix(cluster') <= TenantPrefix(cluster)
    && var y := TenantPrefix(cluster)[|TenantPrefix(cluster')|..];
       y == "" || (y[0] != '_' && forall i | 0 <= i < |y| :: FoldedLabelChar(y[i]))
  }

  function Unfold(y: string): string {
    seq(|y|, i requires 0 <= i < |y| => if y[i] == '_' then '-' else y[i])
  }

  /** Two clusters never share a tenant, whatever their namespaces are called, exactly
      if neither name reaches the other; different sanitised names are not enough. */
  lemma ClustersNeverCollide(cluster: string, cluster': string)
    ensures (forall ns, ns' | IsNamespace(ns) && IsNamespace(ns') :: CephTenant(cluster, ns) != CephTenant(cluster', ns'))
       <==> !Reaches(cluster, cluster') && !Reaches(cluster', cluster)
  {
    if ns, ns' :| IsNamespace(ns) && IsNamespace(ns') && CephTenant(cluster, ns) == CephTenant(cluster', ns') {
      TenantCollision(cluster, ns, cluster', ns');
      if Overlaps(cluster, ns, cluster', ns') {
        OverlapReaches(cluster, ns, cluster', ns');
      } else {
        OverlapReaches(cluster', ns', cluster, ns);
      }
    }
    if Reaches(cluster, cluster') {
      ReachingCollides(cluster, cluster');
    } else if Reaches(cluster', cluster) {
      ReachingCollides(cluster', cluster);
    }
  }

  lemma OverlapReaches(cluster: string, ns: string, cluster': string, ns': string)
    requires Overlaps(cluster, ns, cluster', ns') && IsNamespace(ns')
    ensures Reaches(cluster, cluster')
  {
    var y: string :| TenantPrefix(cluster) == TenantPrefix(cluster') + y && Sanitise(ns') == y + Sanitise(ns);
    assert y == TenantPrefix(cluster)[|TenantPrefix(cluster')|..];
    forall i | 0 <= i < |y| ensures FoldedLabelChar(y[i]) && (i == 0 ==> y[i] != '_') {
      assert y[i] == Sanitise(ns')[i] == Fold(ns'[i]) && LabelChar(ns'[i]);
    }
  }

  lemma ReachingCollides(cluster: string, cluster': string)
    requires Reaches(cluster, cluster')
    ensures exists ns, ns' ::
              IsNamespace(ns) && IsNamespace(ns') && CephTenant(cluster, ns) == CephTenant(cluster', ns')
  {
    var y := TenantPrefix(cluster)[|TenantPrefix(cluster')|..];
    var ns' := Unfold(y) + "a";
    forall i | 0 <= i < |ns'| ensures LabelChar(ns'[i]) {
      assert i < |y| ==> FoldedLabelChar(y[i]);
    }
    assert IsNamespace("a") && IsNamespace(ns');
    assert Sanitise(ns') == y + Sanitise("a");
    assert Overlaps(cluster, "a", cluster', ns');
    OverlapCollides(cluster, "a", cluster', ns');
  }

  /** Two ways to meet: by folding, and by a separator that occurs in a name. */
  lemma TenantsOfDifferentClustersCanCollide(ns: string)
    ensures "a.b" != "a-b" && CephTenant("a.b", ns) == CephTenant("a-b", ns)
    ensures Sanitise("x") != Sanitise("x--a") && CephTenant("x", "a--b") == CephTenant("x--a", "b")
  {
    assert Sanitise("a.b") == "a_b" == Sanitise("a-b");
    assert Sanitise("x") == "x" && Sanitise("a--b") == "a__b" && Sanitise("x--a") == "x__a" && Sanitise("b") == "b";
    assert CephTenant("x", "a--b") == "x__a__b" == CephTenant("x--a", "b");
  }

  lemma TenantInjective(cluster: string, ns: string, ns': string)
    requires IsLabel(ns) && IsLabel(ns') && CephTenant(cluster, ns) == CephTenant(cluster, ns')
    ensures ns == ns'
  {
    CommonPrefix(Sanitise(cluster) + "__", Sanitise(ns), Sanitise(ns'));
    SanitiseInjectiveOnLabels(ns, ns');
  }

  /** Claims of one cluster never share a Ceph user. */
  lemma FullIdInjective(cluster: string, k: Key, k': Key)
    requires ValidKey(k) && ValidKey(k')
    requires CephUserFullId(cluster, k) == CephUserFullId(cluster, k')
    ensures k == k'
  {
    var p := Sanitise(cluster) + "__";
    assert CephUserFullId(cluster, k) == p + (Sanitise(k.ns) + ['$'] + k.name);
    assert CephUserFullId(cluster, k') == p + (Sanitise(k'.ns) + ['$'] + k'.name);
    CommonPrefix(p, Sanitise(k.ns) + ['$'] + k.name, Sanitise(k'.ns) + ['$'] + k'.name);
    CutPoint(Sanitise(k.ns), k.name, Sanitise(k'.ns), k'.name, '$');
    SanitiseInjectiveOnLabels(k.ns, k'.ns);
  }

  lemma S3UserNameInjective(k: Key, k': Key)
    requires IsLabel(k.ns) && IsLabel(k'.ns) && S3UserName(k) == S3UserName(k')
    ensures k == k'
  {
    CutPoint(k.ns, k.name, k'.ns, k'.name, '.');
  }

  /** The Ceph subuser name determines the claim and the subuser. */
  lemma SubuserFullIdInjective(cluster: string, k: Key, s: string, k': Key, s': string)
    requires ValidKey(k) && ValidKey(k')
    requires SubuserFullId(CephUserFullId(cluster, k), s) == SubuserFullId(CephUserFullId(cluster, k'), s')
    ensures k == k' && s == s'
  {
    var p := Sanitise(cluster) + "__";
    var x, x' := Sanitise(k.ns) + ['$'] + k.name, Sanitise(k'.ns) + ['$'] + k'.name;
    assert SubuserFullId(CephUserFullId(cluster, k), s) == p + (x + [':'] + s);
    assert SubuserFullId(CephUserFullId(cluster, k'), s') == p + (x' + [':'] + s');
    CommonPrefix(p, x + [':'] + s, x' + [':'] + s');
    CutPoint(x, s, x', s', ':');
    assert CephUserFullId(cluster, k) == p + x && CephUserFullId(cluster, k') == p + x';
    FullIdInjective(cluster, k, k');
  }

  lemma SubuserFullIdInjectiveInUser(id: string, s: string, s': string)
    requires SubuserFullId(id, s) == SubuserFullId(id, s')
    ensures s == s'
  {
    CommonPrefix(id + ":", s, s');
  }

  /** What a policy principal names: with no ':' in tenant and owner the
      principal can be decoded in exactly one way. */
  lemma PrincipalInjective(t: string, o: string, s: string, t': string, o': string, s': string)
    requires ':' !in t && ':' !in o && ':' !in t' && ':' !in o'
    requires Principal(t, o, s) == Principal(t', o', s')
    ensures t == t' && o == o' && s == s'
  {
    var p, u := "arn:aws:iam::", "user/";
    assert Principal(t, o, s) == p + (t + [':'] + (u + (o + [':'] + s)));
    assert Principal(t', o', s') == p + (t' + [':'] + (u + (o' + [':'] + s')));
    CommonPrefix(p, t + [':'] + (u + (o + [':'] + s)), t' + [':'] + (u + (o' + [':'] + s')));
    CutPoint(t, u + (o + [':'] + s), t', u + (o' + [':'] + s'), ':');
    CommonPrefix(u, o + [':'] + s, o' + [':'] + s');
    CutPoint(o, s, o', s', ':');
  }

  lemma SamePrincipal(t: string, o: string, s: string, s': string)
    requires Principal(t, o, s) == Principal(t, o, s')
    ensures s == s'
  {
    var p := "arn:aws:iam::" + t + ":user/" + o + ":";
    assert Principal(t, o, s) == p + s && Principal(t, o, s') == p + s';
    CommonPrefix(p, s, s');
  }

  /** Both controllers compute the tenant with the same function, so a principal
      written by the bucket controller for (bucket namespace, userRef, subuser)
      decodes to exactly one Ceph subuser: the one that the claim controller
      creates for that claim under that subuser name, and no other. */
  lemma PrincipalIdentifiesCephSubuser(cluster: string, k: Key, s: string, k': Key, s': string)
    requires ':' !in cluster && ValidKey(k) && ValidKey(k')
    ensures Principal(CephTenant(cluster, k.ns), k.name, s) == Principal(CephTenant(cluster, k'.ns), k'.name, s')
       <==> SubuserFullId(CephUserFullId(cluster, k), s) == SubuserFullId(CephUserFullId(cluster, k'), s')
  {
    if Principal(CephTenant(cluster, k.ns), k.name, s) == Principal(CephTenant(cluster, k'.ns), k'.name, s') {
      NoColonInTenant(cluster, k.ns);
      NoColonInTenant(cluster, k'.ns);
      PrincipalInjective(CephTenant(cluster, k.ns), k.name, s, CephTenant(cluster, k'.ns), k'.name, s');
    }
    if SubuserFullId(CephUserFullId(cluster, k), s) == SubuserFullId(CephUserFullId(cluster, k'), s') {
      SubuserFullIdInjective(cluster, k, s, k', s');
    }
  }

  /** Reading a policy principal back, piece by piece: tenant, owner and subuser name the
      Ceph subuser "<tenant>$<owner>:<subuser>". */
  function DecodePrincipal(principal: string): Option<string> {
    var parts := Split(principal, ':');
    if |parts| == 7 && parts[..4] == ["arn", "aws", "iam", ""] && "user/" <= parts[5]
    then Some(parts[4] + "$" + parts[5][5..] + ":" + parts[6]) else None
  }

  lemma Peel(a: string, rest: string)
    requires ':' !in a
    ensures Split(a + ([':'] + rest), ':') == [a] + Split(rest, ':')
  {
    assert a + ([':'] + rest) == a + [':'] + rest;
    SplitAtSeparator(a, rest, ':');
    SplitWithoutSeparator(a, ':');
  }

  lemma PrincipalParts(tenant: string, owner: string, subuser: string)
    requires ':' !in tenant && ':' !in owner
    ensures Split(Principal(tenant, owner, subuser), ':')
         == ["arn", "aws", "iam", "", tenant, "user/" + owner] + Split(subuser, ':')
  {
    var r5 := ("user/" + owner) + ([':'] + subuser);
    var r4 := tenant + ([':'] + r5);
    Peel("user/" + owner, subuser);
    Peel(tenant, r5);
    HeadParts(r4);
    assert Principal(tenant, owner, subuser) == "arn:aws:iam::" + r4;
  }

  lemma HeadParts(rest: string)
    ensures Split("arn:aws:iam::" + rest, ':') == ["arn", "aws", "iam", ""] + Split(rest, ':')
  {
    var r2 := "iam::" + rest;
    var r1 := "aws" + ([':'] + r2);
    InnerParts(rest);
    Peel("aws", r2);
    Peel("arn", r1);
    assert "arn:aws:iam::" + rest == "arn" + ([':'] + r1);
  }

  lemma InnerParts(rest: string)
    ensures Split("iam::" + rest, ':') == ["iam", ""] + Split(rest, ':')
  {
    var r3 := "" + ([':'] + rest);
    Peel("", rest);
    Peel("iam", r3);
    assert "iam::" + rest == "iam" + ([':'] + r3);
  }

  /** A principal decodes to the Ceph subuser s of the claim exactly if it was written
      for s; so a binding gives access to nobody but the subuser that the claim
      controller creates under that name. */
  lemma PrincipalDecodes(cluster: string, k: Key, x: string, s: string)
    requires ':' !in cluster && ValidKey(k) && ':' !in s
    ensures x == s
       <==> DecodePrincipal(Principal(CephTenant(cluster, k.ns), k.name, x)) == Some(SubuserFullId(CephUserFullId(cluster, k), s))
  {
    var tenant := CephTenant(cluster, k.ns);
    NoColonInTenant(cluster, k.ns);
    PrincipalParts(tenant, k.name, x);
    SplitWithoutSeparator(x, ':');
    if ':' !in x {
      var parts := Split(Principal(tenant, k.name, x), ':');
      assert parts[..4] == ["arn", "aws", "iam", ""] && parts[5][5..] == k.name && parts[6] == x;
      assert DecodePrincipal(Principal(tenant, k.name, x)) == Some(SubuserFullId(CephUserFullId(cluster, k), x));
      if SubuserFullId(CephUserFullId(cluster, k), x) == SubuserFullId(CephUserFullId(cluster, k), s) {
        SubuserFullIdInjectiveInUser(CephUserFullId(cluster, k), x, s);
      }
    }
  }

  /** All names of one claim, spelled out. */
  lemma NamesOfAClaim()
    ensures var k := Key("team-a", "my.claim");
            && CephTenant("okd.c-1", k.ns) == "okd_c_1__team_a"
            && CephUserFullId("okd.c-1", k) == "okd_c_1__team_a$my.claim"
            && SubuserFullId(CephUserFullId("okd.c-1", k), READONLY) == "okd_c_1__team_a$my.claim:readonly"
            && DisplayName("okd.c-1", k) == "my.claim in team-a.okd.c-1"
            && S3UserName(k) == "team-a.my.claim" && SubuserSecretName(k.name, "bob") == "my.claim-bob"
  {
    assert Sanitise("okd.c-1") == "okd_c_1" && Sanitise("team-a") == "team_a";
  }

  lemma NoColonInTenant(cluster: string, ns: string)
    requires ':' !in cluster && IsLabel(ns)
    ensures ':' !in CephTenant(cluster, ns)
  {
    assert forall i | 0 <= i < |cluster| :: Sanitise(cluster)[i] != ':';
    assert forall i | 0 <= i < |ns| :: LabelChar(ns[i]) && Sanitise(ns)[i] != ':';
  }

  lemma NoColonInFullId(cluster: string, k: Key)
    requires ':' !in cluster && ValidKey(k)
    ensures ':' !in CephUserFullId(cluster, k)
  {
    NoColonInTenant(cluster, k.ns);
  }

  // ---- extractSubuserName --------------------------------------------------

  lemma {:induction false} SplitAtSeparator(a: string, b: string, sep: char)
    ensures Split(a + [sep] + b, sep) == Split(a, sep) + Split(b, sep)
  {
    if a == "" {
      assert a + [sep] + b == [sep] + b;
    } else {
      assert (a + [sep] + b)[1..] == a[1..] + [sep] + b;
      SplitAtSeparator(a[1..], b, sep);
    }
  }

  lemma {:induction false} SplitWithoutSeparator(s: string, sep: char)
    ensures |Split(s, sep)| == 1 <==> sep !in s
    ensures sep !in s ==> Split(s, sep) == [s]
  {
    if s != "" {
      SplitWithoutSeparator(s[1..], sep);
      assert s == [s[0]] + s[1..];
    }
  }

  /** Extraction undoes generation exactly when neither part contains ':';
      otherwise it always fails and never returns a wrong name. */
  lemma ExtractInvertsGenerate(id: string, subuser: string)
    ensures ExtractSubuserName(SubuserFullId(id, subuser)) == Some(subuser) <==> ':' !in id && ':' !in subuser
    ensures ':' in id || ':' in subuser ==> ExtractSubuserName(SubuserFullId(id, subuser)) == None
  {
    SplitAtSeparator(id, subuser, ':');
    SplitWithoutSeparator(id, ':');
    SplitWithoutSeparator(subuser, ':');
  }

  // ---- the secret name of a subuser ----------------------------------------

  /** One claim name is the other plus "-x", and the subusers differ by "x-". */
  ghost predicate Shifted(c: string, s: string, c': string, s': string) {
    exists x: string :: c == c' + "-" + x && s' == x + "-" + s
  }

  /** Exactly when two (claim, subuser) pairs get the same secret name. */
  lemma SecretNameCollision(c: string, s: string, c': string, s': string)
    ensures SubuserSecretName(c, s) == SubuserSecretName(c', s')
       <==> (c == c' && s == s') || Shifted(c, s, c', s') || Shifted(c', s', c, s)
  {
    if SubuserSecretName(c, s) == SubuserSecretName(c', s') {
      if |c| == |c'| {
        assert c == SubuserSecretName(c, s)[..|c|] && c' == SubuserSecretName(c', s')[..|c|];
        CommonPrefix(c + "-", s, s');
      } else if |c| > |c'| {
        CollisionShift(c, s, c', s');
      } else {
        CollisionShift(c', s', c, s);
      }
    } else if Shifted(c, s, c', s') {
      ShiftCollides(c, s, c', s');
    } else if Shifted(c', s', c, s) {
      ShiftCollides(c', s', c, s);
    }
  }

  lemma CollisionShift(c: string, s: string, c': string, s': string)
    requires SubuserSecretName(c, s) == SubuserSecretName(c', s') && |c| > |c'|
    ensures Shifted(c, s, c', s')
  {
    var n := SubuserSecretName(c, s);
    var x := c[|c'| + 1..];
    assert c == n[..|c|] && c' == n[..|c'|] && n[|c'|] == '-';
    assert c == c' + "-" + x;
    assert n == (c' + "-") + (x + "-" + s) == (c' + "-") + s';
    CommonPrefix(c' + "-", x + "-" + s, s');
  }

  lemma ShiftCollides(c: string, s: string, c': string, s': string)
    requires Shifted(c, s, c', s')
    ensures SubuserSecretName(c, s) == SubuserSecretName(c', s')
  {
    var x :| c == c' + "-" + x && s' == x + "-" + s;
    assert SubuserSecretName(c, s) == c' + "-" + x + "-" + s == SubuserSecretName(c', s');
  }

  /** Within one claim the subuser secret names never collide, and the subuser
      secrets of two claims can only meet when one claim name extends the other
      by "-"; when it does, some pair of subusers really meets. */
  lemma SecretFootprints(c: string, c': string)
    requires c != c'
    ensures (exists s, s' :: SubuserSecretName(c, s) == SubuserSecretName(c', s'))
       <==> (c + "-" <= c' || c' + "-" <= c)
  {
    if s, s' :| SubuserSecretName(c, s) == SubuserSecretName(c', s') {
      SecretNameCollision(c, s, c', s');
      if Shifted(c, s, c', s') {
        var x :| c == c' + "-" + x && s' == x + "-" + s;
        assert c' + "-" <= c;
      } else {
        var x :| c' == c + "-" + x && s == x + "-" + s';
        assert c + "-" <= c';
      }
    }
    if c + "-" <= c' {
      var x := c'[|c| + 1..];
      assert c' == c + "-" + x;
      assert Shifted(c', "s", c, x + "-" + "s");
      SecretNameCollision(c', "s", c, x + "-" + "s");
      assert SubuserSecretName(c, x + "-" + "s") == SubuserSecretName(c', "s");
    } else if c' + "-" <= c {
      var x := c[|c'| + 1..];
      assert c == c' + "-" + x;
      assert Shifted(c, "s", c', x + "-" + "s");
      SecretNameCollision(c, "s", c', x + "-" + "s");
    }
  }

  lemma SecretNameInjectiveInClaim(c: string, s: string, s': string)
    requires SubuserSecretName(c, s) == SubuserSecretName(c, s')
    ensures s == s'
  {
    CommonPrefix(c + "-", s, s');
  }
}
