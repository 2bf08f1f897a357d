/** Recognition of a canned ACL in the grant list that OBS reports for a bucket. */
module Acl {
  import opened Common

  datatype Permission = Read | Write | ReadAcp | WriteAcp | FullControl
  datatype GranteeType = User | Group
  datatype Grant = Grant(granteeType: GranteeType, id: string, uri: string, permission: Permission, delivered: bool)
  datatype Policy = Policy(owner: string, grants: seq<Grant>)
  datatype Canned = Private | PublicRead | PublicReadWrite | LogDeliveryWrite

  /** The key under which a grant is compared; its uri is normalized. */
  datatype Signature = Signature(granteeType: GranteeType, id: string, uri: string, permission: Permission,
    delivered: bool)

  const ALL_USERS := "AllUsers"
  const LOG_DELIVERY := "LogDelivery"

  /** The last element of `strings.Split(uri, "/")`. */
  function LastSegment(uri: string): string {
    if uri == "" || uri[|uri| - 1] == '/' then ""
    else LastSegment(uri[..|uri| - 1]) + [uri[|uri| - 1]]
  }

  function NormalizeURI(t: GranteeType, uri: string): string {
    if t == User then "" else LastSegment(uri)
  }

  function Sign(g: Grant): Signature {
    Signature(g.granteeType, g.id, NormalizeURI(g.granteeType, g.uri), g.permission, g.delivered)
  }

  function Signatures(grants: seq<Grant>): seq<Signature> {
    seq(|grants|, i requires 0 <= i < |grants| => Sign(grants[i]))
  }

  predicate Distinct(s: seq<Signature>) {
    forall i, j | 0 <= i < j < |s| :: s[i] != s[j]
  }

  // ----- Set-based matching -----

  lemma {:induction false} Pigeonhole(actual: seq<Signature>, expected: seq<Signature>)
    requires |actual| == |expected| && Distinct(expected)
    requires forall x | x in expected :: x in actual
    ensures multiset(actual) == multiset(expected)
    decreases |expected|
  {
    if expected != [] {
      var x := expected[0];
      assert x in actual;
      var i :| 0 <= i < |actual| && actual[i] == x;
      var actual', expected' := actual[..i] + actual[i + 1..], expected[1..];
      forall y | y in expected' ensures y in actual' {
        assert y in expected && y in actual;
        var k :| 0 <= k < |actual| && actual[k] == y;
        assert k != i;
        assert k < i ==> actual'[k] == y;
        assert k > i ==> actual'[k - 1] == y;
      }
      Pigeonhole(actual', expected');
      assert actual == actual[..i] + [x] + actual[i + 1..];
      assert expected == [x] + expected';
    }
  }

  /** obsBucketACLMatches: a length test and a set test decide equality of multisets. */
  method Matches(actual: seq<Grant>, expected: seq<Signature>) returns (ok: bool)
    ensures Distinct(expected) ==> (ok <==> multiset(Signatures(actual)) == multiset(expected))
    ensures ok ==> |actual| == |expected| && forall x | x in expected :: x in Signatures(actual)
  {
    ghost var sigs := Signatures(actual);
    if |actual| != |expected| {
      assert |multiset(sigs)| == |actual| && |multiset(expected)| == |expected|;
      return false;
    }
    var actualSet: set<Signature> := {};
    for i := 0 to |actual|
      invariant actualSet == set x | x in sigs[..i]
    {
      actualSet := actualSet + {Sign(actual[i])};
      assert sigs[..i + 1] == sigs[..i] + [sigs[i]];
    }
    assert sigs[..|actual|] == sigs;
    for i := 0 to |expected|
      invariant forall x | x in expected[..i] :: x in sigs
    {
      if expected[i] !in actualSet {
        assert expected[i] in multiset(expected) && expected[i] !in multiset(sigs);
        return false;
      }
    }
    assert expected[..|expected|] == expected;
    if Distinct(expected) {
      Pigeonhole(sigs, expected);
    }
    return true;
  }

  // ----- Canned ACLs -----

  function Expected(owner: string, acl: Canned): seq<Signature> {
    var own := Signature(User, owner, "", FullControl, false);
    match acl
    case Private => [own]
    case PublicRead => [own, Signature(Group, "", ALL_USERS, Read, false)]
    case PublicReadWrite =>
      [own, Signature(Group, "", ALL_USERS, Read, false), Signature(Group, "", ALL_USERS, Write, false)]
    case LogDeliveryWrite =>
      [own, Signature(Group, "", LOG_DELIVERY, Write, false), Signature(Group, "", LOG_DELIVERY, ReadAcp, false)]
  }

  /** The policy grants exactly what the canned ACL grants, in any order. */
  predicate Recognised(p: Policy, acl: Canned) {
    p.owner != "" && multiset(Signatures(p.grants)) == multiset(Expected(p.owner, acl))
  }

  lemma ExpectedIsDistinct(owner: string, acl: Canned)
    ensures Distinct(Expected(owner, acl))
  {
  }

  /** No grant list matches two canned ACLs, so the order of the tests does not matter. */
  lemma AtMostOneCanned(p: Policy, a: Canned, b: Canned)
    requires Recognised(p, a) && Recognised(p, b)
    ensures a == b
  {
    var ea, eb := Expected(p.owner, a), Expected(p.owner, b);
    assert |multiset(ea)| == |ea| && |multiset(eb)| == |eb|;
    var write := Signature(Group, "", ALL_USERS, Write, false);
    if a == PublicReadWrite {
      assert write == ea[2];
      assert write in multiset(ea);
      assert write in eb;
    }
  }

  /** flattenObsBucketCannedACL. */
  method FlattenCanned(p: Policy) returns (r: Option<Canned>)
    ensures forall acl :: r == Some(acl) <==> Recognised(p, acl)
  {
    if p.owner == "" {
      return None;
    }
    forall a, b | Recognised(p, a) && Recognised(p, b) ensures a == b {
      AtMostOneCanned(p, a, b);
    }
    var isPrivate := Test(p, Private);
    if isPrivate { return Some(Private); }
    var isPublicRead := Test(p, PublicRead);
    if isPublicRead { return Some(PublicRead); }
    var isPublicReadWrite := Test(p, PublicReadWrite);
    if isPublicReadWrite { return Some(PublicReadWrite); }
    var isLogDelivery := Test(p, LogDeliveryWrite);
    if isLogDelivery { return Some(LogDeliveryWrite); }
    forall acl ensures !Recognised(p, acl) {
      match acl case Private => case PublicRead => case PublicReadWrite => case LogDeliveryWrite =>
    }
    return None;
  }

  method Test(p: Policy, acl: Canned) returns (ok: bool)
    requires p.owner != ""
    ensures ok <==> Recognised(p, acl)
  {
    ExpectedIsDistinct(p.owner, acl);
    ok := Matches(p.grants, Expected(p.owner, acl));
  }

  // ----- What OBS stores for a canned ACL is recognised -----

  /** The grants of a canned ACL; groups are named by a URI that ends in the group name. */
  function CannedGrants(owner: string, acl: Canned, prefix: string): seq<Grant> {
    var own := Grant(User, owner, "", FullControl, false);
    var all := prefix + "/" + ALL_USERS;
    var log := prefix + "/" + LOG_DELIVERY;
    match acl
    case Private => [own]
    case PublicRead => [own, Grant(Group, "", all, Read, false)]
    case PublicReadWrite => [own, Grant(Group, "", all, Read, false), Grant(Group, "", all, Write, false)]
    case LogDeliveryWrite => [own, Grant(Group, "", log, Write, false), Grant(Group, "", log, ReadAcp, false)]
  }

  lemma {:induction false} LastSegmentOfPath(prefix: string, name: string)
    requires '/' !in name
    ensures LastSegment(prefix + "/" + name) == name
  {
    var uri := prefix + "/" + name;
    if name != "" {
      var front := name[..|name| - 1];
      LastSegmentOfPath(prefix, front);
      assert uri[..|uri| - 1] == prefix + "/" + front;
      assert name == front + [name[|name| - 1]];
    }
  }

  lemma WithoutElement<T>(s: seq<T>, i: nat)
    requires i < |s|
    ensures multiset(s) == multiset(s[..i] + s[i + 1..]) + multiset{s[i]}
  {
    assert s == s[..i] + [s[i]] + s[i + 1..];
  }

  lemma Cancel<T>(m: multiset<T>, n: multiset<T>, x: T)
    requires m + multiset{x} == n + multiset{x}
    ensures m == n
  {
    assert m == (m + multiset{x}) - multiset{x};
    assert n == (n + multiset{x}) - multiset{x};
  }

  lemma SignaturesWithoutElement(b: seq<Grant>, i: nat)
    requires i < |b|
    ensures multiset(Signatures(b)) == multiset(Signatures(b[..i] + b[i + 1..])) + multiset{Sign(b[i])}
  {
    WithoutElement(Signatures(b), i);
    assert Signatures(b)[..i] + Signatures(b)[i + 1..] == Signatures(b[..i] + b[i + 1..]);
  }

  /** The first element of a permutation stands somewhere in the other list; the remainders are permutations too. */
  lemma FirstOf<T>(a: seq<T>, b: seq<T>) returns (i: nat)
    requires a != [] && multiset(a) == multiset(b)
    ensures i < |b| && b[i] == a[0] && multiset(a[1..]) == multiset(b[..i] + b[i + 1..])
  {
    assert a[0] in multiset(b);
    i :| 0 <= i < |b| && b[i] == a[0];
    WithoutElement(a, 0);
    WithoutElement(b, i);
    assert a[..0] + a[1..] == a[1..];
    Cancel(multiset(a[1..]), multiset(b[..i] + b[i + 1..]), a[0]);
  }

  lemma SignaturesOfFirst(a: seq<Grant>)
    requires a != []
    ensures multiset(Signatures(a)) == multiset(Signatures(a[1..])) + multiset{Sign(a[0])}
  {
    assert Signatures(a) == [Sign(a[0])] + Signatures(a[1..]);
  }

  lemma {:induction false} SignaturesOfPermutation(a: seq<Grant>, b: seq<Grant>)
    requires multiset(a) == multiset(b)
    ensures multiset(Signatures(a)) == multiset(Signatures(b))
    decreases |a|
  {
    if a == [] {
      assert |multiset(b)| == 0;
    } else {
      var i := FirstOf(a, b);
      var rest := b[..i] + b[i + 1..];
      SignaturesOfPermutation(a[1..], rest);
      SignaturesOfFirst(a);
      SignaturesWithoutElement(b, i);
    }
  }

  /** Any permutation of the grants of a canned ACL is recognised as that ACL. */
  lemma CannedGrantsAreRecognised(owner: string, acl: Canned, prefix: string, grants: seq<Grant>)
    requires owner != ""
    requires multiset(grants) == multiset(CannedGrants(owner, acl, prefix))
    ensures Recognised(Policy(owner, grants), acl)
  {
    var canned := CannedGrants(owner, acl, prefix);
    SignaturesOfPermutation(grants, canned);
    LastSegmentOfPath(prefix, ALL_USERS);
    LastSegmentOfPath(prefix, LOG_DELIVERY);
    assert Signatures(canned) == Expected(owner, acl);
  }

  // ----- What a canned ACL grants, in the terms of the grant list -----

  predicate GivesOwner(g: Grant, owner: string) {
    g.granteeType == User && g.id == owner && g.permission == FullControl && !g.delivered
  }

  /** The grantee's URI is the name of the group, or a path that ends in it. */
  predicate NamesGroup(uri: string, name: string) {
    || uri == name
    || (|uri| > |name| && uri[|uri| - |name|..] == name && uri[|uri| - |name| - 1] == '/')
  }

  predicate GivesGroup(g: Grant, name: string, permission: Permission) {
    g.granteeType == Group && g.id == "" && NamesGroup(g.uri, name) && g.permission == permission && !g.delivered
  }

  predicate SomeGroup(grants: seq<Grant>, name: string, permission: Permission) {
    exists g | g in grants :: GivesGroup(g, name, permission)
  }

  /** The owner has full control, the named groups have these rights, and nothing else is granted or delivered. */
  predicate Grants(p: Policy, acl: Canned) {
    && p.owner != "" && (exists g | g in p.grants :: GivesOwner(g, p.owner))
    && match acl
       case Private => |p.grants| == 1
       case PublicRead => |p.grants| == 2 && SomeGroup(p.grants, "AllUsers", Read)
       case PublicReadWrite =>
         |p.grants| == 3 && SomeGroup(p.grants, "AllUsers", Read) && SomeGroup(p.grants, "AllUsers", Write)
       case LogDeliveryWrite =>
         |p.grants| == 3 && SomeGroup(p.grants, "LogDelivery", Write) && SomeGroup(p.grants, "LogDelivery", ReadAcp)
  }

  lemma {:induction false} LastSegmentNames(uri: string, name: string)
    requires '/' !in name
    ensures LastSegment(uri) == name <==> NamesGroup(uri, name)
  {
    if uri != "" {
      var front, last := uri[..|uri| - 1], uri[|uri| - 1];
      if name != "" && last == name[|name| - 1] {
        var shorter := name[..|name| - 1];
        LastSegmentNames(front, shorter);
        assert name == shorter + [last];
        if NamesGroup(front, shorter) {
          assert uri == front + [last];
        }
        if NamesGroup(uri, name) && uri != name {
          assert front[|front| - |shorter|..] == shorter;
        }
      }
    }
  }

  lemma SignedOwner(g: Grant, owner: string)
    ensures Sign(g) == Signature(User, owner, "", FullControl, false) <==> GivesOwner(g, owner)
  {
  }

  lemma SignedGroup(g: Grant, name: string, permission: Permission)
    requires '/' !in name
    ensures Sign(g) == Signature(Group, "", name, permission, false) <==> GivesGroup(g, name, permission)
  {
    LastSegmentNames(g.uri, name);
  }

  lemma SomeSigned(grants: seq<Grant>, x: Signature)
    ensures x in Signatures(grants) <==> exists g :: g in grants && Sign(g) == x
  {
    if x in Signatures(grants) {
      var i :| 0 <= i < |grants| && Signatures(grants)[i] == x;
      assert grants[i] in grants;
    }
    if g :| g in grants && Sign(g) == x {
      var i :| 0 <= i < |grants| && grants[i] == g;
      assert Signatures(grants)[i] == x;
    }
  }

  lemma SomeSignedGroup(grants: seq<Grant>, name: string, permission: Permission)
    requires '/' !in name
    ensures Signature(Group, "", name, permission, false) in Signatures(grants) <==> SomeGroup(grants, name, permission)
  {
    SomeSigned(grants, Signature(Group, "", name, permission, false));
    forall g ensures Sign(g) == Signature(Group, "", name, permission, false) <==> GivesGroup(g, name, permission) {
      SignedGroup(g, name, permission);
    }
  }

  lemma SomeSignedOwner(grants: seq<Grant>, owner: string)
    ensures Signature(User, owner, "", FullControl, false) in Signatures(grants)
       <==> exists g | g in grants :: GivesOwner(g, owner)
  {
    SomeSigned(grants, Signature(User, owner, "", FullControl, false));
    forall g ensures Sign(g) == Signature(User, owner, "", FullControl, false) <==> GivesOwner(g, owner) {
      SignedOwner(g, owner);
    }
  }

  lemma MatchesByContent(actual: seq<Signature>, expected: seq<Signature>)
    requires Distinct(expected)
    ensures multiset(actual) == multiset(expected)
       <==> |actual| == |expected| && forall x | x in expected :: x in actual
  {
    if multiset(actual) == multiset(expected) {
      assert |multiset(actual)| == |actual| && |multiset(expected)| == |expected|;
      forall x | x in expected ensures x in actual {
        assert x in multiset(expected);
      }
    } else if |actual| == |expected| && forall x | x in expected :: x in actual {
      Pigeonhole(actual, expected);
    }
  }

  lemma ExpectedWithin(sigs: seq<Signature>, owner: string, acl: Canned)
    ensures (forall x | x in Expected(owner, acl) :: x in sigs) <==>
              && Signature(User, owner, "", FullControl, false) in sigs
              && match acl
                 case Private => true
                 case PublicRead => Signature(Group, "", "AllUsers", Read, false) in sigs
                 case PublicReadWrite =>
                   && Signature(Group, "", "AllUsers", Read, false) in sigs
                   && Signature(Group, "", "AllUsers", Write, false) in sigs
                 case LogDeliveryWrite =>
                   && Signature(Group, "", "LogDelivery", Write, false) in sigs
                   && Signature(Group, "", "LogDelivery", ReadAcp, false) in sigs
  {
    var e := Expected(owner, acl);
    assert forall i | 0 <= i < |e| :: e[i] in e;
  }

  /** A canned ACL is recognised exactly when the list grants what it stands for, and no more. */
  lemma RecognisedMeans(p: Policy, acl: Canned)
    ensures Recognised(p, acl) <==> Grants(p, acl)
  {
    var sigs := Signatures(p.grants);
    ExpectedIsDistinct(p.owner, acl);
    MatchesByContent(sigs, Expected(p.owner, acl));
    ExpectedWithin(sigs, p.owner, acl);
    SomeSignedOwner(p.grants, p.owner);
    match acl
    case Private =>
    case PublicRead => SomeSignedGroup(p.grants, "AllUsers", Read);
    case PublicReadWrite =>
      SomeSignedGroup(p.grants, "AllUsers", Read);
      SomeSignedGroup(p.grants, "AllUsers", Write);
    case LogDeliveryWrite =>
      SomeSignedGroup(p.grants, "LogDelivery", Write);
      SomeSignedGroup(p.grants, "LogDelivery", ReadAcp);
  }
}
