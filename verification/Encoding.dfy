/**
 * The NUL-separated byte strings that are hashed into the credential discriminator of a cache key
 * and into the observed provider revision. The hash is taken to be free of collisions: a digest
 * is a constructor over the bytes written to it.
 */
module Encoding {
  import opened Common

  newtype byte = x: int | 0 <= x < 256
  type Bytes = seq<byte>
  const NUL: byte := 0

  datatype Digest = Digest(preimage: Bytes)

  datatype Credentials = Credentials(accessKeyID: Bytes, secretAccessKey: Bytes, securityToken: Bytes)

  datatype RevisionInputs = RevisionInputs(
    providerNamespace: Bytes, providerName: Bytes, providerUID: Bytes, generation: nat,
    secretNamespace: Bytes, secretName: Bytes, secretUID: Bytes, resourceVersion: Bytes,
    region: Bytes, endpoint: Bytes)

  predicate NulFree(b: Bytes) {
    NUL !in b
  }

  // ----- Terminated fields -----

  function EncodeFields(fs: seq<Bytes>): Bytes {
    if fs == [] then [] else fs[0] + [NUL] + EncodeFields(fs[1..])
  }

  /** The bytes before the first NUL. */
  function Head(b: Bytes): (h: Bytes)
    ensures |h| <= |b| && h == b[..|h|] && NulFree(h)
    ensures |h| == |b| || b[|h|] == NUL
  {
    if b == [] || b[0] == NUL then [] else [b[0]] + Head(b[1..])
  }

  function DecodeFields(b: Bytes): seq<Bytes>
    decreases |b|
  {
    var h := Head(b);
    if |h| == |b| then [] else [h] + DecodeFields(b[|h| + 1..])
  }

  lemma {:induction false} HeadOfField(f: Bytes, rest: Bytes)
    requires NulFree(f)
    ensures Head(f + [NUL] + rest) == f
  {
    if f != [] {
      HeadOfField(f[1..], rest);
      assert (f + [NUL] + rest)[1..] == f[1..] + [NUL] + rest;
    }
  }

  lemma {:induction false} DecodedFieldsAreNulFree(b: Bytes)
    ensures forall f | f in DecodeFields(b) :: NulFree(f)
    decreases |b|
  {
    var h := Head(b);
    if |h| < |b| {
      DecodedFieldsAreNulFree(b[|h| + 1..]);
    }
  }

  lemma {:induction false} DecodeEncoded(fs: seq<Bytes>)
    requires forall f | f in fs :: NulFree(f)
    ensures DecodeFields(EncodeFields(fs)) == fs
  {
    if fs != [] {
      var rest := EncodeFields(fs[1..]);
      HeadOfField(fs[0], rest);
      DecodeEncoded(fs[1..]);
      var whole := fs[0] + [NUL] + rest;
      assert whole[|fs[0]| + 1..] == rest;
    }
  }

  /** Field lists can be read back from their encoding exactly when no field contains a NUL. */
  lemma FieldsRoundTrip(fs: seq<Bytes>)
    ensures DecodeFields(EncodeFields(fs)) == fs <==> forall f | f in fs :: NulFree(f)
  {
    DecodedFieldsAreNulFree(EncodeFields(fs));
    if forall f | f in fs :: NulFree(f) {
      DecodeEncoded(fs);
    }
  }

  // ----- Credentials -----

  function EncodeCredentials(c: Credentials): Bytes {
    c.accessKeyID + [NUL] + c.secretAccessKey + [NUL] + c.securityToken
  }

  function DecodeCredentials(b: Bytes): Option<Credentials> {
    var a := Head(b);
    if |a| == |b| then None
    else
      var rest := b[|a| + 1..];
      var s := Head(rest);
      if |s| == |rest| then None else Some(Credentials(a, s, rest[|s| + 1..]))
  }

  /** The security token may hold any bytes; the two keys must be free of NULs, and that suffices. */
  lemma CredentialsRoundTrip(c: Credentials)
    ensures DecodeCredentials(EncodeCredentials(c)) == Some(c)
       <==> NulFree(c.accessKeyID) && NulFree(c.secretAccessKey)
  {
    if NulFree(c.accessKeyID) && NulFree(c.secretAccessKey) {
      var rest := c.secretAccessKey + [NUL] + c.securityToken;
      assert EncodeCredentials(c) == c.accessKeyID + [NUL] + rest;
      HeadOfField(c.accessKeyID, rest);
      HeadOfField(c.secretAccessKey, c.securityToken);
      assert EncodeCredentials(c)[|c.accessKeyID| + 1..] == rest;
      assert rest[|c.secretAccessKey| + 1..] == c.securityToken;
    }
  }

  /** Hash: three writes into the hash buffer with separators between them. */
  method CredentialsHash(c: Credentials) returns (d: Digest)
    ensures d.preimage == EncodeCredentials(c)
  {
    var buffer: Bytes := [];
    buffer := buffer + c.accessKeyID;
    buffer := buffer + [NUL];
    buffer := buffer + c.secretAccessKey;
    buffer := buffer + [NUL];
    buffer := buffer + c.securityToken;
    d := Digest(buffer);
  }

  function HashOf(c: Credentials): Digest {
    Digest(EncodeCredentials(c))
  }

  predicate NulFreeKeys(c: Credentials) {
    NulFree(c.accessKeyID) && NulFree(c.secretAccessKey)
  }

  lemma HashIdentifiesCredentials(a: Credentials, b: Credentials)
    requires NulFreeKeys(a) && NulFreeKeys(b)
    ensures HashOf(a) == HashOf(b) <==> a == b
  {
    CredentialsRoundTrip(a);
    CredentialsRoundTrip(b);
  }

  /** Moving a NUL across a separator leaves the hashed bytes, and so the cache key, the same. */
  lemma HashCollision(x: Bytes, y: Bytes, z: Bytes, token: Bytes)
    ensures var a := Credentials(x + [NUL] + y, z, token);
            var b := Credentials(x, y, z + [NUL] + token);
            a != b && HashOf(a) == HashOf(b)
  {
    var a := Credentials(x + [NUL] + y, z, token);
    var b := Credentials(x, y, z + [NUL] + token);
    assert |a.accessKeyID| != |b.accessKeyID|;
    assert EncodeCredentials(a) == EncodeCredentials(b);
  }

  // ----- Provider revision -----

  /** `fmt.Sprint` of a generation. */
  function Decimal(n: nat): (b: Bytes)
    ensures |b| > 0 && forall d | d in b :: 48 <= d <= 57
  {
    if n < 10 then [(48 + n) as byte] else Decimal(n / 10) + [(48 + n % 10) as byte]
  }

  function DecimalValue(b: Bytes): int {
    if b == [] then 0 else 10 * DecimalValue(b[..|b| - 1]) + (b[|b| - 1] as int - 48)
  }

  lemma {:induction false} DecimalRoundTrip(n: nat)
    ensures DecimalValue(Decimal(n)) == n
  {
    var b := Decimal(n);
    if n < 10 {
      assert b[..0] == [];
    } else {
      DecimalRoundTrip(n / 10);
      assert b[..|b| - 1] == Decimal(n / 10);
    }
  }

  function RevisionFields(r: RevisionInputs): seq<Bytes> {
    [r.providerNamespace, r.providerName, r.providerUID, Decimal(r.generation),
     r.secretNamespace, r.secretName, r.secretUID, r.resourceVersion, r.region, r.endpoint]
  }

  predicate NulFreeInputs(r: RevisionInputs) {
    forall f | f in RevisionFields(r) :: NulFree(f)
  }

  /** observedProviderRevision: the loop writes every field and a terminating NUL into the hash. */
  method ObservedProviderRevision(r: RevisionInputs) returns (d: Digest)
    ensures d == RevisionOf(r)
  {
    var fields := RevisionFields(r);
    var buffer: Bytes := [];
    for i := 0 to |fields|
      invariant buffer + EncodeFields(fields[i..]) == EncodeFields(fields)
    {
      ghost var before := buffer;
      buffer := buffer + fields[i];
      buffer := buffer + [NUL];
      assert fields[i..][0] == fields[i] && fields[i..][1..] == fields[i + 1..];
      assert before + EncodeFields(fields[i..]) == buffer + EncodeFields(fields[i + 1..]);
    }
    assert EncodeFields(fields[|fields|..]) == [];
    assert buffer + [] == buffer;
    d := Digest(buffer);
  }

  function RevisionOf(r: RevisionInputs): Digest {
    Digest(EncodeFields(RevisionFields(r)))
  }

  /** A revision determines all ten inputs, so a new resource version or generation changes it. */
  lemma RevisionIdentifiesInputs(a: RevisionInputs, b: RevisionInputs)
    requires NulFreeInputs(a) && NulFreeInputs(b)
    ensures RevisionOf(a) == RevisionOf(b) <==> a == b
  {
    if RevisionOf(a) == RevisionOf(b) {
      FieldsRoundTrip(RevisionFields(a));
      FieldsRoundTrip(RevisionFields(b));
      var fa, fb := RevisionFields(a), RevisionFields(b);
      assert forall i | 0 <= i < 10 :: fa[i] == fb[i];
      assert fa[0] == fb[0] && fa[1] == fb[1] && fa[2] == fb[2] && fa[3] == fb[3] && fa[4] == fb[4];
      assert fa[5] == fb[5] && fa[6] == fb[6] && fa[7] == fb[7] && fa[8] == fb[8] && fa[9] == fb[9];
      DecimalRoundTrip(a.generation);
      DecimalRoundTrip(b.generation);
    }
  }
}
