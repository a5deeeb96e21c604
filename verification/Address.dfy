/** The deterministic address of an execution's artifact, and its reference text. */
module Address {
  import opened Basics
  import opened Strings

  datatype S3Config = S3Config(bucket: Text, prefix: Text)

  datatype Location = Location(bucket: Text, key: Text)

  predicate IsLowerAlphanumeric(u: CodeUnit) {
    IsDigit(u) || 'a' as int <= u <= 'z' as int
  }

  predicate IsHexUnit(u: CodeUnit) {
    IsDigit(u) || 'a' as int <= u <= 'f' as int
  }

  /** A lower-case UUIDv4 (section 5.4 of RFC 9562). */
  predicate IsUuidV4(t: Text) {
    && |t| == 36
    && (forall i | 0 <= i < 36 ::
          if i == 8 || i == 13 || i == 18 || i == 23 then t[i] == '-' as int else IsHexUnit(t[i]))
    && t[14] == '4' as int
    && (t[19] == '8' as int || t[19] == '9' as int || t[19] == 'a' as int || t[19] == 'b' as int)
  }

  predicate BucketUnit(u: CodeUnit) {
    IsLowerAlphanumeric(u) || u == '.' as int || u == '-' as int
  }

  /** DNS-compatible; the dotted-quad exclusion is an extra condition of the configuration. */
  predicate ValidBucket(t: Text) {
    && 3 <= |t| <= 63
    && (forall i | 0 <= i < |t| :: BucketUnit(t[i]))
    && IsLowerAlphanumeric(t[0]) && IsLowerAlphanumeric(t[|t| - 1])
    && (forall i | 0 < i < |t| :: !(t[i - 1] == '.' as int && t[i] == '.' as int))
  }

  predicate PrefixUnit(u: CodeUnit) {
    IsLowerAlphanumeric(u) || u == '/' as int || u == '_' as int || u == '-' as int
  }

  predicate ValidPrefix(t: Text) {
    && 0 < |t| <= 256
    && (forall i | 0 <= i < |t| :: PrefixUnit(t[i]))
    && IsLowerAlphanumeric(t[0]) && t[|t| - 1] != '/' as int
  }

  predicate ValidConfig(c: S3Config) {
    ValidBucket(c.bucket) && ValidPrefix(c.prefix)
  }

  function Key(c: S3Config, executionId: Text): Text {
    c.prefix + Lit("/") + executionId + Lit(".json")
  }

  function ObjectKey(c: S3Config, executionId: Text): Result<Text> {
    if !(IsUuidV4(executionId)) then Throws
    else
      Ok(Key(c, executionId))
  }

  function FormatReference(l: Location): Text {
    Lit("s3://") + l.bucket + Lit("/") + l.key
  }

  /** Units a URL keeps as they are, in a host or a path without dot segments. */
  predicate Transparent(u: CodeUnit) {
    BucketUnit(u) || PrefixUnit(u)
  }

  function FindSlash(t: Text): (n: nat)
    ensures n <= |t| && (n < |t| ==> t[n] == '/' as int)
    ensures forall i | 0 <= i < n :: t[i] != '/' as int
  {
    if t == [] || t[0] == '/' as int then 0 else 1 + FindSlash(t[1..])
  }

  predicate HasDotSegment(path: Text) {
    exists i :: 0 <= i < |path| && path[i] == '.' as int && (i == 0 || path[i - 1] == '/' as int)
  }

  function ParseReference(reference: Text): Result<Location> {
    var scheme := Lit("s3://");
    :- Need(scheme <= reference);
    var rest := reference[|scheme|..];
    :- Need(forall i | 0 <= i < |rest| :: Transparent(rest[i]));
    var slash := FindSlash(rest);
    :- Need(slash < |rest|);
    var bucket, key := rest[..slash], rest[slash + 1..];
    :- Need(ValidBucket(bucket) && key != [] && !HasDotSegment(key));
    Ok(Location(bucket, key))
  }

  /** An execution's own address: `assertPersistedArtifactBinding` accepts nothing else. */
  function Reference(c: S3Config, executionId: Text): Text {
    FormatReference(Location(c.bucket, Key(c, executionId)))
  }

  lemma {:induction false} FindFirstSlash(host: Text, rest: Text)
    requires forall i | 0 <= i < |host| :: host[i] != '/' as int
    ensures FindSlash(host + ['/' as int] + rest) == |host|
  {
    var t := host + ['/' as int] + rest;
    if host != [] {
      assert t[1..] == host[1..] + ['/' as int] + rest;
      FindFirstSlash(host[1..], rest);
    }
  }

  lemma KeyShape(c: S3Config, id: Text)
    requires ValidConfig(c) && IsUuidV4(id)
    ensures var k := Key(c, id);
            k != [] && !HasDotSegment(k) && forall i | 0 <= i < |k| :: Transparent(k[i])
  {
    var k, n := Key(c, id), |c.prefix|;
    assert |k| == n + 42;
    forall i | 0 <= i < |k|
      ensures Transparent(k[i]) && (k[i] == '.' as int ==> i == n + 37)
    {
      if i < n {
        assert k[i] == c.prefix[i];
      } else if n < i < n + 37 {
        assert k[i] == id[i - n - 1];
      }
    }
    assert k[n + 36] == id[35];
  }

  /** A reference parses back to the deterministic key of its execution. */
  lemma ReferenceRoundTrip(c: S3Config, id: Text)
    requires ValidConfig(c) && IsUuidV4(id)
    ensures ParseReference(Reference(c, id)) == Ok(Location(c.bucket, Key(c, id)))
  {
    var key, scheme := Key(c, id), Lit("s3://");
    var rest := c.bucket + ['/' as int] + key;
    KeyShape(c, id);
    assert Lit("/") == ['/' as int];
    assert Reference(c, id) == scheme + rest;
    assert (scheme + rest)[|scheme|..] == rest;
    FindFirstSlash(c.bucket, key);
    assert rest[..|c.bucket|] == c.bucket && rest[|c.bucket| + 1..] == key;
  }

  /** Different executions have different keys and references. */
  lemma KeyInjective(c: S3Config, a: Text, b: Text)
    requires Key(c, a) == Key(c, b)
    ensures a == b
  {
    var n := |c.prefix| + 1;
    assert |a| == |b|;
    assert Key(c, a)[n..n + |a|] == a;
    assert Key(c, b)[n..n + |b|] == b;
  }
}
