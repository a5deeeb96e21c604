/**
  Write-once artifact persistence: one conditional put settled by a head request,
  and recovery of a stored artifact from nothing but its execution identity.
*/
module S3 {
  import opened Basics
  import opened Strings
  import opened Utf8
  import opened Encodings
  import opened Domain
  import opened Contract
  import opened Address

  /******* The store and its answers *******/

  datatype StoredObject = StoredObject(body: Bytes, metadata: map<string, Text>)

  type Objects = map<Text, StoredObject>

  datatype FailureKind = Conflict | NotFound | AccessDenied | Ambiguous | Definitive

  /** Absence is only ever reported by the store itself. */
  type Injected = k: FailureKind | k != NotFound witness Ambiguous

  /** Which parts of an observation are reported, and what the bucket's settings make it say. */
  datatype Mask = Mask(
    encryption: Option<Text>,
    versionId: Option<Text>,
    length: bool,
    checksumType: Option<Text>,
    checksum: bool,
    metadata: bool)

  /** How one call ends: an answer, or a failure behind which a put may still have acted. */
  datatype Answer =
    | Answered(mask: Mask)
    | Failed(kind: Injected, acted: bool)

  datatype Observation = Observation(
    encryption: Option<Text>,
    versionId: Option<Text>,
    contentLength: Option<nat>,
    checksumType: Option<Text>,
    checksum: Option<Text>,
    metadata: Option<map<string, Text>>)

  datatype Reply<+T> = Value(value: T) | Error(kind: FailureKind)

  /** The store's own checksum is the hash of the stored body. */
  function Observe(p: Platform, o: StoredObject, m: Mask): Observation {
    Observation(m.encryption, m.versionId,
                if m.length then Some(|o.body|) else None,
                m.checksumType,
                if m.checksum then Some(Base64((p.sha256)(o.body))) else None,
                if m.metadata then Some(o.metadata) else None)
  }

  /** PutObject with `If-None-Match: *`. */
  function StorePut(objects: Objects, key: Text, o: StoredObject, answer: Answer): (Objects, Option<FailureKind>) {
    match answer
    case Answered(_) => if key in objects then (objects, Some(Conflict)) else (objects[key := o], None)
    case Failed(kind, acted) => (if acted && key !in objects then objects[key := o] else objects, Some(kind))
  }

  function StoreHead(p: Platform, objects: Objects, key: Text, answer: Answer): Reply<Observation> {
    match answer
    case Answered(mask) => if key in objects then Value(Observe(p, objects[key], mask)) else Error(NotFound)
    case Failed(kind, _) => Error(kind)
  }

  function StoreGet(p: Platform, objects: Objects, key: Text, answer: Answer): Reply<(Bytes, Observation)> {
    match answer
    case Answered(mask) =>
      if key in objects then Value((objects[key].body, Observe(p, objects[key], mask))) else Error(NotFound)
    case Failed(kind, _) => Error(kind)
  }

  /******* Checks *******/

  function KeyIndex(keys: seq<string>, key: string): (i: nat)
    requires key in keys
    ensures i < |keys| && keys[i] == key
  {
    if keys[0] == key then 0 else 1 + KeyIndex(keys[1..], key)
  }

  /** The projected metadata under its header keys. */
  function MetadataMap(m: Metadata): (headers: map<string, Text>)
    ensures RequiredKeys(headers)
  {
    map k | k in METADATA_KEYS :: m.Values()[KeyIndex(METADATA_KEYS, k)]
  }

  function Stored(a: BuiltArtifact): StoredObject {
    StoredObject(a.body, MetadataMap(a.metadata))
  }

  function Aes256(): Text { Lit("AES256") }

  function FullObject(): Text { Lit("FULL_OBJECT") }

  predicate RequiredKeys(m: map<string, Text>) {
    m.Keys == set k | k in METADATA_KEYS
  }

  /** `verifyPhase49ArtifactHead` */
  predicate HeadVerifies(a: BuiltArtifact, o: Observation) {
    && o.checksumType == Some(FullObject())
    && o.checksum.Some? && o.checksum.value != [] && o.checksum.value == a.envelopeChecksum
    && o.metadata.Some? && RequiredKeys(o.metadata.value)
    && forall k | k in o.metadata.value ::
         && IsPrintableAscii(o.metadata.value[k])
         && k in MetadataMap(a.metadata) && o.metadata.value[k] == MetadataMap(a.metadata)[k]
  }

  /** `assertS3StorageObservation` */
  predicate Matches(a: BuiltArtifact, o: Observation) {
    && o.encryption == Some(Aes256()) && o.versionId == None
    && (o.contentLength.Some? ==> o.contentLength.value == |a.body|)
    && HeadVerifies(a, o)
  }

  /** `assertRecoveryObservationPresence` */
  predicate Recoverable(o: Observation) {
    && o.encryption == Some(Aes256()) && o.versionId == None
    && o.checksumType == Some(FullObject())
    && o.checksum.Some? && o.checksum.value != []
    && o.metadata.Some? && RequiredKeys(o.metadata.value)
    && forall k | k in o.metadata.value :: o.metadata.value[k] != []
  }

  /** `assertRecoveryIdentity` */
  predicate RecoveryIdentity(id: Identity) {
    && IsUuidV4(id.executionId)
    && PositiveSafeInteger(id.issueId) && PositiveSafeInteger(id.briefRevision)
    && !Blank(id.repository) && !Blank(id.sourceRevision)
    && !Blank(id.persistedRevision) && !Blank(id.requirementsFingerprint)
  }

  /******* The three operations, as functions of the store and of the answers *******/

  datatype Persisted = Persisted(location: Location, reference: Text, adopted: bool)

  datatype Recovery =
    | Found(artifact: BuiltArtifact, document: Document, persisted: Persisted)
    | Missing
    | Broken

  function PersistedAt(c: S3Config, key: Text, adopted: bool): Persisted {
    var location := Location(c.bucket, key);
    Persisted(location, FormatReference(location), adopted)
  }

  /** A put that may have acted is settled by the head request, whatever it answered. */
  predicate Settleable(failure: Option<FailureKind>) {
    failure == None || failure == Some(Conflict) || failure == Some(Ambiguous)
  }

  function Persist(p: Platform, c: S3Config, objects: Objects, a: BuiltArtifact, put: Answer, head: Answer): (Objects, Result<Persisted>) {
    var id := a.manifest.identity.executionId;
    if !IsUuidV4(id) then (objects, Throws)
    else
      var (objects', failure) := StorePut(objects, Key(c, id), Stored(a), put);
      var observed := StoreHead(p, objects', Key(c, id), head);
      (objects',
       if Settleable(failure) && observed.Value? && Matches(a, observed.value)
       then Ok(PersistedAt(c, Key(c, id), failure != None)) else Throws)
  }

  /** The checks on a fetched body, and the artifact rebuilt from it. */
  function Reconstruct(p: Platform, id: Identity, body: Bytes, head: Observation, get: Observation): Result<(BuiltArtifact, Document)> {
    if !Recoverable(get) || head.checksum != get.checksum then Throws
    else
      match VerifyBody(p, body)
      case Throws => Throws
      case Ok(d) => Rebuild(p, id, d, body, head, get)
  }

  function Rebuild(p: Platform, id: Identity, d: Document, body: Bytes, head: Observation, get: Observation): Result<(BuiltArtifact, Document)> {
    if d.manifest.identity != id then Throws
    else
      match Build(p, RebuildInput(d))
      case Throws => Throws
      case Ok(a) => if Matches(a, head) && Matches(a, get) && a.body == body then Ok((a, d)) else Throws
  }

  function AfterFailure(kind: FailureKind): Recovery {
    if kind == NotFound then Missing else Broken
  }

  function RecoverStored(p: Platform, c: S3Config, objects: Objects, id: Identity, head: Answer, get: Answer): Recovery {
    var key := Key(c, id.executionId);
    if !RecoveryIdentity(id) then Broken
    else
      match StoreHead(p, objects, key, head)
      case Error(kind) => AfterFailure(kind)
      case Value(h) =>
        if !Recoverable(h) then Broken
        else
          match StoreGet(p, objects, key, get)
          case Error(kind) => AfterFailure(kind)
          case Value((body, g)) =>
            match Reconstruct(p, id, body, h, g)
            case Ok((a, d)) => Found(a, d, PersistedAt(c, key, true))
            case Throws => Broken
  }

  function ReadBack(p: Platform, c: S3Config, objects: Objects, reference: Text, a: BuiltArtifact, get: Answer): Result<Document> {
    var location :- ParseReference(reference);
    :- Need(IsUuidV4(a.manifest.identity.executionId));
    :- Need(location == Location(c.bucket, Key(c, a.manifest.identity.executionId)));
    match StoreGet(p, objects, location.key, get)
    case Error(_) => Throws
    case Value((body, g)) =>
      :- Need(Matches(a, g));
      VerifyBodyAgainst(p, body, a)
  }

  /******* The same as code that drives a client *******/

  /** The remote store: its objects, and the script of how its coming calls end. */
  class ObjectClient {
    const platform: Platform
    const script: nat -> Answer
    var objects: Objects
    var calls: nat

    constructor (platform: Platform, script: nat -> Answer)
      ensures this.platform == platform && this.script == script && objects == map[] && calls == 0
    {
      this.platform, this.script, objects, calls := platform, script, map[], 0;
    }

    method PutObject(key: Text, o: StoredObject) returns (failure: Option<FailureKind>)
      modifies this
      ensures (objects, failure) == StorePut(old(objects), key, o, script(old(calls))) && calls == old(calls) + 1
    {
      var result := StorePut(objects, key, o, script(calls));
      objects, calls, failure := result.0, calls + 1, result.1;
    }

    method HeadObject(key: Text) returns (r: Reply<Observation>)
      modifies this`calls
      ensures r == StoreHead(platform, objects, key, script(old(calls))) && calls == old(calls) + 1
    {
      r := StoreHead(platform, objects, key, script(calls));
      calls := calls + 1;
    }

    method GetObject(key: Text) returns (r: Reply<(Bytes, Observation)>)
      modifies this`calls
      ensures r == StoreGet(platform, objects, key, script(old(calls))) && calls == old(calls) + 1
    {
      r := StoreGet(platform, objects, key, script(calls));
      calls := calls + 1;
    }
  }

  /** `Phase49S3ArtifactPersistence` */
  class ArtifactPersistence {
    const platform: Platform
    const client: ObjectClient
    const config: S3Config

    constructor (client: ObjectClient, config: S3Config)
      ensures this.client == client && this.config == config && platform == client.platform
    {
      this.platform, this.client, this.config := client.platform, client, config;
    }

    method PersistAndConfirm(a: BuiltArtifact) returns (r: Result<Persisted>)
      requires platform == client.platform
      modifies client
      ensures (client.objects, r) == Persist(platform, config, old(client.objects), a,
                                             client.script(old(client.calls)), client.script(old(client.calls) + 1))
      ensures client.calls <= old(client.calls) + 2
    {
      var key := ObjectKey(config, a.manifest.identity.executionId);
      if key.Throws? {
        return Throws;
      }
      var adopted := false;
      var failure := client.PutObject(key.value, Stored(a));
      if failure.Some? {
        if failure.value != Conflict && failure.value != Ambiguous {
          return Throws;
        }
        adopted := true;
      }
      var observed := client.HeadObject(key.value);
      if observed.Error? || !Matches(a, observed.value) {
        return Throws;
      }
      r := Ok(PersistedAt(config, key.value, adopted));
    }

    method RecoverAndVerify(id: Identity) returns (r: Recovery)
      requires platform == client.platform
      modifies client`calls
      ensures r == RecoverStored(platform, config, client.objects, id,
                           client.script(old(client.calls)), client.script(old(client.calls) + 1))
      ensures client.calls <= old(client.calls) + 2
    {
      if !RecoveryIdentity(id) {
        return Broken;
      }
      var key := Key(config, id.executionId);
      var head := client.HeadObject(key);
      if head.Error? {
        return AfterFailure(head.kind);
      }
      if !Recoverable(head.value) {
        return Broken;
      }
      var get := client.GetObject(key);
      if get.Error? {
        return AfterFailure(get.kind);
      }
      var rebuilt := Reconstruct(platform, id, get.value.0, head.value, get.value.1);
      r := if rebuilt.Ok? then Found(rebuilt.value.0, rebuilt.value.1, PersistedAt(config, key, true)) else Broken;
    }

    method GetAndVerify(reference: Text, a: BuiltArtifact) returns (r: Result<Document>)
      requires platform == client.platform
      modifies client`calls
      ensures r == ReadBack(platform, config, client.objects, reference, a, client.script(old(client.calls)))
    {
      var location := ParseReference(reference);
      var key := ObjectKey(config, a.manifest.identity.executionId);
      if location.Throws? || key.Throws? || location.value != Location(config.bucket, key.value) {
        return Throws;
      }
      var get := client.GetObject(location.value.key);
      if get.Error? || !Matches(a, get.value.1) {
        return Throws;
      }
      r := VerifyBodyAgainst(platform, get.value.0, a);
    }
  }
}
