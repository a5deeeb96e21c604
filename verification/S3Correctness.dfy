/** What a normal return of persistence means, and how persistence and recovery undo each other. */
module S3Correctness {
  import opened Basics
  import opened Strings
  import opened Utf8
  import opened Encodings
  import opened Domain
  import opened Contract
  import opened ContractCorrectness
  import opened Address
  import opened S3

  /** The two bodies do not collide; collision freedom is never assumed of any other pair. */
  predicate NoCollision(p: Platform, x: Bytes, y: Bytes) {
    (p.sha256)(x) == (p.sha256)(y) ==> x == y
  }

  /** An artifact the builder produced. */
  ghost predicate Built(p: Platform, a: BuiltArtifact) {
    exists input :: Build(p, input) == Ok(a)
  }

  /** The answer reports everything the checks ask for, about a bucket set up as expected. */
  predicate Complete(m: Mask) {
    && m.encryption == Some(Aes256()) && m.versionId == None
    && m.checksumType == Some(FullObject()) && m.checksum && m.metadata
  }

  predicate Reports(answer: Answer) {
    answer.Answered? && Complete(answer.mask)
  }

  /******* Observations *******/

  lemma BuiltMetadataPrintable(p: Platform, a: BuiltArtifact)
    requires Built(p, a)
    ensures a.envelopeChecksum == Base64((p.sha256)(a.body)) && a.envelopeChecksum != []
    ensures ValidMetadata(a.metadata)
  {
    var input :| Build(p, input) == Ok(a);
    BuildSeals(p, input, a);
    var d := Document(a.manifest, input.patch.text);
    SealedBody(p, a, d);
    assert Seal(p, d) == Ok(a);
    Base64Length((p.sha256)(a.body));
  }

  lemma Base64Length(b: Bytes)
    requires b != []
    ensures Base64(b) != []
  {
  }

  lemma PrintableMap(m: Metadata)
    requires ValidMetadata(m)
    ensures forall k | k in MetadataMap(m) :: IsPrintableAscii(MetadataMap(m)[k])
  {
  }

  lemma MatchesSound(p: Platform, a: BuiltArtifact, o: StoredObject, m: Mask)
    requires a.envelopeChecksum == Base64((p.sha256)(a.body)) && NoCollision(p, a.body, o.body)
    requires Matches(a, Observe(p, o, m))
    ensures Complete(m) && o == Stored(a)
  {
    Base64Injective((p.sha256)(a.body), (p.sha256)(o.body));
    assert o.metadata == MetadataMap(a.metadata);
  }

  lemma MatchesOwn(p: Platform, a: BuiltArtifact, m: Mask)
    requires Built(p, a) && Complete(m)
    ensures Matches(a, Observe(p, Stored(a), m))
  {
    BuiltMetadataPrintable(p, a);
    PrintableMap(a.metadata);
  }

  /** An observation passes exactly when it is complete and the object is the artifact's own. */
  lemma MatchesExact(p: Platform, a: BuiltArtifact, o: StoredObject, m: Mask)
    requires Built(p, a) && NoCollision(p, a.body, o.body)
    ensures Matches(a, Observe(p, o, m)) <==> Complete(m) && o == Stored(a)
  {
    BuiltMetadataPrintable(p, a);
    if Complete(m) && o == Stored(a) {
      MatchesOwn(p, a, m);
    } else if Matches(a, Observe(p, o, m)) {
      MatchesSound(p, a, o, m);
    }
  }

  /******* Persisting *******/

  /** Whether the put stored the artifact's object. */
  predicate Lands(objects: Objects, key: Text, put: Answer) {
    key !in objects && (put.Answered? || put.acted)
  }

  /**
    What one persist does to the store, whatever it returns: nothing, or one new
    object under the execution's own key.
  */
  lemma PersistFrame(p: Platform, c: S3Config, objects: Objects, a: BuiltArtifact, put: Answer, head: Answer)
    ensures var id := a.manifest.identity.executionId;
            Persist(p, c, objects, a, put, head).0 ==
            if IsUuidV4(id) && Lands(objects, Key(c, id), put) then objects[Key(c, id) := Stored(a)] else objects
  {
  }

  lemma ConfirmExact(p: Platform, a: BuiltArtifact, objects: Objects, key: Text, head: Answer)
    requires Built(p, a) && (key in objects ==> NoCollision(p, a.body, objects[key].body))
    ensures var observed := StoreHead(p, objects, key, head);
            observed.Value? && Matches(a, observed.value) <==> Reports(head) && key in objects && objects[key] == Stored(a)
  {
    if head.Answered? && key in objects {
      MatchesExact(p, a, objects[key], head.mask);
    }
  }

  /**
    Exactly when persisting returns: the put was answered or failed in a way the
    head request settles, the head answer is complete, and the object now stored
    is the artifact's own, byte for byte.
  */
  lemma PersistExact(p: Platform, c: S3Config, objects: Objects, a: BuiltArtifact, put: Answer, head: Answer)
    requires Built(p, a)
    requires Key(c, a.manifest.identity.executionId) in objects ==>
               NoCollision(p, a.body, objects[Key(c, a.manifest.identity.executionId)].body)
    ensures var key := Key(c, a.manifest.identity.executionId);
            var (objects', r) := Persist(p, c, objects, a, put, head);
            r.Ok? <==>
              && IsUuidV4(a.manifest.identity.executionId)
              && (put.Failed? ==> put.kind == Conflict || put.kind == Ambiguous)
              && Reports(head)
              && key in objects' && objects'[key] == Stored(a)
  {
    var key := Key(c, a.manifest.identity.executionId);
    var objects' := StorePut(objects, key, Stored(a), put).0;
    PersistSteps(p, c, objects, a, put, head);
    ConfirmExact(p, a, objects', key, head);
  }

  /** A persist returns exactly if its put is settled and its head request observes the artifact. */
  lemma PersistSteps(p: Platform, c: S3Config, objects: Objects, a: BuiltArtifact, put: Answer, head: Answer)
    ensures var key := Key(c, a.manifest.identity.executionId);
            var objects' := StorePut(objects, key, Stored(a), put).0;
            var observed := StoreHead(p, objects', key, head);
            && (Persist(p, c, objects, a, put, head).1.Ok? <==>
                  && IsUuidV4(a.manifest.identity.executionId)
                  && (put.Failed? ==> put.kind == Conflict || put.kind == Ambiguous)
                  && observed.Value? && Matches(a, observed.value))
            && (IsUuidV4(a.manifest.identity.executionId) ==> Persist(p, c, objects, a, put, head).0 == objects')
  {
  }

  /** A returned persist names the deterministic address, and says whether the put itself failed. */
  lemma PersistedAddress(p: Platform, c: S3Config, objects: Objects, a: BuiltArtifact, put: Answer, head: Answer)
    requires ValidConfig(c) && Persist(p, c, objects, a, put, head).1.Ok?
    ensures var r := Persist(p, c, objects, a, put, head).1.value;
            && ParseReference(r.reference) == Ok(r.location)
            && r.location == Location(c.bucket, Key(c, a.manifest.identity.executionId))
            && r.reference == Reference(c, a.manifest.identity.executionId)
            && (r.adopted <==> put.Failed? || Key(c, a.manifest.identity.executionId) in objects)
  {
    ReferenceRoundTrip(c, a.manifest.identity.executionId);
  }

  /** A persist that throws says nothing of the object: it is there if it was before, or if the put landed. */
  lemma ThrownPersistDecidesNothing(p: Platform, c: S3Config, objects: Objects, a: BuiltArtifact, put: Answer, head: Answer)
    requires Persist(p, c, objects, a, put, head).1.Throws? && IsUuidV4(a.manifest.identity.executionId)
    ensures var key := Key(c, a.manifest.identity.executionId);
            key in Persist(p, c, objects, a, put, head).0 <==> key in objects || put.Answered? || put.acted
  {
  }

  /** Nothing already stored is ever lost or replaced. */
  predicate Grows(objects: Objects, later: Objects) {
    forall key | key in objects :: key in later && later[key] == objects[key]
  }

  /**
    Any two persists that return for one execution ID agree on every body byte, and
    so on the whole artifact, whatever mix of answers each of them met.
  */
  lemma PersistsAgree(p: Platform, c: S3Config, first: Objects, a: BuiltArtifact, put1: Answer, head1: Answer,
                      second: Objects, b: BuiltArtifact, put2: Answer, head2: Answer)
    requires SignedCollation(p) && Built(p, a) && Built(p, b) && NoCollision(p, b.body, a.body)
    requires a.manifest.identity.executionId == b.manifest.identity.executionId
    requires Key(c, a.manifest.identity.executionId) in first ==>
               NoCollision(p, a.body, first[Key(c, a.manifest.identity.executionId)].body)
    requires Persist(p, c, first, a, put1, head1).1.Ok? && Grows(Persist(p, c, first, a, put1, head1).0, second)
    requires Persist(p, c, second, b, put2, head2).1.Ok?
    ensures a == b
  {
    PersistExact(p, c, first, a, put1, head1);
    PersistExact(p, c, second, b, put2, head2);
    PersistFrame(p, c, second, b, put2, head2);
    var x :| Build(p, x) == Ok(a);
    var y :| Build(p, y) == Ok(b);
    BodyDeterminesArtifact(p, x, a, y, b);
  }

  /******* Recovering *******/

  /** An artifact rebuilt from a verified body is built, and its document is the verified one. */
  lemma RebuiltFromBody(p: Platform, body: Bytes, d: Document, a: BuiltArtifact)
    requires VerifyBody(p, body) == Ok(d) && Build(p, RebuildInput(d)) == Ok(a)
    ensures Built(p, a) && a.manifest == d.manifest
  {
    VerifyBodyExact(p, body, d);
    RebuildSeals(p, d);
    SealedBody(p, a, d);
  }

  lemma ReconstructParts(p: Platform, id: Identity, body: Bytes, h: Observation, g: Observation, a: BuiltArtifact, d: Document)
    requires Reconstruct(p, id, body, h, g) == Ok((a, d))
    ensures VerifyBody(p, body) == Ok(d) && d.manifest.identity == id && Build(p, RebuildInput(d)) == Ok(a)
    ensures Matches(a, h) && Matches(a, g) && a.body == body
  {
    assert Rebuild(p, id, VerifyBody(p, body).value, body, h, g) == Ok((a, d));
  }

  /** What the checks accept is built, is the requested execution's, and is exactly what is stored. */
  lemma ReconstructSound(p: Platform, id: Identity, o: StoredObject, h: Mask, g: Mask, a: BuiltArtifact, d: Document)
    requires Reconstruct(p, id, o.body, Observe(p, o, h), Observe(p, o, g)) == Ok((a, d))
    ensures Built(p, a) && a.manifest.identity == id && VerifyBody(p, a.body) == Ok(d)
    ensures o == Stored(a) && Complete(h) && Complete(g)
  {
    ReconstructParts(p, id, o.body, Observe(p, o, h), Observe(p, o, g), a, d);
    RebuiltFromBody(p, o.body, d, a);
    MatchesExact(p, a, o, h);
    MatchesExact(p, a, o, g);
  }

  lemma ReconstructComplete(p: Platform, a: BuiltArtifact, h: Mask, g: Mask)
    requires SignedCollation(p) && Built(p, a) && Complete(h) && Complete(g)
    ensures VerifyBody(p, a.body).Ok?
    ensures Recoverable(Observe(p, Stored(a), h))
    ensures Reconstruct(p, a.manifest.identity, a.body, Observe(p, Stored(a), h), Observe(p, Stored(a), g))
            == Ok((a, VerifyBody(p, a.body).value))
  {
    var input :| Build(p, input) == Ok(a);
    BuiltBodyVerifies(p, input, a);
    RebuildIsIdentity(p, input, a);
    MatchesExact(p, a, Stored(a), h);
    MatchesExact(p, a, Stored(a), g);
    BuiltMetadataPrintable(p, a);
    PrintableMap(a.metadata);
  }

  /** The right-hand side of `RecoverExact`: the stored object is the intact artifact of this identity. */
  ghost predicate Intact(p: Platform, c: S3Config, objects: Objects, id: Identity, a: BuiltArtifact) {
    && RecoveryIdentity(id) && Built(p, a) && a.manifest.identity == id
    && Key(c, id.executionId) in objects && objects[Key(c, id.executionId)] == Stored(a)
  }

  /**
    Recovery hands back an artifact exactly when both answers are complete and the
    object stored for the identity is what the builder produces for it.
  */
  lemma RecoverExact(p: Platform, c: S3Config, objects: Objects, id: Identity, head: Answer, get: Answer, a: BuiltArtifact)
    requires SignedCollation(p)
    ensures var r := RecoverStored(p, c, objects, id, head, get);
            && (r.Found? && r.artifact == a <==> Intact(p, c, objects, id, a) && Reports(head) && Reports(get))
            && (r.Found? ==> VerifyBody(p, r.artifact.body) == Ok(r.document)
                             && r.persisted == PersistedAt(c, Key(c, id.executionId), true))
  {
    var key, r := Key(c, id.executionId), RecoverStored(p, c, objects, id, head, get);
    if r.Found? {
      ReconstructSound(p, id, objects[key], head.mask, get.mask, r.artifact, r.document);
    }
    if Intact(p, c, objects, id, a) && Reports(head) && Reports(get) {
      ReconstructComplete(p, a, head.mask, get.mask);
    }
  }

  /** Absence is concluded exactly when an answered head request finds nothing under a usable identity. */
  lemma MissingExact(p: Platform, c: S3Config, objects: Objects, id: Identity, head: Answer, get: Answer)
    ensures RecoverStored(p, c, objects, id, head, get) == Missing <==>
            RecoveryIdentity(id) && Key(c, id.executionId) !in objects && head.Answered?
  {
  }

  predicate AnyBlank(id: Identity) {
    Blank(id.repository) || Blank(id.sourceRevision) || Blank(id.persistedRevision) || Blank(id.requirementsFingerprint)
  }

  /**
    Persist and recover undo each other: after a persist returns, in any store that
    only grew since, recovery by identity never concludes absence and never yields
    anything but the very artifact. It yields it on complete answers, unless one of
    the four texts the builder only requires to be non-empty is blank.
  */
  lemma PersistThenRecover(p: Platform, c: S3Config, objects: Objects, a: BuiltArtifact, put: Answer, confirm: Answer,
                           later: Objects, head: Answer, get: Answer)
    requires SignedCollation(p) && Built(p, a)
    requires Key(c, a.manifest.identity.executionId) in objects ==>
               NoCollision(p, a.body, objects[Key(c, a.manifest.identity.executionId)].body)
    requires Persist(p, c, objects, a, put, confirm).1.Ok? && Grows(Persist(p, c, objects, a, put, confirm).0, later)
    ensures var r := RecoverStored(p, c, later, a.manifest.identity, head, get);
            && r != Missing
            && (r.Found? ==> r.artifact == a)
            && (r.Found? <==> Reports(head) && Reports(get) && !AnyBlank(a.manifest.identity))
  {
    var id := a.manifest.identity;
    PersistExact(p, c, objects, a, put, confirm);
    MissingExact(p, c, later, id, head, get);
    BuiltIdentity(p, a);
    RecoverExact(p, c, later, id, head, get, a);
    var r := RecoverStored(p, c, later, id, head, get);
    if r.Found? {
      RecoverExact(p, c, later, id, head, get, r.artifact);
      SameStored(p, a, r.artifact);
    }
  }

  lemma BuiltIdentity(p: Platform, a: BuiltArtifact)
    requires Built(p, a)
    ensures ValidIdentity(a.manifest.identity)
  {
    var input :| Build(p, input) == Ok(a);
    BuildSeals(p, input, a);
  }

  lemma SameStored(p: Platform, a: BuiltArtifact, b: BuiltArtifact)
    requires SignedCollation(p) && Built(p, a) && Built(p, b) && Stored(a) == Stored(b)
    ensures a == b
  {
    var x :| Build(p, x) == Ok(a);
    var y :| Build(p, y) == Ok(b);
    BodyDeterminesArtifact(p, x, a, y, b);
  }

  /** Reading back by reference accepts exactly the artifact's own object at its own address. */
  lemma ReadBackExact(p: Platform, c: S3Config, objects: Objects, reference: Text, a: BuiltArtifact, get: Answer)
    requires ValidConfig(c) && SignedCollation(p) && Built(p, a)
    requires Key(c, a.manifest.identity.executionId) in objects ==>
               NoCollision(p, a.body, objects[Key(c, a.manifest.identity.executionId)].body)
    ensures var key := Key(c, a.manifest.identity.executionId);
            ReadBack(p, c, objects, reference, a, get).Ok? <==>
              && IsUuidV4(a.manifest.identity.executionId)
              && ParseReference(reference) == Ok(Location(c.bucket, key))
              && Reports(get) && key in objects && objects[key] == Stored(a)
  {
    var key := Key(c, a.manifest.identity.executionId);
    ReadBackSteps(p, c, objects, reference, a, get);
    OwnBodyReadsBack(p, a);
    GetExact(p, a, objects, key, get);
  }

  lemma ReadBackSteps(p: Platform, c: S3Config, objects: Objects, reference: Text, a: BuiltArtifact, get: Answer)
    ensures var key := Key(c, a.manifest.identity.executionId);
            var observed := StoreGet(p, objects, key, get);
            ReadBack(p, c, objects, reference, a, get).Ok? <==>
              && IsUuidV4(a.manifest.identity.executionId)
              && ParseReference(reference) == Ok(Location(c.bucket, key))
              && observed.Value? && Matches(a, observed.value.1) && VerifyBodyAgainst(p, observed.value.0, a).Ok?
  {
  }

  lemma GetExact(p: Platform, a: BuiltArtifact, objects: Objects, key: Text, get: Answer)
    requires Built(p, a) && (key in objects ==> NoCollision(p, a.body, objects[key].body))
    ensures var observed := StoreGet(p, objects, key, get);
            && (observed.Value? && Matches(a, observed.value.1) <==> Reports(get) && key in objects && objects[key] == Stored(a))
            && (observed.Value? ==> key in objects && observed.value.0 == objects[key].body)
  {
    if get.Answered? && key in objects {
      MatchesExact(p, a, objects[key], get.mask);
    }
  }

  lemma OwnBodyReadsBack(p: Platform, a: BuiltArtifact)
    requires SignedCollation(p) && Built(p, a)
    ensures VerifyBodyAgainst(p, a.body, a).Ok?
  {
    var input :| Build(p, input) == Ok(a);
    BuiltBodyVerifies(p, input, a);
  }
}
