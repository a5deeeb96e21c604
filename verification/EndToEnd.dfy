/**
  The protocol over the concrete artifact store: every persist and every recovery
  is a path of protocol steps, so what holds of all runs holds of stored bytes.
*/
module EndToEnd {
  import opened Basics
  import opened Strings
  import opened Utf8
  import opened Domain
  import opened Contract
  import opened ContractCorrectness
  import opened Address
  import opened S3
  import opened S3Correctness
  import opened Protocol
  import opened ProtocolSafety
  import opened ProtocolTheorems

  function Abstract(b: BuiltArtifact): Artifact {
    Artifact(b.manifest.identity, b.manifest.outcome, b.body)
  }

  ghost predicate Builds(p: Platform, x: Artifact) {
    exists b :: Built(p, b) && Abstract(b) == x
  }

  /** The production wiring: preparation's checks, the canonical builder, the deterministic address. */
  ghost function Deployment(p: Platform, c: S3Config, allowed: set<int>): Config {
    Config(allowed, RecoveryIdentity, (x: Artifact) => Builds(p, x), (id: Text) => Reference(c, id))
  }

  ghost predicate Realizes(p: Platform, o: StoredObject, x: Artifact) {
    exists b :: Built(p, b) && Abstract(b) == x && o == Stored(b)
  }

  /** The store holds exactly the protocol's artifacts, each under its execution's key. */
  ghost predicate Represents(p: Platform, c: S3Config, objects: Objects, store: map<Text, Artifact>) {
    && (forall id | id in store :: Key(c, id) in objects && Realizes(p, objects[Key(c, id)], store[id]))
    && (forall id | Key(c, id) in objects :: id in store)
  }

  lemma KeysApart(c: S3Config, x: Text, y: Text)
    ensures Key(c, x) == Key(c, y) <==> x == y
  {
    if Key(c, x) == Key(c, y) { KeyInjective(c, x, y); }
  }

  lemma RealizesUpdate(p: Platform, c: S3Config, objects: Objects, store: map<Text, Artifact>, id: Text, o: StoredObject, a: Artifact, x: Text)
    requires Realizes(p, o, a)
    requires x in store ==> Key(c, x) in objects && Realizes(p, objects[Key(c, x)], store[x])
    requires x in store[id := a]
    ensures Key(c, x) in objects[Key(c, id) := o] && Realizes(p, objects[Key(c, id) := o][Key(c, x)], store[id := a][x])
  {
    KeysApart(c, x, id);
  }

  lemma RepresentsUpdate(p: Platform, c: S3Config, objects: Objects, store: map<Text, Artifact>, id: Text, o: StoredObject, a: Artifact)
    requires Represents(p, c, objects, store) && Realizes(p, o, a)
    ensures Represents(p, c, objects[Key(c, id) := o], store[id := a])
  {
    var objects', store' := objects[Key(c, id) := o], store[id := a];
    forall x | x in store' ensures Key(c, x) in objects' && Realizes(p, objects'[Key(c, x)], store'[x]) {
      RealizesUpdate(p, c, objects, store, id, o, a, x);
    }
    forall x | Key(c, x) in objects' ensures x in store' {
      KeysApart(c, x, id);
    }
  }

  lemma RepresentsPut(p: Platform, c: S3Config, objects: Objects, store: map<Text, Artifact>, id: Text, b: BuiltArtifact)
    requires Represents(p, c, objects, store) && Built(p, b)
    ensures Represents(p, c, objects[Key(c, id) := Stored(b)], store[id := Abstract(b)])
  {
    assert Realizes(p, Stored(b), Abstract(b));
    RepresentsUpdate(p, c, objects, store, id, Stored(b), Abstract(b));
  }

  /** The stored body of an execution does not collide with the given one. */
  predicate Apart(p: Platform, c: S3Config, objects: Objects, b: BuiltArtifact) {
    var key := Key(c, b.manifest.identity.executionId);
    key in objects ==> NoCollision(p, b.body, objects[key].body)
  }

  lemma StoredIsOwn(p: Platform, c: S3Config, objects: Objects, store: map<Text, Artifact>, id: Text, b: BuiltArtifact)
    requires SignedCollation(p) && Represents(p, c, objects, store) && Built(p, b)
    requires Key(c, id) in objects && objects[Key(c, id)] == Stored(b)
    ensures id in store && store[id] == Abstract(b)
  {
    assert Realizes(p, objects[Key(c, id)], store[id]);
    var b' :| Built(p, b') && Abstract(b') == store[id] && objects[Key(c, id)] == Stored(b');
    SameStored(p, b, b');
  }

  /** A persist is a put step and, if the head request settles it, a head step. */
  lemma PersistIsProtocolSteps(p: Platform, c: S3Config, allowed: set<int>, objects: Objects, d: Durable, i: int,
                               b: BuiltArtifact, put: Answer, head: Answer) returns (d': Durable)
    requires SignedCollation(p) && Represents(p, c, objects, d.store) && Built(p, b) && Apart(p, c, objects, b)
    requires RecoveryIdentity(b.manifest.identity)
    ensures var (objects', r) := Persist(p, c, objects, b, put, head);
            var (cfg, a) := (Deployment(p, c, allowed), Abstract(b));
            var failed, confirming := Task(i, Check(FailArtifact(a.identity))), Task(i, Head(a));
            && Represents(p, c, objects', d'.store)
            && (if r.Ok? then
                  && TaskStep(cfg, d, Task(i, Pc.Put(a)), d', confirming)
                  && TaskStep(cfg, d', confirming, d', Task(i, Check(Succeed(a))))
                else TaskStep(cfg, d, Task(i, Pc.Put(a)), d', failed))
  {
    var id := b.manifest.identity.executionId;
    PersistFrame(p, c, objects, b, put, head);
    PersistExact(p, c, objects, b, put, head);
    RepresentsPut(p, c, objects, d.store, id, b);
    if Lands(objects, Key(c, id), put) {
      assert id !in d.store;
      d' := d.(store := d.store[id := Abstract(b)]);
    } else {
      d' := d;
    }
    var (objects', r) := Persist(p, c, objects, b, put, head);
    if r.Ok? {
      StoredIsOwn(p, c, objects', d'.store, id, b);
    }
  }

  /** A recovery is a head step and, if an object is there, a get step. */
  lemma RecoverIsProtocolSteps(p: Platform, c: S3Config, allowed: set<int>, objects: Objects, d: Durable, i: int,
                               id: Identity, head: Answer, get: Answer)
    requires SignedCollation(p) && Represents(p, c, objects, d.store)
    ensures var r, cfg := RecoverStored(p, c, objects, id, head, get), Deployment(p, c, allowed);
            match r
            case Found(b, _, persisted) =>
              && persisted.reference == cfg.reference(id.executionId)
              && TaskStep(cfg, d, Task(i, RecoverHead(id)), d, Task(i, RecoverGet(id)))
              && TaskStep(cfg, d, Task(i, RecoverGet(id)), d, Task(i, Check(Succeed(Abstract(b)))))
            case Missing => TaskStep(cfg, d, Task(i, RecoverHead(id)), d, Task(i, Check(Interrupt(i))))
            case Broken => TaskStep(cfg, d, Task(i, RecoverHead(id)), d, Task(i, Threw))
  {
    MissingExact(p, c, objects, id, head, get);
    var r := RecoverStored(p, c, objects, id, head, get);
    if r.Found? {
      RecoverExact(p, c, objects, id, head, get, r.artifact);
      StoredIsOwn(p, c, objects, d.store, id.executionId, r.artifact);
    }
  }

  lemma OneMoreObject(p: Platform, c: S3Config, objects: Objects, store: map<Text, Artifact>, id: Text, x: Artifact) returns (objects': Objects)
    requires Represents(p, c, objects, store) && Builds(p, x)
    ensures Represents(p, c, objects', store[id := x])
  {
    var b :| Built(p, b) && Abstract(b) == x;
    RepresentsPut(p, c, objects, store, id, b);
    objects' := objects[Key(c, id) := Stored(b)];
  }

  lemma WithoutOne(store: map<Text, Artifact>, id: Text)
    requires id in store
    ensures (store - {id})[id := store[id]] == store && |store - {id}| < |store|
  {
    assert (store - {id}).Keys == store.Keys - {id};
    assert |(store - {id}).Keys| == |store - {id}| && |store.Keys| == |store|;
  }

  lemma {:induction false} BuiltStoreIsRepresented(p: Platform, c: S3Config, store: map<Text, Artifact>) returns (objects: Objects)
    requires forall id | id in store :: Builds(p, store[id])
    ensures Represents(p, c, objects, store)
    decreases |store|
  {
    if store == map[] {
      objects := map[];
    } else {
      var id :| id in store;
      WithoutOne(store, id);
      objects := BuiltStoreIsRepresented(p, c, store - {id});
      objects := OneMoreObject(p, c, objects, store - {id}, id, store[id]);
    }
  }

  /** In every reachable state there are stored objects that the protocol's store stands for. */
  lemma ReachableStoreIsRepresented(p: Platform, c: S3Config, allowed: set<int>, states: seq<State>, k: nat) returns (objects: Objects)
    requires Run(Deployment(p, c, allowed), states) && k < |states|
    ensures Represents(p, c, objects, states[k].d.store)
  {
    var cfg, store := Deployment(p, c, allowed), states[k].d.store;
    RunKeepsInv(cfg, states, k);
    forall id | id in store ensures Builds(p, store[id]) {
      assert StoreInv(cfg, states[k].d, id);
    }
    objects := BuiltStoreIsRepresented(p, c, store);
  }

  /**
    Success implies durability, down to the bytes. In every reachable state, an
    issue at success carries a reference that parses to the deterministic key of
    its recorded execution, and recovery by the recorded identity, from any store
    that holds the protocol's objects, yields an artifact with the recorded outcome.
  */
  lemma SuccessIsRecoverable(p: Platform, c: S3Config, allowed: set<int>, states: seq<State>, k: nat, i: int,
                             objects: Objects, head: Answer, get: Answer)
    requires ValidConfig(c) && SignedCollation(p)
    requires Run(Deployment(p, c, allowed), states) && k < |states|
    requires i in states[k].d.issues && states[k].d.issues[i].record.lifecycle == ReadyForVerification
    requires Represents(p, c, objects, states[k].d.store)
    ensures var record := states[k].d.issues[i].record;
            && ParseReference(record.artifactReference) == Ok(Location(c.bucket, Key(c, record.executionId)))
            && RecordedIdentity(record, i).Some?
            && var r := RecoverStored(p, c, objects, RecordedIdentity(record, i).value, head, get);
            && r != Missing
            && (r.Found? <==> Reports(head) && Reports(get))
            && (r.Found? ==> && r.artifact.manifest.identity == RecordedIdentity(record, i).value
                             && r.artifact.manifest.outcome == record.outcome
                             && r.persisted.reference == record.artifactReference)
  {
    var cfg, d, record := Deployment(p, c, allowed), states[k].d, states[k].d.issues[i].record;
    SuccessImpliesDurability(cfg, states, k, i);
    var id := d.store[record.executionId].identity;
    assert Realizes(p, objects[Key(c, id.executionId)], d.store[id.executionId]);
    var b :| Built(p, b) && Abstract(b) == d.store[id.executionId] && objects[Key(c, id.executionId)] == Stored(b);
    ReferenceRoundTrip(c, id.executionId);
    MissingExact(p, c, objects, id, head, get);
    RecoverExact(p, c, objects, id, head, get, b);
    var r := RecoverStored(p, c, objects, id, head, get);
    if r.Found? {
      RecoverExact(p, c, objects, id, head, get, r.artifact);
      SameStored(p, b, r.artifact);
    }
  }
}
