/** The projection and its fingerprint do not depend on the order of an issue's lists. */
module ProjectionOrder {
  import opened Basics
  import opened Strings
  import opened Utf8
  import opened Json
  import opened PrettyJson
  import opened Encodings
  import opened Sorting
  import opened Collation
  import opened Sanitizing
  import opened Projection
  import opened ProjectionCorrectness

  /** The same issue with its four lists in any other order. */
  predicate Permuted(a: SourceIssue, b: SourceIssue) {
    && b == a.(customFields := b.customFields, journals := b.journals, relations := b.relations, children := b.children)
    && multiset(a.customFields) == multiset(b.customFields) && multiset(a.journals) == multiset(b.journals)
    && multiset(a.relations) == multiset(b.relations) && multiset(a.children) == multiset(b.children)
  }

  /** Within each list no two entries share an ID. */
  predicate DistinctSourceIds(issue: SourceIssue) {
    && (forall i, j | 0 <= i < j < |issue.customFields| :: issue.customFields[i].id != issue.customFields[j].id)
    && DistinctJournals(issue.journals)
    && (forall i, j | 0 <= i < j < |issue.relations| :: issue.relations[i].id != issue.relations[j].id)
    && (forall i, j | 0 <= i < j < |issue.children| :: issue.children[i].id != issue.children[j].id)
  }

  /******* Custom fields *******/

  lemma {:induction false} FindFieldAt(fields: seq<SourceField>, id: int)
    ensures FindField(fields, id).Some? ==> FindField(fields, id).value in fields && FindField(fields, id).value.id == id
    ensures FindField(fields, id).None? ==> forall i | 0 <= i < |fields| :: fields[i].id != id
  {
    if fields != [] && fields[0].id != id {
      FindFieldAt(fields[1..], id);
    }
  }

  lemma FindPermuted(s: seq<SourceField>, t: seq<SourceField>, id: int)
    requires multiset(s) == multiset(t)
    requires forall i, j | 0 <= i < j < |s| :: s[i].id != s[j].id
    ensures FindField(s, id) == FindField(t, id)
  {
    FindFieldAt(s, id);
    FindFieldAt(t, id);
    PermutationWithin(s, t);
    PermutationWithin(t, s);
    if FindField(s, id).Some? && FindField(t, id).Some? {
      var i :| 0 <= i < |s| && s[i] == FindField(s, id).value;
      var j :| 0 <= j < |s| && s[j] == FindField(t, id).value;
    }
  }

  lemma {:induction false} FieldsPermuted(env: Environment, secrets: seq<Text>, paths: Paths, s: seq<SourceField>, t: seq<SourceField>,
                                          ids: seq<int>, projected: seq<FieldView>)
    requires multiset(s) == multiset(t) && forall i, j | 0 <= i < j < |s| :: s[i].id != s[j].id
    ensures ProjectFields(env, secrets, paths, s, ids, projected) == ProjectFields(env, secrets, paths, t, ids, projected)
    decreases |ids|
  {
    if ids != [] {
      FindPermuted(s, t, ids[0]);
      var found := FindField(s, ids[0]);
      if found.None? || (env.sensitive)(found.value.name) {
        FieldsPermuted(env, secrets, paths, s, t, ids[1..], projected);
      } else {
        var index := |projected|;
        var texts := BoundAll(env, secrets, paths, RawValues(found.value.value), FieldPath(index, "value"), MAX_CUSTOM_FIELD_VALUE_BYTES);
        if texts.Ok? {
          var kept := NotEmpty(texts.value.0);
          if kept == [] {
            FieldsPermuted(env, secrets, texts.value.1, s, t, ids[1..], projected);
          } else {
            var name := Bound(env, secrets, texts.value.1, found.value.name, FieldPath(index, "name"), MAX_NAME_BYTES);
            if name.Ok? {
              var value := if found.value.value.Many? then Many(kept) else One(kept[0]);
              FieldsPermuted(env, secrets, name.value.1, s, t, ids[1..], projected + [FieldView(ids[0], name.value.0, value)]);
            }
          }
        }
      }
    }
  }

  /******* Journals *******/

  lemma {:induction false} NonBlankCount(js: seq<Journal>, j: Journal)
    ensures multiset(NonBlank(js))[j] == if NormalizeText(j.notes) == [] then 0 else multiset(js)[j]
  {
    if js != [] {
      NonBlankCount(js[1..], j);
      assert js == [js[0]] + js[1..];
    }
  }

  lemma NonBlankPermuted(s: seq<Journal>, t: seq<Journal>)
    requires multiset(s) == multiset(t)
    ensures multiset(NonBlank(s)) == multiset(NonBlank(t))
  {
    forall j: Journal ensures multiset(NonBlank(s))[j] == multiset(NonBlank(t))[j] {
      NonBlankCount(s, j);
      NonBlankCount(t, j);
    }
  }

  lemma {:induction false} NonBlankDistinct(js: seq<Journal>)
    requires DistinctJournals(js)
    ensures DistinctJournals(NonBlank(js)) && Within(NonBlank(js), js)
  {
    if js != [] {
      NonBlankDistinct(js[1..]);
      assert js == [js[0]] + js[1..];
      forall i | 0 <= i < |NonBlank(js[1..])| ensures NonBlank(js[1..])[i].id != js[0].id {
        var k :| 0 <= k < |js[1..]| && js[1..][k] == NonBlank(js[1..])[i];
        assert js[k + 1] == js[1..][k];
      }
    }
  }

  lemma JournalsPermuted(env: Environment, secrets: seq<Text>, paths: Paths, s: seq<Journal>, t: seq<Journal>)
    requires Preordered(env.collate) && DistinctJournals(s) && multiset(s) == multiset(t)
    ensures JournalNotes(env, secrets, paths, s) == JournalNotes(env, secrets, paths, t)
  {
    NonBlankPermuted(s, t);
    NonBlankDistinct(s);
    NewestLinear(env, NonBlank(s));
    SortIsCanonical(NewestFirst(env), NonBlank(s), NonBlank(t));
    PermutationWithin(NonBlank(s), NonBlank(t));
  }

  /******* Relations *******/

  lemma RemoveFirst<T>(s: seq<T>, t: seq<T>) returns (i: nat)
    requires multiset(s) == multiset(t) && s != []
    ensures i < |t| && t[i] == s[0] && multiset(s[1..]) == multiset(t[..i] + t[i + 1..])
  {
    PermutationWithin(s, t);
    i :| 0 <= i < |t| && t[i] == s[0];
    assert s == [s[0]] + s[1..];
    assert t == t[..i] + [t[i]] + t[i + 1..];
    assert multiset(t) == multiset(t[..i]) + multiset{t[i]} + multiset(t[i + 1..]);
    assert multiset(s[1..]) == multiset(s) - multiset{s[0]};
  }

  lemma RelationsAround(issueId: int, t: seq<Relation>, i: nat)
    requires i < |t| && ProjectRelations(issueId, t).Ok?
    ensures var rest := t[..i] + t[i + 1..];
            && ProjectRelations(issueId, rest).Ok? && ProjectRelation(issueId, t[i]).Ok?
            && multiset(ProjectRelations(issueId, t).value)
               == multiset{ProjectRelation(issueId, t[i]).value} + multiset(ProjectRelations(issueId, rest).value)
  {
    assert t == t[..i] + t[i..];
    assert t[i..][1..] == t[i + 1..];
    RelationsSplit(issueId, t[..i], t[i..]);
    RelationsSplit(issueId, t[..i], t[i + 1..]);
  }

  lemma {:induction false} RelationsPermute(issueId: int, s: seq<Relation>, t: seq<Relation>)
    requires multiset(s) == multiset(t) && ProjectRelations(issueId, s).Ok? && ProjectRelations(issueId, t).Ok?
    ensures multiset(ProjectRelations(issueId, s).value) == multiset(ProjectRelations(issueId, t).value)
  {
    PermutationWithin(s, t);
    if s != [] {
      var i := RemoveFirst(s, t);
      RelationsAround(issueId, s, 0);
      RelationsAround(issueId, t, i);
      assert s[..0] + s[1..] == s[1..];
      RelationsPermute(issueId, s[1..], t[..i] + t[i + 1..]);
    }
  }

  lemma {:induction false} RelationsSplit(issueId: int, s: seq<Relation>, t: seq<Relation>)
    ensures ProjectRelations(issueId, s + t).Ok? <==> ProjectRelations(issueId, s).Ok? && ProjectRelations(issueId, t).Ok?
    ensures ProjectRelations(issueId, s + t).Ok? ==>
              ProjectRelations(issueId, s + t).value == ProjectRelations(issueId, s).value + ProjectRelations(issueId, t).value
  {
    if s == [] {
      assert s + t == t;
    } else {
      assert (s + t)[1..] == s[1..] + t;
      RelationsSplit(issueId, s[1..], t);
    }
  }

  lemma RelationTriple(env: Environment, a: RelationView, b: RelationView, c: RelationView)
    requires Preordered(env.collate)
    ensures var o := RelationOrder(env);
            && (o(a, b) > 0 ==> o(b, a) <= 0)
            && (o(a, b) <= 0 && o(b, a) <= 0 ==> a.id == b.id)
            && (o(a, b) <= 0 && o(b, c) <= 0 ==> o(a, c) <= 0)
  {
    TextThenNumber(env.collate, a.relationType, 0, b.relationType, 0, c.relationType, 0);
    TextThenNumber(env.collate, a.relationType, a.relatedIssueId, b.relationType, b.relatedIssueId, c.relationType, c.relatedIssueId);
    TextThenNumber(env.collate, c.relationType, c.relatedIssueId, a.relationType, a.relatedIssueId, b.relationType, b.relatedIssueId);
    TextThenNumber(env.collate, b.relationType, b.relatedIssueId, c.relationType, c.relatedIssueId, a.relationType, a.relatedIssueId);
  }

  lemma RelationsLinear(env: Environment, rs: seq<RelationView>)
    requires Preordered(env.collate) && forall i, j | 0 <= i < j < |rs| :: rs[i].id != rs[j].id
    ensures LinearOn(RelationOrder(env), rs)
  {
    var o := RelationOrder(env);
    forall i, j, k | 0 <= i < |rs| && 0 <= j < |rs| && 0 <= k < |rs|
      ensures o(rs[i], rs[j]) > 0 ==> o(rs[j], rs[i]) <= 0
      ensures o(rs[i], rs[j]) <= 0 && o(rs[j], rs[i]) <= 0 ==> rs[i] == rs[j]
      ensures o(rs[i], rs[j]) <= 0 && o(rs[j], rs[k]) <= 0 ==> o(rs[i], rs[k]) <= 0
    {
      RelationTriple(env, rs[i], rs[j], rs[k]);
      assert rs[i].id == rs[j].id ==> i == j;
    }
  }

  lemma RelationsPermuted(env: Environment, issueId: int, s: seq<Relation>, t: seq<Relation>)
    requires Preordered(env.collate) && multiset(s) == multiset(t)
    requires forall i, j | 0 <= i < j < |s| :: s[i].id != s[j].id
    ensures SortedRelations(env, issueId, s) == SortedRelations(env, issueId, t)
  {
    PermutationWithin(s, t);
    PermutationWithin(t, s);
    RelationsProjected(issueId, s);
    RelationsProjected(issueId, t);
    assert ProjectRelations(issueId, s).Ok? <==> ProjectRelations(issueId, t).Ok?;
    if ProjectRelations(issueId, s).Ok? {
      var all := ProjectRelations(issueId, s).value;
      RelationsPermute(issueId, s, t);
      forall i, j | 0 <= i < j < |all| ensures all[i].id != all[j].id {
        assert Ok(all[i]) == ProjectRelation(issueId, s[i]) && Ok(all[j]) == ProjectRelation(issueId, s[j]);
      }
      RelationsLinear(env, all);
      SortIsCanonical(RelationOrder(env), all, ProjectRelations(issueId, t).value);
    }
  }

  /******* Children *******/

  lemma ChildrenPermuted(env: Environment, secrets: seq<Text>, paths: Paths, s: seq<Child>, t: seq<Child>)
    requires multiset(s) == multiset(t) && forall i, j | 0 <= i < j < |s| :: s[i].id != s[j].id
    ensures SortedChildren(env, secrets, paths, s) == SortedChildren(env, secrets, paths, t)
  {
    PermutationWithin(s, t);
    assert forall i, j | 0 <= i < |s| && 0 <= j < |s| :: s[i].id == s[j].id ==> i == j;
    assert LinearOn(ChildOrder(), s);
    SortIsCanonical(ChildOrder(), s, t);
  }

  /******* The whole projection *******/

  /** The projection of an issue is the projection of any permutation of it, whether it returns or throws. */
  lemma ProjectionIsOrderIndependent(env: Environment, policy: Policy, a: SourceIssue, b: SourceIssue)
    requires Preordered(env.collate) && DistinctSourceIds(a) && Permuted(a, b)
    ensures Project(env, policy, a) == Project(env, policy, b)
  {
    UnboundedIsOrderIndependent(env, policy, a, b);
  }

  lemma UnboundedIsOrderIndependent(env: Environment, policy: Policy, a: SourceIssue, b: SourceIssue)
    requires Preordered(env.collate) && DistinctSourceIds(a) && Permuted(a, b)
    ensures ProjectUnbounded(env, policy, a) == ProjectUnbounded(env, policy, b)
  {
    var secrets := NormalizeSecrets(env, policy.secrets);
    var ids := NormalizeFieldIds(policy.fieldIds);
    if ids.Ok? {
      FrontPermuted(env, secrets, a, b, ids.value);
      var front := ProjectFront(env, secrets, a, ids.value);
      if front.Ok? {
        ListsPermuted(env, secrets, front.value.1, a, b);
        var lists := ProjectLists(env, secrets, front.value.1, a);
        if lists.Ok? {
          HeadPermuted(env, secrets, lists.value.1, a, b, front.value.0.0, ids.value);
        }
      }
    }
  }

  lemma HeadPermuted(env: Environment, secrets: seq<Text>, paths: Paths, a: SourceIssue, b: SourceIssue, subject: Text, ids: seq<int>)
    requires Permuted(a, b)
    ensures ProjectHead(env, secrets, paths, a, subject, ids) == ProjectHead(env, secrets, paths, b, subject, ids)
  {
  }

  lemma ListsPermuted(env: Environment, secrets: seq<Text>, paths: Paths, a: SourceIssue, b: SourceIssue)
    requires Preordered(env.collate) && DistinctSourceIds(a) && Permuted(a, b)
    ensures ProjectLists(env, secrets, paths, a) == ProjectLists(env, secrets, paths, b)
  {
    JournalsPermuted(env, secrets, paths, a.journals, b.journals);
    RelationsPermuted(env, a.id, a.relations, b.relations);
    var notes := JournalNotes(env, secrets, paths, a.journals);
    if notes.Ok? {
      ChildrenPermuted(env, secrets, notes.value.1, a.children, b.children);
    }
  }

  lemma FrontPermuted(env: Environment, secrets: seq<Text>, a: SourceIssue, b: SourceIssue, ids: seq<int>)
    requires DistinctSourceIds(a) && Permuted(a, b)
    ensures ProjectFront(env, secrets, a, ids) == ProjectFront(env, secrets, b, ids)
  {
    var subject := Bound(env, secrets, Paths([], []), a.subject, Lit("source.subject"), MAX_SUBJECT_BYTES);
    if subject.Ok? {
      FieldsPermuted(env, secrets, subject.value.1, a.customFields, b.customFields, ids, []);
    }
  }

  /******* The fingerprint *******/

  function PayloadRelation(r: RelationView): Json {
    JObject([Field(Lit("relation_type"), JString(r.relationType)), Field(Lit("related_issue_id"), JInt(r.relatedIssueId))]
            + OptionalField("delay", OptionalInt(r.delay)))
  }

  function PayloadChild(c: Child): Json {
    JObject([Field(Lit("id"), JInt(c.id)), Field(Lit("subject"), JString(c.subject))]
            + OptionalField("tracker_id", if c.tracker.Some? then Some(JInt(c.tracker.value.id)) else None))
  }

  function ScopeJson(h: Head): Json {
    JObject([Field(Lit("project_id"), JInt(h.project.id)), Field(Lit("tracker_id"), JInt(h.tracker.id))]
            + OptionalField("fixed_version_id", if h.fixedVersion.Some? then Some(JInt(h.fixedVersion.value.id)) else None))
  }

  /** The requirement-bearing part of an input. */
  function PayloadJson(v: Input): Json {
    JObject([
      Field(Lit("format_version"), JInt(1)),
      Field(Lit("scope"), ScopeJson(v.head)),
      Field(Lit("subject"), JString(v.head.subject)),
      Field(Lit("description"), JString(v.description)),
      Field(Lit("requirement_custom_fields"), JArray(seq(|v.fields|, i requires 0 <= i < |v.fields| => FieldJson(v.fields[i])))),
      Field(Lit("journal_notes"), TextsJson(seq(|v.journals|, i requires 0 <= i < |v.journals| => v.journals[i].notes))),
      Field(Lit("relations"), JArray(seq(|v.relations|, i requires 0 <= i < |v.relations| => PayloadRelation(v.relations[i])))),
      Field(Lit("children"), JArray(seq(|v.children|, i requires 0 <= i < |v.children| => PayloadChild(v.children[i]))))])
  }

  /** `calculateAgentBriefRequirementsFingerprintCompat` */
  function Fingerprint(sha256: Bytes -> Bytes, v: Input): Text {
    Lit("sha256:") + Hex(sha256(Encode(Pretty(PayloadJson(v), 0) + [NEW_LINE])))
  }

  function IssueFingerprint(sha256: Bytes -> Bytes, env: Environment, policy: Policy, issue: SourceIssue): Result<Text> {
    var v :- Project(env, policy, issue);
    Ok(Fingerprint(sha256, v))
  }

  lemma FingerprintIsOrderIndependent(sha256: Bytes -> Bytes, env: Environment, policy: Policy, a: SourceIssue, b: SourceIssue)
    requires Preordered(env.collate) && DistinctSourceIds(a) && Permuted(a, b)
    ensures IssueFingerprint(sha256, env, policy, a) == IssueFingerprint(sha256, env, policy, b)
  {
    ProjectionIsOrderIndependent(env, policy, a, b);
  }
}
