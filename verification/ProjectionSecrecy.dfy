/** No text of a returned projection holds a configured secret, whatever the bounds and the budget cut. */
module ProjectionSecrecy {
  import opened Basics
  import opened Strings
  import opened Utf8
  import opened Sorting
  import opened Truncation
  import opened Sanitizing
  import opened Projection
  import opened ProjectionBudget

  /** A secret that a cut cannot complete. */
  predicate Keepable(secret: Text) {
    secret != [] && secret[|secret| - 1] != ELLIPSIS
  }

  predicate Clean(t: Text, secret: Text) { !Contains(t, secret) }

  predicate CleanTexts(texts: seq<Text>, secret: Text) {
    forall i | 0 <= i < |texts| :: Clean(texts[i], secret)
  }

  predicate CleanField(f: FieldView, secret: Text) {
    Clean(f.name, secret) && CleanTexts(RawValues(f.value), secret)
  }

  predicate CleanOptional(r: Option<NamedResource>, secret: Text) {
    r.Some? ==> Clean(r.value.name, secret)
  }

  predicate CleanHead(h: Head, secret: Text) {
    && Clean(h.project.name, secret) && Clean(h.tracker.name, secret) && CleanOptional(h.fixedVersion, secret)
    && Clean(h.subject, secret)
  }

  predicate CleanFields(fields: seq<FieldView>, secret: Text) {
    forall i | 0 <= i < |fields| :: CleanField(fields[i], secret)
  }

  predicate CleanNotes(notes: seq<NoteView>, secret: Text) {
    forall i | 0 <= i < |notes| :: Clean(notes[i].notes, secret)
  }

  predicate CleanChildren(children: seq<Child>, secret: Text) {
    forall i | 0 <= i < |children| :: Clean(children[i].subject, secret) && CleanOptional(children[i].tracker, secret)
  }

  /** Every text that people wrote is clean; relation types, times and numbers are not texts of theirs. */
  predicate CleanInput(v: Input, secret: Text) {
    && CleanHead(v.head, secret) && Clean(v.description, secret)
    && CleanFields(v.fields, secret) && CleanNotes(v.journals, secret) && CleanChildren(v.children, secret)
  }

  /******* What is projected is clean *******/

  lemma BoundIsClean(env: Environment, secrets: seq<Text>, paths: Paths, raw: Text, path: Text, max: nat, secret: Text)
    requires secret in secrets && Keepable(secret)
    ensures Bound(env, secrets, paths, raw, path, max).Ok? ==> Clean(Bound(env, secrets, paths, raw, path, max).value.0, secret)
  {
    if Sanitize(env.rewrite, secrets, raw).Ok? {
      NoSecretSurvives(env.rewrite, secrets, raw, max, secret);
    }
  }

  lemma {:induction false} BoundAllIsClean(env: Environment, secrets: seq<Text>, paths: Paths, raws: seq<Text>, path: Text, max: nat, secret: Text)
    requires secret in secrets && Keepable(secret) && BoundAll(env, secrets, paths, raws, path, max).Ok?
    ensures CleanTexts(BoundAll(env, secrets, paths, raws, path, max).value.0, secret)
    decreases |raws|
  {
    if raws != [] {
      BoundIsClean(env, secrets, paths, raws[0], path, max, secret);
      var paths1 := Bound(env, secrets, paths, raws[0], path, max).value.1;
      BoundAllIsClean(env, secrets, paths1, raws[1..], path, max, secret);
    }
  }

  lemma {:induction false} NotEmptyIsClean(texts: seq<Text>, secret: Text)
    requires CleanTexts(texts, secret)
    ensures CleanTexts(NotEmpty(texts), secret)
  {
    if texts != [] {
      assert forall i | 0 <= i < |texts[1..]| :: texts[1..][i] == texts[i + 1];
      NotEmptyIsClean(texts[1..], secret);
    }
  }

  lemma {:induction false} FieldsAreClean(env: Environment, secrets: seq<Text>, paths: Paths, fields: seq<SourceField>, ids: seq<int>,
                                          projected: seq<FieldView>, secret: Text)
    requires secret in secrets && Keepable(secret) && CleanFields(projected, secret)
    requires ProjectFields(env, secrets, paths, fields, ids, projected).Ok?
    ensures CleanFields(ProjectFields(env, secrets, paths, fields, ids, projected).value.0, secret)
    decreases |ids|
  {
    if ids != [] {
      var found := FindField(fields, ids[0]);
      if found.None? || (env.sensitive)(found.value.name) {
        FieldsAreClean(env, secrets, paths, fields, ids[1..], projected, secret);
      } else {
        var index := |projected|;
        var raws, path := RawValues(found.value.value), FieldPath(index, "value");
        var (texts, paths1) := BoundAll(env, secrets, paths, raws, path, MAX_CUSTOM_FIELD_VALUE_BYTES).value;
        BoundAllIsClean(env, secrets, paths, raws, path, MAX_CUSTOM_FIELD_VALUE_BYTES, secret);
        NotEmptyIsClean(texts, secret);
        var kept := NotEmpty(texts);
        if kept == [] {
          FieldsAreClean(env, secrets, paths1, fields, ids[1..], projected, secret);
        } else {
          BoundIsClean(env, secrets, paths1, found.value.name, FieldPath(index, "name"), MAX_NAME_BYTES, secret);
          var (name, paths2) := Bound(env, secrets, paths1, found.value.name, FieldPath(index, "name"), MAX_NAME_BYTES).value;
          var field := FieldView(ids[0], name, if found.value.value.Many? then Many(kept) else One(kept[0]));
          assert CleanField(field, secret);
          FieldsAreClean(env, secrets, paths2, fields, ids[1..], projected + [field], secret);
        }
      }
    }
  }

  lemma {:induction false} NotesAreClean(env: Environment, secrets: seq<Text>, paths: Paths, selected: seq<Journal>, index: nat, secret: Text)
    requires secret in secrets && Keepable(secret) && ProjectNotes(env, secrets, paths, selected, index).Ok?
    ensures CleanNotes(ProjectNotes(env, secrets, paths, selected, index).value.0, secret)
    decreases |selected|
  {
    if selected != [] {
      BoundIsClean(env, secrets, paths, selected[0].notes, NotePath(index), MAX_JOURNAL_NOTE_BYTES, secret);
      var paths1 := Bound(env, secrets, paths, selected[0].notes, NotePath(index), MAX_JOURNAL_NOTE_BYTES).value.1;
      NotesAreClean(env, secrets, paths1, selected[1..], index + 1, secret);
    }
  }

  lemma OptionalIsClean(env: Environment, secrets: seq<Text>, paths: Paths, r: Option<NamedResource>, path: Text, secret: Text)
    requires secret in secrets && Keepable(secret) && BoundOptional(env, secrets, paths, r, path).Ok?
    ensures CleanOptional(BoundOptional(env, secrets, paths, r, path).value.0, secret)
  {
    if r.Some? {
      BoundIsClean(env, secrets, paths, r.value.name, path, MAX_NAME_BYTES, secret);
    }
  }

  lemma {:induction false} ChildrenAreClean(env: Environment, secrets: seq<Text>, paths: Paths, kept: seq<Child>, index: nat, secret: Text)
    requires secret in secrets && Keepable(secret) && ProjectChildren(env, secrets, paths, kept, index).Ok?
    ensures CleanChildren(ProjectChildren(env, secrets, paths, kept, index).value.0, secret)
    decreases |kept|
  {
    if kept != [] {
      BoundIsClean(env, secrets, paths, kept[0].subject, ChildPath(index, "subject"), MAX_CHILD_SUBJECT_BYTES, secret);
      var paths1 := Bound(env, secrets, paths, kept[0].subject, ChildPath(index, "subject"), MAX_CHILD_SUBJECT_BYTES).value.1;
      OptionalIsClean(env, secrets, paths1, kept[0].tracker, ChildPath(index, "tracker.name"), secret);
      var paths2 := BoundOptional(env, secrets, paths1, kept[0].tracker, ChildPath(index, "tracker.name")).value.1;
      ChildrenAreClean(env, secrets, paths2, kept[1..], index + 1, secret);
    }
  }

  lemma HeadIsClean(env: Environment, secrets: seq<Text>, paths: Paths, issue: SourceIssue, subject: Text, ids: seq<int>, secret: Text)
    requires secret in secrets && Keepable(secret) && Clean(subject, secret)
    requires ProjectHead(env, secrets, paths, issue, subject, ids).Ok?
    ensures var (head, description) := ProjectHead(env, secrets, paths, issue, subject, ids).value.0;
            CleanHead(head, secret) && Clean(description, secret)
  {
    BoundIsClean(env, secrets, paths, issue.project.name, Lit("source.project.name"), MAX_NAME_BYTES, secret);
    var p1 := BoundNamed(env, secrets, paths, issue.project, Lit("source.project.name")).value.1;
    BoundIsClean(env, secrets, p1, issue.tracker.name, Lit("source.tracker.name"), MAX_NAME_BYTES, secret);
    var p2 := BoundNamed(env, secrets, p1, issue.tracker, Lit("source.tracker.name")).value.1;
    OptionalIsClean(env, secrets, p2, issue.fixedVersion, Lit("source.fixed_version.name"), secret);
    var p3 := BoundOptional(env, secrets, p2, issue.fixedVersion, Lit("source.fixed_version.name")).value.1;
    BoundIsClean(env, secrets, p3, issue.description, Lit("source.description"), MAX_DESCRIPTION_BYTES, secret);
  }

  lemma FrontIsClean(env: Environment, secrets: seq<Text>, issue: SourceIssue, ids: seq<int>, secret: Text)
    requires secret in secrets && Keepable(secret) && ProjectFront(env, secrets, issue, ids).Ok?
    ensures var (subject, fields) := ProjectFront(env, secrets, issue, ids).value.0;
            Clean(subject, secret) && CleanFields(fields, secret)
  {
    BoundIsClean(env, secrets, Paths([], []), issue.subject, Lit("source.subject"), MAX_SUBJECT_BYTES, secret);
    var p1 := Bound(env, secrets, Paths([], []), issue.subject, Lit("source.subject"), MAX_SUBJECT_BYTES).value.1;
    FieldsAreClean(env, secrets, p1, issue.customFields, ids, [], secret);
  }

  lemma ListsAreClean(env: Environment, secrets: seq<Text>, paths: Paths, issue: SourceIssue, secret: Text)
    requires secret in secrets && Keepable(secret) && ProjectLists(env, secrets, paths, issue).Ok?
    ensures var lists := ProjectLists(env, secrets, paths, issue).value.0;
            CleanNotes(lists.journals, secret) && CleanChildren(lists.children, secret)
  {
    NotesAreClean(env, secrets, paths, SelectJournals(env, issue.journals), 0, secret);
    var p1 := JournalNotes(env, secrets, paths, issue.journals).value.1;
    ChildrenAreClean(env, secrets, p1, Take(Sort(ChildOrder(), issue.children), MAX_CHILDREN), 0, secret);
  }

  lemma UnboundedIsClean(env: Environment, policy: Policy, issue: SourceIssue, secret: Text)
    requires secret in NormalizeSecrets(env, policy.secrets) && Keepable(secret) && ProjectUnbounded(env, policy, issue).Ok?
    ensures CleanInput(ProjectUnbounded(env, policy, issue).value.0, secret)
  {
    var ids := NormalizeFieldIds(policy.fieldIds).value;
    var secrets := NormalizeSecrets(env, policy.secrets);
    var (front, p1) := ProjectFront(env, secrets, issue, ids).value;
    var (lists, p2) := ProjectLists(env, secrets, p1, issue).value;
    FrontIsClean(env, secrets, issue, ids, secret);
    ListsAreClean(env, secrets, p1, issue, secret);
    HeadIsClean(env, secrets, p2, issue, front.0, ids, secret);
  }

  /******* What the budget cuts stays clean *******/

  lemma TruncatedIsClean(t: Text, max: nat, secret: Text)
    requires Clean(t, secret) && Keepable(secret)
    ensures Clean(Truncate(t, max), secret)
  {
    TruncationLeaksExactly(t, max, secret);
  }

  lemma ReducedIsClean(f: FieldView, secret: Text)
    requires CleanField(f, secret) && Keepable(secret)
    ensures CleanField(ReducedField(f), secret)
  {
    var raws, texts := RawValues(f.value), RawValues(ReducedField(f).value);
    forall i | 0 <= i < |texts| ensures Clean(texts[i], secret) {
      TruncatedIsClean(raws[i], ELLIPSIS_BYTES, secret);
    }
  }

  lemma ReducedFieldsAreClean(v: Input, w: Input, k: nat, secret: Text)
    requires |w.fields| == |v.fields| && FieldsReducedFrom(v, w, k) && CleanFields(v.fields, secret) && Keepable(secret)
    ensures CleanFields(w.fields, secret)
  {
    forall i | 0 <= i < |w.fields| ensures CleanField(w.fields[i], secret) {
      assert CleanField(v.fields[i], secret);
      ReducedIsClean(v.fields[i], secret);
    }
  }

  lemma BudgetKeepsClean(size: Measure, v: Input, w: Input, secret: Text)
    requires WithinBudget(size, v, w) && CleanInput(v, secret) && Keepable(secret)
    ensures CleanInput(w, secret)
  {
    var k :| 0 <= k <= |v.fields| && FieldsReducedFrom(v, w, k);
    ReducedFieldsAreClean(v, w, k, secret);
    TruncatedIsClean(v.description, FINAL_BUDGET_DESCRIPTION_BYTES, secret);
    forall i | 0 <= i < |w.journals| ensures Clean(w.journals[i].notes, secret) {
      assert w.journals[i] == v.journals[i + (|v.journals| - |w.journals|)];
    }
    forall i | 0 <= i < |w.children| ensures Clean(w.children[i].subject, secret) && CleanOptional(w.children[i].tracker, secret) {
      assert w.children[i] == v.children[i];
    }
  }

  /******* The whole projection *******/

  lemma {:induction false} NotEmptyKeeps(texts: seq<Text>, t: Text)
    requires t in texts && t != []
    ensures t in NotEmpty(texts)
  {
    if texts[0] != t {
      assert t in texts[1..];
      NotEmptyKeeps(texts[1..], t);
    }
  }

  lemma {:induction false} DistinctKeeps<T>(s: seq<T>, x: T)
    requires x in s
    ensures x in Distinct(s)
  {
    if s[|s| - 1] != x {
      assert x in s[..|s| - 1];
      DistinctKeeps(s[..|s| - 1], x);
    }
  }

  /**
    A returned projection holds no configured secret in any text that people wrote,
    unless the secret ends with the ellipsis that cuts put at the end of a text.
  */
  lemma ProjectionIsClean(env: Environment, policy: Policy, issue: SourceIssue, secret: Text)
    requires secret in policy.secrets && Keepable(secret) && Project(env, policy, issue).Ok?
    ensures CleanInput(Project(env, policy, issue).value, secret)
  {
    NotEmptyKeeps(policy.secrets, secret);
    DistinctKeeps(NotEmpty(policy.secrets), secret);
    SortMember(SecretOrder(env), Distinct(NotEmpty(policy.secrets)), secret);
    var (v, paths) := ProjectUnbounded(env, policy, issue).value;
    UnboundedIsClean(env, policy, issue, secret);
    EnforceShape(SerializedBytes, v, paths);
    BudgetKeepsClean(SerializedBytes, v, Enforce(SerializedBytes, v, paths).value.0, secret);
  }
}
