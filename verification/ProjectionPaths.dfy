/**
  What the recorded path of a cut note denotes. The budget drops the oldest journals
  after the paths were recorded, so a path counts from the journals first selected.
*/
module ProjectionPaths {
  import opened Basics
  import opened Strings
  import opened Utf8
  import opened Sorting
  import opened Truncation
  import opened Sanitizing
  import opened Projection
  import opened ProjectionBudget
  import opened ProjectionCorrectness

  /******* Note paths and the others *******/

  lemma NotePathInjective(i: nat, j: nat)
    requires NotePath(i) == NotePath(j)
    ensures i == j
  {
    var prefix, suffix := Lit("journal_notes["), Lit("].notes");
    assert |NotePath(i)| == |prefix| + |Decimal(i)| + |suffix| && |NotePath(j)| == |prefix| + |Decimal(j)| + |suffix|;
    assert Decimal(i) == NotePath(i)[|prefix|..|prefix| + |Decimal(i)|];
    assert Decimal(j) == NotePath(j)[|prefix|..|prefix| + |Decimal(j)|];
    DecimalValue(i);
    DecimalValue(j);
  }

  predicate OtherPath(path: Text) {
    path != [] && path[0] != 'j' as int
  }

  lemma NoNotePath(path: Text, i: nat)
    requires OtherPath(path)
    ensures path != NotePath(i)
  {
    assert NotePath(i)[0] == Lit("journal_notes[")[0];
  }

  lemma FieldPathIsOther(index: nat, part: string)
    ensures OtherPath(FieldPath(index, part))
  {
    assert FieldPath(index, part)[0] == Lit("requirement_custom_fields[")[0];
  }

  lemma ChildPathIsOther(index: nat, part: string)
    ensures OtherPath(ChildPath(index, part))
  {
    assert ChildPath(index, part)[0] == Lit("children[")[0];
  }

  /** Both or neither record the note's path as truncated. */
  predicate SameNote(p: Paths, q: Paths, i: nat) {
    NotePath(i) in p.truncated <==> NotePath(i) in q.truncated
  }

  lemma AddOther(paths: seq<Text>, path: Text, i: nat)
    requires OtherPath(path)
    ensures NotePath(i) in Add(paths, path) <==> NotePath(i) in paths
  {
    NoNotePath(path, i);
  }

  lemma BoundOther(env: Environment, secrets: seq<Text>, paths: Paths, raw: Text, path: Text, max: nat, i: nat)
    requires OtherPath(path) && Bound(env, secrets, paths, raw, path, max).Ok?
    ensures SameNote(paths, Bound(env, secrets, paths, raw, path, max).value.1, i)
  {
    AddOther(paths.truncated, path, i);
  }

  lemma {:induction false} BoundAllOther(env: Environment, secrets: seq<Text>, paths: Paths, raws: seq<Text>, path: Text, max: nat, i: nat)
    requires OtherPath(path) && BoundAll(env, secrets, paths, raws, path, max).Ok?
    ensures SameNote(paths, BoundAll(env, secrets, paths, raws, path, max).value.1, i)
    decreases |raws|
  {
    if raws != [] {
      BoundOther(env, secrets, paths, raws[0], path, max, i);
      BoundAllOther(env, secrets, Bound(env, secrets, paths, raws[0], path, max).value.1, raws[1..], path, max, i);
    }
  }

  lemma {:induction false} FieldsOther(env: Environment, secrets: seq<Text>, paths: Paths, fields: seq<SourceField>, ids: seq<int>,
                                       projected: seq<FieldView>, i: nat)
    requires ProjectFields(env, secrets, paths, fields, ids, projected).Ok?
    ensures SameNote(paths, ProjectFields(env, secrets, paths, fields, ids, projected).value.1, i)
    decreases |ids|
  {
    if ids != [] {
      var found := FindField(fields, ids[0]);
      if found.None? || (env.sensitive)(found.value.name) {
        FieldsOther(env, secrets, paths, fields, ids[1..], projected, i);
      } else {
        var index := |projected|;
        FieldPathIsOther(index, "value");
        FieldPathIsOther(index, "name");
        var raws := RawValues(found.value.value);
        BoundAllOther(env, secrets, paths, raws, FieldPath(index, "value"), MAX_CUSTOM_FIELD_VALUE_BYTES, i);
        var (texts, paths1) := BoundAll(env, secrets, paths, raws, FieldPath(index, "value"), MAX_CUSTOM_FIELD_VALUE_BYTES).value;
        var kept := NotEmpty(texts);
        if kept == [] {
          FieldsOther(env, secrets, paths1, fields, ids[1..], projected, i);
        } else {
          BoundOther(env, secrets, paths1, found.value.name, FieldPath(index, "name"), MAX_NAME_BYTES, i);
          var (name, paths2) := Bound(env, secrets, paths1, found.value.name, FieldPath(index, "name"), MAX_NAME_BYTES).value;
          var value := if found.value.value.Many? then Many(kept) else One(kept[0]);
          FieldsOther(env, secrets, paths2, fields, ids[1..], projected + [FieldView(ids[0], name, value)], i);
        }
      }
    }
  }

  lemma OptionalOther(env: Environment, secrets: seq<Text>, paths: Paths, r: Option<NamedResource>, path: Text, i: nat)
    requires OtherPath(path) && BoundOptional(env, secrets, paths, r, path).Ok?
    ensures SameNote(paths, BoundOptional(env, secrets, paths, r, path).value.1, i)
  {
    if r.Some? {
      BoundOther(env, secrets, paths, r.value.name, path, MAX_NAME_BYTES, i);
    }
  }

  lemma {:induction false} ChildrenOther(env: Environment, secrets: seq<Text>, paths: Paths, kept: seq<Child>, index: nat, i: nat)
    requires ProjectChildren(env, secrets, paths, kept, index).Ok?
    ensures SameNote(paths, ProjectChildren(env, secrets, paths, kept, index).value.1, i)
    decreases |kept|
  {
    if kept != [] {
      ChildPathIsOther(index, "subject");
      ChildPathIsOther(index, "tracker.name");
      BoundOther(env, secrets, paths, kept[0].subject, ChildPath(index, "subject"), MAX_CHILD_SUBJECT_BYTES, i);
      var paths1 := Bound(env, secrets, paths, kept[0].subject, ChildPath(index, "subject"), MAX_CHILD_SUBJECT_BYTES).value.1;
      OptionalOther(env, secrets, paths1, kept[0].tracker, ChildPath(index, "tracker.name"), i);
      var paths2 := BoundOptional(env, secrets, paths1, kept[0].tracker, ChildPath(index, "tracker.name")).value.1;
      ChildrenOther(env, secrets, paths2, kept[1..], index + 1, i);
    }
  }

  lemma HeadOther(env: Environment, secrets: seq<Text>, paths: Paths, issue: SourceIssue, subject: Text, ids: seq<int>, i: nat)
    requires ProjectHead(env, secrets, paths, issue, subject, ids).Ok?
    ensures SameNote(paths, ProjectHead(env, secrets, paths, issue, subject, ids).value.1, i)
  {
    BoundOther(env, secrets, paths, issue.project.name, Lit("source.project.name"), MAX_NAME_BYTES, i);
    var p1 := BoundNamed(env, secrets, paths, issue.project, Lit("source.project.name")).value.1;
    BoundOther(env, secrets, p1, issue.tracker.name, Lit("source.tracker.name"), MAX_NAME_BYTES, i);
    var p2 := BoundNamed(env, secrets, p1, issue.tracker, Lit("source.tracker.name")).value.1;
    OptionalOther(env, secrets, p2, issue.fixedVersion, Lit("source.fixed_version.name"), i);
    var p3 := BoundOptional(env, secrets, p2, issue.fixedVersion, Lit("source.fixed_version.name")).value.1;
    BoundOther(env, secrets, p3, issue.description, Lit("source.description"), MAX_DESCRIPTION_BYTES, i);
  }

  lemma FrontOther(env: Environment, secrets: seq<Text>, issue: SourceIssue, ids: seq<int>, i: nat)
    requires ProjectFront(env, secrets, issue, ids).Ok?
    ensures SameNote(Paths([], []), ProjectFront(env, secrets, issue, ids).value.1, i)
  {
    BoundOther(env, secrets, Paths([], []), issue.subject, Lit("source.subject"), MAX_SUBJECT_BYTES, i);
    var p1 := Bound(env, secrets, Paths([], []), issue.subject, Lit("source.subject"), MAX_SUBJECT_BYTES).value.1;
    FieldsOther(env, secrets, p1, issue.customFields, ids, [], i);
  }

  /******* The paths of the notes *******/

  /** The sanitized note exceeds its bound. */
  predicate IsCut(env: Environment, secrets: seq<Text>, j: Journal) {
    Sanitize(env.rewrite, secrets, j.notes).Ok? && |Encode(Sanitize(env.rewrite, secrets, j.notes).value)| > MAX_JOURNAL_NOTE_BYTES
  }

  lemma NoteRecorded(env: Environment, secrets: seq<Text>, paths: Paths, j: Journal, index: nat, i: nat)
    requires Bound(env, secrets, paths, j.notes, NotePath(index), MAX_JOURNAL_NOTE_BYTES).Ok?
    ensures NotePath(i) in Bound(env, secrets, paths, j.notes, NotePath(index), MAX_JOURNAL_NOTE_BYTES).value.1.truncated <==>
            NotePath(i) in paths.truncated || (i == index && IsCut(env, secrets, j))
  {
    if i != index && NotePath(i) == NotePath(index) {
      NotePathInjective(i, index);
    }
    TruncateFits(Sanitize(env.rewrite, secrets, j.notes).value, MAX_JOURNAL_NOTE_BYTES);
  }

  /** The path counts a cut note among these journals, the first of which has the given index. */
  predicate Counts(env: Environment, secrets: seq<Text>, selected: seq<Journal>, index: nat, i: nat) {
    index <= i < index + |selected| && IsCut(env, secrets, selected[i - index])
  }

  lemma CountsStep(env: Environment, secrets: seq<Text>, selected: seq<Journal>, index: nat, i: nat)
    requires selected != []
    ensures Counts(env, secrets, selected, index, i) <==>
            (i == index && IsCut(env, secrets, selected[0])) || Counts(env, secrets, selected[1..], index + 1, i)
  {
    assert index < i < index + |selected| ==> selected[1..][i - (index + 1)] == selected[i - index];
  }

  lemma {:induction false} NotesRecorded(env: Environment, secrets: seq<Text>, paths: Paths, selected: seq<Journal>, index: nat, i: nat)
    requires ProjectNotes(env, secrets, paths, selected, index).Ok?
    ensures NotePath(i) in ProjectNotes(env, secrets, paths, selected, index).value.1.truncated <==>
            NotePath(i) in paths.truncated || Counts(env, secrets, selected, index, i)
    decreases |selected|
  {
    if selected != [] {
      NoteRecorded(env, secrets, paths, selected[0], index, i);
      var paths1 := Bound(env, secrets, paths, selected[0].notes, NotePath(index), MAX_JOURNAL_NOTE_BYTES).value.1;
      NotesRecorded(env, secrets, paths1, selected[1..], index + 1, i);
      CountsStep(env, secrets, selected, index, i);
    }
  }

  lemma UnboundedNotes(env: Environment, policy: Policy, issue: SourceIssue, i: nat)
    requires ProjectUnbounded(env, policy, issue).Ok?
    ensures var selected := SelectJournals(env, issue.journals);
            NotePath(i) in ProjectUnbounded(env, policy, issue).value.1.truncated <==>
              i < |selected| && IsCut(env, NormalizeSecrets(env, policy.secrets), selected[i])
  {
    var ids := NormalizeFieldIds(policy.fieldIds).value;
    var secrets := NormalizeSecrets(env, policy.secrets);
    var (front, p1) := ProjectFront(env, secrets, issue, ids).value;
    var (lists, p2) := ProjectLists(env, secrets, p1, issue).value;
    FrontOther(env, secrets, issue, ids, i);
    NotesRecorded(env, secrets, p1, SelectJournals(env, issue.journals), 0, i);
    var p := JournalNotes(env, secrets, p1, issue.journals).value.1;
    ChildrenOther(env, secrets, p, Take(Sort(ChildOrder(), issue.children), MAX_CHILDREN), 0, i);
    HeadOther(env, secrets, p2, issue, front.0, ids, i);
  }

  /******* The budget *******/

  lemma {:induction false} FieldsTruncatedOther(size: Measure, v: Input, paths: Paths, count: nat, i: nat)
    requires count <= |v.fields|
    ensures SameNote(paths, TruncateFields(size, v, paths, count).1, i)
    decreases count
  {
    if count > 0 && size(v) > MAX_SERIALIZED_BYTES {
      var (v1, paths1) := TruncateField(v, paths, count - 1);
      FieldPathIsOther(count - 1, "value");
      AddOther(paths.truncated, FieldPath(count - 1, "value"), i);
      FieldsTruncatedOther(size, Sync(v1, paths1), paths1, count - 1, i);
    }
  }

  lemma EnforceOther(size: Measure, v: Input, paths: Paths, i: nat)
    requires Enforce(size, v, paths).Ok?
    ensures SameNote(paths, Enforce(size, v, paths).value.1, i)
  {
    var v1 := Dropped(size, v);
    FieldsTruncatedOther(size, v1, paths, |v1.fields|, i);
    var (v2, paths2) := TruncateFields(size, v1, paths, |v1.fields|);
    AddOther(paths2.truncated, Lit("source.description"), i);
  }

  /** What enforcement keeps of the notes and their paths, for any measure of size. */
  lemma EnforcedNotes(size: Measure, v: Input, paths: Paths, i: nat)
    requires Enforce(size, v, paths).Ok?
    ensures var (w, q) := Enforce(size, v, paths).value;
            && (NotePath(i) in Sync(w, q).truncated <==> NotePath(i) in paths.truncated)
            && |w.journals| <= |v.journals| && w.journals == v.journals[|v.journals| - |w.journals|..]
  {
    EnforceOther(size, v, paths, i);
    EnforceShape(size, v, paths);
    SortMember(TextOrder(), Enforce(size, v, paths).value.1.truncated, NotePath(i));
  }

  lemma NoteIds(env: Environment, policy: Policy, issue: SourceIssue)
    requires ProjectUnbounded(env, policy, issue).Ok?
    ensures SameIds(ProjectUnbounded(env, policy, issue).value.0.journals, SelectJournals(env, issue.journals))
  {
    var ids := NormalizeFieldIds(policy.fieldIds).value;
    var secrets := NormalizeSecrets(env, policy.secrets);
    var p1 := ProjectFront(env, secrets, issue, ids).value.1;
    ProjectedIds(env, secrets, p1, SelectJournals(env, issue.journals));
  }

  lemma ProjectedIds(env: Environment, secrets: seq<Text>, paths: Paths, selected: seq<Journal>)
    requires ProjectNotes(env, secrets, paths, selected, 0).Ok?
    ensures SameIds(ProjectNotes(env, secrets, paths, selected, 0).value.0, selected)
  {
    NotesProjected(env, secrets, paths, selected, 0);
  }

  predicate SameIds(notes: seq<NoteView>, selected: seq<Journal>) {
    |notes| == |selected| && forall k: nat | k < |notes| :: notes[k].id == selected[k].id
  }

  /** The notes are those of the last journals selected. */
  predicate LastOf(notes: seq<NoteView>, selected: seq<Journal>) {
    |notes| <= |selected| && SameIds(notes, selected[|selected| - |notes|..])
  }

  lemma LastNotes(notes: seq<NoteView>, kept: seq<NoteView>, selected: seq<Journal>)
    requires SameIds(notes, selected) && |kept| <= |notes| && kept == notes[|notes| - |kept|..]
    ensures LastOf(kept, selected)
  {
  }

  /**
    A note path is recorded exactly for a selected journal whose note was cut, by its
    place among the journals first selected. The kept notes are the last of those, so
    once journals were dropped the path of a kept note is off by their number, and the
    path of a dropped one denotes a note that is no longer there.
  */
  lemma NotePathsDenote(env: Environment, policy: Policy, issue: SourceIssue, i: nat)
    requires Project(env, policy, issue).Ok?
    ensures var w, selected := Project(env, policy, issue).value, SelectJournals(env, issue.journals);
            && (NotePath(i) in w.truncated <==> i < |selected| && IsCut(env, NormalizeSecrets(env, policy.secrets), selected[i]))
            && LastOf(w.journals, selected)
  {
    DenotesWithin(SerializedBytes, env, policy, issue, i);
  }

  lemma DenotesWithin(size: Measure, env: Environment, policy: Policy, issue: SourceIssue, i: nat)
    requires ProjectUnbounded(env, policy, issue).Ok?
    requires var (v, paths) := ProjectUnbounded(env, policy, issue).value; Enforce(size, v, paths).Ok?
    ensures var (v, paths) := ProjectUnbounded(env, policy, issue).value;
            var (w, q) := Enforce(size, v, paths).value;
            var selected := SelectJournals(env, issue.journals);
            && (NotePath(i) in Sync(w, q).truncated <==> i < |selected| && IsCut(env, NormalizeSecrets(env, policy.secrets), selected[i]))
            && LastOf(w.journals, selected)
  {
    var (v, paths) := ProjectUnbounded(env, policy, issue).value;
    UnboundedNotes(env, policy, issue, i);
    EnforcedNotes(size, v, paths, i);
    NoteIds(env, policy, issue);
    LastNotes(v.journals, Enforce(size, v, paths).value.0.journals, SelectJournals(env, issue.journals));
  }
}
