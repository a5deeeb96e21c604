/** What a returned projection is, for every issue; and that it does not depend on the order of the issue's lists. */
module ProjectionCorrectness {
  import opened Basics
  import opened Strings
  import opened Utf8
  import opened Sorting
  import opened Collation
  import opened Truncation
  import opened Sanitizing
  import opened Projection
  import opened ProjectionBudget

  /******* Orders *******/

  predicate DistinctJournals(js: seq<Journal>) {
    forall i, j | 0 <= i < j < |js| :: js[i].id != js[j].id
  }

  lemma JournalTriple(env: Environment, a: Journal, b: Journal, c: Journal)
    requires Preordered(env.collate)
    ensures var o := OldestFirst(env);
            && (o(a, b) > 0 ==> o(b, a) <= 0)
            && (o(a, b) <= 0 && o(b, a) <= 0 ==> a.id == b.id)
            && (o(a, b) <= 0 && o(b, c) <= 0 ==> o(a, c) <= 0)
    ensures NewestFirst(env)(a, b) == OldestFirst(env)(b, a)
  {
    TextThenNumber(env.collate, a.createdOn, a.id, b.createdOn, b.id, c.createdOn, c.id);
  }

  lemma OldestLinear(env: Environment, js: seq<Journal>)
    requires Preordered(env.collate) && DistinctJournals(js)
    ensures LinearOn(OldestFirst(env), js)
  {
    var o := OldestFirst(env);
    forall i, j, k | 0 <= i < |js| && 0 <= j < |js| && 0 <= k < |js|
      ensures o(js[i], js[j]) > 0 ==> o(js[j], js[i]) <= 0
      ensures o(js[i], js[j]) <= 0 && o(js[j], js[i]) <= 0 ==> js[i] == js[j]
      ensures o(js[i], js[j]) <= 0 && o(js[j], js[k]) <= 0 ==> o(js[i], js[k]) <= 0
    {
      JournalTriple(env, js[i], js[j], js[k]);
      assert js[i].id == js[j].id ==> i == j;
    }
  }

  lemma NewestLinear(env: Environment, js: seq<Journal>)
    requires Preordered(env.collate) && DistinctJournals(js)
    ensures LinearOn(NewestFirst(env), js)
  {
    var o := NewestFirst(env);
    forall i, j, k | 0 <= i < |js| && 0 <= j < |js| && 0 <= k < |js|
      ensures o(js[i], js[j]) > 0 ==> o(js[j], js[i]) <= 0
      ensures o(js[i], js[j]) <= 0 && o(js[j], js[i]) <= 0 ==> js[i] == js[j]
      ensures o(js[i], js[j]) <= 0 && o(js[j], js[k]) <= 0 ==> o(js[i], js[k]) <= 0
    {
      JournalTriple(env, js[k], js[j], js[i]);
      JournalTriple(env, js[i], js[j], js[k]);
      JournalTriple(env, js[j], js[i], js[k]);
      assert js[i].id == js[j].id ==> i == j;
    }
  }

  function Reversed<T>(s: seq<T>): (r: seq<T>)
    ensures |r| == |s| && forall i | 0 <= i < |s| :: r[i] == s[|s| - 1 - i]
  {
    seq(|s|, i requires 0 <= i < |s| => s[|s| - 1 - i])
  }

  lemma {:induction false} ReversedPermutes<T>(s: seq<T>)
    ensures multiset(Reversed(s)) == multiset(s)
  {
    if s != [] {
      ReversedPermutes(s[1..]);
      assert Reversed(s) == Reversed(s[1..]) + [s[0]];
      assert s == [s[0]] + s[1..];
    }
  }

  lemma LinearSubset<T>(compare: (T, T) -> int, s: seq<T>, u: seq<T>)
    requires LinearOn(compare, u) && Within(s, u)
    ensures LinearOn(compare, s)
  {
    forall i, j, k | 0 <= i < |s| && 0 <= j < |s| && 0 <= k < |s|
      ensures (compare(s[i], s[j]) > 0 ==> compare(s[j], s[i]) <= 0)
      ensures compare(s[i], s[j]) <= 0 && compare(s[j], s[i]) <= 0 ==> s[i] == s[j]
      ensures compare(s[i], s[j]) <= 0 && compare(s[j], s[k]) <= 0 ==> compare(s[i], s[k]) <= 0
    {
      assert s[i] in u && s[j] in u && s[k] in u;
    }
  }

  /** Sorted newest first is the reverse of sorted oldest first. */
  lemma NewestIsReversed(env: Environment, js: seq<Journal>)
    requires Preordered(env.collate) && DistinctJournals(js)
    ensures Sort(NewestFirst(env), js) == Reversed(Sort(OldestFirst(env), js))
  {
    OldestLinear(env, js);
    NewestLinear(env, js);
    var oldest := Sort(OldestFirst(env), js);
    SortIsOrdered(OldestFirst(env), js, js);
    ReversedPermutes(oldest);
    forall i | 0 < i < |oldest| ensures NewestFirst(env)(Reversed(oldest)[i - 1], Reversed(oldest)[i]) <= 0 {
      var k := |oldest| - i;
      assert OldestFirst(env)(oldest[k - 1], oldest[k]) <= 0;
      JournalTriple(env, oldest[k], oldest[k - 1], oldest[k]);
    }
    OrderedIsSorted(NewestFirst(env), js, Reversed(oldest));
  }

  /** The newest journals, put in time order, are the end of the sorted list. */
  lemma NewestInOrder(env: Environment, js: seq<Journal>, newest: seq<Journal>, kept: seq<Journal>)
    requires Preordered(env.collate) && DistinctJournals(js) && Within(kept, js)
    requires newest == Reversed(kept) && NeighboursInOrder(OldestFirst(env), kept)
    ensures Sort(OldestFirst(env), newest) == kept
  {
    OldestLinear(env, js);
    ReversedPermutes(kept);
    PermutationWithin(newest, kept);
    WithinTransitive(newest, kept, js);
    LinearSubset(OldestFirst(env), newest, js);
    OrderedIsSorted(OldestFirst(env), newest, kept);
  }

  lemma SortedJournals(env: Environment, js: seq<Journal>)
    requires Preordered(env.collate) && DistinctJournals(js)
    ensures var sorted := Sort(OldestFirst(env), js);
            |sorted| == |js| && Within(sorted, js) && NeighboursInOrder(OldestFirst(env), sorted)
  {
    OldestLinear(env, js);
    SortIsOrdered(OldestFirst(env), js, js);
    PermutationWithin(Sort(OldestFirst(env), js), js);
  }

  lemma EndOfOrdered<T>(compare: (T, T) -> int, s: seq<T>, k: nat)
    requires k <= |s| && NeighboursInOrder(compare, s)
    ensures NeighboursInOrder(compare, s[k..]) && Within(s[k..], s)
  {
  }

  lemma FirstOfReversed<T>(s: seq<T>, max: nat)
    ensures Take(Reversed(s), max) == Reversed(s[Excess(s, max)..])
  {
  }

  lemma NewestOf(env: Environment, js: seq<Journal>, max: nat)
    requires Preordered(env.collate) && DistinctJournals(js)
    ensures var sorted := Sort(OldestFirst(env), js);
            && |sorted| == |js|
            && Sort(OldestFirst(env), Take(Sort(NewestFirst(env), js), max)) == sorted[Excess(sorted, max)..]
  {
    var sorted := Sort(OldestFirst(env), js);
    var kept := sorted[Excess(sorted, max)..];
    SortedJournals(env, js);
    NewestIsReversed(env, js);
    FirstOfReversed(sorted, max);
    EndOfOrdered(OldestFirst(env), sorted, Excess(sorted, max));
    WithinTransitive(kept, sorted, js);
    NewestInOrder(env, js, Reversed(kept), kept);
  }

  /** The selected journals are the newest ones with notes, at most ten, in time order. */
  lemma SelectionIsNewest(env: Environment, journals: seq<Journal>)
    requires Preordered(env.collate) && DistinctJournals(NonBlank(journals))
    ensures var sorted := Sort(OldestFirst(env), NonBlank(journals));
            && |sorted| == |NonBlank(journals)|
            && SelectJournals(env, journals) == sorted[Excess(sorted, MAX_JOURNALS)..]
  {
    NewestOf(env, NonBlank(journals), MAX_JOURNALS);
  }

  /******* What each list keeps of its source *******/

  /** The text a note, name or value is bounded to; it does not depend on the recorded paths. */
  function BoundedText(env: Environment, secrets: seq<Text>, raw: Text, max: nat): Result<Text> {
    match Sanitize(env.rewrite, secrets, raw)
    case Throws => Throws
    case Ok(value) => Ok(Truncate(value, max))
  }

  predicate NoteOf(env: Environment, secrets: seq<Text>, j: Journal, n: NoteView) {
    n.id == j.id && n.createdOn == j.createdOn && BoundedText(env, secrets, j.notes, MAX_JOURNAL_NOTE_BYTES) == Ok(n.notes)
  }

  predicate ChildOf(env: Environment, secrets: seq<Text>, c: Child, v: Child) {
    && v.id == c.id && BoundedText(env, secrets, c.subject, MAX_CHILD_SUBJECT_BYTES) == Ok(v.subject)
    && (v.tracker.Some? <==> c.tracker.Some?)
    && (c.tracker.Some? ==> v.tracker.value.id == c.tracker.value.id
                            && BoundedText(env, secrets, c.tracker.value.name, MAX_NAME_BYTES) == Ok(v.tracker.value.name))
  }

  lemma BoundText(env: Environment, secrets: seq<Text>, paths: Paths, raw: Text, path: Text, max: nat)
    ensures Bound(env, secrets, paths, raw, path, max).Ok? <==> BoundedText(env, secrets, raw, max).Ok?
    ensures Bound(env, secrets, paths, raw, path, max).Ok? ==>
              BoundedText(env, secrets, raw, max) == Ok(Bound(env, secrets, paths, raw, path, max).value.0)
  {
  }

  lemma {:induction false} NotesProjected(env: Environment, secrets: seq<Text>, paths: Paths, selected: seq<Journal>, index: nat)
    requires ProjectNotes(env, secrets, paths, selected, index).Ok?
    ensures var notes := ProjectNotes(env, secrets, paths, selected, index).value.0;
            |notes| == |selected| && forall i | 0 <= i < |selected| :: NoteOf(env, secrets, selected[i], notes[i])
    decreases |selected|
  {
    if selected != [] {
      var first := Bound(env, secrets, paths, selected[0].notes, NotePath(index), MAX_JOURNAL_NOTE_BYTES).value;
      BoundText(env, secrets, paths, selected[0].notes, NotePath(index), MAX_JOURNAL_NOTE_BYTES);
      NotesProjected(env, secrets, first.1, selected[1..], index + 1);
      var rest := ProjectNotes(env, secrets, first.1, selected[1..], index + 1).value.0;
      assert ProjectNotes(env, secrets, paths, selected, index).value.0
          == [NoteView(selected[0].id, selected[0].createdOn, first.0)] + rest;
    }
  }

  lemma {:induction false} ChildrenProjected(env: Environment, secrets: seq<Text>, paths: Paths, kept: seq<Child>, index: nat)
    requires ProjectChildren(env, secrets, paths, kept, index).Ok?
    ensures var views := ProjectChildren(env, secrets, paths, kept, index).value.0;
            |views| == |kept| && forall i | 0 <= i < |kept| :: ChildOf(env, secrets, kept[i], views[i])
    decreases |kept|
  {
    if kept != [] {
      var paths1 := Bound(env, secrets, paths, kept[0].subject, ChildPath(index, "subject"), MAX_CHILD_SUBJECT_BYTES).value.1;
      var paths2 := BoundOptional(env, secrets, paths1, kept[0].tracker, ChildPath(index, "tracker.name")).value.1;
      ChildrenProjected(env, secrets, paths2, kept[1..], index + 1);
    }
  }

  lemma {:induction false} RelationsProjected(issueId: int, relations: seq<Relation>)
    ensures ProjectRelations(issueId, relations).Ok? <==> forall i | 0 <= i < |relations| :: ProjectRelation(issueId, relations[i]).Ok?
    ensures ProjectRelations(issueId, relations).Ok? ==>
              && |ProjectRelations(issueId, relations).value| == |relations|
              && forall i | 0 <= i < |relations| ::
                   Ok(ProjectRelations(issueId, relations).value[i]) == ProjectRelation(issueId, relations[i])
  {
    if relations != [] {
      RelationsProjected(issueId, relations[1..]);
    }
  }

  lemma SortKeepsLength<T>(compare: (T, T) -> int, s: seq<T>)
    ensures |Sort(compare, s)| == |s|
  {
    if s != [] {
      SortKeepsLength(compare, s[1..]);
      InsertLength(compare, s[0], Sort(compare, s[1..]));
    }
  }

  lemma {:induction false} InsertLength<T>(compare: (T, T) -> int, x: T, s: seq<T>)
    ensures |Insert(compare, x, s)| == |s| + 1
  {
    if s != [] && compare(x, s[0]) > 0 {
      InsertLength(compare, x, s[1..]);
    }
  }

  /******* The whole projection *******/

  /** Kept and omitted entries account for every source entry, and the kept ones are the right ones. */
  predicate KeepsJournals(env: Environment, secrets: seq<Text>, issue: SourceIssue, notes: seq<NoteView>, omitted: nat) {
    var sorted := Sort(OldestFirst(env), NonBlank(issue.journals));
    && |notes| + omitted == |NonBlank(issue.journals)| == |sorted| && |notes| <= MAX_JOURNALS
    && forall i | 0 <= i < |notes| :: NoteOf(env, secrets, sorted[omitted + i], notes[i])
  }

  predicate KeepsChildren(env: Environment, secrets: seq<Text>, issue: SourceIssue, kept: seq<Child>, omitted: nat) {
    var sorted := Sort(ChildOrder(), issue.children);
    && |kept| + omitted == |issue.children| == |sorted| && |kept| <= MAX_CHILDREN
    && forall i | 0 <= i < |kept| :: ChildOf(env, secrets, sorted[i], kept[i])
  }

  predicate KeepsRelations(env: Environment, issue: SourceIssue, kept: seq<RelationView>, omitted: nat) {
    && ProjectRelations(issue.id, issue.relations).Ok?
    && var sorted := Sort(RelationOrder(env), ProjectRelations(issue.id, issue.relations).value);
    && |kept| + omitted == |issue.relations| == |sorted| && |kept| <= MAX_RELATIONS
    && kept == sorted[..|kept|]
  }

  predicate KeepsLists(env: Environment, secrets: seq<Text>, issue: SourceIssue, v: Input) {
    && KeepsJournals(env, secrets, issue, v.journals, v.omitted.journals)
    && KeepsRelations(env, issue, v.relations, v.omitted.relations)
    && KeepsChildren(env, secrets, issue, v.children, v.omitted.children)
  }

  lemma JournalsProjected(env: Environment, secrets: seq<Text>, paths: Paths, issue: SourceIssue)
    requires Preordered(env.collate) && DistinctJournals(NonBlank(issue.journals))
    requires JournalNotes(env, secrets, paths, issue.journals).Ok?
    ensures var (notes, omitted) := JournalNotes(env, secrets, paths, issue.journals).value.0;
            KeepsJournals(env, secrets, issue, notes, omitted)
  {
    SelectionIsNewest(env, issue.journals);
    NotesProjected(env, secrets, paths, SelectJournals(env, issue.journals), 0);
  }

  lemma SortedChildrenProjected(env: Environment, secrets: seq<Text>, paths: Paths, issue: SourceIssue)
    requires SortedChildren(env, secrets, paths, issue.children).Ok?
    ensures var (kept, omitted) := SortedChildren(env, secrets, paths, issue.children).value.0;
            KeepsChildren(env, secrets, issue, kept, omitted)
  {
    SortKeepsLength(ChildOrder(), issue.children);
    ChildrenProjected(env, secrets, paths, Take(Sort(ChildOrder(), issue.children), MAX_CHILDREN), 0);
  }

  lemma SortedRelationsProjected(env: Environment, issue: SourceIssue)
    requires SortedRelations(env, issue.id, issue.relations).Ok?
    ensures var (kept, omitted) := SortedRelations(env, issue.id, issue.relations).value;
            KeepsRelations(env, issue, kept, omitted)
  {
    RelationsProjected(issue.id, issue.relations);
    SortKeepsLength(RelationOrder(env), ProjectRelations(issue.id, issue.relations).value);
  }

  lemma ListsProjected(env: Environment, secrets: seq<Text>, paths: Paths, issue: SourceIssue)
    requires Preordered(env.collate) && DistinctJournals(NonBlank(issue.journals))
    requires ProjectLists(env, secrets, paths, issue).Ok?
    ensures var l := ProjectLists(env, secrets, paths, issue).value.0;
            && KeepsJournals(env, secrets, issue, l.journals, l.omitted.journals)
            && KeepsRelations(env, issue, l.relations, l.omitted.relations)
            && KeepsChildren(env, secrets, issue, l.children, l.omitted.children)
  {
    JournalsProjected(env, secrets, paths, issue);
    SortedRelationsProjected(env, issue);
    SortedChildrenProjected(env, secrets, JournalNotes(env, secrets, paths, issue.journals).value.1, issue);
  }

  lemma UnboundedKeepsLists(env: Environment, policy: Policy, issue: SourceIssue)
    requires Preordered(env.collate) && DistinctJournals(NonBlank(issue.journals))
    requires ProjectUnbounded(env, policy, issue).Ok?
    ensures var (u, paths) := ProjectUnbounded(env, policy, issue).value;
            KeepsLists(env, NormalizeSecrets(env, policy.secrets), issue, u) && Synced(u, paths)
  {
    var secrets := NormalizeSecrets(env, policy.secrets);
    var ids := NormalizeFieldIds(policy.fieldIds).value;
    var p1 := ProjectFront(env, secrets, issue, ids).value.1;
    ListsProjected(env, secrets, p1, issue);
  }

  /** Shortening keeps the account. */
  lemma ShortenedKeepsJournals(env: Environment, secrets: seq<Text>, issue: SourceIssue, notes: seq<NoteView>, omitted: nat, j: nat)
    requires KeepsJournals(env, secrets, issue, notes, omitted) && j <= |notes|
    ensures KeepsJournals(env, secrets, issue, notes[j..], omitted + j)
  {
    forall i | 0 <= i < |notes[j..]|
      ensures NoteOf(env, secrets, Sort(OldestFirst(env), NonBlank(issue.journals))[omitted + j + i], notes[j..][i])
    {
      assert notes[j..][i] == notes[j + i];
    }
  }

  lemma ShortenedKeepsRelations(env: Environment, issue: SourceIssue, kept: seq<RelationView>, omitted: nat, n: nat)
    requires KeepsRelations(env, issue, kept, omitted) && n <= |kept|
    ensures KeepsRelations(env, issue, kept[..n], omitted + (|kept| - n))
  {
    var sorted := Sort(RelationOrder(env), ProjectRelations(issue.id, issue.relations).value);
    assert sorted[..|kept|][..n] == sorted[..n];
  }

  lemma ShortenedKeepsChildren(env: Environment, secrets: seq<Text>, issue: SourceIssue, kept: seq<Child>, omitted: nat, n: nat)
    requires KeepsChildren(env, secrets, issue, kept, omitted) && n <= |kept|
    ensures KeepsChildren(env, secrets, issue, kept[..n], omitted + (|kept| - n))
  {
    var sorted := Sort(ChildOrder(), issue.children);
    forall i | 0 <= i < n ensures ChildOf(env, secrets, sorted[i], kept[..n][i]) {
      assert kept[..n][i] == kept[i];
    }
  }

  lemma ShortenedKeepsLists(env: Environment, secrets: seq<Text>, issue: SourceIssue, u: Input, v: Input)
    requires KeepsLists(env, secrets, issue, u) && Shortened(u, v)
    ensures KeepsLists(env, secrets, issue, v)
  {
    ShortenedKeepsJournals(env, secrets, issue, u.journals, u.omitted.journals, |u.journals| - |v.journals|);
    ShortenedKeepsRelations(env, issue, u.relations, u.omitted.relations, |v.relations|);
    ShortenedKeepsChildren(env, secrets, issue, u.children, u.omitted.children, |v.children|);
  }

  /**
    What a returned projection is: its serialized form is within the budget; of
    every list the kept and the omitted entries add up to the source's; the kept
    journals are the newest ones with notes in time order, the kept relations and
    children the first ones in their order; and before the budget was enforced it
    was a longer projection of the same issue, cut only as `WithinBudget` allows.
  */
  lemma ProjectionMeaning(env: Environment, policy: Policy, issue: SourceIssue, v: Input)
    requires Preordered(env.collate) && DistinctJournals(NonBlank(issue.journals))
    requires Project(env, policy, issue) == Ok(v)
    ensures SerializedBytes(v) <= MAX_SERIALIZED_BYTES
    ensures KeepsLists(env, NormalizeSecrets(env, policy.secrets), issue, v)
    ensures ProjectUnbounded(env, policy, issue).Ok?
    ensures WithinBudget(SerializedBytes, ProjectUnbounded(env, policy, issue).value.0, v)
  {
    var (u, paths) := ProjectUnbounded(env, policy, issue).value;
    UnboundedKeepsLists(env, policy, issue);
    EnforceMeaning(SerializedBytes, u, paths);
    ShortenedKeepsLists(env, NormalizeSecrets(env, policy.secrets), issue, u, v);
  }
}
