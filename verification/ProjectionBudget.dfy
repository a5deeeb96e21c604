/** The byte budget as code, and what it keeps whatever the measure of size. */
module ProjectionBudget {
  import opened Basics
  import opened Strings
  import opened Utf8
  import opened Sorting
  import opened Collation
  import opened Truncation
  import opened Sanitizing
  import opened Projection

  /******* What dropping keeps *******/

  function WithoutJournals(v: Input, n: nat): Input
    requires n <= |v.journals|
  {
    v.(journals := v.journals[n..], omitted := v.omitted.(journals := v.omitted.journals + n))
  }

  function WithoutChildren(v: Input, n: nat): Input
    requires n <= |v.children|
  {
    v.(children := v.children[..|v.children| - n], omitted := v.omitted.(children := v.omitted.children + n))
  }

  function WithoutRelations(v: Input, n: nat): Input
    requires n <= |v.relations|
  {
    v.(relations := v.relations[..|v.relations| - n], omitted := v.omitted.(relations := v.omitted.relations + n))
  }

  predicate Fits(size: Measure, v: Input) {
    size(v) <= MAX_SERIALIZED_BYTES
  }

  /** The oldest journals go first, no more than needed. */
  lemma {:induction false} JournalsDropped(size: Measure, v: Input)
    ensures var w := DropJournals(size, v);
            var n := |v.journals| - |w.journals|;
            && 0 <= n && w == WithoutJournals(v, n)
            && (n > 0 ==> !Fits(size, WithoutJournals(v, n - 1)))
            && (Fits(size, w) || w.journals == [])
    decreases |v.journals|
  {
    if !Fits(size, v) && v.journals != [] {
      var v1 := WithoutJournals(v, 1);
      JournalsDropped(size, v1);
      var n := |v1.journals| - |DropJournals(size, v).journals|;
      assert v1.journals[n..] == v.journals[n + 1..];
      if n > 0 {
        assert v1.journals[n - 1..] == v.journals[n..];
        assert WithoutJournals(v1, n - 1) == WithoutJournals(v, n);
      } else {
        assert v.journals[0..] == v.journals;
        assert WithoutJournals(v, 0) == v;
      }
    } else {
      assert v.journals[0..] == v.journals;
    }
  }

  lemma {:induction false} ChildrenDropped(size: Measure, v: Input)
    ensures var w := DropChildren(size, v);
            var n := |v.children| - |w.children|;
            && 0 <= n && w == WithoutChildren(v, n)
            && (n > 0 ==> !Fits(size, WithoutChildren(v, n - 1)))
            && (Fits(size, w) || w.children == [])
    decreases |v.children|
  {
    if !Fits(size, v) && v.children != [] {
      var v1 := WithoutChildren(v, 1);
      ChildrenDropped(size, v1);
      var n := |v1.children| - |DropChildren(size, v).children|;
      assert v1.children[..|v1.children| - n] == v.children[..|v.children| - (n + 1)];
      if n > 0 {
        assert v1.children[..|v1.children| - (n - 1)] == v.children[..|v.children| - n];
        assert WithoutChildren(v1, n - 1) == WithoutChildren(v, n);
      } else {
        assert v.children[..|v.children|] == v.children;
        assert WithoutChildren(v, 0) == v;
      }
    } else {
      assert v.children[..|v.children|] == v.children;
    }
  }

  lemma {:induction false} RelationsDropped(size: Measure, v: Input)
    ensures var w := DropRelations(size, v);
            var n := |v.relations| - |w.relations|;
            && 0 <= n && w == WithoutRelations(v, n)
            && (n > 0 ==> !Fits(size, WithoutRelations(v, n - 1)))
            && (Fits(size, w) || w.relations == [])
    decreases |v.relations|
  {
    if !Fits(size, v) && v.relations != [] {
      var v1 := WithoutRelations(v, 1);
      RelationsDropped(size, v1);
      var n := |v1.relations| - |DropRelations(size, v).relations|;
      assert v1.relations[..|v1.relations| - n] == v.relations[..|v.relations| - (n + 1)];
      if n > 0 {
        assert v1.relations[..|v1.relations| - (n - 1)] == v.relations[..|v.relations| - n];
        assert WithoutRelations(v1, n - 1) == WithoutRelations(v, n);
      } else {
        assert v.relations[..|v.relations|] == v.relations;
        assert WithoutRelations(v, 0) == v;
      }
    } else {
      assert v.relations[..|v.relations|] == v.relations;
    }
  }

  /** How many entries of each class were dropped. */
  function Gone(v: Input, w: Input): (nat, nat, nat)
    requires |w.journals| <= |v.journals| && |w.children| <= |v.children| && |w.relations| <= |v.relations|
  {
    (|v.journals| - |w.journals|, |v.children| - |w.children|, |v.relations| - |w.relations|)
  }

  /** `w` is `v` without its oldest journals and its last children and relations, all of them counted. */
  predicate Shortened(v: Input, w: Input) {
    && |w.journals| <= |v.journals| && |w.children| <= |v.children| && |w.relations| <= |v.relations|
    && var (j, c, r) := Gone(v, w);
    && w.journals == v.journals[j..]
    && w.children == v.children[..|w.children|]
    && w.relations == v.relations[..|w.relations|]
    && w.omitted == Omitted(v.omitted.fields, v.omitted.journals + j, v.omitted.relations + r, v.omitted.children + c)
  }

  /** A later class is touched only when the earlier ones are empty. */
  predicate ClassOrder(v: Input, w: Input) {
    && (w.children != v.children ==> w.journals == [])
    && (w.relations != v.relations ==> w.children == [] && w.journals == [])
  }

  /** The three counts of dropped entries; a later class loses one only once the earlier ones are empty. */
  lemma DropCounts(size: Measure, v: Input) returns (j: nat, c: nat, r: nat)
    ensures j <= |v.journals| && c <= |v.children| && r <= |v.relations|
    ensures var v1 := WithoutJournals(v, j);
            var v2 := WithoutChildren(v1, c);
            Dropped(size, v) == WithoutRelations(v2, r)
    ensures (c > 0 ==> j == |v.journals|) && (r > 0 ==> c == |v.children| && j == |v.journals|)
    ensures !Fits(size, Dropped(size, v)) ==> j == |v.journals| && c == |v.children| && r == |v.relations|
  {
    JournalsDropped(size, v);
    var v1 := DropJournals(size, v);
    j := |v.journals| - |v1.journals|;
    ChildrenDropped(size, v1);
    var v2 := DropChildren(size, v1);
    c := |v1.children| - |v2.children|;
    RelationsDropped(size, v2);
    r := |v2.relations| - |Dropped(size, v).relations|;
    assert c > 0 ==> !Fits(size, v1);
    assert r > 0 ==> !Fits(size, v2);
  }

  lemma DroppedShape(size: Measure, v: Input)
    ensures var w := Dropped(size, v);
            && Shortened(v, w) && ClassOrder(v, w)
            && w.head == v.head && w.description == v.description && w.fields == v.fields
            && w.redacted == v.redacted && w.truncated == v.truncated
            && (!Fits(size, w) ==> w.journals == [] && w.children == [] && w.relations == [])
  {
    var j, c, r := DropCounts(size, v);
    assert c == 0 ==> v.children[..|v.children| - c] == v.children;
    assert r == 0 ==> v.relations[..|v.relations| - r] == v.relations;
  }

  /******* What truncation keeps *******/

  predicate Synced(v: Input, paths: Paths) {
    v == Sync(v, paths)
  }

  /** Everything but custom field values, the description and the recorded paths is as before. */
  predicate SameEntries(v: Input, w: Input) {
    && w.head == v.head && w.journals == v.journals && w.children == v.children && w.relations == v.relations
    && w.omitted == v.omitted && |w.fields| == |v.fields|
  }

  predicate FieldsReducedFrom(v: Input, w: Input, k: nat)
    requires |w.fields| == |v.fields|
  {
    && (forall i | 0 <= i < |v.fields| && i < k :: w.fields[i] == v.fields[i])
    && (forall i | 0 <= i < |v.fields| && k <= i :: w.fields[i] == ReducedField(v.fields[i]))
  }

  lemma TruncatedField(v: Input, paths: Paths, index: nat)
    requires index < |v.fields|
    ensures var (w, q) := TruncateField(v, paths, index);
            && w == v.(fields := v.fields[index := ReducedField(v.fields[index])])
            && q.redacted == paths.redacted && paths.truncated <= q.truncated
  {
    assert v.fields[index := v.fields[index]] == v.fields;
  }

  predicate ReducedBetween(v: Input, w: Input, k: nat, count: nat)
    requires |w.fields| == |v.fields|
  {
    forall i | 0 <= i < |v.fields| :: w.fields[i] == if k <= i < count then ReducedField(v.fields[i]) else v.fields[i]
  }

  lemma FieldsCombine(v: Input, v1: Input, w: Input, k: nat, count: nat)
    requires 0 < count <= |v.fields| && k <= count - 1 && |w.fields| == |v.fields|
    requires v1.fields == v.fields[count - 1 := ReducedField(v.fields[count - 1])] && ReducedBetween(v1, w, k, count - 1)
    ensures ReducedBetween(v, w, k, count)
  {
  }

  lemma SyncedStep(v: Input, paths: Paths, index: nat)
    requires index < |v.fields|
    ensures var (v1, p1) := TruncateField(v, paths, index);
            var w := Sync(v1, p1);
            SameEntries(v, w) && w.description == v.description && w.fields == v.fields[index := ReducedField(v.fields[index])]
  {
    TruncatedField(v, paths, index);
  }

  /** The values from some position up are reduced, the ones below are untouched; the truncation stops once it fits. */
  lemma {:induction false} FieldsTruncated(size: Measure, v: Input, paths: Paths, count: nat) returns (k: nat)
    requires count <= |v.fields|
    ensures var w := TruncateFields(size, v, paths, count).0;
            && k <= count && SameEntries(v, w) && w.description == v.description && ReducedBetween(v, w, k, count)
            && (k > 0 ==> Fits(size, w)) && (k < count ==> !Fits(size, v))
    decreases count
  {
    if count == 0 || Fits(size, v) {
      k := count;
    } else {
      var (v1, p1) := TruncateField(v, paths, count - 1);
      SyncedStep(v, paths, count - 1);
      k := FieldsTruncated(size, Sync(v1, p1), p1, count - 1);
      FieldsCombine(v, Sync(v1, p1), TruncateFields(size, Sync(v1, p1), p1, count - 1).0, k, count);
    }
  }

  /** Truncation keeps the metadata in step with the paths, and forgets none of them. */
  lemma {:induction false} FieldsTruncatedPaths(size: Measure, v: Input, paths: Paths, count: nat)
    requires count <= |v.fields| && Synced(v, paths)
    ensures var (w, q) := TruncateFields(size, v, paths, count);
            Synced(w, q) && q.redacted == paths.redacted && paths.truncated <= q.truncated
    decreases count
  {
    if count > 0 && !Fits(size, v) {
      var (v1, p1) := TruncateField(v, paths, count - 1);
      FieldsTruncatedPaths(size, Sync(v1, p1), p1, count - 1);
    }
  }

  lemma ShrinkPaths(size: Measure, v: Input, paths: Paths)
    requires Synced(v, paths)
    ensures var (w, q) := Shrink(size, v, paths);
            Synced(w, q) && q.redacted == paths.redacted && paths.truncated <= q.truncated
  {
    FieldsTruncatedPaths(size, v, paths, |v.fields|);
  }

  /** Fields are reduced from the last one down while nothing fits; the description only after all of them. */
  lemma ShrinkShape(size: Measure, v: Input, paths: Paths) returns (k: nat)
    ensures var w := Shrink(size, v, paths).0;
            && k <= |v.fields| && SameEntries(v, w) && FieldsReducedFrom(v, w, k)
            && (k < |v.fields| ==> !Fits(size, v))
            && (k > 0 ==> w.description == v.description && Fits(size, w))
            && (w.description != v.description ==> !Fits(size, v))
            && (w.description == v.description || w.description == Truncate(v.description, FINAL_BUDGET_DESCRIPTION_BYTES))
            && (!Fits(size, w) ==> w.description == Truncate(v.description, FINAL_BUDGET_DESCRIPTION_BYTES))
  {
    k := FieldsTruncated(size, v, paths, |v.fields|);
  }

  /******* The budget *******/

  /**
    What a projection within budget keeps of the one before: it fits; entries are
    dropped oldest or last first and counted; a later class is touched only when
    the earlier ones are empty; the description only when every custom field value
    is already reduced.
  */
  predicate WithinBudget(size: Measure, v: Input, w: Input) {
    && Fits(size, w)
    && w.head == v.head && |w.fields| == |v.fields|
    && Shortened(v, w) && ClassOrder(v, w)
    && (w.fields != v.fields ==> w.journals == [] && w.children == [] && w.relations == [])
    && (exists k | 0 <= k <= |v.fields| :: FieldsReducedFrom(v, w, k))
    && (w.description != v.description ==>
          && w.journals == [] && w.children == [] && w.relations == []
          && w.description == Truncate(v.description, FINAL_BUDGET_DESCRIPTION_BYTES)
          && FieldsReducedFrom(v, w, 0))
  }

  lemma EnforceShape(size: Measure, v: Input, paths: Paths)
    requires Enforce(size, v, paths).Ok?
    ensures WithinBudget(size, v, Enforce(size, v, paths).value.0)
  {
    DroppedShape(size, v);
    var k := ShrinkShape(size, Dropped(size, v), paths);
    assert FieldsReducedFrom(v, Enforce(size, v, paths).value.0, k);
  }

  /** If enforcement returns, the result is within budget in metadata too, and no recorded path was forgotten. */
  lemma EnforceMeaning(size: Measure, v: Input, paths: Paths)
    requires Synced(v, paths) && Enforce(size, v, paths).Ok?
    ensures var (w, q) := Enforce(size, v, paths).value;
            && WithinBudget(size, v, w) && Synced(w, q)
            && q.redacted == paths.redacted && paths.truncated <= q.truncated
  {
    EnforceShape(size, v, paths);
    DroppedShape(size, v);
    ShrinkPaths(size, Dropped(size, v), paths);
  }

  /** Enforcement that throws has emptied the three lists, reduced every value and cut the description, in vain. */
  lemma EnforceThrows(size: Measure, v: Input, paths: Paths)
    requires Synced(v, paths)
    ensures Enforce(size, v, paths).Throws? ==>
            exists w :: !Fits(size, w) && Shortened(v, w) && w.journals == [] && w.children == [] && w.relations == []
              && |w.fields| == |v.fields| && FieldsReducedFrom(v, w, 0)
              && w.description == Truncate(v.description, FINAL_BUDGET_DESCRIPTION_BYTES)
  {
    if Enforce(size, v, paths).Throws? {
      var v1 := Dropped(size, v);
      DroppedShape(size, v);
      var k := ShrinkShape(size, v1, paths);
      var w := Shrink(size, v1, paths).0;
      assert !Fits(size, w) && Shortened(v, w);
    }
  }
}
