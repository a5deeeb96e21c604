/** The projected input and its recorded paths as they are updated in place. */
module ProjectionState {
  import opened Basics
  import opened Strings
  import opened Utf8
  import opened Sorting
  import opened Collation
  import opened Truncation
  import opened Sanitizing
  import opened Projection

  /** The configured secrets and the two sets of recorded paths. */
  class TextState {
    const env: Environment
    const secrets: seq<Text>
    var redactedPaths: seq<Text>
    var truncatedPaths: seq<Text>

    constructor (env: Environment, secrets: seq<Text>)
      ensures this.env == env && this.secrets == secrets && Recorded() == Paths([], [])
    {
      this.env, this.secrets, redactedPaths, truncatedPaths := env, secrets, [], [];
    }

    function Recorded(): Paths
      reads this
    {
      Paths(redactedPaths, truncatedPaths)
    }

    /** `sanitizeAndBoundText` */
    method SanitizeAndBound(raw: Text, path: Text, max: nat) returns (r: Result<Text>)
      modifies this
      ensures match Bound(env, secrets, old(Recorded()), raw, path, max)
              case Throws => r == Throws && Recorded() == old(Recorded())
              case Ok((bounded, paths)) => r == Ok(bounded) && Recorded() == paths
    {
      var original := NormalizeText(raw);
      var value := original;
      for k := 0 to |secrets|
        invariant value == Redact(original, secrets[..k])
        invariant Recorded() == old(Recorded())
      {
        assert secrets[..k + 1][..k] == secrets[..k];
        if secrets[k] != [] {
          value := ReplaceAll(value, secrets[k], Redacted());
        }
      }
      assert secrets[..|secrets|] == secrets;
      value := (env.rewrite)(value);
      if Leaks(value, secrets) {
        return Throws;
      }
      if value != original {
        redactedPaths := Add(redactedPaths, path);
      }
      var bounded := TruncateUtf8(value, max);
      if bounded != value {
        truncatedPaths := Add(truncatedPaths, path);
      }
      r := Ok(bounded);
    }
  }

  class GenerationInput {
    const head: Head
    var description: Text
    var fields: seq<FieldView>
    var journals: seq<NoteView>
    var relations: seq<RelationView>
    var children: seq<Child>
    var redacted: seq<Text>
    var truncated: seq<Text>
    var omitted: Omitted

    constructor (v: Input)
      ensures Value() == v
    {
      head := v.head;
      description, fields, journals, relations, children := v.description, v.fields, v.journals, v.relations, v.children;
      redacted, truncated, omitted := v.redacted, v.truncated, v.omitted;
    }

    function Value(): Input
      reads this
    {
      Input(head, description, fields, journals, relations, children, redacted, truncated, omitted)
    }

    /** `syncProjectionMetadata` */
    method SyncMetadata(state: TextState)
      modifies this`redacted, this`truncated
      ensures Value() == Sync(old(Value()), state.Recorded())
    {
      redacted := Sort(TextOrder(), state.redactedPaths);
      truncated := Sort(TextOrder(), state.truncatedPaths);
    }

    /** `truncateFinalBudgetCustomField` */
    method TruncateFinalBudgetCustomField(index: nat, state: TextState)
      requires index < |fields|
      modifies this`fields, state
      ensures (Value(), state.Recorded()) == TruncateField(old(Value()), old(state.Recorded()), index)
    {
      var field := fields[index];
      var value, changed := ReduceValue(field.value);
      if changed {
        fields := fields[index := field.(value := value)];
        state.truncatedPaths := Add(state.truncatedPaths, FieldPath(index, "value"));
      }
    }

    /** One step of the truncation of custom fields. */
    method ReduceAndSync(index: nat, state: TextState)
      requires index < |fields|
      modifies this`fields, this`redacted, this`truncated, state
      ensures var (v, paths) := TruncateField(old(Value()), old(state.Recorded()), index);
              Value() == Sync(v, paths) && state.Recorded() == paths
    {
      TruncateFinalBudgetCustomField(index, state);
      SyncMetadata(state);
    }

    method DropOldestJournals(size: Measure)
      modifies this`journals, this`omitted
      ensures Value() == DropJournals(size, old(Value()))
    {
      while size(Value()) > MAX_SERIALIZED_BYTES && journals != []
        invariant DropJournals(size, Value()) == DropJournals(size, old(Value()))
        decreases |journals|
      {
        journals := journals[1..];
        omitted := omitted.(journals := omitted.journals + 1);
      }
    }

    method DropLastChildren(size: Measure)
      modifies this`children, this`omitted
      ensures Value() == DropChildren(size, old(Value()))
    {
      while size(Value()) > MAX_SERIALIZED_BYTES && children != []
        invariant DropChildren(size, Value()) == DropChildren(size, old(Value()))
        decreases |children|
      {
        children := children[..|children| - 1];
        omitted := omitted.(children := omitted.children + 1);
      }
    }

    method DropLastRelations(size: Measure)
      modifies this`relations, this`omitted
      ensures Value() == DropRelations(size, old(Value()))
    {
      while size(Value()) > MAX_SERIALIZED_BYTES && relations != []
        invariant DropRelations(size, Value()) == DropRelations(size, old(Value()))
        decreases |relations|
      {
        relations := relations[..|relations| - 1];
        omitted := omitted.(relations := omitted.relations + 1);
      }
    }

    method TruncateCustomFields(size: Measure, state: TextState)
      modifies this, state
      ensures (Value(), state.Recorded()) == TruncateFields(size, old(Value()), old(state.Recorded()), |old(fields)|)
    {
      var count: nat := |fields|;
      while count > 0 && size(Value()) > MAX_SERIALIZED_BYTES
        invariant count <= |fields|
        invariant TruncateFields(size, Value(), state.Recorded(), count)
               == TruncateFields(size, old(Value()), old(state.Recorded()), |old(fields)|)
      {
        ghost var v, paths := Value(), state.Recorded();
        ReduceAndSync(count - 1, state);
        OneFieldLess(size, v, paths, count);
        count := count - 1;
      }
    }

    /** `enforceFinalBudget` */
    method EnforceFinalBudget(size: Measure, state: TextState) returns (ok: bool)
      modifies this, state
      ensures match Enforce(size, old(Value()), old(state.Recorded()))
              case Throws => !ok
              case Ok((w, paths)) => ok && Value() == w && state.Recorded() == paths
    {
      DropOldestJournals(size);
      DropLastChildren(size);
      DropLastRelations(size);
      TruncateCustomFields(size, state);
      if size(Value()) > MAX_SERIALIZED_BYTES {
        var reduced := TruncateUtf8(description, FINAL_BUDGET_DESCRIPTION_BYTES);
        if reduced != description {
          description := reduced;
          state.truncatedPaths := Add(state.truncatedPaths, Lit("source.description"));
          SyncMetadata(state);
        }
      }
      ok := size(Value()) <= MAX_SERIALIZED_BYTES;
    }
  }

  lemma OneFieldLess(size: Measure, v: Input, paths: Paths, count: nat)
    requires 0 < count <= |v.fields| && size(v) > MAX_SERIALIZED_BYTES
    ensures var (v1, paths1) := TruncateField(v, paths, count - 1);
            TruncateFields(size, v, paths, count) == TruncateFields(size, Sync(v1, paths1), paths1, count - 1)
  {
  }

  /** Every text reduced to at most an ellipsis, and whether that changed anything. */
  method ReduceValue(v: Value) returns (value: Value, changed: bool)
    ensures value == ReducedValue(v) && (changed <==> value != v)
  {
    match v {
      case Many(texts) =>
        changed := false;
        var reduced: seq<Text> := [];
        for i := 0 to |texts|
          invariant reduced == Reduce(texts)[..i]
          invariant changed <==> exists j | 0 <= j < i :: Reduce(texts)[j] != texts[j]
        {
          var shorter := TruncateUtf8(texts[i], ELLIPSIS_BYTES);
          changed := changed || shorter != texts[i];
          reduced := reduced + [shorter];
        }
        value := Many(reduced);
      case One(text) =>
        var reduced := TruncateUtf8(text, ELLIPSIS_BYTES);
        value, changed := One(reduced), reduced != text;
    }
  }
}
