/** The requirements projection of an issue: bounded, sanitized, sorted, and cut to a byte budget. */
module Projection {
  import opened Basics
  import opened Strings
  import opened Patterns
  import opened Utf8
  import opened Json
  import opened PrettyJson
  import opened Sorting
  import opened Collation
  import opened Truncation
  import opened Sanitizing

  const MAX_SERIALIZED_BYTES := 24576
  const MAX_REQUIREMENT_CUSTOM_FIELDS := 8
  const MAX_JOURNALS := 10
  const MAX_RELATIONS := 20
  const MAX_CHILDREN := 10
  const MAX_NAME_BYTES := 256
  const MAX_SUBJECT_BYTES := 512
  const MAX_DESCRIPTION_BYTES := 8192
  const MAX_CUSTOM_FIELD_VALUE_BYTES := 1024
  const MAX_JOURNAL_NOTE_BYTES := 1024
  const MAX_CHILD_SUBJECT_BYTES := 512
  const FINAL_BUDGET_DESCRIPTION_BYTES := 256

  /******* The source issue *******/

  datatype NamedResource = NamedResource(id: int, name: Text)

  datatype Value = One(text: Text) | Many(texts: seq<Text>)

  datatype SourceField = SourceField(id: int, name: Text, value: Value)

  datatype Journal = Journal(id: int, notes: Text, createdOn: Text)

  datatype Relation = Relation(id: int, issueId: int, issueToId: int, relationType: Text, delay: Option<int>)

  datatype Child = Child(id: int, subject: Text, tracker: Option<NamedResource>)

  datatype SourceIssue = SourceIssue(
    id: int,
    project: NamedResource,
    tracker: NamedResource,
    fixedVersion: Option<NamedResource>,
    subject: Text,
    description: Text,
    customFields: seq<SourceField>,
    updatedOn: Text,
    journals: seq<Journal>,
    relations: seq<Relation>,
    children: seq<Child>)

  /** What is left abstract: collation, the credential-syntax rewrite, and the test of sensitive names. */
  datatype Environment = Environment(collate: Collate, rewrite: Text -> Text, sensitive: Text -> bool)

  datatype Policy = Policy(fieldIds: seq<int>, secrets: seq<Text>)

  /******* The projected input *******/

  datatype FieldView = FieldView(id: int, name: Text, value: Value)

  datatype NoteView = NoteView(id: int, createdOn: Text, notes: Text)

  datatype RelationView = RelationView(id: int, relationType: Text, relatedIssueId: int, delay: Option<int>)

  datatype Omitted = Omitted(fields: nat, journals: nat, relations: nat, children: nat)

  /** What no later step changes. */
  datatype Head = Head(
    issueId: int,
    updatedOn: Text,
    project: NamedResource,
    tracker: NamedResource,
    fixedVersion: Option<NamedResource>,
    subject: Text,
    fieldIds: seq<int>)

  datatype Input = Input(
    head: Head,
    description: Text,
    fields: seq<FieldView>,
    journals: seq<NoteView>,
    relations: seq<RelationView>,
    children: seq<Child>,
    redacted: seq<Text>,
    truncated: seq<Text>,
    omitted: Omitted)

  /** The two sets of paths, in the order they were added. */
  datatype Paths = Paths(redacted: seq<Text>, truncated: seq<Text>)

  function Add(paths: seq<Text>, path: Text): seq<Text> {
    if path in paths then paths else paths + [path]
  }

  /******* Texts *******/

  /** `sanitizeAndBoundText` */
  function Bound(env: Environment, secrets: seq<Text>, paths: Paths, raw: Text, path: Text, max: nat): Result<(Text, Paths)> {
    match Sanitize(env.rewrite, secrets, raw)
    case Throws => Throws
    case Ok(value) =>
      var redacted := if value != NormalizeText(raw) then Add(paths.redacted, path) else paths.redacted;
      var bounded := Truncate(value, max);
      var truncated := if bounded != value then Add(paths.truncated, path) else paths.truncated;
      Ok((bounded, Paths(redacted, truncated)))
  }

  function Distinct<T(==)>(s: seq<T>): seq<T> {
    if s == [] then []
    else
      var init := Distinct(s[..|s| - 1]);
      if s[|s| - 1] in init then init else init + [s[|s| - 1]]
  }

  function NotEmpty(texts: seq<Text>): seq<Text> {
    if texts == [] then [] else (if texts[0] == [] then [] else [texts[0]]) + NotEmpty(texts[1..])
  }

  function SecretOrder(env: Environment): (Text, Text) -> int {
    (a: Text, b: Text) => Then(|b| - |a|, (env.collate)(a, b))
  }

  function NormalizeSecrets(env: Environment, secrets: seq<Text>): seq<Text> {
    Sort(SecretOrder(env), Distinct(NotEmpty(secrets)))
  }

  function NumberOrder(): (int, int) -> int {
    (a: int, b: int) => a - b
  }

  function NormalizeFieldIds(ids: seq<int>): Result<seq<int>> {
    var normalized := Sort(NumberOrder(), Distinct(ids));
    :- Need(|normalized| <= MAX_REQUIREMENT_CUSTOM_FIELDS && forall i | 0 <= i < |normalized| :: PositiveSafeInteger(normalized[i]));
    Ok(normalized)
  }

  predicate ValidNamed(r: NamedResource) {
    PositiveSafeInteger(r.id) && !Blank(r.name)
  }

  predicate ValidSource(issue: SourceIssue) {
    && PositiveSafeInteger(issue.id) && ValidNamed(issue.project) && ValidNamed(issue.tracker)
    && (issue.fixedVersion.Some? ==> ValidNamed(issue.fixedVersion.value))
    && IsTimestamp(issue.updatedOn)
  }

  /******* Custom fields *******/

  function FindField(fields: seq<SourceField>, id: int): Option<SourceField> {
    if fields == [] then None else if fields[0].id == id then Some(fields[0]) else FindField(fields[1..], id)
  }

  function FieldPath(index: nat, part: string): Text {
    Lit("requirement_custom_fields[") + Index(index) + Lit("].") + Lit(part)
  }

  function Index(n: nat): Text { Decimal(n) }

  function BoundAll(env: Environment, secrets: seq<Text>, paths: Paths, raws: seq<Text>, path: Text, max: nat): Result<(seq<Text>, Paths)>
    decreases |raws|
  {
    if raws == [] then Ok(([], paths))
    else
      var (first, paths1) :- Bound(env, secrets, paths, raws[0], path, max);
      var (rest, paths2) :- BoundAll(env, secrets, paths1, raws[1..], path, max);
      Ok(([first] + rest, paths2))
  }

  function RawValues(v: Value): seq<Text> {
    match v
    case One(t) => [t]
    case Many(ts) => ts
  }

  function ProjectFields(env: Environment, secrets: seq<Text>, paths: Paths, fields: seq<SourceField>, ids: seq<int>, projected: seq<FieldView>)
    : Result<(seq<FieldView>, Paths)>
    decreases |ids|
  {
    if ids == [] then Ok((projected, paths))
    else
      var found := FindField(fields, ids[0]);
      if found.None? || (env.sensitive)(found.value.name) then ProjectFields(env, secrets, paths, fields, ids[1..], projected)
      else
        var index := |projected|;
        var (texts, paths1) :- BoundAll(env, secrets, paths, RawValues(found.value.value), FieldPath(index, "value"), MAX_CUSTOM_FIELD_VALUE_BYTES);
        var kept := NotEmpty(texts);
        if kept == [] then ProjectFields(env, secrets, paths1, fields, ids[1..], projected)
        else
          var (name, paths2) :- Bound(env, secrets, paths1, found.value.name, FieldPath(index, "name"), MAX_NAME_BYTES);
          var value := if found.value.value.Many? then Many(kept) else One(kept[0]);
          ProjectFields(env, secrets, paths2, fields, ids[1..], projected + [FieldView(ids[0], name, value)])
  }

  /******* Journals, relations, children *******/

  function Take<T>(s: seq<T>, n: nat): seq<T> {
    if |s| <= n then s else s[..n]
  }

  function NonBlank(journals: seq<Journal>): seq<Journal> {
    if journals == [] then []
    else (if NormalizeText(journals[0].notes) == [] then [] else [journals[0]]) + NonBlank(journals[1..])
  }

  function NewestFirst(env: Environment): (Journal, Journal) -> int {
    (a: Journal, b: Journal) => Then((env.collate)(b.createdOn, a.createdOn), b.id - a.id)
  }

  function OldestFirst(env: Environment): (Journal, Journal) -> int {
    (a: Journal, b: Journal) => Then((env.collate)(a.createdOn, b.createdOn), a.id - b.id)
  }

  /** The newest journals with notes, oldest first. */
  function SelectJournals(env: Environment, journals: seq<Journal>): seq<Journal> {
    Sort(OldestFirst(env), Take(Sort(NewestFirst(env), NonBlank(journals)), MAX_JOURNALS))
  }

  function NotePath(index: nat): Text {
    Lit("journal_notes[") + Index(index) + Lit("].notes")
  }

  function ProjectNotes(env: Environment, secrets: seq<Text>, paths: Paths, selected: seq<Journal>, index: nat): Result<(seq<NoteView>, Paths)>
    decreases |selected|
  {
    if selected == [] then Ok(([], paths))
    else
      var j := selected[0];
      var (notes, paths1) :- Bound(env, secrets, paths, j.notes, NotePath(index), MAX_JOURNAL_NOTE_BYTES);
      var (rest, paths2) :- ProjectNotes(env, secrets, paths1, selected[1..], index + 1);
      Ok(([NoteView(j.id, j.createdOn, notes)] + rest, paths2))
  }

  /** `projectJournalNotes`, with the number of journals left out. */
  function JournalNotes(env: Environment, secrets: seq<Text>, paths: Paths, journals: seq<Journal>): Result<((seq<NoteView>, nat), Paths)> {
    var selected := SelectJournals(env, journals);
    var (notes, paths1) :- ProjectNotes(env, secrets, paths, selected, 0);
    Ok(((notes, Excess(NonBlank(journals), MAX_JOURNALS)), paths1))
  }

  /** How many elements `Take` leaves out. */
  function Excess<T>(s: seq<T>, n: nat): nat {
    if |s| <= n then 0 else |s| - n
  }

  /** The other end of a relation; one that does not touch the issue throws. */
  function ProjectRelation(issueId: int, r: Relation): Result<RelationView> {
    var related := if r.issueId == issueId then r.issueToId else if r.issueToId == issueId then r.issueId else 0;
    :- Need(related > 0);
    Ok(RelationView(r.id, r.relationType, related, r.delay))
  }

  function ProjectRelations(issueId: int, relations: seq<Relation>): Result<seq<RelationView>> {
    if relations == [] then Ok([])
    else
      var first :- ProjectRelation(issueId, relations[0]);
      var rest :- ProjectRelations(issueId, relations[1..]);
      Ok([first] + rest)
  }

  function RelationOrder(env: Environment): (RelationView, RelationView) -> int {
    (a: RelationView, b: RelationView) =>
      Then((env.collate)(a.relationType, b.relationType), Then(a.relatedIssueId - b.relatedIssueId, a.id - b.id))
  }

  /** `projectRelations` */
  function SortedRelations(env: Environment, issueId: int, relations: seq<Relation>): Result<(seq<RelationView>, nat)> {
    var all :- ProjectRelations(issueId, relations);
    Ok((Take(Sort(RelationOrder(env), all), MAX_RELATIONS), Excess(all, MAX_RELATIONS)))
  }

  function ChildOrder(): (Child, Child) -> int {
    (a: Child, b: Child) => a.id - b.id
  }

  function ChildPath(index: nat, part: string): Text {
    Lit("children[") + Index(index) + Lit("].") + Lit(part)
  }

  function BoundNamed(env: Environment, secrets: seq<Text>, paths: Paths, r: NamedResource, path: Text): Result<(NamedResource, Paths)> {
    var (name, paths1) :- Bound(env, secrets, paths, r.name, path, MAX_NAME_BYTES);
    Ok((NamedResource(r.id, name), paths1))
  }

  function BoundOptional(env: Environment, secrets: seq<Text>, paths: Paths, r: Option<NamedResource>, path: Text)
    : Result<(Option<NamedResource>, Paths)>
  {
    match r
    case None => Ok((None, paths))
    case Some(named) =>
      var (bounded, paths1) :- BoundNamed(env, secrets, paths, named, path);
      Ok((Some(bounded), paths1))
  }

  function ProjectChildren(env: Environment, secrets: seq<Text>, paths: Paths, kept: seq<Child>, index: nat): Result<(seq<Child>, Paths)>
    decreases |kept|
  {
    if kept == [] then Ok(([], paths))
    else
      var (subject, paths1) :- Bound(env, secrets, paths, kept[0].subject, ChildPath(index, "subject"), MAX_CHILD_SUBJECT_BYTES);
      var (tracker, paths2) :- BoundOptional(env, secrets, paths1, kept[0].tracker, ChildPath(index, "tracker.name"));
      var (rest, paths3) :- ProjectChildren(env, secrets, paths2, kept[1..], index + 1);
      Ok(([Child(kept[0].id, subject, tracker)] + rest, paths3))
  }

  /** `projectChildren` */
  function SortedChildren(env: Environment, secrets: seq<Text>, paths: Paths, children: seq<Child>): Result<((seq<Child>, nat), Paths)> {
    var (kept, paths1) :- ProjectChildren(env, secrets, paths, Take(Sort(ChildOrder(), children), MAX_CHILDREN), 0);
    Ok(((kept, Excess(children, MAX_CHILDREN)), paths1))
  }

  /******* Metadata *******/

  function TextOrder(): (Text, Text) -> int {
    (a: Text, b: Text) => if a == b then 0 else if LexLess(a, b) then -1 else 1
  }

  /** `syncProjectionMetadata` */
  function Sync(v: Input, paths: Paths): Input {
    v.(redacted := Sort(TextOrder(), paths.redacted), truncated := Sort(TextOrder(), paths.truncated))
  }

  predicate HasRequirementSource(v: Input) {
    v.head.subject != [] || v.description != [] || v.fields != [] || v.journals != [] || v.relations != [] || v.children != []
  }

  /******* The byte budget, over any measure of size *******/

  type Measure = Input -> nat

  function DropJournals(size: Measure, v: Input): Input
    decreases |v.journals|
  {
    if size(v) > MAX_SERIALIZED_BYTES && v.journals != [] then
      DropJournals(size, v.(journals := v.journals[1..], omitted := v.omitted.(journals := v.omitted.journals + 1)))
    else v
  }

  function DropChildren(size: Measure, v: Input): Input
    decreases |v.children|
  {
    if size(v) > MAX_SERIALIZED_BYTES && v.children != [] then
      DropChildren(size, v.(children := v.children[..|v.children| - 1], omitted := v.omitted.(children := v.omitted.children + 1)))
    else v
  }

  function DropRelations(size: Measure, v: Input): Input
    decreases |v.relations|
  {
    if size(v) > MAX_SERIALIZED_BYTES && v.relations != [] then
      DropRelations(size, v.(relations := v.relations[..|v.relations| - 1], omitted := v.omitted.(relations := v.omitted.relations + 1)))
    else v
  }

  function Reduce(texts: seq<Text>): (r: seq<Text>)
    ensures |r| == |texts|
  {
    seq(|texts|, i requires 0 <= i < |texts| => Truncate(texts[i], ELLIPSIS_BYTES))
  }

  function ReducedValue(v: Value): Value {
    match v
    case One(t) => One(Truncate(t, ELLIPSIS_BYTES))
    case Many(ts) => Many(Reduce(ts))
  }

  function ReducedField(f: FieldView): FieldView {
    f.(value := ReducedValue(f.value))
  }

  /** `truncateFinalBudgetCustomField`: a path is recorded only if the value changed. */
  function TruncateField(v: Input, paths: Paths, index: nat): (Input, Paths)
    requires index < |v.fields|
  {
    var reduced := ReducedField(v.fields[index]);
    if reduced == v.fields[index] then (v, paths)
    else (v.(fields := v.fields[index := reduced]), paths.(truncated := Add(paths.truncated, FieldPath(index, "value"))))
  }

  /** The custom fields below `count`, from the last one down, as long as the budget is exceeded. */
  function TruncateFields(size: Measure, v: Input, paths: Paths, count: nat): (Input, Paths)
    requires count <= |v.fields|
    decreases count
  {
    if count == 0 || size(v) <= MAX_SERIALIZED_BYTES then (v, paths)
    else
      var (v1, paths1) := TruncateField(v, paths, count - 1);
      TruncateFields(size, Sync(v1, paths1), paths1, count - 1)
  }

  function TruncateDescription(v: Input, paths: Paths): (Input, Paths) {
    var reduced := Truncate(v.description, FINAL_BUDGET_DESCRIPTION_BYTES);
    if reduced == v.description then (v, paths)
    else
      var paths1 := paths.(truncated := Add(paths.truncated, Lit("source.description")));
      (Sync(v.(description := reduced), paths1), paths1)
  }

  function Dropped(size: Measure, v: Input): Input {
    DropRelations(size, DropChildren(size, DropJournals(size, v)))
  }

  /** The reductions that follow when nothing is left to drop. */
  function Shrink(size: Measure, v: Input, paths: Paths): (Input, Paths) {
    var (v1, paths1) := TruncateFields(size, v, paths, |v.fields|);
    if size(v1) > MAX_SERIALIZED_BYTES then TruncateDescription(v1, paths1) else (v1, paths1)
  }

  /** `enforceFinalBudget` */
  function Enforce(size: Measure, v: Input, paths: Paths): Result<(Input, Paths)> {
    var (w, paths1) := Shrink(size, Dropped(size, v), paths);
    if size(w) > MAX_SERIALIZED_BYTES then Throws else Ok((w, paths1))
  }

  /******* The whole projection *******/

  /** The remaining texts of the source, once its lists are projected. */
  function ProjectHead(env: Environment, secrets: seq<Text>, paths: Paths, issue: SourceIssue, subject: Text, ids: seq<int>)
    : Result<((Head, Text), Paths)>
  {
    var (project, p1) :- BoundNamed(env, secrets, paths, issue.project, Lit("source.project.name"));
    var (tracker, p2) :- BoundNamed(env, secrets, p1, issue.tracker, Lit("source.tracker.name"));
    var (version, p3) :- BoundOptional(env, secrets, p2, issue.fixedVersion, Lit("source.fixed_version.name"));
    var (description, p4) :- Bound(env, secrets, p3, issue.description, Lit("source.description"), MAX_DESCRIPTION_BYTES);
    Ok(((Head(issue.id, issue.updatedOn, project, tracker, version, subject, ids), description), p4))
  }

  /** The subject and the custom fields, which come before the lists. */
  function ProjectFront(env: Environment, secrets: seq<Text>, issue: SourceIssue, ids: seq<int>): Result<((Text, seq<FieldView>), Paths)> {
    var (subject, p1) :- Bound(env, secrets, Paths([], []), issue.subject, Lit("source.subject"), MAX_SUBJECT_BYTES);
    :- Need(subject != []);
    var (fields, p2) :- ProjectFields(env, secrets, p1, issue.customFields, ids, []);
    Ok(((subject, fields), p2))
  }

  /** The three projected lists, and what was left out of each. */
  datatype Lists = Lists(journals: seq<NoteView>, relations: seq<RelationView>, children: seq<Child>, omitted: Omitted)

  function ProjectLists(env: Environment, secrets: seq<Text>, paths: Paths, issue: SourceIssue): Result<(Lists, Paths)> {
    var (notes, p1) :- JournalNotes(env, secrets, paths, issue.journals);
    var related :- SortedRelations(env, issue.id, issue.relations);
    var (children, p2) :- SortedChildren(env, secrets, p1, issue.children);
    Ok((Lists(notes.0, related.0, children.0, Omitted(0, notes.1, related.1, children.1)), p2))
  }

  /** Everything before the budget is enforced. */
  function ProjectUnbounded(env: Environment, policy: Policy, issue: SourceIssue): Result<(Input, Paths)> {
    if !(ValidSource(issue)) then Throws
    else
      var ids :- NormalizeFieldIds(policy.fieldIds);
      var secrets := NormalizeSecrets(env, policy.secrets);
      var (front, p1) :- ProjectFront(env, secrets, issue, ids);
      var (lists, p2) :- ProjectLists(env, secrets, p1, issue);
      var (head, p3) :- ProjectHead(env, secrets, p2, issue, front.0, ids);
      var v := Input(head.0, head.1, front.1, lists.journals, lists.relations, lists.children, [], [], lists.omitted);
      Ok((Sync(v, p3), p3))
  }

  /** `projectAgentBriefGenerationInputCompat` */
  function Project(env: Environment, policy: Policy, issue: SourceIssue): Result<Input> {
    var (v, paths) :- ProjectUnbounded(env, policy, issue);
    :- Need(HasRequirementSource(v));
    var (w, paths1) :- Enforce(SerializedBytes, v, paths);
    Ok(Sync(w, paths1))
  }

  /******* Serialization *******/

  function NamedJson(r: NamedResource): Json {
    JObject([Field(Lit("id"), JInt(r.id)), Field(Lit("name"), JString(r.name))])
  }

  function TextsJson(texts: seq<Text>): Json {
    JArray(seq(|texts|, i requires 0 <= i < |texts| => JString(texts[i])))
  }

  function IdsJson(ids: seq<int>): Json {
    JArray(seq(|ids|, i requires 0 <= i < |ids| => JInt(ids[i])))
  }

  function OptionalField(key: string, v: Option<Json>): seq<Field> {
    if v.Some? then [Field(Lit(key), v.value)] else []
  }

  function OptionalNamed(r: Option<NamedResource>): Option<Json> {
    if r.Some? then Some(NamedJson(r.value)) else None
  }

  function OptionalInt(n: Option<int>): Option<Json> {
    if n.Some? then Some(JInt(n.value)) else None
  }

  function ValueJson(v: Value): Json {
    match v
    case One(t) => JString(t)
    case Many(ts) => TextsJson(ts)
  }

  function FieldJson(f: FieldView): Json {
    JObject([Field(Lit("id"), JInt(f.id)), Field(Lit("name"), JString(f.name)), Field(Lit("value"), ValueJson(f.value))])
  }

  function NoteJson(n: NoteView): Json {
    JObject([Field(Lit("id"), JInt(n.id)), Field(Lit("created_on"), JString(n.createdOn)), Field(Lit("notes"), JString(n.notes))])
  }

  function RelationJson(r: RelationView): Json {
    JObject([Field(Lit("id"), JInt(r.id)), Field(Lit("relation_type"), JString(r.relationType)),
             Field(Lit("related_issue_id"), JInt(r.relatedIssueId))] + OptionalField("delay", OptionalInt(r.delay)))
  }

  function ChildJson(c: Child): Json {
    JObject([Field(Lit("id"), JInt(c.id)), Field(Lit("subject"), JString(c.subject))] + OptionalField("tracker", OptionalNamed(c.tracker)))
  }

  function SourceJson(v: Input): Json {
    JObject([
      Field(Lit("redmine_issue_id"), JInt(v.head.issueId)), Field(Lit("source_updated_on"), JString(v.head.updatedOn)),
      Field(Lit("project"), NamedJson(v.head.project)), Field(Lit("tracker"), NamedJson(v.head.tracker))]
      + OptionalField("fixed_version", OptionalNamed(v.head.fixedVersion))
      + [Field(Lit("subject"), JString(v.head.subject)), Field(Lit("description"), JString(v.description))])
  }

  function OmittedJson(o: Omitted): Json {
    JObject([
      Field(Lit("requirement_custom_fields"), JInt(o.fields)), Field(Lit("journal_notes"), JInt(o.journals)),
      Field(Lit("relations"), JInt(o.relations)), Field(Lit("children"), JInt(o.children))])
  }

  function ProjectionJson(v: Input): Json {
    JObject([
      Field(Lit("requirement_custom_field_ids"), IdsJson(v.head.fieldIds)), Field(Lit("redacted_paths"), TextsJson(v.redacted)),
      Field(Lit("truncated_paths"), TextsJson(v.truncated)), Field(Lit("omitted"), OmittedJson(v.omitted))])
  }

  function InputJson(v: Input): Json {
    JObject([
      Field(Lit("format_version"), JInt(1)),
      Field(Lit("source"), SourceJson(v)),
      Field(Lit("requirement_custom_fields"), JArray(seq(|v.fields|, i requires 0 <= i < |v.fields| => FieldJson(v.fields[i])))),
      Field(Lit("journal_notes"), JArray(seq(|v.journals|, i requires 0 <= i < |v.journals| => NoteJson(v.journals[i])))),
      Field(Lit("relations"), JArray(seq(|v.relations|, i requires 0 <= i < |v.relations| => RelationJson(v.relations[i])))),
      Field(Lit("children"), JArray(seq(|v.children|, i requires 0 <= i < |v.children| => ChildJson(v.children[i])))),
      Field(Lit("projection"), ProjectionJson(v))])
  }

  /** `serializeGenerationInput` */
  function Serialized(v: Input): Text {
    Pretty(InputJson(v), 0) + [NEW_LINE]
  }

  function SerializedBytes(v: Input): nat {
    |Encode(Serialized(v))|
  }
}
