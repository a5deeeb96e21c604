/** Collecting the changed files and the patch of a workspace from git's output. */
module ChangeSet {
  import opened Basics
  import opened Strings
  import opened Utf8
  import opened Sorting
  import opened Collation
  import opened Contract
  import opened Capture

  /******* Lists of NUL-terminated texts *******/

  const NUL: CodeUnit := 0

  /** `t.split("\0")` */
  function Split(t: Text): (parts: seq<Text>)
    ensures parts != []
  {
    if t == [] then [[]]
    else if t[0] == NUL then [[]] + Split(t[1..])
    else
      var rest := Split(t[1..]);
      [[t[0]] + rest[0]] + rest[1..]
  }

  /** The parts without the empty one after a final terminator. */
  function Tokens(t: Text): seq<Text> {
    var parts := Split(t);
    if parts[|parts| - 1] == [] then parts[..|parts| - 1] else parts
  }

  predicate IsAbsolute(path: Text) {
    path != [] && path[0] == '/' as int
  }

  /** `assertRelativeGitPath` accepts it. */
  predicate RelativePath(path: Text) {
    path != [] && path != Lit(".") && path != Lit("..") && !IsAbsolute(path) && !(Lit("../") <= path)
  }

  function GitStatus(code: Text): FileStatus
    requires code != []
  {
    if code[0] == 'A' as int then Added
    else if code[0] == 'M' as int then Modified
    else if code[0] == 'D' as int then Deleted
    else if code[0] == 'T' as int then TypeChanged
    else if code[0] == 'U' as int then Unmerged
    else Other
  }

  /** Alternating codes and paths, all of them usable. */
  predicate ValidPairs(tokens: seq<Text>) {
    && |tokens| % 2 == 0
    && forall i | 0 <= i < |tokens| :: if i % 2 == 0 then tokens[i] != [] else RelativePath(tokens[i])
  }

  function PairFiles(tokens: seq<Text>): (files: seq<ChangedFile>)
    requires ValidPairs(tokens)
    ensures |files| == |tokens| / 2
    ensures forall i | 0 <= i < |files| :: files[i] == ChangedFile(tokens[2 * i + 1], GitStatus(tokens[2 * i]))
  {
    seq(|tokens| / 2, i requires 0 <= i < |tokens| / 2 => ChangedFile(tokens[2 * i + 1], GitStatus(tokens[2 * i])))
  }

  /** `parseTrackedNameStatus` */
  method ParseTrackedNameStatus(raw: Text) returns (r: Result<seq<ChangedFile>>)
    ensures r.Ok? <==> ValidPairs(Tokens(raw))
    ensures r.Ok? ==> r.value == PairFiles(Tokens(raw))
  {
    var tokens := Tokens(raw);
    if |tokens| % 2 != 0 {
      return Throws;
    }
    var output: seq<ChangedFile> := [];
    var index := 0;
    while index < |tokens|
      invariant 0 <= index <= |tokens| && index % 2 == 0 && |output| == index / 2
      invariant forall i | 0 <= i < index :: if i % 2 == 0 then tokens[i] != [] else RelativePath(tokens[i])
      invariant forall i | 0 <= i < |output| :: output[i] == ChangedFile(tokens[2 * i + 1], GitStatus(tokens[2 * i]))
    {
      if tokens[index] == [] || !RelativePath(tokens[index + 1]) {
        return Throws;
      }
      output := output + [ChangedFile(tokens[index + 1], GitStatus(tokens[index]))];
      index := index + 2;
    }
    r := Ok(output);
  }

  predicate ValidPaths(tokens: seq<Text>) {
    forall i | 0 <= i < |tokens| :: RelativePath(tokens[i])
  }

  /** `parseNulPaths` */
  method ParseNulPaths(raw: Text) returns (r: Result<seq<Text>>)
    ensures r == if ValidPaths(Tokens(raw)) then Ok(Tokens(raw)) else Throws
  {
    var paths := Tokens(raw);
    for k := 0 to |paths|
      invariant forall i | 0 <= i < k :: RelativePath(paths[i])
    {
      if !RelativePath(paths[k]) {
        return Throws;
      }
    }
    r := Ok(paths);
  }

  /******* Merging *******/

  function PathOrder(collate: Collate): (ChangedFile, ChangedFile) -> int {
    (a: ChangedFile, b: ChangedFile) => collate(a.path, b.path)
  }

  predicate DistinctPaths(files: seq<ChangedFile>) {
    forall i, j | 0 <= i < j < |files| :: files[i].path != files[j].path
  }

  function Merge(collate: Collate, tracked: seq<ChangedFile>, untracked: seq<ChangedFile>): Result<seq<ChangedFile>> {
    if DistinctPaths(tracked + untracked) then Ok(Sort(PathOrder(collate), tracked + untracked)) else Throws
  }

  /** `mergeChangedFiles`: a map keeps its values in the order they were set. */
  method MergeChangedFiles(collate: Collate, tracked: seq<ChangedFile>, untracked: seq<ChangedFile>) returns (r: Result<seq<ChangedFile>>)
    ensures r == Merge(collate, tracked, untracked)
  {
    var all := tracked + untracked;
    var byPath: map<Text, ChangedFile> := map[];
    var values: seq<ChangedFile> := [];
    for k := 0 to |all|
      invariant values == all[..k] && DistinctPaths(all[..k])
      invariant forall path :: path in byPath <==> exists i :: 0 <= i < k && all[i].path == path
    {
      if all[k].path in byPath {
        return Throws;
      }
      byPath := byPath[all[k].path := all[k]];
      values := values + [all[k]];
    }
    assert all[..|all|] == all;
    r := Ok(Sort(PathOrder(collate), values));
  }

  /** The untracked paths as changed files. */
  function UntrackedFiles(paths: seq<Text>): seq<ChangedFile> {
    seq(|paths|, i requires 0 <= i < |paths| => ChangedFile(paths[i], Untracked))
  }

  /******* Running git *******/

  /** One git process: whether it could be started, what it wrote in which chunks, and how it exited. */
  datatype GitProcess = GitProcess(started: bool, output: seq<Bytes>, exitCode: int)

  datatype Git = Git(trackedNames: GitProcess, untrackedNames: GitProcess, trackedDiff: GitProcess, untrackedDiff: Text -> GitProcess)

  function Observed(p: GitProcess, max: nat, accepted: set<int>): Result<PatchCapture> {
    if p.started && p.exitCode in accepted then Ok(Captured(Concat(p.output), max)) else Throws
  }

  method RunGit(p: GitProcess, max: nat, accepted: set<int>) returns (r: Result<PatchCapture>)
    requires PositiveSafeInteger(max)
    ensures r == Observed(p, max, accepted)
  {
    var stdout := new BoundedUtf8Capture(max);
    if !p.started {
      return Throws;
    }
    for k := 0 to |p.output|
      invariant fresh(stdout) && stdout.Valid() && stdout.maxBytes == max && stdout.offered == Concat(p.output[..k])
    {
      assert p.output[..k + 1][..k] == p.output[..k];
      stdout.Append(p.output[k]);
    }
    assert p.output[..|p.output|] == p.output;
    if p.exitCode !in accepted {
      return Throws;
    }
    var s := stdout.Snapshot();
    r := Ok(s);
  }

  /******* The patch *******/

  /** What one inner capture adds to the outer one: its text, and a marker byte if it was cut. */
  function Offered(s: PatchCapture): Bytes {
    Encode(s.text) + if s.truncated then [0x0A] else []
  }

  function FileOffered(git: Git, max: nat, file: ChangedFile): Result<Bytes> {
    if file.status != Untracked then Ok([])
    else
      var s :- Observed((git.untrackedDiff)(file.path), max, {0, 1});
      Ok(Offered(s))
  }

  function UntrackedOffered(git: Git, max: nat, files: seq<ChangedFile>): Result<Bytes>
    decreases |files|
  {
    if files == [] then Ok([])
    else
      var init :- UntrackedOffered(git, max, files[..|files| - 1]);
      var last :- FileOffered(git, max, files[|files| - 1]);
      Ok(init + last)
  }

  datatype Collection = Collection(changedFiles: seq<ChangedFile>, patch: PatchCapture)

  function CollectFiles(collate: Collate, git: Git, metadataBytes: nat): Result<seq<ChangedFile>> {
    var tracked :- Observed(git.trackedNames, metadataBytes, {0});
    var untracked :- Observed(git.untrackedNames, metadataBytes, {0});
    :- Need(!tracked.truncated && !untracked.truncated && ValidPairs(Tokens(tracked.text)) && ValidPaths(Tokens(untracked.text)));
    Merge(collate, PairFiles(Tokens(tracked.text)), UntrackedFiles(Tokens(untracked.text)))
  }

  function CollectPatch(git: Git, files: seq<ChangedFile>, max: nat): Result<PatchCapture> {
    var first :- Observed(git.trackedDiff, max, {0});
    var rest :- UntrackedOffered(git, max, files);
    Ok(Captured(Offered(first) + rest, max))
  }

  function Collect(collate: Collate, git: Git, patchBytes: nat, metadataBytes: nat): Result<Collection> {
    var files :- CollectFiles(collate, git, metadataBytes);
    var patch :- CollectPatch(git, files, patchBytes);
    Ok(Collection(files, patch))
  }

  class GitChangeSetCollector {
    const collate: Collate
    const git: Git
    const patchCaptureBytes: nat
    const metadataCaptureBytes: nat

    constructor (collate: Collate, git: Git, patchCaptureBytes: nat, metadataCaptureBytes: nat)
      requires PositiveSafeInteger(patchCaptureBytes) && PositiveSafeInteger(metadataCaptureBytes)
      ensures Valid() && this.collate == collate && this.git == git
      ensures this.patchCaptureBytes == patchCaptureBytes && this.metadataCaptureBytes == metadataCaptureBytes
    {
      this.collate, this.git := collate, git;
      this.patchCaptureBytes, this.metadataCaptureBytes := patchCaptureBytes, metadataCaptureBytes;
    }

    predicate Valid() {
      PositiveSafeInteger(patchCaptureBytes) && PositiveSafeInteger(metadataCaptureBytes)
    }

    /** `appendPatchCapture` */
    method AppendPatch(target: BoundedUtf8Capture, source: PatchCapture)
      requires target.Valid()
      modifies target
      ensures target.Valid() && target.offered == old(target.offered) + Offered(source)
    {
      target.Append(Encode(source.text));
      if source.truncated {
        target.Append([0x0A]);
      }
    }

    method ListFiles() returns (r: Result<seq<ChangedFile>>)
      requires Valid()
      ensures r == CollectFiles(collate, git, metadataCaptureBytes)
    {
      var tracked := RunGit(git.trackedNames, metadataCaptureBytes, {0});
      if tracked.Throws? || tracked.value.truncated {
        return Throws;
      }
      var untracked := RunGit(git.untrackedNames, metadataCaptureBytes, {0});
      if untracked.Throws? || untracked.value.truncated {
        return Throws;
      }
      var trackedFiles := ParseTrackedNameStatus(tracked.value.text);
      if trackedFiles.Throws? {
        return Throws;
      }
      var untrackedPaths := ParseNulPaths(untracked.value.text);
      if untrackedPaths.Throws? {
        return Throws;
      }
      r := MergeChangedFiles(collate, trackedFiles.value, UntrackedFiles(untrackedPaths.value));
    }

    method AppendFile(patch: BoundedUtf8Capture, file: ChangedFile) returns (ok: bool)
      requires Valid() && patch.Valid()
      modifies patch
      ensures patch.Valid()
      ensures ok <==> FileOffered(git, patchCaptureBytes, file).Ok?
      ensures ok ==> patch.offered == old(patch.offered) + FileOffered(git, patchCaptureBytes, file).value
    {
      if file.status != Untracked {
        return true;
      }
      var s := RunGit((git.untrackedDiff)(file.path), patchCaptureBytes, {0, 1});
      if s.Ok? {
        AppendPatch(patch, s.value);
      }
      ok := s.Ok?;
    }

    method CapturePatch(files: seq<ChangedFile>) returns (r: Result<PatchCapture>)
      requires Valid()
      ensures r == CollectPatch(git, files, patchCaptureBytes)
    {
      var patch := new BoundedUtf8Capture(patchCaptureBytes);
      var trackedPatch := RunGit(git.trackedDiff, patchCaptureBytes, {0});
      if trackedPatch.Throws? {
        return Throws;
      }
      AppendPatch(patch, trackedPatch.value);
      for k := 0 to |files|
        invariant fresh(patch) && patch.Valid() && patch.maxBytes == patchCaptureBytes
        invariant UntrackedOffered(git, patchCaptureBytes, files[..k]).Ok?
        invariant patch.offered == Offered(trackedPatch.value) + UntrackedOffered(git, patchCaptureBytes, files[..k]).value
      {
        NextOffered(git, patchCaptureBytes, files, k, Offered(trackedPatch.value));
        var appended := AppendFile(patch, files[k]);
        if !appended {
          ThrowsStay(git, patchCaptureBytes, files, k + 1);
          return Throws;
        }
      }
      assert files[..|files|] == files;
      var s := patch.Snapshot();
      r := Ok(s);
    }

    /** `collect` */
    method CollectChanges() returns (r: Result<Collection>)
      requires Valid()
      ensures r == Collect(collate, git, patchCaptureBytes, metadataCaptureBytes)
    {
      var files := ListFiles();
      if files.Throws? {
        return Throws;
      }
      var patch := CapturePatch(files.value);
      if patch.Throws? {
        return Throws;
      }
      r := Ok(Collection(files.value, patch.value));
    }
  }

  lemma {:induction false} ThrowsStay(git: Git, max: nat, files: seq<ChangedFile>, k: nat)
    requires k <= |files| && UntrackedOffered(git, max, files[..k]).Throws?
    ensures UntrackedOffered(git, max, files).Throws?
    decreases |files|
  {
    if k < |files| {
      assert files[..|files| - 1][..k] == files[..k];
      ThrowsStay(git, max, files[..|files| - 1], k);
    } else {
      assert files[..k] == files;
    }
  }

  lemma NextOffered(git: Git, max: nat, files: seq<ChangedFile>, k: nat, first: Bytes)
    requires k < |files| && UntrackedOffered(git, max, files[..k]).Ok?
    ensures UntrackedOffered(git, max, files[..k + 1]).Ok? <==> FileOffered(git, max, files[k]).Ok?
    ensures FileOffered(git, max, files[k]).Ok? ==>
              first + UntrackedOffered(git, max, files[..k + 1]).value
              == (first + UntrackedOffered(git, max, files[..k]).value) + FileOffered(git, max, files[k]).value
  {
    assert files[..k + 1][..k] == files[..k];
  }
}
