/** The collected patch is complete or flagged, and the changed-file list is exactly what git listed. */
module ChangeSetCorrectness {
  import opened Basics
  import opened Strings
  import opened Utf8
  import opened Sorting
  import opened Collation
  import opened Domain
  import opened Contract
  import opened ContractCorrectness
  import opened Capture
  import opened ChangeSet
  import opened Truncation

  /******* NUL-terminated lists *******/

  function Terminated(items: seq<Text>): Text {
    if items == [] then [] else items[0] + [NUL] + Terminated(items[1..])
  }

  lemma {:induction false} SplitItem(item: Text, rest: Text)
    requires NUL !in item
    ensures Split(item + [NUL] + rest) == [item] + Split(rest)
  {
    var t := item + [NUL] + rest;
    if item == [] {
      assert t[1..] == rest;
    } else {
      assert t[1..] == item[1..] + [NUL] + rest;
      SplitItem(item[1..], rest);
      assert [item[0]] + item[1..] == item;
    }
  }

  lemma {:induction false} SplitTerminated(items: seq<Text>)
    requires forall i | 0 <= i < |items| :: NUL !in items[i]
    ensures Split(Terminated(items)) == items + [[]]
  {
    if items != [] {
      SplitItem(items[0], Terminated(items[1..]));
      SplitTerminated(items[1..]);
      assert items + [[]] == [items[0]] + (items[1..] + [[]]);
    }
  }

  /** A list of NUL-terminated texts is read back as it was written. */
  lemma TokensOfTerminated(items: seq<Text>)
    requires forall i | 0 <= i < |items| :: NUL !in items[i]
    ensures Tokens(Terminated(items)) == items
  {
    SplitTerminated(items);
  }

  datatype NameStatus = NameStatus(code: Text, path: Text)

  function Flattened(entries: seq<NameStatus>): (items: seq<Text>)
    ensures |items| == 2 * |entries|
  {
    seq(2 * |entries|, k requires 0 <= k < 2 * |entries| => if k % 2 == 0 then entries[k / 2].code else entries[k / 2].path)
  }

  predicate UsableEntry(e: NameStatus) {
    e.code != [] && RelativePath(e.path)
  }

  lemma FlattenedAt(entries: seq<NameStatus>, i: nat)
    requires i < |entries|
    ensures Flattened(entries)[2 * i] == entries[i].code && Flattened(entries)[2 * i + 1] == entries[i].path
  {
  }

  lemma FlattenedPairs(entries: seq<NameStatus>)
    ensures ValidPairs(Flattened(entries)) <==> forall i | 0 <= i < |entries| :: UsableEntry(entries[i])
  {
    var items := Flattened(entries);
    if forall i | 0 <= i < |entries| :: UsableEntry(entries[i]) {
      forall k | 0 <= k < |items| ensures if k % 2 == 0 then items[k] != [] else RelativePath(items[k]) {
        assert UsableEntry(entries[k / 2]);
      }
    }
    if ValidPairs(items) {
      forall i | 0 <= i < |entries| ensures UsableEntry(entries[i]) {
        FlattenedAt(entries, i);
        assert items[2 * i] != [] && RelativePath(items[2 * i + 1]);
      }
    }
  }

  lemma FlattenedWithoutNul(entries: seq<NameStatus>)
    requires forall i | 0 <= i < |entries| :: NUL !in entries[i].code && NUL !in entries[i].path
    ensures Tokens(Terminated(Flattened(entries))) == Flattened(entries)
  {
    TokensOfTerminated(Flattened(entries));
  }

  /**
    The name-status list is read back entry for entry, exactly when every code is
    non-empty and every path stays inside the workspace.
  */
  lemma NameStatusRoundTrip(entries: seq<NameStatus>)
    requires forall i | 0 <= i < |entries| :: NUL !in entries[i].code && NUL !in entries[i].path
    ensures var tokens := Tokens(Terminated(Flattened(entries)));
            && (ValidPairs(tokens) <==> forall i | 0 <= i < |entries| :: UsableEntry(entries[i]))
            && (ValidPairs(tokens) ==>
                  && |PairFiles(tokens)| == |entries|
                  && forall i | 0 <= i < |entries| ::
                       entries[i].code != [] && PairFiles(tokens)[i] == ChangedFile(entries[i].path, GitStatus(entries[i].code)))
  {
    FlattenedWithoutNul(entries);
    FlattenedPairs(entries);
    var tokens := Flattened(entries);
    if ValidPairs(tokens) {
      forall i | 0 <= i < |entries|
        ensures entries[i].code != [] && PairFiles(tokens)[i] == ChangedFile(entries[i].path, GitStatus(entries[i].code))
      {
        assert UsableEntry(entries[i]);
        FlattenedAt(entries, i);
      }
    }
  }

  /** A list with an odd number of tokens is never accepted. */
  lemma OddListRejected(items: seq<Text>)
    requires |items| % 2 == 1 && forall i | 0 <= i < |items| :: NUL !in items[i]
    ensures !ValidPairs(Tokens(Terminated(items)))
  {
    TokensOfTerminated(items);
  }

  /** Merging fails exactly on a repeated path; otherwise it is a duplicate-free sorted permutation of both lists. */
  lemma MergeMeaning(collate: Collate, tracked: seq<ChangedFile>, untracked: seq<ChangedFile>)
    requires Signed(collate)
    ensures Merge(collate, tracked, untracked).Throws? <==>
              exists i, j | 0 <= i < j < |tracked + untracked| :: (tracked + untracked)[i].path == (tracked + untracked)[j].path
    ensures Merge(collate, tracked, untracked).Ok? ==>
              && multiset(Merge(collate, tracked, untracked).value) == multiset(tracked) + multiset(untracked)
              && NeighboursInOrder(PathOrder(collate), Merge(collate, tracked, untracked).value)
              && DistinctPaths(Merge(collate, tracked, untracked).value)
  {
    var all := tracked + untracked;
    forall i, j | 0 <= i < |all| && 0 <= j < |all|
      ensures PathOrder(collate)(all[i], all[j]) > 0 ==> PathOrder(collate)(all[j], all[i]) <= 0
    {
      assert collate(all[j].path, all[i].path) < 0 <==> collate(all[i].path, all[j].path) > 0;
    }
    SortIsOrdered(PathOrder(collate), all, all);
    if DistinctPaths(all) {
      PermutedPathsDistinct(all, Sort(PathOrder(collate), all));
    }
  }

  lemma PermutedPathsDistinct(s: seq<ChangedFile>, t: seq<ChangedFile>)
    requires multiset(s) == multiset(t) && DistinctPaths(s)
    ensures DistinctPaths(t)
  {
    forall i, j | 0 <= i < j < |t| ensures t[i].path != t[j].path {
      if t[i].path == t[j].path {
        PermutationWithin(t, s);
        assert t[i] in s && t[j] in s;
        assert t[i] == t[j];
        TwiceInPermutation(s, t, i, j);
      }
    }
  }

  lemma TwiceInPermutation(s: seq<ChangedFile>, t: seq<ChangedFile>, i: nat, j: nat)
    requires multiset(s) == multiset(t) && i < j < |t| && t[i] == t[j]
    ensures exists a, b | 0 <= a < b < |s| :: s[a] == t[i] && s[b] == t[i]
  {
    assert t == t[..j] + [t[j]] + t[j + 1..];
    assert t[..j][i] == t[i] && t[i] in multiset(t[..j]);
    assert multiset(t)[t[i]] >= 2;
    TwiceInSequence(s, t[i]);
  }

  lemma {:induction false} TwiceInSequence(s: seq<ChangedFile>, x: ChangedFile)
    requires multiset(s)[x] >= 2
    ensures exists a, b | 0 <= a < b < |s| :: s[a] == x && s[b] == x
  {
    assert s == [s[0]] + s[1..];
    if s[0] == x {
      assert x in multiset(s[1..]);
      var b :| 0 <= b < |s[1..]| && s[1..][b] == x;
      assert s[b + 1] == x;
    } else {
      TwiceInSequence(s[1..], x);
      var a, b :| 0 <= a < b < |s[1..]| && s[1..][a] == x && s[1..][b] == x;
      assert s[a + 1] == x && s[b + 1] == x;
    }
  }

  /******* The patch *******/

  function FileDiff(git: Git, file: ChangedFile): Bytes {
    if file.status == Untracked then Concat((git.untrackedDiff)(file.path).output) else []
  }

  /** All diff bytes git wrote: the tracked diff, then the diff of every untracked file in list order. */
  function AllDiffs(git: Git, files: seq<ChangedFile>): Bytes
    decreases |files|
  {
    if files == [] then Concat(git.trackedDiff.output)
    else AllDiffs(git, files[..|files| - 1]) + FileDiff(git, files[|files| - 1])
  }

  /** Git wrote every diff as valid UTF-8. */
  predicate ValidDiffs(git: Git, files: seq<ChangedFile>) {
    && ValidUtf8(Concat(git.trackedDiff.output))
    && forall i | 0 <= i < |files| :: ValidUtf8(FileDiff(git, files[i]))
  }

  /** What is offered stands for the bytes: the same bytes while they fit, and too many bytes otherwise. */
  predicate StandsFor(offered: Bytes, bytes: Bytes, max: nat) {
    if |bytes| <= max then offered == bytes else |offered| > max
  }

  /** An output decoded and encoded again: every ill-formed part becomes a replacement character. */
  function Reencoded(b: Bytes): Bytes { Encode(Decode(b)) }

  function AllReencoded(git: Git, files: seq<ChangedFile>): Bytes
    decreases |files|
  {
    if files == [] then Reencoded(Concat(git.trackedDiff.output))
    else AllReencoded(git, files[..|files| - 1]) + Reencoded(FileDiff(git, files[|files| - 1]))
  }

  lemma CaptureNeverShrinks(b: Bytes, max: nat)
    ensures |b| > max ==> |Offered(Captured(b, max))| > max
    ensures |b| <= max ==> |Offered(Captured(b, max))| >= |b|
  {
    ReencodingNeverShrinks(Shorter(b, max));
  }

  lemma CaptureStandsFor(b: Bytes, max: nat)
    ensures StandsFor(Offered(Captured(b, max)), Reencoded(b), max)
  {
    CaptureNeverShrinks(b, max);
    ReencodingNeverShrinks(b);
  }

  lemma StandsForBoth(a: Bytes, b: Bytes, bytesA: Bytes, bytesB: Bytes, max: nat)
    requires StandsFor(a, bytesA, max) && StandsFor(b, bytesB, max)
    ensures StandsFor(a + b, bytesA + bytesB, max)
  {
  }

  lemma FileStandsFor(git: Git, max: nat, file: ChangedFile)
    requires FileOffered(git, max, file).Ok?
    ensures StandsFor(FileOffered(git, max, file).value, Reencoded(FileDiff(git, file)), max)
  {
    if file.status == Untracked {
      CaptureStandsFor(FileDiff(git, file), max);
    }
  }

  lemma {:induction false} OfferedStandsFor(git: Git, max: nat, files: seq<ChangedFile>)
    requires UntrackedOffered(git, max, files).Ok?
    ensures StandsFor(Offered(Captured(Concat(git.trackedDiff.output), max)) + UntrackedOffered(git, max, files).value,
                      AllReencoded(git, files), max)
    decreases |files|
  {
    var first := Offered(Captured(Concat(git.trackedDiff.output), max));
    if files == [] {
      CaptureStandsFor(Concat(git.trackedDiff.output), max);
      assert first + [] == first;
    } else {
      var init, file := files[..|files| - 1], files[|files| - 1];
      OfferedStandsFor(git, max, init);
      FileStandsFor(git, max, file);
      var offered := UntrackedOffered(git, max, init).value;
      var last := FileOffered(git, max, file).value;
      StandsForBoth(first + offered, last, AllReencoded(git, init), Reencoded(FileDiff(git, file)), max);
      Regroup(first, offered, last);
    }
  }

  lemma ReencodedIsValid(b: Bytes)
    ensures ValidUtf8(Reencoded(b)) && |Reencoded(b)| >= |b|
    ensures Reencoded(b) == b <==> ValidUtf8(b)
  {
    ReencodingNeverShrinks(b);
    EncodedIsValid(Decode(b));
    ValidUtf8Meaning(b);
  }

  lemma {:induction false} AllReencodedIsValid(git: Git, files: seq<ChangedFile>)
    ensures ValidUtf8(AllReencoded(git, files))
    decreases |files|
  {
    if files == [] {
      ReencodedIsValid(Concat(git.trackedDiff.output));
    } else {
      var init, diff := files[..|files| - 1], FileDiff(git, files[|files| - 1]);
      AllReencodedIsValid(git, init);
      ReencodedIsValid(diff);
      ValidConcat(AllReencoded(git, init), Reencoded(diff));
    }
  }

  /** Two pairs of pieces, each at least as long as its partner, agree joined only if they agree apart. */
  lemma JoinedApart(a: Bytes, b: Bytes, c: Bytes, d: Bytes)
    requires |a| >= |c| && |b| >= |d|
    ensures a + b == c + d <==> a == c && b == d
  {
    if a + b == c + d {
      assert |a| + |b| == |c| + |d|;
      assert a == (a + b)[..|a|] && c == (c + d)[..|c|];
      assert b == (a + b)[|a|..] && d == (c + d)[|c|..];
    }
  }

  lemma ValidDiffsStep(git: Git, files: seq<ChangedFile>)
    requires files != []
    ensures ValidDiffs(git, files) <==> ValidDiffs(git, files[..|files| - 1]) && ValidUtf8(FileDiff(git, files[|files| - 1]))
  {
    var init := files[..|files| - 1];
    if ValidDiffs(git, files) {
      assert ValidUtf8(FileDiff(git, files[|files| - 1]));
      forall i | 0 <= i < |init| ensures ValidUtf8(FileDiff(git, init[i])) {
        assert init[i] == files[i];
      }
    }
    if ValidDiffs(git, init) && ValidUtf8(FileDiff(git, files[|files| - 1])) {
      forall i | 0 <= i < |files| ensures ValidUtf8(FileDiff(git, files[i])) {
        assert i < |init| ==> files[i] == init[i];
      }
    }
  }

  /** Re-encoding all diffs gives them back exactly if every one of them is valid UTF-8. */
  lemma {:induction false} ReencodedExactly(git: Git, files: seq<ChangedFile>)
    ensures |AllReencoded(git, files)| >= |AllDiffs(git, files)|
    ensures AllReencoded(git, files) == AllDiffs(git, files) <==> ValidDiffs(git, files)
    decreases |files|
  {
    if files == [] {
      ReencodedIsValid(Concat(git.trackedDiff.output));
    } else {
      var init, diff := files[..|files| - 1], FileDiff(git, files[|files| - 1]);
      ReencodedExactly(git, init);
      ReencodedIsValid(diff);
      ValidDiffsStep(git, files);
      JoinedApart(AllReencoded(git, init), Reencoded(diff), AllDiffs(git, init), diff);
    }
  }

  /**
    What the patch is, whatever git wrote: it is flagged exactly when the re-encoded
    diffs exceed the bound, and unflagged it is their concatenation.
  */
  lemma PatchIsReencoded(git: Git, files: seq<ChangedFile>, max: nat)
    requires CollectPatch(git, files, max).Ok?
    ensures var patch, all := CollectPatch(git, files, max).value, AllReencoded(git, files);
            && (patch.truncated <==> |all| > max)
            && (!patch.truncated ==> Encode(patch.text) == all && patch.capturedBytes == |all|)
  {
    OfferedStandsFor(git, max, files);
    AllReencodedIsValid(git, files);
    ValidUtf8Meaning(AllReencoded(git, files));
  }

  /** An unflagged patch is byte-exact if and only if git wrote every diff as valid UTF-8. */
  lemma PatchIsExact(git: Git, files: seq<ChangedFile>, max: nat)
    requires CollectPatch(git, files, max).Ok? && !CollectPatch(git, files, max).value.truncated
    ensures Encode(CollectPatch(git, files, max).value.text) == AllDiffs(git, files) <==> ValidDiffs(git, files)
  {
    PatchIsReencoded(git, files, max);
    ReencodedExactly(git, files);
  }

  /**
    Complete or flagged: for valid UTF-8 output the patch is flagged exactly when
    all diffs together exceed the bound; unflagged, it is their exact concatenation.
  */
  lemma PatchIsCompleteOrFlagged(git: Git, files: seq<ChangedFile>, max: nat)
    requires ValidDiffs(git, files) && CollectPatch(git, files, max).Ok?
    ensures var patch, all := CollectPatch(git, files, max).value, AllDiffs(git, files);
            && (patch.truncated <==> |all| > max)
            && (!patch.truncated ==> Encode(patch.text) == all && patch.capturedBytes == |all|)
  {
    PatchIsReencoded(git, files, max);
    ReencodedExactly(git, files);
  }

  /** Whatever the encoding of the output, diffs that exceed the bound are always flagged. */
  lemma NothingIsDroppedSilently(git: Git, files: seq<ChangedFile>, max: nat)
    requires CollectPatch(git, files, max).Ok? && |AllDiffs(git, files)| > max
    ensures CollectPatch(git, files, max).value.truncated
  {
    PatchIsReencoded(git, files, max);
    ReencodedExactly(git, files);
  }

  /******* What stray bytes do *******/

  /** Bytes that are no UTF-8 at all. */
  function StrayBytes(n: nat): Bytes {
    seq(n, _ => 0xFF)
  }

  function Replacements(n: nat): Text {
    seq(n, _ => REPLACEMENT)
  }

  /** The tracked diff holds stray bytes between a valid beginning and a valid end; nothing is untracked. */
  function StrayDiff(before: Bytes, n: nat, after: Bytes): Git {
    var silent := GitProcess(true, [], 0);
    Git(silent, silent, GitProcess(true, [before + (StrayBytes(n) + after)], 0), (path: Text) => silent)
  }

  lemma StrayByteFirst(n: nat, after: Bytes)
    requires n > 0
    ensures var b := StrayBytes(n) + after;
            GoodLength(b) == 1 && DecodeHead(b) == [REPLACEMENT] && b[1..] == StrayBytes(n - 1) + after
  {
    assert StrayBytes(n)[0] == 0xFF;
  }

  lemma OneReplacement(b: Bytes, middle: Text, last: Text)
    requires b != [] && GoodLength(b) == 1 && DecodeHead(b) == [REPLACEMENT] && Decode(b[1..]) == middle + last
    ensures Decode(b) == ([REPLACEMENT] + middle) + last
  {
  }

  lemma ReplacementsStep(n: nat)
    requires n > 0
    ensures Replacements(n) == [REPLACEMENT] + Replacements(n - 1)
  {
  }

  lemma {:induction false} StrayBytesDecode(n: nat, after: Bytes)
    ensures Decode(StrayBytes(n) + after) == Replacements(n) + Decode(after)
  {
    if n == 0 {
      assert StrayBytes(0) + after == after && Replacements(0) + Decode(after) == Decode(after);
    } else {
      StrayByteFirst(n, after);
      StrayBytesDecode(n - 1, after);
      ReplacementsStep(n);
      OneReplacement(StrayBytes(n) + after, Replacements(n - 1), Decode(after));
    }
  }

  lemma {:induction false} ReplacementsEncode(n: nat)
    ensures WellFormed(Replacements(n)) && |Encode(Replacements(n))| == 3 * n
  {
    if n > 0 {
      assert Replacements(n)[1..] == Replacements(n - 1);
      ReplacementsEncode(n - 1);
    }
  }

  lemma StrayReencoded(before: Bytes, n: nat, after: Bytes)
    requires ValidUtf8(before) && ValidUtf8(after)
    ensures Reencoded(before + (StrayBytes(n) + after)) == before + (Encode(Replacements(n)) + after)
  {
    var rest := StrayBytes(n) + after;
    DecodeConcat(before, rest);
    StrayBytesDecode(n, after);
    ReencodingNeverShrinks(before);
    ReplacementsEncode(n);
    EncodeConcat(Decode(before), Decode(rest));
    EncodeConcat(Replacements(n), Decode(after));
    ValidUtf8Meaning(before);
    ValidUtf8Meaning(after);
  }

  /**
    Each stray byte counts three times and comes back as a replacement: the patch is
    flagged although the diff fits when its re-encoded form does not, and otherwise
    it is unflagged and not what git wrote.
  */
  lemma StrayBytesAreReplaced(before: Bytes, n: nat, after: Bytes, max: nat)
    requires ValidUtf8(before) && ValidUtf8(after)
    ensures AllDiffs(StrayDiff(before, n, after), []) == before + (StrayBytes(n) + after)
    ensures var r := CollectPatch(StrayDiff(before, n, after), [], max);
            && r.Ok? && (r.value.truncated <==> |before| + 3 * n + |after| > max)
            && (!r.value.truncated ==> Encode(r.value.text) == before + (Encode(Replacements(n)) + after))
  {
    var git, chunk := StrayDiff(before, n, after), before + (StrayBytes(n) + after);
    var chunks := git.trackedDiff.output;
    assert chunks == [chunk] && chunks[..0] == [];
    assert Concat(chunks[..0]) == [];
    assert Concat(chunks) == [] + chunk;
    assert [] + chunk == chunk;
    StrayReencoded(before, n, after);
    ReplacementsEncode(n);
    PatchIsReencoded(git, [], max);
  }

  function Ascii(s: string): Bytes {
    seq(|s|, i requires 0 <= i < |s| => if s[i] as int < 0x80 then s[i] as int else 0x3F)
  }

  /** A diff that adds one line of the given length in stray bytes. */
  function AddedLine(n: nat): Git {
    StrayDiff(Ascii("--- /dev/null\n+++ b/f\n@@ -0,0 +1 @@\n+"), n, Ascii("\n"))
  }

  /** Two such diffs under a bound of fifty bytes: one comes back changed and unflagged, one is flagged although it fits. */
  lemma AddedLineWitness()
    ensures var r := CollectPatch(AddedLine(1), [], 50);
            r.Ok? && !r.value.truncated && Encode(r.value.text) != AllDiffs(AddedLine(1), [])
    ensures var r := CollectPatch(AddedLine(6), [], 50);
            r.Ok? && r.value.truncated && |AllDiffs(AddedLine(6), [])| <= 50
  {
    var head, tail := Ascii("--- /dev/null\n+++ b/f\n@@ -0,0 +1 @@\n+"), Ascii("\n");
    AsciiIsValid(head);
    AsciiIsValid(tail);
    StrayBytesAreReplaced(head, 1, tail, 50);
    StrayBytesAreReplaced(head, 6, tail, 50);
    ReplacementsEncode(1);
    assert |head + (Encode(Replacements(1)) + tail)| == |head + (StrayBytes(1) + tail)| + 2;
  }

  /**
    Any artifact that builds from a collection holds all re-encoded diffs within the
    bound, and so the exact concatenation of all diffs if and only if they are valid.
  */
  lemma CompletePatchOrNoArtifact(p: Platform, git: Git, patchBytes: nat, metadataBytes: nat, id: Identity, outcome: ArtifactOutcome,
                                  collected: Collection, a: BuiltArtifact)
    requires SignedCollation(p) && Collect(p.collate, git, patchBytes, metadataBytes) == Ok(collected)
    requires Build(p, BuildInput(id, outcome, collected.changedFiles, collected.patch)) == Ok(a)
    ensures |AllDiffs(git, collected.changedFiles)| <= |AllReencoded(git, collected.changedFiles)| <= patchBytes
    ensures VerifyBody(p, a.body).Ok? && Encode(VerifyBody(p, a.body).value.patch) == AllReencoded(git, collected.changedFiles)
    ensures Encode(VerifyBody(p, a.body).value.patch) == AllDiffs(git, collected.changedFiles) <==> ValidDiffs(git, collected.changedFiles)
  {
    var input := BuildInput(id, outcome, collected.changedFiles, collected.patch);
    PatchIsReencoded(git, collected.changedFiles, patchBytes);
    ReencodedExactly(git, collected.changedFiles);
    BuildSeals(p, input, a);
    TruncatedNeverBuilds(p, input);
    BuiltBodyVerifies(p, input, a);
  }

  lemma TruncatedNeverBuilds(p: Platform, input: BuildInput)
    ensures input.patch.truncated ==> BuildManifest(p, input).Throws?
  {
  }
}
