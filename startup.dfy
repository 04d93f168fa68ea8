/** Lines 204-245: everything the script does before its first prompt. It
    loads the candidates, prunes the transcript of entries whose recording is
    gone, rewrites and re-reads the transcript file, extracts the texts,
    checks the speaker of the first entry, and reads the passed list. */
module Startup {
  import opened Text
  import opened Candidates
  import opened Tags
  import opened Seqs

  /** `t.split(" ")[0] + ".wav"`: the recording an entry refers to. */
  function WavName(line: string): string {
    FirstToken(line) + ".wav"
  }

  /** `os.path.exists(os.path.join(audio_folder, ...))`, with the train
      folder given as the set of its file names. */
  predicate Backed(line: string, trainFiles: set<string>) {
    WavName(line) in trainFiles
  }

  predicate AllBacked(transcript: seq<string>, trainFiles: set<string>) {
    forall k :: 0 <= k < |transcript| ==> Backed(transcript[k], trainFiles)
  }

  /** Lines 224-225: the comprehension that keeps the entries whose
      recording still exists. */
  function Prune(transcript: seq<string>, trainFiles: set<string>): (r: seq<string>)
    ensures forall x :: x in r <==> x in transcript && Backed(x, trainFiles)
    ensures AllBacked(r, trainFiles)
    ensures |r| <= |transcript|
  {
    if transcript == [] then []
    else
      var head := if Backed(transcript[0], trainFiles) then [transcript[0]] else [];
      head + Prune(transcript[1..], trainFiles)
  }

  /** Entries without line breaks stay so after pruning. */
  lemma PruneWithoutLineBreak(transcript: seq<string>, trainFiles: set<string>)
    requires AllWithoutLineBreak(transcript)
    ensures AllWithoutLineBreak(Prune(transcript, trainFiles))
  {
    var r := Prune(transcript, trainFiles);
    forall k | 0 <= k < |r|
      ensures NoLineBreak(r[k])
    {
      assert r[k] in transcript;
    }
  }

  /** Pruning works entry by entry, so it keeps the order of the entries it keeps. */
  lemma {:induction false} PruneAppend(a: seq<string>, b: seq<string>, trainFiles: set<string>)
    ensures Prune(a + b, trainFiles) == Prune(a, trainFiles) + Prune(b, trainFiles)
    decreases |a|
  {
    if a == [] {
      assert a + b == b;
    } else {
      assert (a + b)[0] == a[0];
      assert (a + b)[1..] == a[1..] + b;
      PruneAppend(a[1..], b, trainFiles);
    }
  }

  /** Every entry keeps all its copies when backed and loses all of them otherwise. */
  lemma {:induction false} PruneCount(transcript: seq<string>, trainFiles: set<string>, x: string)
    ensures multiset(Prune(transcript, trainFiles))[x]
         == if Backed(x, trainFiles) then multiset(transcript)[x] else 0
    decreases |transcript|
  {
    if !Backed(x, trainFiles) {
      assert x !in Prune(transcript, trainFiles);
    } else if transcript != [] {
      var head := if Backed(transcript[0], trainFiles) then [transcript[0]] else [];
      PruneCount(transcript[1..], trainFiles, x);
      CountCons(transcript, x);
      assert multiset(Prune(transcript, trainFiles))[x]
          == multiset(head)[x] + multiset(Prune(transcript[1..], trainFiles))[x];
    }
  }

  /** The transcript comes through unchanged exactly when every entry is backed. */
  lemma {:induction false} PruneUnchanged(transcript: seq<string>, trainFiles: set<string>)
    ensures Prune(transcript, trainFiles) == transcript <==> AllBacked(transcript, trainFiles)
    decreases |transcript|
  {
    if transcript != [] {
      PruneUnchanged(transcript[1..], trainFiles);
      if !Backed(transcript[0], trainFiles) {
        assert |Prune(transcript, trainFiles)| <= |transcript[1..]|;
      }
    }
  }

  /** Pruning a pruned transcript against the same folder changes nothing. */
  lemma PruneIdempotent(transcript: seq<string>, trainFiles: set<string>)
    ensures Prune(Prune(transcript, trainFiles), trainFiles) == Prune(transcript, trainFiles)
  {
    PruneUnchanged(Prune(transcript, trainFiles), trainFiles);
  }

  /** Entries that do not name the deleted file are all kept. */
  lemma PruneAfterDelete(s: seq<string>, trainFiles: set<string>, gone: string)
    requires AllBacked(s, trainFiles)
    requires forall k :: 0 <= k < |s| ==> WavName(s[k]) != gone
    ensures Prune(s, trainFiles - {gone}) == s
  {
    PruneUnchanged(s, trainFiles - {gone});
  }

  /** Deleting one recording removes exactly the entry that names it: the
      rest of a fully backed transcript, before and after, is kept as it was. */
  lemma DeleteRecording(before: seq<string>, entry: string, after: seq<string>, trainFiles: set<string>)
    requires AllBacked(before, trainFiles) && AllBacked(after, trainFiles)
    requires forall k :: 0 <= k < |before| ==> WavName(before[k]) != WavName(entry)
    requires forall k :: 0 <= k < |after| ==> WavName(after[k]) != WavName(entry)
    ensures Prune(before + [entry] + after, trainFiles - {WavName(entry)}) == before + after
  {
    var rest := trainFiles - {WavName(entry)};
    var front := before + [entry];
    PruneAppend(front, after, rest);
    PruneAppend(before, [entry], rest);
    PruneAfterDelete(before, trainFiles, WavName(entry));
    PruneAfterDelete(after, trainFiles, WavName(entry));
    assert Prune([entry], rest) == [] by {
      assert [entry][1..] == [];
    }
    assert Prune(front, rest) == before;
  }

  /** Lines 233-234: `[" ".join(l.split(" ")[1:]) for l in transcript]`. */
  function TextsOf(transcript: seq<string>): (texts: seq<string>)
    ensures |texts| == |transcript|
  {
    if transcript == [] then []
    else TextsOf(transcript[..|transcript| - 1]) + [AfterFirstToken(transcript[|transcript| - 1])]
  }

  /** Text `k` is what follows the first space of entry `k`. */
  lemma {:induction false} TextsOfAt(transcript: seq<string>, k: nat)
    requires k < |transcript|
    ensures TextsOf(transcript)[k] == AfterFirstToken(transcript[k])
    decreases |transcript|
  {
    var n := |transcript| - 1;
    if k < n {
      TextsOfAt(transcript[..n], k);
    }
  }

  lemma TextsOfSnoc(transcript: seq<string>, entry: string)
    ensures TextsOf(transcript + [entry]) == TextsOf(transcript) + [AfterFirstToken(entry)]
  {
    assert (transcript + [entry])[..|transcript|] == transcript;
  }

  /** Line 235: the run stops when the transcript is non-empty and the first
      entry's speaker prefix is not the current speaker. */
  predicate NameMismatch(transcript: seq<string>, name: string) {
    transcript != [] && SpeakerOf(transcript[0]) != name
  }

  /** Only the first entry is checked: whatever follows it is never looked at. */
  lemma OnlyFirstEntryChecked(first: string, rest: seq<string>, other: seq<string>, name: string)
    ensures NameMismatch([first] + rest, name) == NameMismatch([first] + other, name)
    ensures NameMismatch([first] + rest, name) <==> first[..IndexOf(FirstToken(first), '_')] != name
  {
    SpeakerOfPrefix(first);
  }

  /** A speaker name holding an underscore can never match, so any non-empty
      transcript is refused for it. */
  lemma UnderscoreNameAlwaysRefused(transcript: seq<string>, name: string)
    requires '_' in name && transcript != []
    ensures NameMismatch(transcript, name)
  {
    SpeakerOfPrefix(transcript[0]);
  }

  /** A transcript whose first entry was recorded under `name` passes the check
      when the name has no space and no underscore. */
  lemma RecordedEntryPassesCheck(name: string, tag: string, text: string, rest: seq<string>)
    requires ' ' !in name && '_' !in name && IsTag(name, tag)
    ensures !NameMismatch([MakeEntry(tag, text)] + rest, name)
  {
    ParseEntry(name, tag, text);
  }

  /** The in-memory state of a session together with what is on disk: the
      transcript entries, their texts, the passed lines, the two transcript
      files' text and the train folder's file names. */
  datatype Log = Log(
    transcript: seq<string>,
    transcriptContents: seq<string>,
    passed: seq<string>,
    transcriptFile: string,
    passedFile: string,
    trainFiles: set<string>)

  /** The lists and the files agree: the texts are those of the entries, the
      transcript file holds the entries, the passed file reads back as the
      passed list, and every entry has its recording. A log in this state
      survives a restart unchanged (`RestartKeepsLog`). */
  predicate Consistent(log: Log) {
    AllWithoutLineBreak(log.transcript) && AllWithoutLineBreak(log.passed)
    && log.transcriptContents == TextsOf(log.transcript)
    && log.transcriptFile == Serialise(log.transcript)
    && SplitLines(log.passedFile) == log.passed
    && AllBacked(log.transcript, log.trainFiles)
  }

  /** Reading the files of a consistent log again, as lines 222-240 do on the
      next run, gives back the same lists. */
  lemma RestartKeepsLog(log: Log)
    requires Consistent(log)
    ensures Prune(SplitLines(log.transcriptFile), log.trainFiles) == log.transcript
    ensures SplitLines(Serialise(Prune(SplitLines(log.transcriptFile), log.trainFiles))) == log.transcript
    ensures TextsOf(SplitLines(log.transcriptFile)) == log.transcriptContents
    ensures SplitLines(log.passedFile) == log.passed
  {
    SplitLinesSerialise(log.transcript);
    PruneUnchanged(log.transcript, log.trainFiles);
  }

  /** How the start-up ends: ready to prompt, stopped by the speaker check
      (after the transcript file was rewritten), or stopped by `c[0]` on an
      empty content line (line 208) before any file was touched. */
  datatype Started =
    | Ready(contents: seq<string>, log: Log, index: nat, next: nat)
    | SpeakerMismatch(transcriptFile: string)
    | EmptyContentLine

  /** Lines 204-245. The three file texts are what the files hold: an absent
      transcript or passed file reads as "", as `create_empty_file` makes it,
      while the contents file must exist (line 204 opens it as it is). The
      train folder is a set of names and the random stream is `rng` from `pos`. */
  method Boot(contentsText: string, transcriptText: string, passedText: string,
              trainFiles: set<string>, name: string, rng: nat -> nat, pos: nat)
    returns (b: Started)
    ensures b.EmptyContentLine? <==> Filter(Sort(SplitLines(contentsText))).IndexError?
    ensures b.SpeakerMismatch? <==>
      !b.EmptyContentLine? && NameMismatch(Prune(SplitLines(transcriptText), trainFiles), name)
    ensures b.SpeakerMismatch? ==>
      b.transcriptFile == Serialise(Prune(SplitLines(transcriptText), trainFiles))
    ensures b.Ready? ==>
      && multiset(b.contents) == multiset(Filter(Sort(SplitLines(contentsText))).lines)
      && AllWithoutLineBreak(b.contents)
      && b.log.transcript == Prune(SplitLines(transcriptText), trainFiles)
      && b.log.passed == SplitLines(passedText)
      && b.log.passedFile == passedText
      && b.log.trainFiles == trainFiles
      && b.index == |b.log.transcript|
      && Consistent(b.log)
  {
    var candidates, next := LoadCandidates(contentsText, rng, pos);
    if candidates.IndexError? {
      return EmptyContentLine;
    }
    // Lines 222-227: prune and write back.
    var transcript := SplitLines(transcriptText);
    var kept := Prune(transcript, trainFiles);
    PruneWithoutLineBreak(transcript, trainFiles);
    var transcriptFile := WriteToFile(kept);
    // Lines 230-237: read back, extract the texts, check the speaker.
    transcript := SplitLines(transcriptFile);
    assert transcript == kept;
    var transcriptContents := TextsOf(transcript);
    if NameMismatch(transcript, name) {
      return SpeakerMismatch(transcriptFile);
    }
    var passed := SplitLines(passedText);
    var log := Log(transcript, transcriptContents, passed, transcriptFile, passedText, trainFiles);
    assert Consistent(log) by {
      assert SplitLines(log.passedFile) == log.passed;
    }
    b := Ready(candidates.lines, log, |transcript|, next);
  }
}
