/** Lines 245-293: the prompt loop. Each candidate line not yet recorded or
    passed is shown, and keys are read until one decides it: `p` records
    (a failed recording asks again), `n` passes, `q` quits, any other key is
    ignored. */
module Session {
  import opened Text
  import opened Tags
  import opened Startup
  import opened Seqs

  /** Lines 273-279: a recording saved under `tag` for `text`. The entry is
      appended, its text too, the transcript file is rewritten, and the train
      folder gains `tag + ".wav"` (written by `trim_audio` at line 39). */
  function Accept(log: Log, text: string, tag: string): Log {
    var transcript := log.transcript + [MakeEntry(tag, text)];
    log.(transcript := transcript,
         transcriptContents := log.transcriptContents + [text],
         transcriptFile := Serialise(transcript),
         trainFiles := log.trainFiles + {tag + ".wav"})
  }

  /** Lines 284-285: `text` is passed and the passed file rewritten. */
  function Pass(log: Log, text: string): Log {
    var passed := log.passed + [text];
    log.(passed := passed, passedFile := Serialise(passed))
  }

  /** A recorded entry keeps the files and lists in agreement, provided the
      speaker name has no space and neither it nor the text has a line break. */
  lemma AcceptPreservesConsistent(log: Log, name: string, tag: string, text: string)
    requires Consistent(log)
    requires ' ' !in name && NoLineBreak(name) && NoLineBreak(text) && IsTag(name, tag)
    ensures Consistent(Accept(log, text, tag))
  {
    var entry := MakeEntry(tag, text);
    var after := Accept(log, text, tag);
    TagHasNoSpace(name, tag);
    ParseLine(tag, text);
    TextsOfSnoc(log.transcript, entry);
    EntryNoLineBreak(name, tag, text);
    AllWithoutLineBreakAppend(log.transcript, [entry]);
    assert Backed(entry, after.trainFiles);
    AllBackedGrow(log.transcript, log.trainFiles, after.trainFiles);
    AllBackedAppend(log.transcript, [entry], after.trainFiles);
  }

  /** Line 225 looks a recording up by the entry's first token plus ".wav",
      and line 167 accepts any name: with a space in the name, the entry of
      a saved recording names the file of the name's first word, not the
      `tag + ".wav"` line 39 wrote, so the log is no longer consistent and
      the next start-up drops the entry as unrecorded. */
  lemma SpacedNameEntryPruned(log: Log, name: string, tag: string, text: string)
    requires ' ' in name && IsTag(name, tag) && WavName(name) !in log.trainFiles
    ensures !Backed(MakeEntry(tag, text), Accept(log, text, tag).trainFiles)
    ensures !Consistent(Accept(log, text, tag))
    ensures var after := Accept(log, text, tag);
      Prune(after.transcript, after.trainFiles) == Prune(log.transcript, after.trainFiles)
  {
    var entry := MakeEntry(tag, text);
    var after := Accept(log, text, tag);
    SpacedNameFirstToken(name, tag, text);
    assert WavName(entry) != tag + ".wav" by {
      assert |WavName(entry)| < |tag + ".wav"|;
    }
    assert after.transcript[|log.transcript|] == entry;
    PruneAppend(log.transcript, [entry], after.trainFiles);
    assert Prune([entry], after.trainFiles) == [];
  }

  /** A passed line keeps the files and lists in agreement. */
  lemma PassPreservesConsistent(log: Log, text: string)
    requires Consistent(log) && NoLineBreak(text)
    ensures Consistent(Pass(log, text))
  {
    var passed := log.passed + [text];
    AllWithoutLineBreakAppend(log.passed, [text]);
    SplitLinesSerialise(passed);
  }

  /** A key that does not decide the line: anything but `p`, `n` and `q`, or a
      `p` whose recording failed. */
  predicate Ignored(key: char, saved: bool) {
    key != 'n' && key != 'q' && (key == 'p' ==> !saved)
  }

  /** The number of `p` keys in `keys[lo..hi]`; each one draws a tag and
      attempts a recording. */
  function Presses(keys: seq<char>, lo: nat, hi: nat): nat
    requires lo <= hi <= |keys|
    decreases hi - lo
  {
    if lo == hi then 0
    else (if keys[lo] == 'p' then 1 else 0) + Presses(keys, lo + 1, hi)
  }

  /** The keys `keys[lo..hi]` leave the line undecided when the first of them
      is read at recording attempt `a`: each is ignored, and each `p` among
      them moves on to the next attempt. */
  predicate Undecided(keys: seq<char>, lo: nat, hi: nat, a: nat, saved: nat -> bool)
    requires lo <= hi <= |keys|
    decreases hi - lo
  {
    lo == hi
    || (Ignored(keys[lo], saved(a))
        && Undecided(keys, lo + 1, hi, a + (if keys[lo] == 'p' then 1 else 0), saved))
  }

  /** How a line is decided; a recording carries the stream position its
      tag's letters were drawn from. */
  datatype Verdict = Recorded(drawnAt: nat) | Passed | QuitKey | Closed

  /** Where the scan of the keys ends: the verdict, the next key to read, the
      number of the next recording attempt and the next stream position. */
  datatype Decision = Decision(verdict: Verdict, next: nat, attempts: nat, pos: nat)

  /** Lines 256-290 as a function of the keys, read from `keys[k]` on with
      `a` the number of the next recording attempt and `pos` the next stream
      position: each `p` draws a tag (ten positions) and attempts a recording;
      `p` with a saved recording records, `n` passes, `q` quits, the end of
      input closes, and any other key, or a `p` whose recording failed, is
      read past. */
  function Decide(keys: seq<char>, k: nat, a: nat, pos: nat, saved: nat -> bool): (d: Decision)
    requires k <= |keys|
    ensures k <= d.next <= |keys| && a <= d.attempts
    ensures d.verdict.Recorded? ==> a < d.attempts
    decreases |keys| - k
  {
    if k == |keys| then Decision(Closed, k, a, pos)
    else if keys[k] == 'p' && saved(a) then Decision(Recorded(pos), k + 1, a + 1, pos + SAMPLE_SIZE)
    else if keys[k] == 'n' then Decision(Passed, k + 1, a, pos)
    else if keys[k] == 'q' then Decision(QuitKey, k + 1, a, pos)
    else if keys[k] == 'p' then Decide(keys, k + 1, a + 1, pos + SAMPLE_SIZE, saved)
    else Decide(keys, k + 1, a, pos, saved)
  }

  /** What the scan promises: every key before the deciding one was ignored,
      each `p` among the keys read made one attempt and drew one tag, the
      deciding key is the one its verdict names (a `p` whose recording was
      saved, its tag drawn last), and only the end of input reads every key
      without deciding. */
  lemma {:induction false} DecideScan(keys: seq<char>, k: nat, a: nat, pos: nat, saved: nat -> bool)
    requires k <= |keys|
    ensures var d := Decide(keys, k, a, pos, saved);
      && d.attempts == a + Presses(keys, k, d.next)
      && d.pos == pos + SAMPLE_SIZE * Presses(keys, k, d.next)
      && (d.verdict.Closed? ==> d.next == |keys|)
      && (!d.verdict.Closed? ==> k < d.next)
      && Undecided(keys, k, if d.verdict.Closed? then d.next else d.next - 1, a, saved)
      && (d.verdict.Recorded? ==>
            keys[d.next - 1] == 'p' && saved(d.attempts - 1) && d.verdict.drawnAt + SAMPLE_SIZE == d.pos)
      && (d.verdict.Passed? ==> keys[d.next - 1] == 'n')
      && (d.verdict.QuitKey? ==> keys[d.next - 1] == 'q')
    decreases |keys| - k
  {
    if k < |keys| && Ignored(keys[k], saved(a)) {
      if keys[k] == 'p' {
        DecideScan(keys, k + 1, a + 1, pos + SAMPLE_SIZE, saved);
      } else {
        DecideScan(keys, k + 1, a, pos, saved);
      }
    }
  }

  /** Lines 256-290 for one line `text`: keys are read from `keys[k0..]`,
      the recording outcome of attempt `a` is `saved(a)`, and the tags are
      drawn from `rng` from `pos0` on. `Closed` is the end of input, where
      `ord(sys.stdin.read(1))` fails. */
  method AwaitDecision(text: string, log: Log, name: string, keys: seq<char>, k0: nat,
                       rng: nat -> nat, pos0: nat, attempt0: nat, saved: nat -> bool)
    returns (v: Verdict, out: Log, tag: string, k: nat, pos: nat, attempt: nat)
    requires k0 <= |keys|
    ensures Decide(keys, k0, attempt0, pos0, saved) == Decision(v, k, attempt, pos)
    ensures v.Recorded? ==>
      tag == MakeTag(name, GetRandomString(rng, v.drawnAt)) && out == Accept(log, text, tag)
    ensures v.Passed? ==> out == Pass(log, text)
    ensures v.QuitKey? || v.Closed? ==> out == log
  {
    k, pos, attempt, out, tag, v := k0, pos0, attempt0, log, "", Closed;
    while k < |keys|
      invariant k0 <= k <= |keys|
      invariant Decide(keys, k0, attempt0, pos0, saved) == Decide(keys, k, attempt, pos, saved)
      invariant out == log
    {
      var key := keys[k];
      if key == 'p' {
        var random := GetRandomString(rng, pos);
        tag := MakeTag(name, random);
        if saved(attempt) {
          assert Decide(keys, k, attempt, pos, saved) == Decision(Recorded(pos), k + 1, attempt + 1, pos + SAMPLE_SIZE);
          out := RecordEntry(log, text, tag);
          k, v, pos, attempt := k + 1, Recorded(pos), pos + SAMPLE_SIZE, attempt + 1;
          return;
        }
        assert Decide(keys, k, attempt, pos, saved) == Decide(keys, k + 1, attempt + 1, pos + SAMPLE_SIZE, saved);
        pos, attempt := pos + SAMPLE_SIZE, attempt + 1;
      } else if key == 'n' {
        assert Decide(keys, k, attempt, pos, saved) == Decision(Passed, k + 1, attempt, pos);
        out := PassLine(log, text);
        k, v := k + 1, Passed;
        return;
      } else if key == 'q' {
        assert Decide(keys, k, attempt, pos, saved) == Decision(QuitKey, k + 1, attempt, pos);
        k, v := k + 1, QuitKey;
        return;
      } else {
        assert Decide(keys, k, attempt, pos, saved) == Decide(keys, k + 1, attempt, pos, saved);
      }
      k := k + 1;
    }
    assert Decide(keys, k, attempt, pos, saved) == Decision(Closed, k, attempt, pos);
  }

  /** Lines 275-279: append the entry and its text and rewrite the transcript file. */
  method RecordEntry(log: Log, text: string, tag: string) returns (out: Log)
    ensures out == Accept(log, text, tag)
  {
    var transcript := log.transcript + [MakeEntry(tag, text)];
    var file := WriteToFile(transcript);
    out := log.(transcript := transcript,
                transcriptContents := log.transcriptContents + [text],
                transcriptFile := file,
                trainFiles := log.trainFiles + {tag + ".wav"});
  }

  /** Lines 284-285: append the line to the passed list and rewrite its file. */
  method PassLine(log: Log, text: string) returns (out: Log)
    ensures out == Pass(log, text)
  {
    var passed := log.passed + [text];
    var file := WriteToFile(passed);
    out := log.(passed := passed, passedFile := file);
  }

  /** How the loop ends: every line handled, `q` (line 290), or the end of input. */
  datatype Status = Completed | Quit | InputClosed

  predicate NoRepeats<T(==)>(s: seq<T>) {
    forall i, j :: 0 <= i < j < |s| ==> s[i] != s[j]
  }

  /** The entries written for the texts recorded under the given tags. */
  function Entries(tags: seq<string>, texts: seq<string>): (r: seq<string>)
    requires |tags| == |texts|
    ensures |r| == |tags|
  {
    if tags == [] then []
    else Entries(tags[..|tags| - 1], texts[..|texts| - 1]) + [MakeEntry(tags[|tags| - 1], texts[|texts| - 1])]
  }

  lemma {:induction false} EntriesAt(tags: seq<string>, texts: seq<string>, k: nat)
    requires |tags| == |texts| && k < |tags|
    ensures Entries(tags, texts)[k] == MakeEntry(tags[k], texts[k])
    decreases |tags|
  {
    var n := |tags| - 1;
    if k < n {
      EntriesAt(tags[..n], texts[..n], k);
    }
  }

  lemma EntriesSnoc(tags: seq<string>, texts: seq<string>, tag: string, text: string)
    requires |tags| == |texts|
    ensures Entries(tags + [tag], texts + [text]) == Entries(tags, texts) + [MakeEntry(tag, text)]
  {
    assert (tags + [tag])[..|tags|] == tags;
    assert (texts + [text])[..|texts|] == texts;
  }

  /** The train-folder files of the given tags. */
  function WavFiles(tags: seq<string>): set<string> {
    if tags == [] then {} else WavFiles(tags[..|tags| - 1]) + {tags[|tags| - 1] + ".wav"}
  }

  lemma WavFilesSnoc(tags: seq<string>, tag: string)
    ensures WavFiles(tags + [tag]) == WavFiles(tags) + {tag + ".wav"}
  {
    SnocPrefix(tags, tag);
  }

  /** The train folder gains exactly one file per tag. */
  lemma {:induction false} WavFilesMembers(tags: seq<string>, f: string)
    ensures f in WavFiles(tags) <==> exists k :: 0 <= k < |tags| && f == tags[k] + ".wav"
    decreases |tags|
  {
    if tags != [] {
      var n := |tags| - 1;
      WavFilesMembers(tags[..n], f);
      if f in WavFiles(tags[..n]) {
        var k :| 0 <= k < n && f == tags[..n][k] + ".wav";
        assert f == tags[k] + ".wav";
      }
      if exists k :: 0 <= k < |tags| && f == tags[k] + ".wav" {
        var k :| 0 <= k < |tags| && f == tags[k] + ".wav";
        if k < n {
          assert f == tags[..n][k] + ".wav";
        }
      }
    }
  }

  /** The loop's state: the session log, and the lines recorded (with their
      tags) and passed so far, in order. */
  datatype Progress = Progress(
    log: Log,
    recorded: seq<string>,
    tags: seq<string>,
    skipped: seq<string>)

  /** The lists only grew, by the recorded lines (with their entries and
      train files) and the passed lines, and each file holds its list once
      the list changed. */
  predicate Grown(log0: Log, p: Progress) {
    && |p.tags| == |p.recorded|
    && p.log.transcript == log0.transcript + Entries(p.tags, p.recorded)
    && p.log.transcriptContents == log0.transcriptContents + p.recorded
    && p.log.passed == log0.passed + p.skipped
    && p.log.trainFiles == log0.trainFiles + WavFiles(p.tags)
    && p.log.transcriptFile == (if p.recorded == [] then log0.transcriptFile else Serialise(p.log.transcript))
    && p.log.passedFile == (if p.skipped == [] then log0.passedFile else Serialise(p.log.passed))
  }

  /** Every recording was saved under a tag of the speaker. */
  predicate Tagged(name: string, p: Progress) {
    forall k :: 0 <= k < |p.tags| ==> IsTag(name, p.tags[k])
  }

  /** No element of `a` is an element of `b`. */
  predicate Disjoint<T(==)>(a: seq<T>, b: seq<T>) {
    forall i, j :: 0 <= i < |a| && 0 <= j < |b| ==> a[i] != b[j]
  }

  /** Every line recorded or passed was a candidate not handled before the
      run, and was handled once: recorded or passed, never twice and never
      both. */
  predicate Accounted(log0: Log, contents: seq<string>, p: Progress) {
    && NoRepeats(p.recorded) && NoRepeats(p.skipped) && Disjoint(p.recorded, p.skipped)
    && Disjoint(p.recorded, log0.transcriptContents) && Disjoint(p.recorded, log0.passed)
    && Disjoint(p.skipped, log0.transcriptContents) && Disjoint(p.skipped, log0.passed)
    && (forall k :: 0 <= k < |p.recorded| ==> p.recorded[k] in contents)
    && (forall k :: 0 <= k < |p.skipped| ==> p.skipped[k] in contents)
  }

  /** What the loop has done so far, against the state `log0` it started from. */
  predicate Tracked(log0: Log, contents: seq<string>, name: string, p: Progress) {
    Grown(log0, p) && Tagged(name, p) && Accounted(log0, contents, p)
  }

  /** The texts of the entries written for recorded texts are those texts,
      when no tag has a space. */
  lemma {:induction false} TextsOfEntries(t0: seq<string>, tags: seq<string>, texts: seq<string>)
    requires |tags| == |texts|
    requires forall k :: 0 <= k < |tags| ==> ' ' !in tags[k]
    ensures TextsOf(t0 + Entries(tags, texts)) == TextsOf(t0) + texts
    decreases |tags|
  {
    if tags != [] {
      var n := |tags| - 1;
      var tags', texts' := tags[..n], texts[..n];
      var front := t0 + Entries(tags', texts');
      var entry := MakeEntry(tags[n], texts[n]);
      assert forall k :: 0 <= k < |tags'| ==> tags'[k] == tags[k];
      TextsOfEntries(t0, tags', texts');
      assert Entries(tags, texts) == Entries(tags', texts') + [entry];
      AppendAssoc(t0, Entries(tags', texts'), [entry]);
      TextsOfSnoc(front, entry);
      ParseLine(tags[n], texts[n]);
      SnocSplit(texts);
      AppendAssoc(TextsOf(t0), texts', [texts[n]]);
    } else {
      AppendEmpty(t0);
      AppendEmpty(TextsOf(t0));
    }
  }

  /** Entries made for the speaker from lines without line breaks are written
      with their recordings: none has a line break and each is backed. */
  lemma EntriesWellFormed(name: string, tags: seq<string>, texts: seq<string>, trainFiles: set<string>)
    requires |tags| == |texts| && ' ' !in name && NoLineBreak(name) && AllWithoutLineBreak(texts)
    requires forall k :: 0 <= k < |tags| ==> IsTag(name, tags[k])
    requires WavFiles(tags) <= trainFiles
    ensures AllWithoutLineBreak(Entries(tags, texts))
    ensures AllBacked(Entries(tags, texts), trainFiles)
  {
    var es := Entries(tags, texts);
    forall k | 0 <= k < |es|
      ensures NoLineBreak(es[k]) && Backed(es[k], trainFiles)
    {
      EntriesAt(tags, texts, k);
      EntryNoLineBreak(name, tags[k], texts[k]);
      TagHasNoSpace(name, tags[k]);
      ParseLine(tags[k], texts[k]);
      WavFilesMembers(tags, tags[k] + ".wav");
    }
  }

  lemma AllWithoutLineBreakAppend(a: seq<string>, b: seq<string>)
    requires AllWithoutLineBreak(a) && AllWithoutLineBreak(b)
    ensures AllWithoutLineBreak(a + b)
  {
    forall k | 0 <= k < |a + b|
      ensures NoLineBreak((a + b)[k])
    {
      if k >= |a| {
        assert (a + b)[k] == b[k - |a|];
      }
    }
  }

  lemma AllBackedAppend(a: seq<string>, b: seq<string>, trainFiles: set<string>)
    requires AllBacked(a, trainFiles) && AllBacked(b, trainFiles)
    ensures AllBacked(a + b, trainFiles)
  {
    forall k | 0 <= k < |a + b|
      ensures Backed((a + b)[k], trainFiles)
    {
      if k >= |a| {
        assert (a + b)[k] == b[k - |a|];
      }
    }
  }

  lemma AllBackedGrow(a: seq<string>, small: set<string>, large: set<string>)
    requires AllBacked(a, small) && small <= large
    ensures AllBacked(a, large)
  {
  }

  /** Lines taken from the candidate list, and each has no line break. */
  lemma ShownWithoutLineBreak(s: seq<string>, contents: seq<string>)
    requires AllWithoutLineBreak(contents)
    requires forall k :: 0 <= k < |s| ==> s[k] in contents
    ensures AllWithoutLineBreak(s)
  {
    forall k | 0 <= k < |s|
      ensures NoLineBreak(s[k])
    {
      var j :| 0 <= j < |contents| && contents[j] == s[k];
    }
  }

  /** Whatever the loop did, it leaves the lists and the files in agreement
      when it started from agreement, the speaker name has no space or line
      break, and no candidate line has a line break: the next start-up reads
      back exactly this state (`RestartKeepsLog`). */
  lemma TrackedConsistent(log0: Log, contents: seq<string>, name: string, p: Progress)
    requires Tracked(log0, contents, name, p)
    ensures Consistent(log0) && ' ' !in name && NoLineBreak(name) && AllWithoutLineBreak(contents)
      ==> Consistent(p.log)
  {
    if Consistent(log0) && ' ' !in name && NoLineBreak(name) && AllWithoutLineBreak(contents) {
      var log := p.log;
      ShownWithoutLineBreak(p.recorded, contents);
      ShownWithoutLineBreak(p.skipped, contents);
      EntriesWellFormed(name, p.tags, p.recorded, log.trainFiles);
      AllWithoutLineBreakAppend(log0.transcript, Entries(p.tags, p.recorded));
      AllWithoutLineBreakAppend(log0.passed, p.skipped);
      AllBackedGrow(log0.transcript, log0.trainFiles, log.trainFiles);
      AllBackedAppend(log0.transcript, Entries(p.tags, p.recorded), log.trainFiles);
      forall k | 0 <= k < |p.tags|
        ensures ' ' !in p.tags[k]
      {
        TagHasNoSpace(name, p.tags[k]);
      }
      TextsOfEntries(log0.transcript, p.tags, p.recorded);
      if p.recorded == [] {
        assert log.transcript == log0.transcript;
      }
      if p.skipped == [] {
        assert log.passed == log0.passed;
      } else {
        SplitLinesSerialise(log.passed);
      }
    }
  }

  /** Before the first line nothing is accounted for. */
  lemma TrackedStart(log0: Log, contents: seq<string>, name: string)
    ensures Tracked(log0, contents, name, Progress(log0, [], [], []))
  {
    assert log0.transcript + [] == log0.transcript;
    assert log0.transcriptContents + [] == log0.transcriptContents;
    assert log0.passed + [] == log0.passed;
  }

  /** Line 248: the line was recorded or passed already. */
  predicate Handled(log: Log, c: string) {
    c in log.transcriptContents || c in log.passed
  }

  /** A line not yet handled was not shown before. */
  lemma UnhandledIsNew(log0: Log, contents: seq<string>, name: string, p: Progress, c: string)
    requires Tracked(log0, contents, name, p)
    requires c in contents && !Handled(p.log, c)
    ensures c !in p.recorded && c !in p.skipped
    ensures c !in log0.transcriptContents && c !in log0.passed
  {
    assert forall x :: x in p.recorded ==> x in p.log.transcriptContents;
    assert forall x :: x in p.skipped ==> x in p.log.passed;
  }

  lemma AppendNew<T>(s: seq<T>, x: T)
    requires NoRepeats(s) && x !in s
    ensures NoRepeats(s + [x])
  {
  }

  /** An element outside `b` can join `a` (or, `DisjointAppendRight`, join
      `b` when outside `a`) and keep the two disjoint. */
  lemma DisjointAppend<T>(a: seq<T>, x: T, b: seq<T>)
    requires Disjoint(a, b) && x !in b
    ensures Disjoint(a + [x], b)
  {
  }

  lemma DisjointAppendRight<T>(a: seq<T>, b: seq<T>, x: T)
    requires Disjoint(a, b) && x !in a
    ensures Disjoint(a, b + [x])
  {
  }

  /** Recording a line grows the lists by its entry, its text and its file. */
  lemma RecordGrown(log0: Log, p: Progress, c: string, tag: string, q: Progress)
    requires Grown(log0, p)
    requires q == Progress(Accept(p.log, c, tag), p.recorded + [c], p.tags + [tag], p.skipped)
    ensures Grown(log0, q)
  {
    EntriesSnoc(p.tags, p.recorded, tag, c);
    AppendAssoc(log0.transcript, Entries(p.tags, p.recorded), [MakeEntry(tag, c)]);
    AppendAssoc(log0.transcriptContents, p.recorded, [c]);
    WavFilesSnoc(p.tags, tag);
  }

  /** Showing a line not yet handled and then recording or passing it keeps
      every line shown once and handled one way. */
  lemma ShowAccounted(log0: Log, contents: seq<string>, name: string, p: Progress, c: string, q: Progress)
    requires Tracked(log0, contents, name, p)
    requires c in contents && !Handled(p.log, c)
    requires || (q.recorded == p.recorded + [c] && q.skipped == p.skipped)
             || (q.recorded == p.recorded && q.skipped == p.skipped + [c])
    ensures Accounted(log0, contents, q)
  {
    UnhandledIsNew(log0, contents, name, p, c);
    if q.recorded == p.recorded + [c] {
      AppendNew(p.recorded, c);
      DisjointAppend(p.recorded, c, p.skipped);
      DisjointAppend(p.recorded, c, log0.transcriptContents);
      DisjointAppend(p.recorded, c, log0.passed);
    } else {
      AppendNew(p.skipped, c);
      DisjointAppendRight(p.recorded, p.skipped, c);
      DisjointAppend(p.skipped, c, log0.transcriptContents);
      DisjointAppend(p.skipped, c, log0.passed);
    }
  }

  /** Recording a line that was not yet handled keeps the account. */
  lemma RecordStep(log0: Log, contents: seq<string>, name: string, p: Progress, c: string, tag: string)
    requires Tracked(log0, contents, name, p)
    requires c in contents && !Handled(p.log, c) && IsTag(name, tag)
    ensures Tracked(log0, contents, name,
      Progress(Accept(p.log, c, tag), p.recorded + [c], p.tags + [tag], p.skipped))
  {
    var q := Progress(Accept(p.log, c, tag), p.recorded + [c], p.tags + [tag], p.skipped);
    RecordGrown(log0, p, c, tag, q);
    assert Tagged(name, q);
    ShowAccounted(log0, contents, name, p, c, q);
  }

  /** Passing a line that was not yet handled keeps the account. */
  lemma PassStep(log0: Log, contents: seq<string>, name: string, p: Progress, c: string)
    requires Tracked(log0, contents, name, p)
    requires c in contents && !Handled(p.log, c)
    ensures Tracked(log0, contents, name,
      Progress(Pass(p.log, c), p.recorded, p.tags, p.skipped + [c]))
  {
    var q := Progress(Pass(p.log, c), p.recorded, p.tags, p.skipped + [c]);
    PassGrown(log0, p, c, q);
    assert Tagged(name, q);
    ShowAccounted(log0, contents, name, p, c, q);
  }

  /** Passing a line grows the passed list by it and rewrites its file. */
  lemma PassGrown(log0: Log, p: Progress, c: string, q: Progress)
    requires Grown(log0, p)
    requires q == Progress(Pass(p.log, c), p.recorded, p.tags, p.skipped + [c])
    ensures Grown(log0, q)
  {
    AppendAssoc(log0.passed, p.skipped, [c]);
  }

  /** The first `i` candidate lines are recorded or passed. */
  predicate HandledBelow(log: Log, contents: seq<string>, i: nat) {
    forall k :: 0 <= k < i && k < |contents| ==> Handled(log, contents[k])
  }

  /** Recording or passing `contents[i]` handles it and keeps every earlier
      line handled. */
  lemma HandledGrows(contents: seq<string>, i: nat, log: Log, out: Log)
    requires i < |contents|
    requires HandledBelow(log, contents, i)
    requires log.transcriptContents <= out.transcriptContents && log.passed <= out.passed
    requires Handled(out, contents[i])
    ensures HandledBelow(out, contents, i + 1)
  {
    forall k | 0 <= k < i + 1
      ensures Handled(out, contents[k])
    {
      if k < i {
        var c := contents[k];
        if c in log.transcriptContents {
          var j :| 0 <= j < |log.transcriptContents| && log.transcriptContents[j] == c;
          assert out.transcriptContents[j] == c;
        } else {
          var j :| 0 <= j < |log.passed| && log.passed[j] == c;
          assert out.passed[j] == c;
        }
      }
    }
  }

  /** Lines 252-290 for line `i`, not handled yet: it is shown and keys are
      read until one decides it, as `Decide` says. A recorded line is logged
      under the tag drawn at the verdict's position and a passed line is
      logged as passed; on `q` or at the end of input the line stays
      unhandled and nothing changes. This is `PlayLine`'s step at the line. */
  method HandleLine(contents: seq<string>, name: string, p: Progress, i: nat,
                    keys: seq<char>, used: nat, rng: nat -> nat, pos: nat, attempt: nat, saved: nat -> bool)
    returns (v: Verdict, q: Progress, used': nat, pos': nat, attempt': nat)
    requires i < |contents| && !Handled(p.log, contents[i]) && used <= |keys|
    ensures Decide(keys, used, attempt, pos, saved) == Decision(v, used', attempt', pos')
    ensures used' <= |keys|
    ensures v.Recorded? ==>
      var tag := MakeTag(name, GetRandomString(rng, v.drawnAt));
      q == Progress(Accept(p.log, contents[i], tag), p.recorded + [contents[i]], p.tags + [tag], p.skipped)
    ensures v.Passed? ==> q == Progress(Pass(p.log, contents[i]), p.recorded, p.tags, p.skipped + [contents[i]])
    ensures v.QuitKey? || v.Closed? ==> q == p
    ensures v.Recorded? || v.Passed? ==>
      && |q.recorded| == |p.recorded| + (if v.Recorded? then 1 else 0)
      && |q.skipped| == |p.skipped| + (if v.Passed? then 1 else 0)
    ensures v.QuitKey? ==> used < used' && keys[used' - 1] == 'q'
    ensures v.Closed? ==> used' == |keys|
    ensures PlayLine(contents, name, keys, rng, saved, i, p, used, attempt, pos)
      == if v.QuitKey? then Stop(Outcome(Quit, p, i, used', attempt', pos'))
         else if v.Closed? then Stop(Outcome(InputClosed, p, i, used', attempt', pos'))
         else Continue(q, used', attempt', pos')
  {
    var c := contents[i];
    var out, tag;
    v, out, tag, used', pos', attempt' := AwaitDecision(c, p.log, name, keys, used, rng, pos, attempt, saved);
    if v.Recorded? {
      q := Progress(out, p.recorded + [c], p.tags + [tag], p.skipped);
    } else if v.Passed? {
      q := Progress(out, p.recorded, p.tags, p.skipped + [c]);
    } else {
      q := p;
      assert (v.QuitKey? ==> used < used' && keys[used' - 1] == 'q') && (v.Closed? ==> used' == |keys|) by {
        DecideScan(keys, used, attempt, pos, saved);
      }
    }
  }

  /** Where a session ends: how, in which state, at which line, and how far
      the keys, the recording attempts and the random stream were used. */
  datatype Outcome = Outcome(status: Status, progress: Progress, at: nat, used: nat,
                             attempts: nat, pos: nat)

  /** One pass of the `for` loop: the loop goes on with a new state, or
      stops with the session's outcome. */
  datatype Step = Continue(progress: Progress, used: nat, attempts: nat, pos: nat) | Stop(outcome: Outcome)

  /** Lines 247-290 as a function, at line `i`: a line handled already is
      skipped (line 248); any other is decided by the keys, recorded under
      the tag drawn at `Decide`'s position or passed, or the loop stops at `q`
      or at the end of input with nothing changed. */
  function PlayLine(contents: seq<string>, name: string, keys: seq<char>, rng: nat -> nat,
                    saved: nat -> bool, i: nat, p: Progress, used: nat, attempt: nat, pos: nat): (s: Step)
    requires i < |contents| && used <= |keys|
    ensures s.Continue? ==> used <= s.used <= |keys|
    ensures s.Stop? ==>
      && s.outcome.at == i && s.outcome.progress == p && !s.outcome.status.Completed?
      && !Handled(p.log, contents[i]) && used <= s.outcome.used <= |keys|
  {
    var c := contents[i];
    if Handled(p.log, c) then Continue(p, used, attempt, pos)
    else
      var d := Decide(keys, used, attempt, pos, saved);
      match d.verdict
      case Recorded(at) =>
        var tag := MakeTag(name, GetRandomString(rng, at));
        Continue(Progress(Accept(p.log, c, tag), p.recorded + [c], p.tags + [tag], p.skipped),
                 d.next, d.attempts, d.pos)
      case Passed =>
        Continue(Progress(Pass(p.log, c), p.recorded, p.tags, p.skipped + [c]), d.next, d.attempts, d.pos)
      case QuitKey => Stop(Outcome(Quit, p, i, d.next, d.attempts, d.pos))
      case Closed => Stop(Outcome(InputClosed, p, i, d.next, d.attempts, d.pos))
  }

  /** Lines 245-293 as a function, from line `i` on: the loop takes the
      steps `PlayLine` gives until it stops or runs past the last line. */
  function Play(contents: seq<string>, name: string, keys: seq<char>, rng: nat -> nat,
                saved: nat -> bool, i: nat, p: Progress, used: nat, attempt: nat, pos: nat): (o: Outcome)
    requires i <= |contents| && used <= |keys|
    ensures i <= o.at <= |contents| && used <= o.used <= |keys|
    ensures o.status.Completed? <==> o.at == |contents|
    ensures !o.status.Completed? ==> !Handled(o.progress.log, contents[o.at])
    decreases |contents| - i
  {
    if i == |contents| then Outcome(Completed, p, i, used, attempt, pos)
    else
      match PlayLine(contents, name, keys, rng, saved, i, p, used, attempt, pos)
      case Stop(o) => o
      case Continue(q, used', attempt', pos') => Play(contents, name, keys, rng, saved, i + 1, q, used', attempt', pos')
  }

  /** Every step the loop goes on with keeps the account `Tracked` states
      and leaves line `i` handled. */
  lemma PlayLineKeepsTrack(log0: Log, contents: seq<string>, name: string, keys: seq<char>, rng: nat -> nat,
                           saved: nat -> bool, i: nat, p: Progress, used: nat, attempt: nat, pos: nat,
                           q: Progress, used': nat, attempt': nat, pos': nat)
    requires i < |contents| && used <= |keys|
    requires Tracked(log0, contents, name, p) && HandledBelow(p.log, contents, i)
    requires PlayLine(contents, name, keys, rng, saved, i, p, used, attempt, pos) == Continue(q, used', attempt', pos')
    ensures Tracked(log0, contents, name, q) && HandledBelow(q.log, contents, i + 1)
  {
    var c := contents[i];
    if Handled(p.log, c) {
      HandledGrows(contents, i, p.log, p.log);
    } else {
      var d := Decide(keys, used, attempt, pos, saved);
      match d.verdict
      case Recorded(at) =>
        var random := GetRandomString(rng, at);
        var tag := MakeTag(name, random);
        assert IsTag(name, tag) by {
          RandomStringIsPart(rng, at);
          MakeTagIsTag(name, random, tag);
        }
        RecordStep(log0, contents, name, p, c, tag);
        HandledGrows(contents, i, p.log, Accept(p.log, c, tag));
      case Passed =>
        PassStep(log0, contents, name, p, c);
        HandledGrows(contents, i, p.log, Pass(p.log, c));
      case QuitKey =>
      case Closed =>
    }
  }

  /** From a state the account holds for, with every line before `i`
      handled, the whole run keeps that account. */
  lemma {:induction false} PlayTracked(log0: Log, contents: seq<string>, name: string, keys: seq<char>,
                                       rng: nat -> nat, saved: nat -> bool, i: nat, p: Progress,
                                       used: nat, attempt: nat, pos: nat)
    requires i <= |contents| && used <= |keys|
    requires Tracked(log0, contents, name, p) && HandledBelow(p.log, contents, i)
    ensures Tracked(log0, contents, name, Play(contents, name, keys, rng, saved, i, p, used, attempt, pos).progress)
    decreases |contents| - i
  {
    if i < |contents| {
      var s := PlayLine(contents, name, keys, rng, saved, i, p, used, attempt, pos);
      if s.Continue? {
        var q := s.progress;
        assert Tracked(log0, contents, name, q) && HandledBelow(q.log, contents, i + 1) by {
          PlayLineKeepsTrack(log0, contents, name, keys, rng, saved, i, p, used, attempt, pos,
                             q, s.used, s.attempts, s.pos);
        }
        assert Play(contents, name, keys, rng, saved, i, p, used, attempt, pos)
            == Play(contents, name, keys, rng, saved, i + 1, q, s.used, s.attempts, s.pos);
        PlayTracked(log0, contents, name, keys, rng, saved, i + 1, q, s.used, s.attempts, s.pos);
      } else {
        assert Play(contents, name, keys, rng, saved, i, p, used, attempt, pos) == s.outcome;
      }
    }
  }

  /** A session started from a consistent state ends in one, whatever the
      keys, the recordings and the random stream, when the speaker name has
      no space or line break and no candidate has a line break. */
  lemma PlayKeepsConsistent(log0: Log, contents: seq<string>, name: string, keys: seq<char>,
                            rng: nat -> nat, saved: nat -> bool, pos: nat)
    requires Consistent(log0) && ' ' !in name && NoLineBreak(name) && AllWithoutLineBreak(contents)
    ensures Consistent(Play(contents, name, keys, rng, saved, 0, Progress(log0, [], [], []), 0, 0, pos).progress.log)
  {
    var p := Progress(log0, [], [], []);
    TrackedStart(log0, contents, name);
    PlayTracked(log0, contents, name, keys, rng, saved, 0, p, 0, 0, pos);
    TrackedConsistent(log0, contents, name, Play(contents, name, keys, rng, saved, 0, p, 0, 0, pos).progress);
  }

  /** Once the keys are used up, the session stops at the first line still
      to handle, before any change, as the end of input. */
  lemma {:induction false} NoInputStops(contents: seq<string>, name: string, keys: seq<char>,
                                        rng: nat -> nat, saved: nat -> bool, i: nat, p: Progress,
                                        attempt: nat, pos: nat, j: nat)
    requires i <= j < |contents| && !Handled(p.log, contents[j])
    ensures var o := Play(contents, name, keys, rng, saved, i, p, |keys|, attempt, pos);
      && o.status == InputClosed && o.progress == p && i <= o.at <= j
      && o.used == |keys| && o.attempts == attempt && o.pos == pos
    decreases |contents| - i
  {
    if Handled(p.log, contents[i]) {
      NoInputStops(contents, name, keys, rng, saved, i + 1, p, attempt, pos, j);
    }
  }

  /** One pass of the `for` loop of lines 247-290 at line `i`: a line
      already handled is skipped (line 248), any other is shown and handled
      by `HandleLine`. Unless the loop stops (at `q` or at the end of input),
      the account is kept, line `i` is handled, `index` and `record_count`
      grow with the recorded and handled lines;
      when it stops, nothing changes. Either way this is `PlayLine`'s step. */
  method NextLine(contents: seq<string>, name: string, p: Progress, i: nat,
                  keys: seq<char>, used: nat, rng: nat -> nat, pos: nat, attempt: nat, saved: nat -> bool,
                  index: nat, recordCount: nat)
    returns (stop: bool, status: Status, q: Progress, used': nat, pos': nat, attempt': nat,
             index': nat, recordCount': nat)
    requires i < |contents| && used <= |keys|
    ensures PlayLine(contents, name, keys, rng, saved, i, p, used, attempt, pos)
      == if stop then Stop(Outcome(status, p, i, used', attempt', pos')) else Continue(q, used', attempt', pos')
    ensures !stop ==>
      && status.Completed?
      && index' + |p.recorded| == index + |q.recorded|
      && recordCount' + |p.recorded| + |p.skipped| == recordCount + |q.recorded| + |q.skipped|
    ensures stop ==>
      && q == p && index' == index && recordCount' == recordCount
      && (status.Quit? ==> 0 < used' <= |keys| && keys[used' - 1] == 'q')
      && (status.InputClosed? ==> used' == |keys|)
  {
    stop, status, q, used', pos', attempt', index', recordCount' :=
      false, Completed, p, used, pos, attempt, index, recordCount;
    var c := contents[i];
    if Handled(p.log, c) {
      return;
    }
    var v;
    v, q, used', pos', attempt' := HandleLine(contents, name, p, i, keys, used, rng, pos, attempt, saved);
    if v.QuitKey? {
      assert 0 < used' <= |keys| && keys[used' - 1] == 'q';
      stop, status := true, Quit;
    } else if v.Closed? {
      stop, status := true, InputClosed;
    } else {
      index' := index + (if v.Recorded? then 1 else 0);
      recordCount' := recordCount + 1;
    }
  }

  /** Lines 245-293. `contents` is the shuffled candidate list, `log0` the
      state after start-up and `index0` the transcript length (line 245).
      The run is the one `Play` describes from the first line: its status,
      its final state, the line `at` it stopped at and the keys it read.
      Besides, the method returns `index` and `record_count` and whether
      "Record completed!" is printed; when the loop stops at `q` or at the
      end of input, `last` is the line shown then, which stays unhandled,
      and every line before it is handled. By `TrackedConsistent` the final
      log is consistent whenever `log0` is. */
  method RunSession(contents: seq<string>, log0: Log, index0: nat, name: string, keys: seq<char>,
                    rng: nat -> nat, pos0: nat, saved: nat -> bool)
    returns (status: Status, p: Progress, at: nat, last: string, index: nat, recordCount: nat,
             used: nat, notice: bool)
    ensures var o := Play(contents, name, keys, rng, saved, 0, Progress(log0, [], [], []), 0, 0, pos0);
      o.status == status && o.progress == p && o.at == at && o.used == used
    ensures Tracked(log0, contents, name, p)
    ensures !status.Completed? ==>
      at < |contents| && last == contents[at] && !Handled(p.log, last) && HandledBelow(p.log, contents, at)
    ensures index == index0 + |p.recorded| && recordCount == |p.recorded| + |p.skipped|
    ensures status.Completed? ==> forall k :: 0 <= k < |contents| ==> Handled(p.log, contents[k])
    ensures status.Quit? ==> 0 < used && keys[used - 1] == 'q'
    ensures status.InputClosed? ==> used == |keys|
    ensures notice <==> status.Completed? && (recordCount == 0 || recordCount == |contents|)
  {
    status, at, last, index, recordCount, used, notice := Completed, 0, "", index0, 0, 0, false;
    p := Progress(log0, [], [], []);
    TrackedStart(log0, contents, name);
    var pos, attempt := pos0, 0;
    ghost var start := Play(contents, name, keys, rng, saved, 0, p, 0, 0, pos0);
    var i := 0;
    while i < |contents|
      invariant 0 <= i <= |contents| && used <= |keys| && status.Completed?
      invariant start == Play(contents, name, keys, rng, saved, i, p, used, attempt, pos)
      invariant Tracked(log0, contents, name, p)
      invariant index == index0 + |p.recorded| && recordCount == |p.recorded| + |p.skipped|
      invariant HandledBelow(p.log, contents, i)
    {
      var stop, q, used', pos', attempt', index', recordCount';
      stop, status, q, used', pos', attempt', index', recordCount' :=
        NextLine(contents, name, p, i, keys, used, rng, pos, attempt, saved, index, recordCount);
      if stop {
        at, last, used := i, contents[i], used';
        return;
      }
      assert Tracked(log0, contents, name, q) && HandledBelow(q.log, contents, i + 1) by {
        PlayLineKeepsTrack(log0, contents, name, keys, rng, saved, i, p, used, attempt, pos, q, used', attempt', pos');
      }
      p, used, pos, attempt, index, recordCount := q, used', pos', attempt', index', recordCount';
      i := i + 1;
    }
    assert forall k :: 0 <= k < |contents| ==> Handled(p.log, contents[k]) by {
      assert i == |contents| && HandledBelow(p.log, contents, i);
    }
    at := i;
    notice := recordCount == 0 || recordCount == |contents|;
  }
}
