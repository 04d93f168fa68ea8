# aidatatang_200zh recording collector, modelled in Dafny

`collect_aidatatang_200zh.py` is a command-line tool that records one speaker
reading a list of sentences. It builds an aidatatang_200zh-style dataset: one
trimmed WAV file per sentence under `corpus/train/wav`, and a transcript file
whose lines are `"{name}_{random} {sentence}"`. A second file lists the
sentences the speaker chose to pass.

This project models what the script does around the audio hardware:

- **Silence trimming** (`silence.dfy`). `detect_leading_silence` scans a
  sound in 10 ms chunks while the chunk is silent. `trim_audio` keeps the
  frames between the scan of the sound and the scan of its reverse. A sound
  is the sequence of its one-millisecond frames. The loudness test
  `dBFS < -50` is an oracle `silent` on the chunk.
- **Text handling** (`text.dfy`). This covers the `alphabets` constant,
  Python's `str.splitlines()`, `split(" ")` with `" ".join`, and
  `write_to_file`. It proves the round trip of writing a list and reading it
  back.
- **Candidate list** (`candidates.dfy`). The contents file is split into
  lines and sorted. The `for`/`break` loop drops the leading run of lines
  that start with a letter of `alphabets`; `c[0]` raises `IndexError` on an
  empty line. `random.shuffle` follows CPython's Fisher–Yates order.
- **Tags** (`tags.dfy`). `get_random_string` follows the pool algorithm
  that CPython's `random.sample` uses for 10 of 52 letters. The tag is
  `"{name}_{random}"` and the entry is `"{tag} {text}"`. The entry's speaker
  prefix is read back with `split(" ")[0].split("_")[0]`.
- **Start-up** (`startup.dfy`, lines 204-245). The script loads the
  candidates. It prunes the transcript of entries whose WAV file is gone,
  writes the result back and reads it again. It extracts the texts, checks
  the speaker of the first entry and reads the passed list. A consistent
  state on disk survives a restart unchanged.
- **Session** (`session.dfy`, lines 245-293). The loop shows each candidate
  not yet recorded or passed, then reads keys until one decides the line:
  - `p` records it; a failed recording asks again;
  - `n` passes it;
  - `q` quits;
  - any other key is ignored.
- **Shared lemmas** (`seqs.dfy`). A few generic sequence equalities.

Inputs the script gets from outside are parameters of the model:

- the three files' texts. An absent transcript or passed file reads as "",
  as `create_empty_file` leaves it (lines 215-216). The contents file must
  exist: line 204 opens it without creating it;
- the set of names in the train folder;
- the keys typed, as a sequence; running out of keys is the crash of
  `ord(sys.stdin.read(1))` at the end of input;
- the microphone outcome of each recording attempt, `saved(attempt)`;
- the random stream `rng`, where a draw below `m` at position `i` is
  `rng(i) % m`.

The script departs in places from the tool's intended design; the model
follows the script:

- Candidates are not deduplicated.
- The filter does not keep the Latin-led lines. It drops only the leading
  run of them in sorted order and keeps everything from the first other
  line on (`FilterKeepsSuffix`, `DropsExactlyLatinLines`).
- The transcript file is rewritten at line 227 even when pruning changed
  nothing. It is rewritten before the speaker check, so a speaker mismatch
  does leave a written file (`Boot`'s `SpeakerMismatch` result carries that
  file).
- A transcript line without a space is not skipped with a warning. Its text
  is simply "" (`FirstTokenSplit`).
- A speaker name holding a space is accepted at line 167, but line 225 looks
  an entry up by the text before its first space. Such a name's recordings
  are pruned at the next start (`SpacedNameEntryPruned`, see Findings).

The one place where the model does not follow the script is the slice at
line 38: `TrimAudio` returns the clamped slice `Trimmed`, which differs from
the script's slice only when the trailing scan runs past the end of the
sound (see Findings and `Silence.TrimAudio` under Left out).

## Model

| member | source | states |
|---|---|---|
| `Text.AlphabetsAreLetters` | collect_aidatatang_200zh.py:20 | `alphabets` has 52 characters, the code points of 'a'..'z' followed by 'A'..'Z' |
| `Text.AlphabetsDistinct` | collect_aidatatang_200zh.py:20 | no character of `alphabets` repeats |
| `Text.AlphabetsMembership` | collect_aidatatang_200zh.py:208 | `ch in alphabets` holds exactly for the ASCII letters |
| `Text.SplitLines` | collect_aidatatang_200zh.py:205 | `splitlines()` yields lines free of line boundaries, and none exactly for the empty text |
| `Text.Serialise` | collect_aidatatang_200zh.py:153-156 | the file text `write_to_file` leaves, each string followed by "\n"; `SplitLinesSerialise` proves it reads back |
| `Text.SplitLinesSerialise` | collect_aidatatang_200zh.py:230-231 | reading back each string plus "\n" with `splitlines()` gives the list, when no string holds a line boundary |
| `Text.WriteToFile` | collect_aidatatang_200zh.py:153-156 | the file holds each string followed by "\n", and reads back as the list when no string holds a line boundary |
| `Text.SplitOn` | collect_aidatatang_200zh.py:233 | `split(sep)` yields at least one piece and no piece holds the separator |
| `Text.Join` | collect_aidatatang_200zh.py:233 | `sep.join(parts)`; `JoinSplitOn` proves it inverts `SplitOn` |
| `Text.JoinSplitOn` | collect_aidatatang_200zh.py:233-234 | joining the pieces of a split with the same separator restores the string |
| `Text.FirstToken` | collect_aidatatang_200zh.py:225 | `t.split(" ")[0]`; `FirstTokenSplit` states it is the text before the first space |
| `Text.AfterFirstToken` | collect_aidatatang_200zh.py:233 | `" ".join(t.split(" ")[1:])`; `FirstTokenSplit` states it is the text after the first space |
| `Text.FirstTokenSplit` | collect_aidatatang_200zh.py:225 | `split(" ")[0]` is the text before the first space; `" ".join(split(" ")[1:])` is the text after it, "" without a space |
| `Text.ParseLine` | collect_aidatatang_200zh.py:233-234 | a line `tag + " " + text` whose tag has no space splits back into that tag and text |
| `Text.FirstPiece` | collect_aidatatang_200zh.py:235 | `split("_")[0]` is the text before the first underscore, all of it without one |
| `Silence.Chunk` | collect_aidatatang_200zh.py:53 | `sound[lo:lo+size]` is clamped to the sound and empty past its end |
| `Silence.LeadingSilence` | collect_aidatatang_200zh.py:42-56 | the scan from `from` never moves back, stops below duration + chunk size, and only moves past a silent chunk; `DetectLeadingSilence` is proved equal to it |
| `Silence.DetectLeadingSilence` | collect_aidatatang_200zh.py:42-56 | the result is a multiple of the chunk size below duration + chunk size; every chunk before it is silent; the chunk at it is loud when it is inside the sound |
| `Silence.Reverse` | collect_aidatatang_200zh.py:33 | `sound.reverse()` has the same length, frame `i` being frame `n-1-i` |
| `Silence.PySlice` | collect_aidatatang_200zh.py:38 | Python's `s[lo:hi]`: never longer than `s`; the plain slice for in-range bounds; a negative stop counts from the end |
| `Silence.Trimmed` | collect_aidatatang_200zh.py:38 | the clamped slice is never longer than the sound, and when non-empty it is exactly `sound[start:duration-end]` |
| `Silence.TrimmedAsWritten` | collect_aidatatang_200zh.py:38 | `sound[start_trim:duration-end_trim]` exactly as written, through `PySlice`; no contract of its own, `TrimmedAgrees` and `OvershootingStop` relate it to `Trimmed` |
| `Silence.TrimmedAgrees` | collect_aidatatang_200zh.py:38 | the slice as written and the clamped slice agree whenever `end_trim` is at most the duration |
| `Silence.TrimAudio` | collect_aidatatang_200zh.py:27-38 | the output is the clamped slice between the forward and the reversed scan, equal to the script's slice whenever `end_trim` is at most the duration; all frames before and after it were judged silent and its boundary chunks are loud |
| `Silence.OvershootingStop` | collect_aidatatang_200zh.py:38 | when `end_trim` exceeds the duration, the script's slice is `sound[start:2*duration-end_trim]` while the clamped slice is empty |
| `Silence.TrimmedRespectsTrailingScan` | collect_aidatatang_200zh.py:38 | every kept frame lies `end_trim` or more frames before the end; nothing is kept when `end_trim` reaches the duration |
| `Silence.ForwardScanOfExample` | collect_aidatatang_200zh.py:32 | on the 15 ms example sound the forward scan stops at 0 |
| `Silence.ReverseOfExample` | collect_aidatatang_200zh.py:33 | the example sound reversed |
| `Silence.ReversedScanOfExample` | collect_aidatatang_200zh.py:33 | on the reversed example the scan stops at 20, past the duration |
| `Silence.NegativeStopKeepsTrailingSilence` | collect_aidatatang_200zh.py:38 | as written, the example keeps its first 10 frames although the reversed scan judged them silent; the clamped slice keeps none |
| `Candidates.LexLeq` | collect_aidatatang_200zh.py:206 | Python's `<=` on strings, by code points; a prefix sorts at or below the longer string |
| `Candidates.LexLeqTotal` | collect_aidatatang_200zh.py:206 | Python's string order is total |
| `Candidates.Sort` | collect_aidatatang_200zh.py:206 | `contents.sort()` as an insertion sort under `LexLeq`; no contract of its own, `SortSortedPermutation` states its result |
| `Candidates.SortSortedPermutation` | collect_aidatatang_200zh.py:206 | `contents.sort()` yields a sorted permutation of the lines |
| `Candidates.FirstNonLatin` | collect_aidatatang_200zh.py:207-208 | the loop stops at the first line that is empty or does not start with a letter of `alphabets`; every earlier line starts with one |
| `Candidates.Filter` | collect_aidatatang_200zh.py:207-211 | the loop's result as a value: the whole list, `IndexError` at an empty line, or the suffix from the first non-Latin line; `FilterKeepsSuffix` states what it keeps |
| `Candidates.FilterCandidates` | collect_aidatatang_200zh.py:207-211 | the loop gives `IndexError` at an empty line, the suffix from the first non-Latin line, or the whole list |
| `Candidates.FilterKeepsSuffix` | collect_aidatatang_200zh.py:207-211 | what is kept is a suffix, everything dropped is Latin-led, and the kept list starts at the first non-Latin line |
| `Candidates.EmptyLineIsFatal` | collect_aidatatang_200zh.py:208 | an empty line in the contents always ends in `IndexError` |
| `Candidates.LowLineKeepsAll` | collect_aidatatang_200zh.py:206-211 | a non-empty line starting below 'A' keeps every line |
| `Candidates.DropsExactlyLatinLines` | collect_aidatatang_200zh.py:206-211 | when lines start with a Latin letter or above 'z' and some do the latter, exactly the Latin-led lines are dropped |
| `Candidates.Shuffle` | collect_aidatatang_200zh.py:212 | `random.shuffle` yields a permutation and uses `len - 1` draws |
| `Candidates.LoadCandidates` | collect_aidatatang_200zh.py:204-212 | the candidates are a permutation of the filtered sorted lines, free of line boundaries, or `IndexError` exactly when the filter raises it |
| `Tags.GetRandomString` | collect_aidatatang_200zh.py:149-150 | `random.sample(alphabets, 10)` joined, by CPython's pool algorithm over the draws at `pos..pos+9`; `RandomStringIsPart` states its result |
| `Tags.RandomStringIsPart` | collect_aidatatang_200zh.py:149-150 | the drawn string is ten pairwise distinct letters of `alphabets` |
| `Tags.RandomPartPlain` | collect_aidatatang_200zh.py:150 | the random part has no space, underscore or line boundary |
| `Tags.MakeTag` | collect_aidatatang_200zh.py:261 | `f"{name}_{random}"`; `MakeTagIsTag` states when it is a tag of the speaker |
| `Tags.MakeEntry` | collect_aidatatang_200zh.py:275 | `f"{tag} {c}"`; `ParseEntry` proves it parses back |
| `Tags.SpeakerOf` | collect_aidatatang_200zh.py:235 | `line.split(" ")[0].split("_")[0]`; `SpeakerOfPrefix` states what it yields |
| `Tags.MakeTagIsTag` | collect_aidatatang_200zh.py:261 | `f"{name}_{random}"` is a tag of the speaker exactly when `random` is a valid random part |
| `Tags.SpeakerOfPrefix` | collect_aidatatang_200zh.py:235 | the speaker prefix is the text before the first space or underscore and holds neither |
| `Tags.SpacedNameFirstToken` | collect_aidatatang_200zh.py:225 | for a name holding a space, an entry's first token is the name's first word, shorter than the tag |
| `Tags.TagHasNoSpace` | collect_aidatatang_200zh.py:261 | a tag of a speaker whose name has no space has no space |
| `Tags.ParseEntry` | collect_aidatatang_200zh.py:275 | the entry `f"{tag} {c}"` parses back into its tag, its text `c` and the speaker name, when the name has no space or underscore |
| `Tags.EntryNoLineBreak` | collect_aidatatang_200zh.py:275 | an entry built from a line without boundaries has none |
| `Startup.WavName` | collect_aidatatang_200zh.py:225 | `t.split(" ")[0] + ".wav"`, the recording an entry refers to; `Prune` and `PruneCount` state its use |
| `Startup.Prune` | collect_aidatatang_200zh.py:224-225 | the kept entries are exactly those whose first token plus ".wav" is in the train folder, and no more than there were |
| `Startup.PruneAppend` | collect_aidatatang_200zh.py:224-225 | pruning goes entry by entry, so the kept entries stay in their order |
| `Startup.PruneCount` | collect_aidatatang_200zh.py:224-225 | a backed entry keeps all its copies and an unbacked one loses them all |
| `Startup.PruneUnchanged` | collect_aidatatang_200zh.py:224-225 | pruning changes nothing exactly when every entry is backed |
| `Startup.PruneIdempotent` | collect_aidatatang_200zh.py:222-227 | pruning again against the same folder returns the pruned list |
| `Startup.DeleteRecording` | collect_aidatatang_200zh.py:218-225 | deleting one WAV file removes exactly the entry naming it and keeps the rest in order |
| `Startup.TextsOf` | collect_aidatatang_200zh.py:233-234 | one text per entry |
| `Startup.TextsOfAt` | collect_aidatatang_200zh.py:233-234 | text `k` is what follows the first space of entry `k` |
| `Startup.NameMismatch` | collect_aidatatang_200zh.py:235 | the speaker check's condition; `OnlyFirstEntryChecked` states what it depends on |
| `Startup.OnlyFirstEntryChecked` | collect_aidatatang_200zh.py:235 | the check fails exactly when the first entry's prefix differs from the name; later entries never matter |
| `Startup.UnderscoreNameAlwaysRefused` | collect_aidatatang_200zh.py:235-237 | a name holding "_" is refused by every non-empty transcript |
| `Startup.RecordedEntryPassesCheck` | collect_aidatatang_200zh.py:235-237 | a transcript whose first entry was recorded under the name passes the check |
| `Startup.RestartKeepsLog` | collect_aidatatang_200zh.py:222-240 | reading the files of a consistent state again gives back the same transcript, texts and passed list |
| `Startup.Boot` | collect_aidatatang_200zh.py:204-245 | start-up ends in `IndexError` exactly when the filter raises it, in the speaker exit exactly when the pruned transcript's first entry is another speaker's (after rewriting the file), and otherwise in a consistent state holding the pruned transcript and the passed list |
| `Session.Accept` | collect_aidatatang_200zh.py:273-279 | the state after a saved recording: entry and text appended, transcript file rewritten, `tag.wav` in the train folder; `AcceptPreservesConsistent` states what it keeps |
| `Session.Pass` | collect_aidatatang_200zh.py:284-285 | the state after `n`: the line appended to the passed list and its file rewritten; `PassPreservesConsistent` states what it keeps |
| `Session.AcceptPreservesConsistent` | collect_aidatatang_200zh.py:273-279 | recording a line keeps lists and files in agreement, for a speaker name without space or line break and a text without line break |
| `Session.SpacedNameEntryPruned` | collect_aidatatang_200zh.py:167 | for a speaker name holding a space, the new entry is not backed by its own recording, the state is no longer consistent, and the next pruning (lines 224-225) drops the entry |
| `Session.PassPreservesConsistent` | collect_aidatatang_200zh.py:284-285 | passing a line keeps lists and files in agreement |
| `Session.Decide` | collect_aidatatang_200zh.py:256-290 | the key loop as a value: the keys read, the `p` attempts made and the stream position only grow, and a recording verdict always follows an attempt |
| `Session.DecideScan` | collect_aidatatang_200zh.py:256-290 | every key before the deciding one was ignored or a failed `p`; each `p` draws one tag of ten stream positions; a recording, pass or quit verdict is the key `p` (with a saved attempt), `n` or `q`; the end of input is reaching the last key |
| `Session.AwaitDecision` | collect_aidatatang_200zh.py:256-290 | the loop reads keys exactly as `Decide` says; a saved `p` appends the entry tagged with the string drawn at that attempt, `n` passes the line, `q` and the end of input change nothing |
| `Session.RecordEntry` | collect_aidatatang_200zh.py:275-279 | appends the entry and the text and rewrites the transcript file |
| `Session.PassLine` | collect_aidatatang_200zh.py:284-285 | appends the line to the passed list and rewrites its file |
| `Session.WavFilesMembers` | collect_aidatatang_200zh.py:262-263 | the train folder gains exactly one file per tag |
| `Session.TextsOfEntries` | collect_aidatatang_200zh.py:277-278 | the texts of the appended entries are the recorded lines |
| `Session.TrackedStart` | collect_aidatatang_200zh.py:245-246 | the start-up state, with nothing recorded, passed or tagged yet, satisfies the account the loop keeps |
| `Session.UnhandledIsNew` | collect_aidatatang_200zh.py:247-250 | a candidate not yet handled is in neither list of this run nor in the lists read at start-up |
| `Session.RecordStep` | collect_aidatatang_200zh.py:273-281 | recording an unhandled line keeps the lists grown, every tag the speaker's, and every line recorded or passed at most once and never both |
| `Session.PassStep` | collect_aidatatang_200zh.py:282-287 | passing an unhandled line keeps that account |
| `Session.HandledGrows` | collect_aidatatang_200zh.py:248 | lines handled earlier stay handled as the lists grow |
| `Session.HandleLine` | collect_aidatatang_200zh.py:252-290 | a recorded line gives exactly the state with the entry under the drawn tag appended, a passed line the state with the line passed, each counted once; `q` and the end of input leave the state as it was; the whole is one `PlayLine` step |
| `Session.PlayLine` | collect_aidatatang_200zh.py:247-290 | one turn of the `for` loop as a value: a handled line is skipped, otherwise the decision records, passes or stops at that unhandled line without changing the state |
| `Session.Play` | collect_aidatatang_200zh.py:245-293 | the whole loop as a value: it completes exactly when it reaches the end of the candidates, and otherwise stops at an unhandled line |
| `Session.PlayLineKeepsTrack` | collect_aidatatang_200zh.py:247-290 | one turn keeps the account of recorded, passed and tagged lines and leaves every line up to it handled |
| `Session.PlayTracked` | collect_aidatatang_200zh.py:245-293 | the loop as a whole keeps that account |
| `Session.PlayKeepsConsistent` | collect_aidatatang_200zh.py:245-293 | the state the loop ends in, by completion, `q` or the end of input, is consistent when start-up's was, for a name without space or line break and candidates without line breaks |
| `Session.NoInputStops` | collect_aidatatang_200zh.py:256-258 | with every key already read, the loop stops at the first unhandled line with nothing changed |
| `Session.TrackedConsistent` | collect_aidatatang_200zh.py:245-293 | whatever the loop did, the final files and lists agree when they agreed at the start, for a name without space or line break |
| `Session.NextLine` | collect_aidatatang_200zh.py:247-290 | one turn of the loop computes the `PlayLine` step and counts the recorded and passed line into `index` and `record_count` |
| `Session.RunSession` | collect_aidatatang_200zh.py:245-293 | the loop's status, final state, stopping line and keys read are exactly those of `Play`; the lists grow only by recorded and passed candidates, each handled once and never both; `index` and `record_count` count them; completion handles every line; on `q` or the end of input the line shown is unhandled and every earlier one handled; "Record completed!" exactly when the count is 0 or the number of candidates |

## Left out

- Microphone capture, `record_noise` and the noise prompt (lines 70-133,
  173-181): hardware I/O.
- Noise reduction and WAV reading and writing (lines 59-67, 138-143): a
  floating-point library that is not part of this model. The raw WAV
  written under `corpus/raw/wav` is read back at line 138 to be denoised;
  the model folds recording, denoising and export into `saved(attempt)`.
- Exceptions inside a recording: lines 138-144 run without a `try`, so an
  error in `wavfile.read`, `nr.reduce_noise`, `write_wav` or the export in
  `trim_audio` ends the run after the tag was drawn and the raw file
  written. `saved(attempt)` models only a saved recording or the handled
  failure that asks again.
- pydub decoding, export and `dBFS`: loudness is the oracle `silent`, with
  the -50 dBFS threshold folded into it.
- Which draws `randbelow` makes: a draw below `m` is `rng(i) % m`, one
  stream position per draw.
- Candidates.Shuffle: states that the result is a permutation, not which
  permutation the draws select.
- `argparse`, `os.makedirs`, the dataset paths, `create_empty_file`,
  `tty.setcbreak`, `os.system("clear")` and every `print` (lines 159-201,
  209, 215-216, 226, 236, 242-243, 252-254, 268-270, 283, 289, 293):
  process and terminal plumbing. An absent transcript or passed file is
  passed in as "".
- A missing contents file: line 204 raises `FileNotFoundError`, which the
  model does not represent; the contents text is always given.
- `record_audio`'s `None` return (lines 135-136): the script always passes
  `noise.wav`, so that path is never taken.
- `sys.exit()` is a terminal result: `SpeakerMismatch` in `Boot` and
  `Quit` in `RunSession`.
- UTF-8 decoding: strings are sequences of code points.
- Silence.TrimAudio: returns the clamped slice `Trimmed`, not the script's
  `sound[start_trim:duration-end_trim]`. The two agree whenever `end_trim`
  is at most the duration; past it the script keeps
  `sound[start_trim:2*duration-end_trim]` (`OvershootingStop`, Findings).

## Findings

| source | as written | input that shows it | evidently intended | confidence | as-written member | corrected member |
|---|---|---|---|---|---|---|
| collect_aidatatang_200zh.py:38 | `sound[start_trim:duration-end_trim]`: when the reversed scan overshoots the duration, the stop is negative and counts from the end | a 15 ms sound of five frames at 9, five at 12 and five at 0, with silence as mean square below 100: the forward scan stops at 0 and the reversed scan at 20, so the slice `[0:-5]` keeps 10 frames the reversed scan judged silent | keep nothing the trailing scan judged silent (clamp the stop at 0) | medium; not executed | `Silence.NegativeStopKeepsTrailingSilence` | `Silence.TrimmedRespectsTrailingScan` |
| collect_aidatatang_200zh.py:225 | `t.split(" ")[0] + ".wav"` cuts an entry at its first space, while line 167 accepts any `--name` and line 261 puts the name in the tag | the name "Li Wei": the tag is `Li Wei_<random>`, the recording `Li Wei_<random>.wav`, but the entry is looked up as `Li.wav`; with no such file the next start prunes every entry recorded under that name | refuse a name holding a space at line 167 (or look the recording up by the whole tag) | high; not executed | `Session.SpacedNameEntryPruned` | `Session.AcceptPreservesConsistent` |
