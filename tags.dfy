/** Lines 149-150, 235, 261 and 275: the random part of a recording's tag,
    the tag `"{name}_{random}"`, the transcript entry `"{tag} {text}"`, and
    the speaker prefix read back from an entry. */
module Tags {
  import opened Text

  /** The number of letters `random.sample` draws at line 150. */
  const SAMPLE_SIZE: nat := 10

  predicate Distinct(s: string) {
    forall i, j :: 0 <= i < j < |s| ==> s[i] != s[j]
  }

  /** What `"".join(random.sample(alphabets, 10))` can return: ten distinct
      letters of `alphabets`. */
  predicate RandomPart(r: string) {
    |r| == SAMPLE_SIZE && Distinct(r) && forall i :: 0 <= i < |r| ==> IsLatin(r[i])
  }

  /** `randbelow(m)` at stream position `pos`. */
  function Draw(rng: nat -> nat, pos: nat, m: nat): (j: nat)
    requires 0 < m
    ensures j < m
  {
    rng(pos) % m
  }

  /** The draws of `random.sample`'s pool branch from draw `i` on, after
      `acc` was drawn: draw `i` picks `j = randbelow(52 - i)` from the stream
      at `pos`, takes `pool[j]` and moves the last live entry of the pool into
      slot `j`. */
  function Sample(acc: string, pool: string, rng: nat -> nat, pos: nat, i: nat): string
    requires |pool| == 52 && i <= SAMPLE_SIZE
    decreases SAMPLE_SIZE - i
  {
    if i == SAMPLE_SIZE then acc
    else
      var j := Draw(rng, pos, |pool| - i);
      Sample(acc + [pool[j]], pool[j := pool[|pool| - i - 1]], rng, pos + 1, i + 1)
  }

  /** Drawing from a pool whose live entries are distinct letters of
      `alphabets`, after distinct letters none of which is live, gives
      distinct letters of `alphabets`, ten more than were drawn before. */
  lemma {:induction false} SampleDistinct(acc: string, pool: string, rng: nat -> nat, pos: nat, i: nat)
    requires |pool| == 52 && i <= SAMPLE_SIZE
    requires forall a, b :: 0 <= a < b < |pool| - i ==> pool[a] != pool[b]
    requires forall a :: 0 <= a < |pool| - i ==> IsLatin(pool[a])
    requires Distinct(acc) && forall a :: 0 <= a < |acc| ==> IsLatin(acc[a])
    requires forall a, b :: 0 <= a < |acc| && 0 <= b < |pool| - i ==> acc[a] != pool[b]
    ensures var s := Sample(acc, pool, rng, pos, i);
      |s| == |acc| + SAMPLE_SIZE - i && Distinct(s) && forall a :: 0 <= a < |s| ==> IsLatin(s[a])
    decreases SAMPLE_SIZE - i
  {
    if i < SAMPLE_SIZE {
      var n := |pool|;
      var j := Draw(rng, pos, n - i);
      var pool' := pool[j := pool[n - i - 1]];
      var acc' := acc + [pool[j]];
      forall a, b | 0 <= a < |acc'| && 0 <= b < n - i - 1
        ensures acc'[a] != pool'[b]
      {
        if a < |acc| {
          assert acc'[a] == acc[a];
        }
      }
      SampleDistinct(acc', pool', rng, pos + 1, i + 1);
    }
  }

  /** `get_random_string`: `"".join(random.sample(alphabets, 10))`. For a
      population of 52 and a sample of 10 CPython's `random.sample` takes its
      pool branch (`Sample`), reading the stream `rng` at `pos`, ...,
      `pos + 9`; the next draw reads at `pos + SAMPLE_SIZE`. */
  function GetRandomString(rng: nat -> nat, pos: nat): string {
    AlphabetsLength();
    Sample("", ALPHABETS, rng, pos, 0)
  }

  /** Whatever the stream holds, `get_random_string` gives ten distinct
      letters of `alphabets`. */
  lemma RandomStringIsPart(rng: nat -> nat, pos: nat)
    ensures RandomPart(GetRandomString(rng, pos))
  {
    AlphabetsLength();
    AlphabetsDistinct();
    forall a | 0 <= a < |ALPHABETS|
      ensures IsLatin(ALPHABETS[a])
    {
      AlphabetsMembership(ALPHABETS[a]);
    }
    SampleDistinct("", ALPHABETS, rng, pos, 0);
  }

  /** Line 261: `f"{args.name}_{get_random_string()}"`. */
  function MakeTag(name: string, random: string): string {
    name + "_" + random
  }

  /** Line 275: `f"{tag} {c}"`. */
  function MakeEntry(tag: string, text: string): string {
    tag + " " + text
  }

  /** A tag the session can produce for speaker `name`. */
  predicate IsTag(name: string, tag: string) {
    |tag| == |name| + 1 + SAMPLE_SIZE && tag[..|name|] == name && tag[|name|] == '_'
    && RandomPart(tag[|name| + 1..])
  }

  /** Line 235: `line.split(" ")[0].split("_")[0]`. */
  function SpeakerOf(line: string): string {
    SplitOn(FirstToken(line), '_')[0]
  }

  /** The random part has no space, underscore or line break. */
  lemma RandomPartPlain(r: string)
    requires RandomPart(r)
    ensures ' ' !in r && '_' !in r && NoLineBreak(r)
  {
    forall i | 0 <= i < |r|
      ensures r[i] != ' ' && r[i] != '_' && !IsLineBreak(r[i])
    {
    }
  }

  /** A tag built by `MakeTag` is a tag of that speaker, and it is the only
      way to write one. */
  lemma MakeTagIsTag(name: string, random: string, tag: string)
    requires tag == MakeTag(name, random)
    ensures IsTag(name, tag) <==> RandomPart(random)
  {
    assert tag[..|name|] == name;
    assert tag[|name| + 1..] == random;
  }

  /** The speaker prefix of a line is its text before the first space or
      underscore, whichever comes first. */
  lemma SpeakerOfPrefix(line: string)
    ensures var k := IndexOf(FirstToken(line), '_'); SpeakerOf(line) == line[..k]
    ensures '_' !in SpeakerOf(line) && ' ' !in SpeakerOf(line)
  {
    FirstTokenSplit(line);
    FirstPiece(FirstToken(line), '_');
  }

  /** With a space in the speaker name, the first token of an entry is the
      part of the name before that space, not the tag. */
  lemma SpacedNameFirstToken(name: string, tag: string, text: string)
    requires ' ' in name && IsTag(name, tag)
    ensures FirstToken(MakeEntry(tag, text)) == FirstToken(name)
    ensures |FirstToken(name)| < |tag|
  {
    var entry := MakeEntry(tag, text);
    var k := IndexOf(name, ' ');
    assert entry[..|name|] == name;
    assert forall i :: 0 <= i <= k ==> entry[i] == name[i];
    assert IndexOf(entry, ' ') == k;
    FirstTokenSplit(entry);
    FirstTokenSplit(name);
  }

  /** A tag of a speaker whose name has no space has none either. */
  lemma TagHasNoSpace(name: string, tag: string)
    requires ' ' !in name && IsTag(name, tag)
    ensures ' ' !in tag
  {
    var random := tag[|name| + 1..];
    RandomPartPlain(random);
    assert tag == name + "_" + random;
    forall i | 0 <= i < |tag|
      ensures tag[i] != ' '
    {
      if i < |name| {
        assert tag[i] == name[i];
      } else if i > |name| {
        assert tag[i] == random[i - |name| - 1];
      }
    }
  }

  /** Round trip of a recorded entry (lines 261, 275 against 233-235): when
      the speaker name has no space and no underscore, the entry parses back
      into its tag, its text and the speaker name. */
  lemma ParseEntry(name: string, tag: string, text: string)
    requires ' ' !in name && '_' !in name
    requires IsTag(name, tag)
    ensures FirstToken(MakeEntry(tag, text)) == tag
    ensures AfterFirstToken(MakeEntry(tag, text)) == text
    ensures SpeakerOf(MakeEntry(tag, text)) == name
  {
    var random := tag[|name| + 1..];
    assert tag == name + "_" + random;
    TagHasNoSpace(name, tag);
    ParseLine(tag, text);
    IndexOfAt(name, '_', random);
    FirstPiece(tag, '_');
  }

  /** An entry made from a line without line breaks has none either. */
  lemma EntryNoLineBreak(name: string, tag: string, text: string)
    requires NoLineBreak(name) && NoLineBreak(text) && IsTag(name, tag)
    ensures NoLineBreak(MakeEntry(tag, text))
  {
    var random := tag[|name| + 1..];
    RandomPartPlain(random);
    assert tag == name + "_" + random;
    var e := MakeEntry(tag, text);
    forall i | 0 <= i < |e|
      ensures !IsLineBreak(e[i])
    {
      if i < |name| {
        assert e[i] == name[i];
      } else if |name| < i < |tag| {
        assert e[i] == random[i - |name| - 1];
      } else if i > |tag| {
        assert e[i] == text[i - |tag| - 1];
      }
    }
  }
}
