/** `detect_leading_silence` and the slicing of `trim_audio`.

    A sound is the sequence of its one-millisecond frames, so `len(sound)`
    is `|sound|` and `sound[a:b]` cuts at frame indices. The loudness test
    `chunk.dBFS < silence_threshold` is an oracle `silent` on the chunk; its
    threshold (-50 dBFS in the script) is folded into the oracle. */
module Silence {

  /** The default `chunk_size` of `detect_leading_silence`, in milliseconds. */
  const CHUNK_MS: nat := 10

  /** `sound[lo:lo+size]` for `lo >= 0`: the slice is clamped to the sound. */
  function Chunk<F>(sound: seq<F>, lo: nat, size: nat): (c: seq<F>)
    ensures lo < |sound| ==> c == sound[lo..if lo + size <= |sound| then lo + size else |sound|]
    ensures lo >= |sound| ==> c == []
  {
    var a := if lo <= |sound| then lo else |sound|;
    var b := if lo + size <= |sound| then lo + size else |sound|;
    sound[a..b]
  }

  /** The offset the scan of `detect_leading_silence` stops at when it starts at `from`. */
  function LeadingSilence<F>(sound: seq<F>, silent: seq<F> -> bool, chunkSize: nat, from: nat): (r: nat)
    requires chunkSize > 0
    ensures from <= r
    ensures from < |sound| ==> r < |sound| + chunkSize
    ensures from < r ==> silent(Chunk(sound, from, chunkSize))
    decreases |sound| - from
  {
    if silent(Chunk(sound, from, chunkSize)) && from < |sound| then
      LeadingSilence(sound, silent, chunkSize, from + chunkSize)
    else
      from
  }

  /** `x` is a whole number of chunks. */
  ghost predicate IsMultiple(x: int, chunkSize: nat) {
    exists n: nat :: x == n * chunkSize
  }

  /** Every chunk the scan visits below offset `to` is silent. */
  ghost predicate SilentBelow<F>(sound: seq<F>, silent: seq<F> -> bool, chunkSize: nat, to: nat) {
    forall off: nat :: off < to && IsMultiple(off, chunkSize) ==> silent(Chunk(sound, off, chunkSize))
  }

  lemma MulMonotone(a: nat, b: nat, c: nat)
    requires a <= b
    ensures a * c <= b * c
  {
  }

  /** The only multiple of `chunkSize` in `[t, t + chunkSize)` is `t` itself. */
  lemma MultipleBetween(t: nat, off: nat, chunkSize: nat)
    requires chunkSize > 0 && IsMultiple(t, chunkSize) && IsMultiple(off, chunkSize)
    requires t <= off < t + chunkSize
    ensures off == t
  {
    var n: nat :| t == n * chunkSize;
    var m: nat :| off == m * chunkSize;
    if m > n {
      MulMonotone(n + 1, m, chunkSize);
    } else if m < n {
      MulMonotone(m + 1, n, chunkSize);
    }
  }

  lemma MultipleStep(t: nat, chunkSize: nat)
    requires IsMultiple(t, chunkSize)
    ensures IsMultiple(t + chunkSize, chunkSize)
  {
    var n: nat :| t == n * chunkSize;
    assert t + chunkSize == (n + 1) * chunkSize;
  }

  /** `detect_leading_silence(sound, silence_threshold, chunk_size)`: the loop
      advances `trim_ms` by `chunk_size` while the chunk at `trim_ms` is
      silent and `trim_ms < len(sound)`. The `assert chunk_size > 0` is this
      method's precondition. */
  method DetectLeadingSilence<F>(sound: seq<F>, silent: seq<F> -> bool, chunkSize: nat) returns (trimMs: nat)
    requires chunkSize > 0
    ensures IsMultiple(trimMs, chunkSize)
    ensures trimMs < |sound| + chunkSize
    ensures SilentBelow(sound, silent, chunkSize, trimMs)
    ensures trimMs < |sound| ==> !silent(Chunk(sound, trimMs, chunkSize))
    ensures trimMs == LeadingSilence(sound, silent, chunkSize, 0)
  {
    trimMs := 0;
    assert 0 == 0 * chunkSize;
    while silent(Chunk(sound, trimMs, chunkSize)) && trimMs < |sound|
      invariant IsMultiple(trimMs, chunkSize)
      invariant trimMs < |sound| + chunkSize
      invariant SilentBelow(sound, silent, chunkSize, trimMs)
      invariant LeadingSilence(sound, silent, chunkSize, trimMs) == LeadingSilence(sound, silent, chunkSize, 0)
      decreases |sound| - trimMs
    {
      forall off: nat | off < trimMs + chunkSize && IsMultiple(off, chunkSize)
        ensures silent(Chunk(sound, off, chunkSize))
      {
        if off >= trimMs {
          MultipleBetween(trimMs, off, chunkSize);
        }
      }
      MultipleStep(trimMs, chunkSize);
      trimMs := trimMs + chunkSize;
    }
  }

  function Reverse<F>(s: seq<F>): (r: seq<F>)
    ensures |r| == |s|
    ensures forall i :: 0 <= i < |s| ==> r[i] == s[|s| - 1 - i]
  {
    if s == [] then [] else Reverse(s[1..]) + [s[0]]
  }

  /** Python's `s[lo:hi]` (step 1): a negative bound counts from the end, then
      both bounds are clamped to `[0, len(s)]`. */
  function PySlice<F>(s: seq<F>, lo: int, hi: int): (r: seq<F>)
    ensures |r| <= |s|
    ensures 0 <= lo <= hi <= |s| ==> r == s[lo..hi]
    ensures -|s| <= hi < 0 && 0 <= lo <= |s| + hi ==> r == s[lo..|s| + hi]
  {
    var a := Clamp(if lo < 0 then lo + |s| else lo, |s|);
    var b := Clamp(if hi < 0 then hi + |s| else hi, |s|);
    if a < b then s[a..b] else []
  }

  function Clamp(x: int, n: nat): (r: nat)
    ensures r <= n
  {
    if x < 0 then 0 else if x > n then n else x
  }

  /** The trimmed sound: frames from `startTrim` up to `duration - endTrim`,
      each bound clamped to `[0, duration]`. */
  function Trimmed<F>(sound: seq<F>, startTrim: nat, endTrim: nat): (r: seq<F>)
    ensures |r| <= |sound|
    ensures r != [] ==> startTrim + endTrim < |sound| && r == sound[startTrim..|sound| - endTrim]
    ensures startTrim + endTrim < |sound| ==> r == sound[startTrim..|sound| - endTrim]
  {
    var a := Clamp(startTrim, |sound|);
    var b := Clamp(|sound| - endTrim, |sound|);
    if a < b then sound[a..b] else []
  }

  /** `sound[start_trim:duration-end_trim]` exactly as the script writes it:
      when `end_trim` exceeds the duration, the stop is negative and Python
      counts it from the end. */
  function TrimmedAsWritten<F>(sound: seq<F>, startTrim: nat, endTrim: nat): seq<F> {
    PySlice(sound, startTrim, |sound| - endTrim)
  }

  /** The two slices agree whenever the trailing scan stops inside the sound. */
  lemma TrimmedAgrees<F>(sound: seq<F>, startTrim: nat, endTrim: nat)
    requires endTrim <= |sound|
    ensures TrimmedAsWritten(sound, startTrim, endTrim) == Trimmed(sound, startTrim, endTrim)
  {
  }

  /** `trim_audio`: scan the sound and its reverse for leading silence and keep
      the frames in between. The slice is the clamped one, `Trimmed`; it is
      the slice line 38 takes whenever the trailing scan stops inside the
      sound (`OvershootingStop` shows where the two part). Decoding and export
      of the WAV files are not part of this model. */
  method TrimAudio<F>(sound: seq<F>, silent: seq<F> -> bool) returns (trimmed: seq<F>)
    ensures |trimmed| <= |sound|
    ensures var startTrim := LeadingSilence(sound, silent, CHUNK_MS, 0);
      var endTrim := LeadingSilence(Reverse(sound), silent, CHUNK_MS, 0);
      trimmed == Trimmed(sound, startTrim, endTrim)
      && (endTrim <= |sound| ==> trimmed == TrimmedAsWritten(sound, startTrim, endTrim))
      && (trimmed != [] ==> trimmed == sound[startTrim..|sound| - endTrim])
      && (trimmed != [] ==> !silent(Chunk(sound, startTrim, CHUNK_MS))
                            && !silent(Chunk(Reverse(sound), endTrim, CHUNK_MS)))
      && SilentBelow(sound, silent, CHUNK_MS, startTrim)
      && SilentBelow(Reverse(sound), silent, CHUNK_MS, endTrim)
  {
    var startTrim := DetectLeadingSilence(sound, silent, CHUNK_MS);
    var endTrim := DetectLeadingSilence(Reverse(sound), silent, CHUNK_MS);
    trimmed := Trimmed(sound, startTrim, endTrim);
    if endTrim <= |sound| {
      TrimmedAgrees(sound, startTrim, endTrim);
    }
  }

  /** The sum of squared samples of a chunk; a mean square below a bound is
      the kind of test `dBFS < silence_threshold` performs on the chunk's RMS. */
  function SumSquares(c: seq<int>): int {
    if c == [] then 0 else c[0] * c[0] + SumSquares(c[1..])
  }

  /** The mean square of the chunk is below 10 * 10. */
  predicate QuietBelowTen(c: seq<int>) {
    SumSquares(c) < 100 * |c|
  }

  /** Judged by mean square below 10 * 10, the forward chunk [0, 10) of the
      sound below is loud. */
  lemma ForwardScanOfExample()
    ensures var sound := [9, 9, 9, 9, 9, 12, 12, 12, 12, 12, 0, 0, 0, 0, 0];
      LeadingSilence(sound, QuietBelowTen, CHUNK_MS, 0) == 0
  {
    var sound := [9, 9, 9, 9, 9, 12, 12, 12, 12, 12, 0, 0, 0, 0, 0];
    assert Chunk(sound, 0, CHUNK_MS) == [9, 9, 9, 9, 9, 12, 12, 12, 12, 12];
    assert SumSquares([9, 9, 9, 9, 9, 12, 12, 12, 12, 12]) == 1125;
  }

  lemma {:induction false} ReverseAppend<F>(a: seq<F>, b: seq<F>)
    ensures Reverse(a + b) == Reverse(b) + Reverse(a)
    decreases |a|
  {
    if a != [] {
      assert (a + b)[1..] == a[1..] + b;
      ReverseAppend(a[1..], b);
    }
  }

  /** A run of equal frames reads the same backwards. */
  lemma ReverseConstant<F>(s: seq<F>, x: F)
    requires forall i :: 0 <= i < |s| ==> s[i] == x
    ensures Reverse(s) == s
  {
  }

  lemma ReverseOfExample()
    ensures Reverse([9, 9, 9, 9, 9, 12, 12, 12, 12, 12, 0, 0, 0, 0, 0])
         == [0, 0, 0, 0, 0, 12, 12, 12, 12, 12, 9, 9, 9, 9, 9]
  {
    var a, b, z := [9, 9, 9, 9, 9], [12, 12, 12, 12, 12], [0, 0, 0, 0, 0];
    assert [9, 9, 9, 9, 9, 12, 12, 12, 12, 12, 0, 0, 0, 0, 0] == a + (b + z);
    assert Reverse(b + z) == z + b by {
      ReverseAppend(b, z);
      ReverseConstant(b, 12);
      ReverseConstant(z, 0);
    }
    assert Reverse(a + (b + z)) == (z + b) + a by {
      ReverseAppend(a, b + z);
      ReverseConstant(a, 9);
    }
    assert (z + b) + a == [0, 0, 0, 0, 0, 12, 12, 12, 12, 12, 9, 9, 9, 9, 9];
  }

  /** The reversed sound's chunks [0, 10) and [10, 15) are both silent by the
      same test, so the reversed scan stops at 20, past the 15 ms duration. */
  lemma ReversedScanOfExample()
    ensures LeadingSilence([0, 0, 0, 0, 0, 12, 12, 12, 12, 12, 9, 9, 9, 9, 9],
                           QuietBelowTen, CHUNK_MS, 0) == 20
  {
    var rev := [0, 0, 0, 0, 0, 12, 12, 12, 12, 12, 9, 9, 9, 9, 9];
    assert QuietBelowTen(Chunk(rev, 0, CHUNK_MS)) by {
      assert Chunk(rev, 0, CHUNK_MS) == [0, 0, 0, 0, 0, 12, 12, 12, 12, 12];
      assert SumSquares([0, 0, 0, 0, 0, 12, 12, 12, 12, 12]) == 720;
    }
    assert QuietBelowTen(Chunk(rev, 10, CHUNK_MS)) by {
      assert Chunk(rev, 10, CHUNK_MS) == [9, 9, 9, 9, 9];
      assert SumSquares([9, 9, 9, 9, 9]) == 405;
    }
    assert LeadingSilence(rev, QuietBelowTen, CHUNK_MS, 20) == 20;
    assert LeadingSilence(rev, QuietBelowTen, CHUNK_MS, 10) == 20;
  }

  /** A 15 ms sound: five frames at 9, five at 12, five at 0. The forward scan
      stops at 0 and the reversed scan at 20. As written, the stop
      `15 - 20 = -5` counts from the end and the first 10 frames survive,
      although the reversed scan judged all of them silent; the clamped slice
      keeps nothing. */
  lemma NegativeStopKeepsTrailingSilence()
    ensures var sound := [9, 9, 9, 9, 9, 12, 12, 12, 12, 12, 0, 0, 0, 0, 0];
      var silent := QuietBelowTen;
      var startTrim := LeadingSilence(sound, silent, CHUNK_MS, 0);
      var endTrim := LeadingSilence(Reverse(sound), silent, CHUNK_MS, 0);
      TrimmedAsWritten(sound, startTrim, endTrim) == sound[..10]
      && Trimmed(sound, startTrim, endTrim) == []
  {
    var sound := [9, 9, 9, 9, 9, 12, 12, 12, 12, 12, 0, 0, 0, 0, 0];
    assert LeadingSilence(sound, QuietBelowTen, CHUNK_MS, 0) == 0 by {
      ForwardScanOfExample();
    }
    assert LeadingSilence(Reverse(sound), QuietBelowTen, CHUNK_MS, 0) == 20 by {
      ReverseOfExample();
      ReversedScanOfExample();
    }
    OvershootingStop(sound, 0, 20);
  }

  /** When the trailing scan overshoots the duration by less than the
      duration, the stop as written counts back from the end. */
  lemma OvershootingStop<F>(sound: seq<F>, startTrim: nat, endTrim: nat)
    requires |sound| < endTrim < 2 * |sound| && startTrim < 2 * |sound| - endTrim
    ensures TrimmedAsWritten(sound, startTrim, endTrim) == sound[startTrim..2 * |sound| - endTrim]
    ensures Trimmed(sound, startTrim, endTrim) == []
  {
  }

  /** The clamped slice never keeps a frame the trailing scan judged silent:
      whatever survives ends `end_trim` frames before the end. */
  lemma TrimmedRespectsTrailingScan<F>(sound: seq<F>, startTrim: nat, endTrim: nat)
    ensures |sound| <= endTrim ==> Trimmed(sound, startTrim, endTrim) == []
    ensures forall k :: 0 <= k < |Trimmed(sound, startTrim, endTrim)| ==>
      Trimmed(sound, startTrim, endTrim)[k] == sound[startTrim + k] && startTrim + k < |sound| - endTrim
  {
    var r := Trimmed(sound, startTrim, endTrim);
    if r != [] {
      assert r == sound[startTrim..|sound| - endTrim];
    }
  }
}
