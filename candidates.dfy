/** Building the candidate list from the contents file: `splitlines()`,
    `contents.sort()`, the `for`/`break` loop that drops the leading run of
    lines starting with a letter of `alphabets`, and `random.shuffle`. */
module Candidates {
  import opened Text
  import opened Seqs

  /** Python's `a <= b` on strings: code point by code point, with a proper
      prefix ordered first. */
  predicate LexLeq(a: string, b: string)
    ensures a <= b ==> LexLeq(a, b)
  {
    a == [] || (b != [] && (a[0] < b[0] || (a[0] == b[0] && LexLeq(a[1..], b[1..]))))
  }

  lemma {:induction false} LexLeqTotal(a: string, b: string)
    ensures LexLeq(a, b) || LexLeq(b, a)
    decreases |a|
  {
    if a != [] && b != [] && a[0] == b[0] {
      LexLeqTotal(a[1..], b[1..]);
    }
  }

  /** Only the empty string sorts at or below the empty string, and a line
      sorts no lower than its first character allows. */
  lemma LexLeqFirst(a: string, b: string)
    requires LexLeq(a, b) && a != []
    ensures b != [] && a[0] <= b[0]
  {
  }

  /** Neighbours are in order: what `list.sort()` leaves. */
  predicate Sorted(s: seq<string>) {
    forall i :: 0 < i < |s| ==> LexLeq(s[i - 1], s[i])
  }

  function Insert(x: string, s: seq<string>): seq<string> {
    if s == [] then [x]
    else if LexLeq(x, s[0]) then [x] + s
    else [s[0]] + Insert(x, s[1..])
  }

  /** `contents.sort()`: the lines in ascending code-point order. */
  function Sort(s: seq<string>): seq<string> {
    if s == [] then [] else Insert(s[0], Sort(s[1..]))
  }

  lemma {:induction false} InsertPermutation(x: string, s: seq<string>)
    ensures multiset(Insert(x, s)) == multiset(s) + multiset{x}
    decreases |s|
  {
    if s != [] && !LexLeq(x, s[0]) {
      InsertPermutation(x, s[1..]);
      MultisetCons(s);
    }
  }

  lemma {:induction false} InsertSorted(x: string, s: seq<string>)
    requires Sorted(s)
    ensures Sorted(Insert(x, s))
    decreases |s|
  {
    if s != [] && !LexLeq(x, s[0]) {
      LexLeqTotal(x, s[0]);
      var rest := s[1..];
      assert Sorted(rest);
      InsertSorted(x, rest);
      var r := Insert(x, rest);
      assert r[0] == x || r[0] == rest[0];
      assert Insert(x, s) == [s[0]] + r;
    }
  }

  /** `contents.sort()` yields a sorted permutation of the lines. */
  lemma {:induction false} SortSortedPermutation(s: seq<string>)
    ensures Sorted(Sort(s))
    ensures multiset(Sort(s)) == multiset(s)
    decreases |s|
  {
    if s != [] {
      var rest := Sort(s[1..]);
      SortSortedPermutation(s[1..]);
      assert Sorted(Sort(s)) by {
        InsertSorted(s[0], rest);
      }
      assert multiset(Sort(s)) == multiset(s) by {
        InsertPermutation(s[0], rest);
        MultisetCons(s);
      }
    }
  }

  /** The line starts with a letter of `alphabets`. */
  predicate LatinLeading(line: string) {
    line != [] && IsLatin(line[0])
  }

  /** Where the `for` loop stops: the first line that is empty or does not
      start with a letter of `alphabets`, or `|lines|` when every line does. */
  function FirstNonLatin(lines: seq<string>): (i: nat)
    ensures i <= |lines|
    ensures forall k :: 0 <= k < i ==> LatinLeading(lines[k])
    ensures i < |lines| ==> !LatinLeading(lines[i])
  {
    if lines == [] then 0
    else if !LatinLeading(lines[0]) then 0
    else 1 + FirstNonLatin(lines[1..])
  }

  /** Outcome of the filter loop: the kept lines, or the `IndexError` that
      `c[0]` raises on an empty line. */
  datatype Filtered = Kept(lines: seq<string>) | IndexError

  /** The candidate lines the loop keeps from the sorted list. */
  function Filter(sorted: seq<string>): Filtered {
    var i := FirstNonLatin(sorted);
    if i == |sorted| then Kept(sorted)
    else if sorted[i] == [] then IndexError
    else Kept(sorted[i..])
  }

  /** The loop of lines 207-211. */
  method FilterCandidates(contents: seq<string>) returns (r: Filtered)
    ensures r == Filter(contents)
  {
    r := Kept(contents);
    for i := 0 to |contents|
      invariant forall k :: 0 <= k < i ==> LatinLeading(contents[k])
    {
      var c := contents[i];
      if c == [] {
        return IndexError;
      }
      AlphabetsMembership(c[0]);
      if !(c[0] in ALPHABETS) {
        r := Kept(contents[i..]);
        break;
      }
    }
  }

  /** The loop drops exactly a leading run of Latin-led lines: what it keeps
      is a suffix, everything before the suffix starts with a Latin letter,
      and the kept list starts with a line that does not (or is the whole
      list when every line does). */
  lemma FilterKeepsSuffix(sorted: seq<string>)
    requires Filter(sorted).Kept?
    ensures var kept := Filter(sorted).lines;
      var cut := |sorted| - |kept|;
      kept == sorted[cut..]
      && (forall k :: 0 <= k < cut ==> LatinLeading(sorted[k]))
      && (kept != [] && cut > 0 ==> !LatinLeading(kept[0]))
      && (cut == 0 || kept == [] || FirstNonLatin(sorted) == cut)
  {
  }

  /** An empty line sorts first, so the loop raises `IndexError` on it at once. */
  lemma {:induction false} EmptyLineIsFatal(lines: seq<string>)
    requires "" in lines
    ensures Filter(Sort(lines)) == IndexError
  {
    SortSortedPermutation(lines);
    var s := Sort(lines);
    assert "" in multiset(s);
    var k :| 0 <= k < |s| && s[k] == "";
    SortedDownTo(s, k, (line: string) => line == "");
  }

  /** In a sorted list, a property that the lower neighbour of any line
      having it inherits reaches the first line. */
  lemma {:induction false} SortedDownTo(s: seq<string>, k: nat, p: string -> bool)
    requires Sorted(s) && k < |s| && p(s[k])
    requires forall a, b :: LexLeq(a, b) && p(b) ==> p(a)
    ensures p(s[0])
    decreases k
  {
    if k > 0 {
      SortedDownTo(s, k - 1, p);
    }
  }

  /** A line starting below 'A' (a digit, a space, punctuation) sorts before
      every Latin-led line, so nothing at all is dropped. */
  lemma LowLineKeepsAll(lines: seq<string>, low: string)
    requires low in lines && low != [] && low[0] < 'A'
    requires "" !in lines
    ensures Filter(Sort(lines)) == Kept(Sort(lines))
  {
    SortSortedPermutation(lines);
    var s := Sort(lines);
    assert low in multiset(s);
    var k :| 0 <= k < |s| && s[k] == low;
    SortedDownTo(s, k, (line: string) => line == [] || line[0] < 'A');
    assert s[0] in multiset(lines);
    assert !LatinLeading(s[0]);
  }

  /** The lines of `s` that do not start with a Latin letter, in order. */
  function NonLatinLines(s: seq<string>): (r: seq<string>)
    ensures forall x :: x in r ==> x in s && !LatinLeading(x)
  {
    if s == [] then []
    else (if LatinLeading(s[0]) then [] else [s[0]]) + NonLatinLines(s[1..])
  }

  lemma {:induction false} NonLatinLinesAppend(a: seq<string>, b: seq<string>)
    ensures NonLatinLines(a + b) == NonLatinLines(a) + NonLatinLines(b)
    decreases |a|
  {
    if a != [] {
      var ab := a + b;
      var head := if LatinLeading(a[0]) then [] else [a[0]];
      assert ab[0] == a[0];
      assert ab[1..] == a[1..] + b;
      assert NonLatinLines(ab) == head + NonLatinLines(a[1..] + b);
      NonLatinLinesAppend(a[1..], b);
      assert NonLatinLines(a) == head + NonLatinLines(a[1..]);
    } else {
      assert a + b == b;
    }
  }

  lemma {:induction false} NonLatinLinesCount(s: seq<string>, x: string)
    ensures multiset(NonLatinLines(s))[x] == if LatinLeading(x) then 0 else multiset(s)[x]
    decreases |s|
  {
    if LatinLeading(x) {
      assert x !in NonLatinLines(s);
    } else if s != [] {
      var head := if LatinLeading(s[0]) then [] else [s[0]];
      NonLatinLinesCount(s[1..], x);
      CountCons(s, x);
      assert multiset(NonLatinLines(s))[x] == multiset(head)[x] + multiset(NonLatinLines(s[1..]))[x];
    }
  }

  /** Filtering depends only on the multiset of lines. */
  lemma NonLatinLinesPermutation(a: seq<string>, b: seq<string>)
    requires multiset(a) == multiset(b)
    ensures multiset(NonLatinLines(a)) == multiset(NonLatinLines(b))
  {
    forall x
      ensures multiset(NonLatinLines(a))[x] == multiset(NonLatinLines(b))[x]
    {
      NonLatinLinesCount(a, x);
      NonLatinLinesCount(b, x);
    }
  }

  /** A line starts above 'z' (Chinese text, for one). */
  predicate HighLeading(line: string) {
    line != [] && line[0] > 'z'
  }

  lemma {:induction false} HighLeadingUpward(s: seq<string>, i: nat, j: nat)
    requires Sorted(s) && i <= j < |s| && HighLeading(s[i])
    ensures HighLeading(s[j])
    decreases j - i
  {
    if i < j {
      HighLeadingUpward(s, i, j - 1);
      LexLeqFirst(s[j - 1], s[j]);
    }
  }

  /** From a line above 'z' on, no line of a sorted list is Latin-led. */
  lemma HighTailNotLatin(s: seq<string>, i: nat)
    requires Sorted(s) && i < |s| && HighLeading(s[i])
    ensures forall k :: 0 <= k < |s[i..]| ==> !LatinLeading(s[i..][k])
  {
    forall k | 0 <= k < |s[i..]|
      ensures !LatinLeading(s[i..][k])
    {
      HighLeadingUpward(s, i, i + k);
    }
  }

  /** In a sorted list of lines that start with a Latin letter or above 'z',
      with some of the latter, the loop stops at the first line above 'z' and
      the lines from there on are exactly the non-Latin ones. */
  lemma SortedSplitsAtFirstHigh(s: seq<string>, h: nat)
    requires Sorted(s)
    requires forall k :: 0 <= k < |s| ==> LatinLeading(s[k]) || HighLeading(s[k])
    requires h < |s| && HighLeading(s[h])
    ensures FirstNonLatin(s) < |s| && HighLeading(s[FirstNonLatin(s)])
    ensures NonLatinLines(s) == s[FirstNonLatin(s)..]
  {
    var i := FirstNonLatin(s);
    assert i <= h;
    assert HighLeading(s[i]);
    HighTailNotLatin(s, i);
    SplitAtFirstNonLatin(s, i);
  }

  /** Lines `[..i]` are Latin-led and lines `[i..]` are not. */
  lemma SplitAtFirstNonLatin(s: seq<string>, i: nat)
    requires i <= |s|
    requires forall k :: 0 <= k < i ==> LatinLeading(s[k])
    requires forall k :: 0 <= k < |s[i..]| ==> !LatinLeading(s[i..][k])
    ensures NonLatinLines(s) == s[i..]
  {
    var front, back := s[..i], s[i..];
    assert forall k :: 0 <= k < |front| ==> LatinLeading(front[k]);
    assert s == front + back;
    NonLatinLinesAppend(front, back);
    NoneLatinLines(front);
    AllNonLatinLines(back);
  }

  /** Lines with the same multiset hold the same members. */
  lemma PermutationMembers(a: seq<string>, b: seq<string>)
    requires multiset(a) == multiset(b)
    ensures forall x :: x in a <==> x in b
  {
    forall x
      ensures x in a <==> x in b
    {
      assert x in a <==> x in multiset(a);
      assert x in b <==> x in multiset(b);
    }
  }

  /** When every line starts either with a Latin letter or above 'z' (as
      Chinese text does), and at least one does the latter, the loop drops
      exactly the Latin-led lines. */
  lemma DropsExactlyLatinLines(lines: seq<string>, high: string)
    requires forall x :: x in lines ==> LatinLeading(x) || HighLeading(x)
    requires high in lines && HighLeading(high)
    ensures Filter(Sort(lines)).Kept?
    ensures multiset(Filter(Sort(lines)).lines) == multiset(NonLatinLines(lines))
  {
    SortSortedPermutation(lines);
    var s := Sort(lines);
    PermutationMembers(s, lines);
    var h :| 0 <= h < |s| && s[h] == high;
    SortedSplitsAtFirstHigh(s, h);
    NonLatinLinesPermutation(s, lines);
  }

  lemma {:induction false} NoneLatinLines(s: seq<string>)
    requires forall k :: 0 <= k < |s| ==> LatinLeading(s[k])
    ensures NonLatinLines(s) == []
    decreases |s|
  {
    if s != [] {
      NoneLatinLines(s[1..]);
    }
  }

  lemma {:induction false} AllNonLatinLines(s: seq<string>)
    requires forall k :: 0 <= k < |s| ==> !LatinLeading(s[k])
    ensures NonLatinLines(s) == s
    decreases |s|
  {
    if s != [] {
      AllNonLatinLines(s[1..]);
    }
  }

  /** `random.shuffle(x)`: CPython swaps `x[i]` with `x[randbelow(i + 1)]` for
      `i` from `len(x) - 1` down to 1. The random stream is `rng`, read from
      position `pos`; `next` is where the following draw reads. */
  method Shuffle<T>(x: seq<T>, rng: nat -> nat, pos: nat) returns (r: seq<T>, next: nat)
    ensures multiset(r) == multiset(x)
    ensures |r| == |x|
    ensures next == pos + (if |x| > 1 then |x| - 1 else 0)
  {
    r := x;
    next := pos;
    var i: int := |x| - 1;
    while i >= 1
      invariant -1 <= i < |x| && (|x| > 0 ==> i >= 0)
      invariant |r| == |x|
      invariant multiset(r) == multiset(x)
      invariant next == pos + (|x| - 1 - i)
    {
      var j := rng(next) % (i + 1);
      SwapPermutes(r, i, j);
      r := r[i := r[j]][j := r[i]];
      next := next + 1;
      i := i - 1;
    }
  }

  lemma SwapPermutes<T>(s: seq<T>, i: nat, j: nat)
    requires i < |s| && j < |s|
    ensures multiset(s[i := s[j]][j := s[i]]) == multiset(s)
  {
    if i != j {
      var t := s[i := s[j]];
      assert multiset(t) == multiset(s) - multiset{s[i]} + multiset{s[j]};
      assert multiset(t[j := s[i]]) == multiset(t) - multiset{t[j]} + multiset{s[i]};
    }
  }

  lemma PermutationKeepsNoLineBreak(a: seq<string>, b: seq<string>)
    requires multiset(a) == multiset(b) && AllWithoutLineBreak(a)
    ensures AllWithoutLineBreak(b)
  {
    PermutationMembers(a, b);
    forall k | 0 <= k < |b|
      ensures NoLineBreak(b[k])
    {
      assert b[k] in a;
    }
  }

  /** Lines 204-212: the candidate list. On success it is a permutation of
      the lines the filter keeps from the sorted contents. */
  method LoadCandidates(text: string, rng: nat -> nat, pos: nat) returns (r: Filtered, next: nat)
    ensures r.IndexError? <==> Filter(Sort(SplitLines(text))).IndexError?
    ensures r.Kept? ==> multiset(r.lines) == multiset(Filter(Sort(SplitLines(text))).lines)
    ensures r.Kept? ==> AllWithoutLineBreak(r.lines)
  {
    next := pos;
    var contents := SplitLines(text);
    SortSortedPermutation(contents);
    PermutationKeepsNoLineBreak(contents, Sort(contents));
    contents := Sort(contents);
    r := FilterCandidates(contents);
    if r.Kept? {
      var shuffled;
      shuffled, next := Shuffle(r.lines, rng, pos);
      PermutationKeepsNoLineBreak(r.lines, shuffled);
      r := Kept(shuffled);
    }
  }
}
