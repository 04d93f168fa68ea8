/** Character classes and the line/token handling of the collector script:
    `alphabets`, Python's `str.splitlines()`, `str.split(" ")` with `" ".join`,
    and `write_to_file`, which writes each string followed by a newline. */
module Text {

  /** The 52 ASCII letters the script calls `alphabets`. */
  const ALPHABETS: string := "abcdefghijklmnopqrstuvwxyzABCDEFGHIJKLMNOPQRSTUVWXYZ"

  /** `ch in alphabets`, stated by code-point range; `AlphabetsMembership`
      shows the two agree. */
  predicate IsLatin(ch: char) {
    'a' <= ch <= 'z' || 'A' <= ch <= 'Z'
  }

  /** The code point the letter at position `i` of `alphabets` has. */
  function LetterCode(i: int): int {
    if i < 26 then ('a' as int) + i else ('A' as int) + i - 26
  }

  predicate CodesFrom(s: string, from: int) {
    forall i :: 0 <= i < |s| ==> s[i] as int == LetterCode(from + i)
  }

  lemma CodesConcat(a: string, b: string, from: int)
    requires CodesFrom(a, from) && CodesFrom(b, from + |a|)
    ensures CodesFrom(a + b, from)
  {
  }

  lemma LowerCodes()
    ensures CodesFrom("abcdefghijklmnopqrstuvwxyz", 0)
  {
    assert CodesFrom("abcdefghijkl", 0) by {
      assert CodesFrom("abcdef", 0) && CodesFrom("ghijkl", 6);
      assert "abcdefghijkl" == "abcdef" + "ghijkl";
      CodesConcat("abcdef", "ghijkl", 0);
    }
    assert CodesFrom("mnopqrstuvwxyz", 12) by {
      assert CodesFrom("mnopqr", 12) && CodesFrom("stuvwxyz", 18);
      assert "mnopqrstuvwxyz" == "mnopqr" + "stuvwxyz";
      CodesConcat("mnopqr", "stuvwxyz", 12);
    }
    assert "abcdefghijklmnopqrstuvwxyz" == "abcdefghijkl" + "mnopqrstuvwxyz";
    CodesConcat("abcdefghijkl", "mnopqrstuvwxyz", 0);
  }

  lemma UpperCodes()
    ensures CodesFrom("ABCDEFGHIJKLMNOPQRSTUVWXYZ", 26)
  {
    assert CodesFrom("ABCDEFGHIJKL", 26) by {
      assert CodesFrom("ABCDEF", 26) && CodesFrom("GHIJKL", 32);
      assert "ABCDEFGHIJKL" == "ABCDEF" + "GHIJKL";
      CodesConcat("ABCDEF", "GHIJKL", 26);
    }
    assert CodesFrom("MNOPQRSTUVWXYZ", 38) by {
      assert CodesFrom("MNOPQR", 38) && CodesFrom("STUVWXYZ", 44);
      assert "MNOPQRSTUVWXYZ" == "MNOPQR" + "STUVWXYZ";
      CodesConcat("MNOPQR", "STUVWXYZ", 38);
    }
    assert "ABCDEFGHIJKLMNOPQRSTUVWXYZ" == "ABCDEFGHIJKL" + "MNOPQRSTUVWXYZ";
    CodesConcat("ABCDEFGHIJKL", "MNOPQRSTUVWXYZ", 26);
  }

  lemma AlphabetsLength()
    ensures |ALPHABETS| == 52
  {
  }

  /** `alphabets` is "a".."z" followed by "A".."Z". */
  lemma AlphabetsAreLetters()
    ensures |ALPHABETS| == 52
    ensures CodesFrom(ALPHABETS, 0)
  {
    LowerCodes();
    UpperCodes();
    assert ALPHABETS == "abcdefghijklmnopqrstuvwxyz" + "ABCDEFGHIJKLMNOPQRSTUVWXYZ";
    CodesConcat("abcdefghijklmnopqrstuvwxyz", "ABCDEFGHIJKLMNOPQRSTUVWXYZ", 0);
  }

  /** No letter repeats in `alphabets`, which is what lets `random.sample`
      produce pairwise distinct characters. */
  lemma AlphabetsDistinct()
    ensures forall i, j :: 0 <= i < j < |ALPHABETS| ==> ALPHABETS[i] != ALPHABETS[j]
  {
    AlphabetsAreLetters();
    forall i, j | 0 <= i < j < |ALPHABETS|
      ensures ALPHABETS[i] != ALPHABETS[j]
    {
      assert ALPHABETS[i] as int == LetterCode(i) && ALPHABETS[j] as int == LetterCode(j);
    }
  }

  /** `ch in alphabets` holds exactly for 'a'..'z' and 'A'..'Z'. */
  lemma AlphabetsMembership(ch: char)
    ensures ch in ALPHABETS <==> IsLatin(ch)
  {
    AlphabetsAreLetters();
    if 'a' <= ch <= 'z' {
      var i := ch as int - 'a' as int;
      assert ALPHABETS[i] as int == ch as int;
    } else if 'A' <= ch <= 'Z' {
      var i := ch as int - 'A' as int + 26;
      assert ALPHABETS[i] as int == ch as int;
    }
  }

  /** The characters Python's `str.splitlines()` treats as line boundaries. */
  predicate IsLineBreak(ch: char) {
    ch == '\n' || ch == '\r' || ch == '\U{000B}' || ch == '\U{000C}'
    || ch == '\U{001C}' || ch == '\U{001D}' || ch == '\U{001E}'
    || ch == '\U{0085}' || ch == '\U{2028}' || ch == '\U{2029}'
  }

  predicate NoLineBreak(s: string) {
    forall i :: 0 <= i < |s| ==> !IsLineBreak(s[i])
  }

  predicate AllWithoutLineBreak(lines: seq<string>) {
    forall i :: 0 <= i < |lines| ==> NoLineBreak(lines[i])
  }

  /** Position of the first line boundary in `s`, or `|s|` when there is none. */
  function FirstBreak(s: string): (k: nat)
    ensures k <= |s|
    ensures forall i :: 0 <= i < k ==> !IsLineBreak(s[i])
    ensures k < |s| ==> IsLineBreak(s[k])
  {
    if s == [] then 0
    else if IsLineBreak(s[0]) then 0
    else 1 + FirstBreak(s[1..])
  }

  /** Python's `str.splitlines()`: splits at every boundary character,
      treats "\r\n" as one boundary, and yields no empty last line for a
      trailing boundary. (Reading in text mode first turns "\r\n" and "\r"
      into "\n"; that gives the same list.) */
  function SplitLines(t: string): (lines: seq<string>)
    ensures AllWithoutLineBreak(lines)
    ensures t == [] <==> lines == []
    decreases |t|
  {
    if t == [] then []
    else
      var k := FirstBreak(t);
      if k == |t| then [t]
      else
        var next := if t[k] == '\r' && k + 1 < |t| && t[k + 1] == '\n' then k + 2 else k + 1;
        [t[..k]] + SplitLines(t[next..])
  }

  /** The text `write_to_file` leaves in the file: each string followed by "\n". */
  function Serialise(lines: seq<string>): string {
    if lines == [] then "" else Serialise(lines[..|lines| - 1]) + lines[|lines| - 1] + "\n"
  }

  lemma {:induction false} SerialiseCons(x: string, rest: seq<string>)
    ensures Serialise([x] + rest) == x + "\n" + Serialise(rest)
    decreases |rest|
  {
    if rest == [] {
      assert ([x] + rest)[..0] == [];
    } else {
      var last := |rest| - 1;
      assert ([x] + rest)[..|rest|] == [x] + rest[..last];
      SerialiseCons(x, rest[..last]);
    }
  }

  /** Reading back what `write_to_file` wrote, with `splitlines()`, returns
      the list that was written, provided no string holds a line boundary. */
  lemma {:induction false} SplitLinesSerialise(lines: seq<string>)
    requires AllWithoutLineBreak(lines)
    ensures SplitLines(Serialise(lines)) == lines
    decreases |lines|
  {
    if lines != [] {
      var x, rest := lines[0], lines[1..];
      assert lines == [x] + rest;
      SerialiseCons(x, rest);
      var t := Serialise(lines);
      assert t == x + ("\n" + Serialise(rest));
      assert NoLineBreak(x);
      assert t[|x|] == '\n';
      assert FirstBreak(t) == |x|;
      assert t[..|x|] == x;
      assert t[|x| + 1..] == Serialise(rest);
      SplitLinesSerialise(rest);
    }
  }

  /** `write_to_file(file_name, string_list)`: the file's new contents. */
  method WriteToFile(stringList: seq<string>) returns (text: string)
    ensures text == Serialise(stringList)
    ensures AllWithoutLineBreak(stringList) ==> SplitLines(text) == stringList
  {
    text := "";
    for i := 0 to |stringList|
      invariant text == Serialise(stringList[..i])
    {
      assert stringList[..i + 1][..i] == stringList[..i];
      text := text + stringList[i] + "\n";
    }
    assert stringList[..|stringList|] == stringList;
    if AllWithoutLineBreak(stringList) {
      SplitLinesSerialise(stringList);
    }
  }

  /** Position of the first `ch` in `s`, or `|s|` when there is none. */
  function IndexOf(s: string, ch: char): (k: nat)
    ensures k <= |s|
    ensures forall i :: 0 <= i < k ==> s[i] != ch
    ensures k < |s| ==> s[k] == ch
  {
    if s == [] then 0
    else if s[0] == ch then 0
    else 1 + IndexOf(s[1..], ch)
  }

  /** Python's `s.split(sep)` with an explicit one-character separator:
      never empty, and empty pieces are kept. */
  function SplitOn(s: string, sep: char): (parts: seq<string>)
    ensures |parts| >= 1
    ensures forall i :: 0 <= i < |parts| ==> sep !in parts[i]
    decreases |s|
  {
    var k := IndexOf(s, sep);
    if k == |s| then [s] else [s[..k]] + SplitOn(s[k + 1..], sep)
  }

  /** Python's `sep.join(parts)` for a one-character separator. */
  function Join(parts: seq<string>, sep: char): string {
    if parts == [] then ""
    else if |parts| == 1 then parts[0]
    else parts[0] + [sep] + Join(parts[1..], sep)
  }

  /** Joining the pieces of a split with the same separator gives the string back. */
  lemma {:induction false} JoinSplitOn(s: string, sep: char)
    ensures Join(SplitOn(s, sep), sep) == s
    decreases |s|
  {
    var k := IndexOf(s, sep);
    if k < |s| {
      var rest := s[k + 1..];
      var parts := SplitOn(rest, sep);
      assert SplitOn(s, sep) == [s[..k]] + parts;
      assert ([s[..k]] + parts)[1..] == parts;
      assert Join(SplitOn(s, sep), sep) == s[..k] + [sep] + Join(parts, sep);
      assert Join(parts, sep) == rest by {
        JoinSplitOn(rest, sep);
      }
      assert s == s[..k] + [sep] + rest;
    } else {
      assert SplitOn(s, sep) == [s];
    }
  }

  /** `t.split(" ")[0]`: the text before the first space. */
  function FirstToken(t: string): string {
    SplitOn(t, ' ')[0]
  }

  /** `" ".join(t.split(" ")[1:])`: the text after the first space. */
  function AfterFirstToken(t: string): string {
    Join(SplitOn(t, ' ')[1..], ' ')
  }

  /** The two expressions cut the line at its first space: the token is the
      part before it, the rest is the part after it (empty without a space). */
  lemma FirstTokenSplit(t: string)
    ensures FirstToken(t) == t[..IndexOf(t, ' ')]
    ensures AfterFirstToken(t) == if IndexOf(t, ' ') < |t| then t[IndexOf(t, ' ') + 1..] else ""
  {
    var k := IndexOf(t, ' ');
    if k < |t| {
      var rest := t[k + 1..];
      assert SplitOn(t, ' ') == [t[..k]] + SplitOn(rest, ' ');
      assert SplitOn(t, ' ')[1..] == SplitOn(rest, ' ');
      JoinSplitOn(rest, ' ');
    } else {
      assert SplitOn(t, ' ') == [t];
    }
  }

  /** `IndexOf` finds the first separator of `a + [sep] + b` at `|a|` when `a` has none. */
  lemma IndexOfAt(a: string, sep: char, b: string)
    requires sep !in a
    ensures IndexOf(a + [sep] + b, sep) == |a|
  {
    var s := a + [sep] + b;
    assert s[|a|] == sep;
    assert forall i :: 0 <= i < |a| ==> s[i] == a[i];
  }

  /** A line `tag + " " + text` whose tag has no space parses back into that tag and text. */
  lemma ParseLine(tag: string, text: string)
    requires ' ' !in tag
    ensures FirstToken(tag + " " + text) == tag
    ensures AfterFirstToken(tag + " " + text) == text
  {
    var t := tag + " " + text;
    IndexOfAt(tag, ' ', text);
    FirstTokenSplit(t);
    assert t[..|tag|] == tag;
    assert t[|tag| + 1..] == text;
  }

  /** `s.split(sep)[0]`: the text before the first `sep`, all of `s` without one. */
  lemma FirstPiece(s: string, sep: char)
    ensures SplitOn(s, sep)[0] == s[..IndexOf(s, sep)]
  {
    var k := IndexOf(s, sep);
    if k < |s| {
      assert SplitOn(s, sep) == [s[..k]] + SplitOn(s[k + 1..], sep);
    }
  }
}
