/** Splitting a text into lines that keep their newline. */
module TextLines {
  import opened Text

  /** The length of the first line of `s`, newline included. */
  function FirstLine(s: string): (n: nat)
    ensures n <= |s| && (s != "" ==> n > 0)
    ensures forall i | 0 <= i < n - 1 :: s[i] != '\n'
    ensures n < |s| ==> s[n - 1] == '\n'
  {
    if s == "" then 0 else if s[0] == '\n' then 1 else 1 + FirstLine(s[1..])
  }

  function Lines(s: string): seq<string> {
    if s == "" then [] else [s[..FirstLine(s)]] + Lines(s[FirstLine(s)..])
  }

  ghost predicate Terminated(line: string) {
    line != "" && line[|line| - 1] == '\n'
  }

  /** Not empty, and without a newline but at the end. */
  ghost predicate IsLine(line: string) {
    line != "" && forall j | 0 <= j < |line| - 1 :: line[j] != '\n'
  }

  /** The lines of some text: only the last line may lack a newline. */
  ghost predicate AreLines(lines: seq<string>) {
    && (forall i | 0 <= i < |lines| :: IsLine(lines[i]))
    && (forall i | 0 <= i < |lines| - 1 :: Terminated(lines[i]))
  }

  lemma {:induction false} LineBefore(line: string, rest: seq<string>)
    requires IsLine(line) && AreLines(rest) && (rest == [] || Terminated(line))
    ensures AreLines([line] + rest) && Flatten([line] + rest) == line + Flatten(rest)
  {
    hide IsLine, Terminated;
    assert ([line] + rest)[1..] == rest;
  }

  lemma {:induction false} FirstIsLine(s: string)
    requires s != ""
    ensures IsLine(s[..FirstLine(s)]) && (FirstLine(s) == |s| || Terminated(s[..FirstLine(s)]))
    ensures FirstLine(s) == |s| ==> Lines(s[FirstLine(s)..]) == []
  {
  }

  lemma {:induction false} LinesOfText(s: string)
    ensures Flatten(Lines(s)) == s && AreLines(Lines(s))
    decreases |s|
  {
    if s != "" {
      var n := FirstLine(s);
      FirstIsLine(s);
      LinesOfText(s[n..]);
      hide IsLine, Terminated, AreLines, Flatten, FirstLine;
      LineBefore(s[..n], Lines(s[n..]));
      assert s[..n] + s[n..] == s;
    }
  }

  lemma {:induction false} FlattenSum(a: seq<string>, b: seq<string>)
    ensures Flatten(a + b) == Flatten(a) + Flatten(b)
    decreases |a|
  {
    if a == [] {
      assert a + b == b;
    } else {
      assert (a + b)[1..] == a[1..] + b;
      FlattenSum(a[1..], b);
    }
  }

  lemma {:induction false} FirstLineOf(line: string, rest: string)
    requires IsLine(line) && (Terminated(line) || rest == "")
    ensures FirstLine(line + rest) == |line|
    decreases |line|
  {
    if |line| > 1 {
      assert (line + rest)[1..] == line[1..] + rest;
      FirstLineOf(line[1..], rest);
    }
  }

  /** Joining lines and splitting the text again gives the lines back. */
  lemma {:induction false} LinesOfFlatten(lines: seq<string>)
    requires AreLines(lines)
    ensures Lines(Flatten(lines)) == lines
    decreases |lines|
  {
    if lines != [] {
      var rest := Flatten(lines[1..]);
      assert |lines| == 1 ==> rest == "";
      FirstLineOf(lines[0], rest);
      LinesOfFlatten(lines[1..]);
      assert (lines[0] + rest)[..|lines[0]|] == lines[0] && (lines[0] + rest)[|lines[0]|..] == rest;
    }
  }

  /** Where line `i` starts in the text of `lines`. */
  function Offset(lines: seq<string>, i: nat): nat
    requires i <= |lines|
  {
    |Flatten(lines[..i])|
  }

  lemma {:induction false} OffsetStart(lines: seq<string>)
    ensures Offset(lines, 0) == 0
  {
    assert lines[..0] == [];
  }

  lemma {:induction false} OffsetNext(lines: seq<string>, i: nat)
    requires i < |lines|
    ensures Offset(lines, i + 1) == Offset(lines, i) + |lines[i]|
  {
    assert lines[..i + 1] == lines[..i] + [lines[i]];
    FlattenSum(lines[..i], [lines[i]]);
    assert [lines[i]][1..] == [];
  }

  lemma {:induction false} OffsetSplits(lines: seq<string>, i: nat)
    requires i <= |lines|
    ensures Offset(lines, i) <= |Flatten(lines)|
    ensures Flatten(lines)[..Offset(lines, i)] == Flatten(lines[..i])
    ensures Flatten(lines)[Offset(lines, i)..] == Flatten(lines[i..])
  {
    assert lines == lines[..i] + lines[i..];
    FlattenSum(lines[..i], lines[i..]);
  }

  /** Later lines start later. */
  lemma {:induction false} OffsetsIncrease(lines: seq<string>, i: nat, j: nat)
    requires AreLines(lines) && i < j <= |lines|
    ensures Offset(lines, i) < Offset(lines, j)
    decreases j
  {
    OffsetNext(lines, j - 1);
    if i < j - 1 {
      OffsetsIncrease(lines, i, j - 1);
    }
  }
}
