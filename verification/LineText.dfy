/** Texts as the lines the standard library splits them into, and back. */
module LineText {
  import opened Text
  import opened TextLines

  /** A line without its line ending. */
  function Ended(line: string): string {
    if line == "" || line[|line| - 1] != '\n' then line
    else if |line| >= 2 && line[|line| - 2] == '\r' then line[..|line| - 2]
    else line[..|line| - 1]
  }

  function SplitLines(text: string): seq<string> {
    var lines := Lines(text);
    seq(|lines|, i requires 0 <= i < |lines| => Ended(lines[i]))
  }

  /** Whether the text has a carriage return before a newline. */
  predicate HasReturnNewline(text: string) {
    exists i :: 0 <= i < |text| - 1 && text[i] == '\r' && text[i + 1] == '\n'
  }

  predicate IsNewline(newline: string) {
    newline == "\n" || newline == "\r\n"
  }

  function NewlineOf(text: string): (newline: string)
    ensures IsNewline(newline)
  {
    if HasReturnNewline(text) then "\r\n" else "\n"
  }

  predicate EndsLine(text: string) {
    text != "" && (text[|text| - 1] == '\n' || text[|text| - 1] == '\r')
  }

  /** The text of some lines, with a newline after the last or not. */
  function JoinLines(lines: seq<string>, newline: string, trailing: bool): string {
    Join(lines, newline) + if trailing then newline else ""
  }

  /** Ends in a carriage return. */
  predicate Returning(line: string) {
    line != "" && line[|line| - 1] == '\r'
  }

  /** No line holds a newline, and there is a last line. */
  predicate Unbroken(lines: seq<string>, trailing: bool) {
    && lines != [] && (trailing || lines[|lines| - 1] != "")
    && forall i | 0 <= i < |lines| :: '\n' !in lines[i]
  }

  /** No line holds a newline, and none ends in a carriage return, unless it is put
      before "\r\n". */
  predicate Survive(lines: seq<string>, newline: string, trailing: bool) {
    && (forall i | 0 <= i < |lines| :: '\n' !in lines[i])
    && (forall i | 0 <= i < |lines| :: Returning(lines[i]) ==> newline == "\r\n" && (i < |lines| - 1 || trailing))
  }

  /** The lines with their newlines. */
  function WithNewlines(lines: seq<string>, newline: string, trailing: bool): (all: seq<string>)
    ensures |all| == |lines|
  {
    seq(|lines|, i requires 0 <= i < |lines| => if i < |lines| - 1 || trailing then lines[i] + newline else lines[i])
  }

  lemma {:induction false} JoinIsFlatten(lines: seq<string>, newline: string, trailing: bool)
    requires lines != []
    ensures JoinLines(lines, newline, trailing) == Flatten(WithNewlines(lines, newline, trailing))
    decreases |lines|
  {
    var all := WithNewlines(lines, newline, trailing);
    if |lines| == 1 {
      assert all[1..] == [];
    } else {
      JoinIsFlatten(lines[1..], newline, trailing);
      assert all[1..] == WithNewlines(lines[1..], newline, trailing);
      hide Join, Flatten;
      assert lines[0] + newline + Join(lines[1..], newline) + (if trailing then newline else "") ==
        (lines[0] + newline) + (Join(lines[1..], newline) + (if trailing then newline else ""));
    }
  }

  lemma {:induction false} NewlinesAreLines(lines: seq<string>, newline: string, trailing: bool)
    requires IsNewline(newline) && Unbroken(lines, trailing)
    ensures AreLines(WithNewlines(lines, newline, trailing))
  {
    var all := WithNewlines(lines, newline, trailing);
    forall i | 0 <= i < |all|
      ensures IsLine(all[i]) && (i < |all| - 1 ==> Terminated(all[i]))
    {
      assert '\n' !in lines[i];
    }
  }

  /** The lines of a text that is joined from unbroken lines. */
  lemma {:induction false} LinesOfJoined(lines: seq<string>, newline: string, trailing: bool)
    requires IsNewline(newline) && Unbroken(lines, trailing)
    ensures Lines(JoinLines(lines, newline, trailing)) == WithNewlines(lines, newline, trailing)
  {
    JoinIsFlatten(lines, newline, trailing);
    NewlinesAreLines(lines, newline, trailing);
    LinesOfFlatten(WithNewlines(lines, newline, trailing));
  }

  /** How a line is read, after its newline has been put after it. */
  lemma {:induction false} EndedIs(line: string, newline: string)
    requires '\n' !in line && IsNewline(newline)
    ensures Ended(line) == line
    ensures Ended(line + newline) == if newline == "\n" && Returning(line) then line[..|line| - 1] else line
  {
    assert (line + newline)[..|line|] == line;
  }

  lemma {:induction false} SurviveEnds(lines: seq<string>, newline: string, trailing: bool, i: nat)
    requires Survive(lines, newline, trailing) && IsNewline(newline) && i < |lines|
    ensures Ended(WithNewlines(lines, newline, trailing)[i]) == lines[i]
  {
    EndedIs(lines[i], newline);
  }

  lemma {:induction false} HasReturnNewlineSum(line: string, rest: string)
    requires Terminated(line) || rest == ""
    ensures HasReturnNewline(line + rest) <==> HasReturnNewline(line) || HasReturnNewline(rest)
  {
    var text := line + rest;
    if i :| 0 <= i < |text| - 1 && text[i] == '\r' && text[i + 1] == '\n' {
      assert i < |line| - 1 ==> line[i] == '\r' && line[i + 1] == '\n';
      assert i >= |line| ==> rest[i - |line|] == '\r' && rest[i - |line| + 1] == '\n';
      assert i != |line| - 1;
    }
    if i :| 0 <= i < |line| - 1 && line[i] == '\r' && line[i + 1] == '\n' {
      assert text[i] == '\r' && text[i + 1] == '\n';
    }
    if i :| 0 <= i < |rest| - 1 && rest[i] == '\r' && rest[i + 1] == '\n' {
      assert text[|line| + i] == '\r' && text[|line| + i + 1] == '\n';
    }
  }

  lemma {:induction false} FlattenHasReturnNewline(lines: seq<string>)
    requires AreLines(lines)
    ensures HasReturnNewline(Flatten(lines)) <==> exists i :: 0 <= i < |lines| && HasReturnNewline(lines[i])
    decreases |lines|
  {
    hide HasReturnNewline;
    if lines == [] {
      assert !HasReturnNewline("") by { NoReturnNewline(); }
    } else {
      FlattenHasReturnNewline(lines[1..]);
      assert |lines| > 1 ==> Terminated(lines[0]);
      HasReturnNewlineSum(lines[0], Flatten(lines[1..]));
      if i :| 0 <= i < |lines| && HasReturnNewline(lines[i]) {
        assert i > 0 ==> HasReturnNewline(lines[1..][i - 1]);
      }
      if i :| 0 <= i < |lines[1..]| && HasReturnNewline(lines[1..][i]) {
        assert HasReturnNewline(lines[i + 1]);
      }
    }
  }

  lemma {:induction false} NoReturnNewline()
    ensures !HasReturnNewline("")
  {
  }

  lemma {:induction false} LineHasReturnNewline(line: string, newline: string)
    requires '\n' !in line && IsNewline(newline)
    ensures !HasReturnNewline(line)
    ensures HasReturnNewline(line + newline) <==> newline == "\r\n" || Returning(line)
  {
    var text := line + newline;
    assert newline == "\r\n" ==> text[|line|] == '\r' && text[|line| + 1] == '\n';
    assert newline == "\n" && Returning(line) ==> text[|line| - 1] == '\r' && text[|line|] == '\n';
  }

  /** The newline style of a joined text. */
  lemma {:induction false} NewlineOfJoined(lines: seq<string>, newline: string, trailing: bool)
    requires IsNewline(newline) && Unbroken(lines, trailing)
    ensures NewlineOf(JoinLines(lines, newline, trailing)) == "\r\n" <==>
      exists i :: 0 <= i < |lines| && (i < |lines| - 1 || trailing) && (newline == "\r\n" || Returning(lines[i]))
  {
    var all := WithNewlines(lines, newline, trailing);
    JoinIsFlatten(lines, newline, trailing);
    NewlinesAreLines(lines, newline, trailing);
    FlattenHasReturnNewline(all);
    hide HasReturnNewline, AreLines, Returning, Flatten;
    forall i | 0 <= i < |lines|
      ensures HasReturnNewline(all[i]) <==>
        (i < |lines| - 1 || trailing) && (newline == "\r\n" || Returning(lines[i]))
    {
      LineHasReturnNewline(lines[i], newline);
    }
  }

  /** A text ends a line when its last line does. */
  lemma {:induction false} EndsLineOfJoined(lines: seq<string>, newline: string, trailing: bool)
    requires IsNewline(newline) && Unbroken(lines, trailing)
    ensures JoinLines(lines, newline, trailing) != ""
    ensures EndsLine(JoinLines(lines, newline, trailing)) <==> trailing || Returning(lines[|lines| - 1])
  {
    var text := JoinLines(lines, newline, trailing);
    if trailing {
      assert text[|text| - 1] == newline[|newline| - 1];
    } else {
      JoinLast(lines, newline);
      assert text == Join(lines, newline);
      var last := lines[|lines| - 1];
      assert last[|last| - 1] in last;
    }
  }

  lemma {:induction false} JoinLast(lines: seq<string>, newline: string)
    requires lines != [] && lines[|lines| - 1] != ""
    ensures var text, last := Join(lines, newline), lines[|lines| - 1];
      text != "" && text[|text| - 1] == last[|last| - 1]
    decreases |lines|
  {
    if |lines| > 1 {
      JoinLast(lines[1..], newline);
    }
  }

  /** Lines that survive are read back from their text, provided that an empty last line
      has its newline. */
  lemma {:induction false} LinesReadBack(lines: seq<string>, newline: string, trailing: bool)
    requires IsNewline(newline) && lines != [] && Survive(lines, newline, trailing)
    requires trailing || lines[|lines| - 1] != ""
    ensures SplitLines(JoinLines(lines, newline, trailing)) == lines
    ensures |lines| > 1 || trailing || newline == "\n" ==> NewlineOf(JoinLines(lines, newline, trailing)) == newline
    ensures EndsLine(JoinLines(lines, newline, trailing)) <==> trailing
  {
    LinesOfJoined(lines, newline, trailing);
    NewlineOfJoined(lines, newline, trailing);
    EndsLineOfJoined(lines, newline, trailing);
    forall i | 0 <= i < |lines|
      ensures Ended(WithNewlines(lines, newline, trailing)[i]) == lines[i]
    {
      SurviveEnds(lines, newline, trailing, i);
    }
    hide Ended, WithNewlines, JoinLines, Lines, Returning;
    assert newline == "\r\n" && (|lines| > 1 || trailing) ==> 0 < |lines| && (0 < |lines| - 1 || trailing);
  }

  // ----- The lines of any text

  /** Line `i` of a text: what it may hold. */
  lemma {:induction false} LineOfText(lines: seq<string>, i: nat)
    requires AreLines(lines) && i < |lines|
    ensures var text, line := Flatten(lines), Ended(lines[i]);
      && '\n' !in line
      && (Returning(line) ==> '\r' in text && (HasReturnNewline(text) || (i == |lines| - 1 && EndsLine(text))))
      && (i == |lines| - 1 && !EndsLine(text) ==> line != "" && !Returning(line))
      && (HasReturnNewline(lines[i]) ==> i < |lines| - 1 || EndsLine(text))
  {
    FlattenHasReturnNewline(lines);
    assert lines == lines[..i] + [lines[i]] + lines[i + 1..];
    FlattenSum(lines[..i] + [lines[i]], lines[i + 1..]);
    FlattenSum(lines[..i], [lines[i]]);
    assert [lines[i]][1..] == [];
    var line, text := lines[i], Flatten(lines);
    assert text == Flatten(lines[..i]) + line + Flatten(lines[i + 1..]);
    assert IsLine(line);
    assert '\r' in line ==> '\r' in text;
    EndedOfLine(line);
    hide AreLines, IsLine, HasReturnNewline, Ended, Returning;
    if i == |lines| - 1 {
      assert Flatten(lines[i + 1..]) == "";
      assert text[|text| - 1] == line[|line| - 1];
    } else {
      assert Terminated(line) by { TerminatedAt(lines, i); }
    }
  }

  lemma {:induction false} TerminatedAt(lines: seq<string>, i: nat)
    requires AreLines(lines) && i < |lines| - 1
    ensures Terminated(lines[i])
  {
  }

  lemma {:induction false} EndedOfLine(line: string)
    requires IsLine(line)
    ensures '\n' !in Ended(line) && (Returning(Ended(line)) ==> '\r' in line)
    ensures HasReturnNewline(line) ==> Terminated(line)
    ensures Terminated(line) && Returning(Ended(line)) ==> HasReturnNewline(line)
    ensures !Terminated(line) ==> Ended(line) == line
  {
    if Terminated(line) && |line| >= 2 && line[|line| - 2] == '\r' {
      assert line[|line| - 2] == '\r' && line[|line| - 1] == '\n';
    }
  }

  /** What the lines of a text may hold. */
  lemma {:induction false} SplitLinesAre(contents: string)
    ensures var lines := SplitLines(contents);
      && (lines == [] <==> contents == "")
      && (lines != [] ==> Unbroken(lines, EndsLine(contents)))
      && (forall i | 0 <= i < |lines| :: Returning(lines[i]) ==>
            '\r' in contents && (NewlineOf(contents) == "\r\n" || (i == |lines| - 1 && EndsLine(contents))))
      && (!EndsLine(contents) && lines != [] ==> !Returning(lines[|lines| - 1]))
      && (NewlineOf(contents) == "\r\n" ==> |lines| > 1 || EndsLine(contents))
  {
    var lines := Lines(contents);
    LinesOfText(contents);
    FlattenHasReturnNewline(lines);
    forall i | 0 <= i < |lines| {
      LineOfText(lines, i);
    }
    hide AreLines, HasReturnNewline, Ended, Returning, EndsLine, Flatten, Lines;
    if HasReturnNewline(contents) {
      var i :| 0 <= i < |lines| && HasReturnNewline(lines[i]);
    }
  }
}
