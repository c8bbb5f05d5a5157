/** Setting keys in one section of an INI text: the text as a whole. */
module IniText {
  import opened Text
  import opened Sectioned
  import opened TextLines
  import opened LineText
  import opened IniFile

  /** The lines that an update writes. */
  function Output(contents: string, section: string, updates: seq<Setting>): seq<string> {
    UpdatedLines(SplitLines(contents), section, updates)
  }

  function UpdatedText(contents: string, section: string, updates: seq<Setting>): string {
    JoinLines(Output(contents, section, updates), NewlineOf(contents), EndsLine(contents))
  }

  method UpdateIniSection(contents: string, section: string, updates: seq<Setting>) returns (output: string)
    ensures output == UpdatedText(contents, section, updates)
  {
    hide UpdatedLines, SplitLines, Join;
    var newline := NewlineOf(contents);
    var trailingNewline := EndsLine(contents);
    var lines := UpdateLines(SplitLines(contents), section, updates);
    output := Join(lines, newline);
    if trailingNewline {
      output := output + newline;
    } else {
      assert output + "" == output;
    }
  }

  // ----- What an update writes

  /** The lines are lines of before, rows, or belong to a new section; every row is
      there, and the last line is a row, a heading, or the last line of before. */
  lemma {:induction false} OutputIs(lines: seq<string>, section: string, updates: seq<Setting>)
    ensures var out := UpdatedLines(lines, section, updates);
      && |out| >= |lines| && out != []
      && (forall x | x in out ::
            x in lines || x in Rows(updates) || x == "" || (x == "[" + section + "]" && !HasSection(lines, section)))
      && (forall i | 0 <= i < |updates| :: Row(updates[i]) in out)
      && (!HasSection(lines, section) ==> |out| > |lines| && "[" + section + "]" in out)
      && (out[|out| - 1] == "" ==> lines != [] && lines[|lines| - 1] == "")
  {
    var r, out := SetIn(section, updates), UpdatedLines(lines, section, updates);
    RowsNotEmpty(updates);
    SectionIsTarget(lines, section, updates);
    hide HasSection, Row, UpdateFrom, Heading, Match, TargetsLine;
    if HasSection(lines, section) {
      UpdateWrites(r, lines, false, NothingSeen(|r.rows|));
      HasSectionNotEmpty(lines, section);
      forall i | 0 <= i < |updates|
        ensures Row(updates[i]) in out
      {
        RowAt(updates, i);
        RowIsWritten(r, lines, false, NothingSeen(|r.rows|), i);
      }
    } else {
      var rows, front := Rows(updates), BlankBefore(lines) + ["[" + section + "]"];
      assert out == lines + front + rows;
      assert front[|front| - 1] == "[" + section + "]";
      forall i | 0 <= i < |updates|
        ensures Row(updates[i]) in out
      {
        RowAt(updates, i);
      }
    }
  }

  lemma {:induction false} RowsNotEmpty(updates: seq<Setting>)
    ensures "" !in Rows(updates)
  {
  }

  lemma {:induction false} HasSectionNotEmpty(lines: seq<string>, section: string)
    ensures HasSection(lines, section) ==> lines != []
  {
  }

  /** A section whose name holds a newline is not found. */
  lemma {:induction false} BrokenNameNotFound(lines: seq<string>, section: string)
    requires '\n' in section && forall i | 0 <= i < |lines| :: '\n' !in lines[i]
    ensures !HasSection(lines, section)
  {
    forall i | 0 <= i < |lines|
      ensures !Starts(lines[i], section)
    {
      TrimIsTight(lines[i]);
      var t := Trim(lines[i]);
      hide Trim;
      assert |t| >= 2 ==> forall c | c in t[1..|t| - 1] :: c in t;
    }
    hide Starts;
  }

  // ----- Counting newlines

  function Breaks(s: string): nat {
    if s == "" then 0 else (if s[0] == '\n' then 1 else 0) + Breaks(s[1..])
  }

  lemma {:induction false} BreaksSum(a: string, b: string)
    ensures Breaks(a + b) == Breaks(a) + Breaks(b)
    decreases |a|
  {
    if a == "" {
      assert a + b == b;
    } else {
      assert (a + b)[1..] == a[1..] + b;
      BreaksSum(a[1..], b);
    }
  }

  lemma {:induction false} NoBreaks(s: string)
    ensures Breaks(s) == 0 <==> '\n' !in s
    decreases |s|
  {
    if s != "" {
      NoBreaks(s[1..]);
    }
  }

  lemma {:induction false} NewlineBreaks()
    ensures Breaks("\n") == 1 && Breaks("\r\n") == 1 && Breaks("") == 0
  {
    assert "\r\n"[1..] == "\n" && "\n"[1..] == "";
  }

  /** A joined text has a newline between any two lines, and those that the lines hold. */
  lemma {:induction false} JoinBreaks(lines: seq<string>, newline: string)
    requires IsNewline(newline) && lines != []
    ensures Breaks(Join(lines, newline)) >= |lines| - 1
    ensures (exists i :: 0 <= i < |lines| && '\n' in lines[i]) ==> Breaks(Join(lines, newline)) >= |lines|
    decreases |lines|
  {
    NoBreaks(lines[0]);
    if |lines| > 1 {
      JoinBreaks(lines[1..], newline);
      NewlineBreaks();
      BreaksSum(lines[0] + newline, Join(lines[1..], newline));
      BreaksSum(lines[0], newline);
      hide Join, Breaks;
      if i :| 0 <= i < |lines| && '\n' in lines[i] {
        assert i > 0 ==> '\n' in lines[1..][i - 1];
      }
    }
  }

  /** The lines of a text are as many as its newlines, and one more if it ends without. */
  lemma {:induction false} FlattenBreaks(lines: seq<string>)
    requires AreLines(lines) && lines != []
    ensures Breaks(Flatten(lines)) == if Terminated(lines[|lines| - 1]) then |lines| else |lines| - 1
    decreases |lines|
  {
    LineBreaks(lines[0]);
    BreaksSum(lines[0], Flatten(lines[1..]));
    if |lines| == 1 {
      assert Flatten(lines[1..]) == "";
    } else {
      FlattenBreaks(lines[1..]);
    }
  }

  lemma {:induction false} LineBreaks(line: string)
    requires IsLine(line)
    ensures Breaks(line) == if Terminated(line) then 1 else 0
  {
    var n := |line| - 1;
    assert line == line[..n] + [line[n]];
    BreaksSum(line[..n], [line[n]]);
    NoBreaks(line[..n]);
    assert [line[n]][1..] == "";
  }

  lemma {:induction false} FlattenLast(lines: seq<string>)
    requires AreLines(lines) && lines != []
    ensures Flatten(lines) != "" && lines[|lines| - 1] != ""
    ensures Flatten(lines)[|Flatten(lines)| - 1] == lines[|lines| - 1][|lines[|lines| - 1]| - 1]
    decreases |lines|
  {
    if |lines| > 1 {
      FlattenLast(lines[1..]);
    } else {
      assert Flatten(lines[1..]) == "";
    }
  }

  lemma {:induction false} SplitBreaks(text: string)
    requires text != ""
    ensures |SplitLines(text)| == if text[|text| - 1] == '\n' then Breaks(text) else Breaks(text) + 1
  {
    LinesOfText(text);
    hide AreLines, Flatten, Breaks;
    FlattenBreaks(Lines(text));
    FlattenLast(Lines(text));
  }

  /** An update that writes a newline inside a line makes the text longer. */
  lemma {:induction false} BrokenLineGrows(text: string, section: string, updates: seq<Setting>, i: nat)
    requires text != "" && i < |Output(text, section, updates)| && '\n' in Output(text, section, updates)[i]
    ensures Breaks(UpdatedText(text, section, updates)) > Breaks(text)
  {
    var out, newline := Output(text, section, updates), NewlineOf(text);
    SplitBreaks(text);
    OutputIs(SplitLines(text), section, updates);
    JoinBreaks(out, newline);
    NewlineBreaks();
    BreaksSum(Join(out, newline), if EndsLine(text) then newline else "");
  }

  /** With a newline in a row every update of a text makes it longer. */
  lemma {:induction false} BrokenRowGrows(text: string, section: string, updates: seq<Setting>, i: nat)
    requires text != "" && i < |updates| && '\n' in Row(updates[i])
    ensures Breaks(UpdatedText(text, section, updates)) > Breaks(text)
  {
    hide HasSection, UpdatedLines, SplitLines, Row, Rows, UpdatedText, Breaks;
    var out := Output(text, section, updates);
    OutputIs(SplitLines(text), section, updates);
    var k: nat :| k < |out| && out[k] == Row(updates[i]);
    BrokenLineGrows(text, section, updates, k);
  }

  // ----- Texts that an update does not change

  /** A text that an update does not change consists of the lines that are written. */
  lemma {:induction false} StableReads(text: string, section: string, updates: seq<Setting>)
    requires text != "" && UpdatedText(text, section, updates) == text
    ensures SplitLines(text) == Output(text, section, updates)
    ensures Unbroken(SplitLines(text), EndsLine(text))
  {
    hide HasSection, UpdatedLines, SplitLines, NewlineOf, EndsLine, JoinLines, Returning, Rows, Row, Breaks;
    var out, newline, trailing := Output(text, section, updates), NewlineOf(text), EndsLine(text);
    SplitLinesAre(text);
    OutputIs(SplitLines(text), section, updates);
    if i: nat :| i < |out| && '\n' in out[i] {
      BrokenLineGrows(text, section, updates, i);
    }
    NewlineOfJoined(out, newline, trailing);
    EndsLineOfJoined(out, newline, trailing);
    LinesReadBack(out, newline, trailing);
  }

  /** The section name and the rows hold no newline. */
  ghost predicate OneLineEach(section: string, updates: seq<Setting>) {
    '\n' !in section && forall i | 0 <= i < |updates| :: '\n' !in Row(updates[i])
  }

  lemma {:induction false} StableIsOneLineEach(text: string, section: string, updates: seq<Setting>)
    requires text != "" && UpdatedText(text, section, updates) == text
    ensures OneLineEach(section, updates)
  {
    var out := Output(text, section, updates);
    StableReads(text, section, updates);
    OutputIs(SplitLines(text), section, updates);
    if '\n' in section {
      BrokenNameNotFound(SplitLines(text), section);
      NewlineInName(section);
    }
    hide HasSection, UpdatedLines, SplitLines, EndsLine, Row, Rows, UpdatedText;
    forall i | 0 <= i < |updates|
      ensures '\n' !in Row(updates[i])
    {
      var k :| 0 <= k < |out| && out[k] == Row(updates[i]);
    }
  }

  lemma {:induction false} NewlineInName(section: string)
    ensures '\n' in "[" + section + "]" <==> '\n' in section
  {
  }

  /** What is written has no newline inside a line, if no row and no name has one. */
  lemma {:induction false} OutputUnbroken(contents: string, section: string, updates: seq<Setting>)
    requires OneLineEach(section, updates)
    ensures Unbroken(Output(contents, section, updates), EndsLine(contents))
  {
    hide HasSection, UpdatedLines, SplitLines, EndsLine, NewlineOf, Row, Rows, Returning;
    var lines, out := SplitLines(contents), Output(contents, section, updates);
    SplitLinesAre(contents);
    OutputIs(lines, section, updates);
    RowsAreOneLine(section, updates);
    forall i | 0 <= i < |out|
      ensures '\n' !in out[i]
    {
      var x := out[i];
      assert x in out;
      if x in lines {
        var k :| 0 <= k < |lines| && lines[k] == x;
      }
    }
  }

  lemma {:induction false} RowsAreOneLine(section: string, updates: seq<Setting>)
    requires OneLineEach(section, updates)
    ensures '\n' !in "[" + section + "]" && forall x | x in Rows(updates) :: '\n' !in x
  {
    forall x | x in Rows(updates)
      ensures '\n' !in x
    {
      var k :| 0 <= k < |updates| && Rows(updates)[k] == x;
      RowAt(updates, k);
      hide Row;
    }
  }

  lemma {:induction false} OutputNotEmpty(contents: string, section: string, updates: seq<Setting>)
    ensures UpdatedText(contents, section, updates) != ""
  {
    var out := Output(contents, section, updates);
    SplitLinesAre(contents);
    OutputIs(SplitLines(contents), section, updates);
    hide UpdatedLines, SplitLines, HasSection;
    if !EndsLine(contents) {
      JoinLast(out, NewlineOf(contents));
    }
  }

  lemma {:induction false} StableIsSettable(text: string, section: string, updates: seq<Setting>)
    requires text != "" && UpdatedText(text, section, updates) == text
    ensures Settable(updates)
  {
    StableReads(text, section, updates);
    hide UpdatedLines, SplitLines, NewlineOf, EndsLine, JoinLines, Settable;
    if !Settable(updates) {
      UnsettableGrows(SplitLines(text), section, updates);
    }
  }

  // ----- Carriage returns

  /** The same text, joined from two lists of lines. */
  lemma {:induction false} JoinedAlike(a: seq<string>, b: seq<string>, newline: string, newline': string,
                                       trailing: bool, trailing': bool, i: nat)
    requires IsNewline(newline) && IsNewline(newline') && Unbroken(a, trailing) && Unbroken(b, trailing')
    requires JoinLines(a, newline, trailing) == JoinLines(b, newline', trailing') && i < |a|
    ensures |a| == |b| && trailing == trailing'
    ensures i < |a| - 1 || trailing ==> a[i] + newline == b[i] + newline'
    ensures i == |a| - 1 && !trailing ==> a[i] == b[i]
  {
    LinesOfJoined(a, newline, trailing);
    LinesOfJoined(b, newline', trailing');
    hide JoinLines, Lines;
    assert WithNewlines(a, newline, trailing)[i] == WithNewlines(b, newline', trailing')[i];
    var n := |a| - 1;
    assert WithNewlines(a, newline, trailing)[n] == WithNewlines(b, newline', trailing')[n];
    assert trailing ==> (a[n] + newline)[|a[n]| + |newline| - 1] == '\n';
    assert trailing' ==> (b[n] + newline')[|b[n]| + |newline'| - 1] == '\n';
  }

  lemma {:induction false} UnseenAll(rows: seq<string>)
    ensures Unseen(rows, NothingSeen(|rows|)) == rows
    decreases |rows|
  {
    if rows != [] {
      UnseenAll(rows[1..]);
      assert NothingSeen(|rows|)[1..] == NothingSeen(|rows[1..]|);
    }
  }

  /** How what is written begins. */
  lemma {:induction false} OutputBegins(lines: seq<string>, section: string, updates: seq<Setting>)
    ensures var out := UpdatedLines(lines, section, updates);
      && (lines == [] ==> out[0] == "[" + section + "]")
      && (lines != [] ==> out[0] == lines[0])
      && (|lines| == 1 && HasSection(lines, section) ==> Starts(lines[0], section) && out == lines + Rows(updates))
      && (|lines| == 1 && !HasSection(lines, section) && lines[0] != "" ==> |out| > 2 && out[1] == "")
  {
    hide Starts, Match, Rows, Unseen;
    var r := SetIn(section, updates);
    assert lines == [] ==> !HasSection(lines, section);
    if HasSection(lines, section) && |lines| == 1 {
      assert lines[1..] == [] && lines == [lines[0]];
      UnseenAll(r.rows);
      assert r.target(lines[0]) && r.heading(lines[0]) by { StartsIsHeading(lines[0], section); }
      assert UpdateFrom(r, lines[1..], true, NothingSeen(|r.rows|)) == r.rows;
      assert Update(r, lines) == [] + [lines[0]] + r.rows;
    }
  }

  lemma {:induction false} StartsIsHeading(line: string, section: string)
    ensures Starts(line, section) ==> Heading(line).Some?
  {
  }

  lemma {:induction false} SecondIsSet<T>(r: Rules<T>, lines: seq<T>)
    requires |lines| > 1 && r.rows != [] && r.heading(lines[0]) && r.target(lines[0])
    requires !r.heading(lines[1]) && r.find(lines[1]) == 0
    ensures |Update(r, lines)| > 1 && Update(r, lines)[1] == r.rows[0]
  {
    hide NothingSeen, Marked, Unseen;
    var rest := UpdateFrom(r, lines[1..], true, NothingSeen(|r.rows|));
    assert lines[1..][0] == lines[1];
    assert rest[0] == r.rows[0];
    assert Update(r, lines) == [] + [lines[0]] + rest;
  }

  lemma {:induction false} ReadsLikeRow(line: string, updates: seq<Setting>)
    requires updates != [] && Settable(updates) && Trim(line) == Trim(Row(updates[0]))
    ensures Heading(line).None? && Match(line, updates) == 0
  {
    assert !Unmatchable(updates, 0);
    RowReads(updates[0]);
    assert Heading(line) == Heading(Row(updates[0])) && Entry(line) == Entry(Row(updates[0]));
    hide Trim, Row, Heading, Entry, Unmatchable;
    MatchIs(line, updates, 0);
  }

  /** After a heading of the section a line that reads like the first row is set to it. */
  lemma {:induction false} RowIsSet(lines: seq<string>, section: string, updates: seq<Setting>)
    requires |lines| > 1 && Starts(lines[0], section) && updates != [] && Settable(updates)
    requires Trim(lines[1]) == Trim(Row(updates[0]))
    ensures |UpdatedLines(lines, section, updates)| > 1 && UpdatedLines(lines, section, updates)[1] == Row(updates[0])
  {
    ReadsLikeRow(lines[1], updates);
    RowAt(updates, 0);
    StartsIsHeading(lines[0], section);
    assert HasSection(lines, section);
    hide Row, Heading, Match, Starts, HasSection, Rows, Update, Trim, Settable;
    SecondIsSet(SetIn(section, updates), lines);
  }

  lemma {:induction false} TrimReturn(line: string, other: string)
    requires line + "\n" == other + "\r\n"
    ensures line == other + "\r" && Trim(line) == Trim(other) && Returning(line)
  {
    assert (line + "\n")[..|line|] == line && (other + "\r\n")[..|other| + 1] == other + "\r";
    assert line[|line| - 1] == '\r' && line[..|line| - 1] == other;
    assert TrimEnd(line) == TrimEnd(other);
    TrimAfterTrimEnd(line);
    TrimAfterTrimEnd(other);
  }

  /** If a second update changes nothing, no carriage return became part of a newline. */
  lemma {:induction false} StableSurvives(contents: string, section: string, updates: seq<Setting>)
    requires var once := UpdatedText(contents, section, updates); UpdatedText(once, section, updates) == once
    requires Unbroken(Output(contents, section, updates), EndsLine(contents)) && Settable(updates)
    requires |Output(contents, section, updates)| > 1
    ensures Survive(Output(contents, section, updates), NewlineOf(contents), EndsLine(contents))
  {
    hide HasSection, UpdatedLines, SplitLines, EndsLine, NewlineOf, Returning, JoinLines, Settable;
    var once, out := UpdatedText(contents, section, updates), Output(contents, section, updates);
    var newline, trailing := NewlineOf(contents), EndsLine(contents);
    OutputNotEmpty(contents, section, updates);
    StableReads(once, section, updates);
    EndsLineOfJoined(out, newline, trailing);
    NewlineOfJoined(out, newline, trailing);
    var again := SplitLines(once);
    JoinedAlike(out, again, newline, NewlineOf(once), trailing, EndsLine(once), 0);
    if i :| 0 <= i < |out| && (i < |out| - 1 || trailing) && Returning(out[i]) && newline == "\n" {
      assert NewlineOf(once) == "\r\n";
      JoinedAlike(out, again, newline, NewlineOf(once), trailing, EndsLine(once), 1);
      ReturnsGrow(contents, section, updates, again);
    }
  }

  lemma {:induction false} HeadingStays(section: string)
    ensures !Returning("[" + section + "]") && !Returning("")
  {
  }

  /** The first lines cannot be read back as they were written. */
  lemma {:induction false} ReturnsGrow(contents: string, section: string, updates: seq<Setting>, again: seq<string>)
    requires NewlineOf(contents) == "\n" && Settable(updates) && |Output(contents, section, updates)| == |again| > 1
    requires Output(contents, section, updates)[0] + "\n" == again[0] + "\r\n"
    requires |again| > 2 || EndsLine(contents) ==> Output(contents, section, updates)[1] + "\n" == again[1] + "\r\n"
    ensures UpdatedLines(again, section, updates) != again
  {
    var lines, out := SplitLines(contents), Output(contents, section, updates);
    SplitLinesAre(contents);
    OutputBegins(lines, section, updates);
    TrimReturn(out[0], again[0]);
    HeadingStays(section);
    hide SplitLines, EndsLine, NewlineOf, UpdatedLines, Trim, Row, Returning;
    assert lines != [];
    assert |lines| == 1 && EndsLine(contents);
    TrimReturn(out[1], again[1]);
    assert out[1] != "";
    assert HasSection(lines, section) && Starts(again[0], section);
    RowAt(updates, 0);
    hide Rows, HasSection, Starts;
    RowIsSet(again, section, updates);
  }

  // ----- Main results

  /** A single line, a heading that ends in a carriage return: its newline absorbs it. */
  lemma {:induction false} OneLineStays(contents: string, section: string, updates: seq<Setting>)
    requires Settable(updates) && |Output(contents, section, updates)| == 1
    requires Unbroken(Output(contents, section, updates), EndsLine(contents))
    requires !Survive(Output(contents, section, updates), NewlineOf(contents), EndsLine(contents))
    ensures var once := UpdatedText(contents, section, updates); UpdatedText(once, section, updates) == once
  {
    hide SplitLines, EndsLine, NewlineOf, UpdatedLines, Starts, HasSection, Rows, JoinLines, Returning;
    var lines, out := SplitLines(contents), Output(contents, section, updates);
    var line, once := out[0], UpdatedText(contents, section, updates);
    SplitLinesAre(contents);
    OutputBegins(lines, section, updates);
    OutputIs(lines, section, updates);
    HeadingStays(section);
    assert lines == out && EndsLine(contents) && NewlineOf(contents) == "\n" && Returning(line);
    ReturnAbsorbed(line);
    var front := line[..|line| - 1];
    assert out == [line];
    assert Survive([front], "\r\n", true);
    LinesReadBack([front], "\r\n", true);
    StartsAlike(front, line, section);
    OutputBegins([front], section, updates);
    assert |Rows(updates)| == 0;
    assert [front] + Rows(updates) == [front];
  }

  lemma {:induction false} ReturnAbsorbed(line: string)
    requires Returning(line)
    ensures JoinLines([line], "\n", true) == JoinLines([line[..|line| - 1]], "\r\n", true)
    ensures Trim(line[..|line| - 1]) == Trim(line)
  {
    var front := line[..|line| - 1];
    assert line == front + "\r";
    assert TrimEnd(line) == TrimEnd(front);
    TrimAfterTrimEnd(line);
    TrimAfterTrimEnd(front);
    assert front + "\r" + "\n" == front + "\r\n";
  }

  lemma {:induction false} StartsAlike(a: string, b: string, section: string)
    requires Trim(a) == Trim(b)
    ensures Starts(a, section) == Starts(b, section)
    ensures Starts(a, section) ==> HasSection([a], section)
  {
    assert [a][0] == a;
  }

  lemma {:induction false} SurvivorsStay(contents: string, section: string, updates: seq<Setting>)
    requires Settable(updates)
    requires Survive(Output(contents, section, updates), NewlineOf(contents), EndsLine(contents))
    ensures var once := UpdatedText(contents, section, updates); UpdatedText(once, section, updates) == once
  {
    hide SplitLines, EndsLine, NewlineOf, UpdatedLines, HasSection, JoinLines, Returning, Settable, Rows, Row, Survive;
    var out := Output(contents, section, updates);
    SettableIsIdempotent(SplitLines(contents), section, updates);
    SplitLinesAre(contents);
    OutputIs(SplitLines(contents), section, updates);
    LinesReadBack(out, NewlineOf(contents), EndsLine(contents));
  }

  /** For every text, section name and updates: a second update changes nothing if and only
      if every update can be set and the lines that are written survive being written, or
      the only one is a heading. */
  lemma {:induction false} UpdatingTextIsIdempotent(contents: string, section: string, updates: seq<Setting>)
    ensures var once, out := UpdatedText(contents, section, updates), Output(contents, section, updates);
      UpdatedText(once, section, updates) == once <==>
        Settable(updates) &&
        (Survive(out, NewlineOf(contents), EndsLine(contents)) || (|out| == 1 && '\n' !in out[0]))
  {
    hide SplitLines, EndsLine, NewlineOf, UpdatedLines, HasSection, JoinLines, Returning, Settable, Row, Unbroken;
    hide Survive, UpdatedText;
    var once, out := UpdatedText(contents, section, updates), Output(contents, section, updates);
    var survive := Survive(out, NewlineOf(contents), EndsLine(contents));
    if UpdatedText(once, section, updates) == once {
      OutputNotEmpty(contents, section, updates);
      StableIsSettable(once, section, updates);
      StableIsOneLineEach(once, section, updates);
      OutputUnbroken(contents, section, updates);
      if |out| > 1 {
        StableSurvives(contents, section, updates);
      } else {
        FirstUnbroken(out, EndsLine(contents));
      }
    } else if Settable(updates) && survive {
      SurvivorsStay(contents, section, updates);
    } else if Settable(updates) && |out| == 1 && '\n' !in out[0] {
      OneIsUnbroken(contents, section, updates);
      OneLineStays(contents, section, updates);
    }
  }

  lemma {:induction false} FirstUnbroken(lines: seq<string>, trailing: bool)
    requires Unbroken(lines, trailing)
    ensures lines != [] && '\n' !in lines[0]
  {
  }

  lemma {:induction false} OneIsUnbroken(contents: string, section: string, updates: seq<Setting>)
    requires |Output(contents, section, updates)| == 1 && '\n' !in Output(contents, section, updates)[0]
    ensures Unbroken(Output(contents, section, updates), EndsLine(contents))
  {
    hide SplitLines, EndsLine, NewlineOf, UpdatedLines, HasSection, Returning, Row;
    SplitLinesAre(contents);
    OutputIs(SplitLines(contents), section, updates);
  }

  /** What an update writes to a text is read back from the text. */
  lemma {:induction false} TextReadsBack(contents: string, section: string, updates: seq<Setting>)
    requires Survive(Output(contents, section, updates), NewlineOf(contents), EndsLine(contents))
    ensures SplitLines(UpdatedText(contents, section, updates)) == Output(contents, section, updates)
  {
    hide SplitLines, EndsLine, NewlineOf, UpdatedLines, HasSection, JoinLines, Returning, Rows, Row, Survive;
    SplitLinesAre(contents);
    OutputIs(SplitLines(contents), section, updates);
    LinesReadBack(Output(contents, section, updates), NewlineOf(contents), EndsLine(contents));
  }

  // ----- The condition on the updates alone

  /** Carriage returns stand only inside lines and before newlines. */
  ghost predicate ReturnsInside(contents: string) {
    forall i | 0 <= i < |SplitLines(contents)| :: !Returning(SplitLines(contents)[i])
  }

  /** Every update can be set, and neither a row nor the name holds a newline, and no row
      ends in a carriage return. */
  ghost predicate Writable(section: string, updates: seq<Setting>) {
    && Settable(updates) && OneLineEach(section, updates)
    && forall i | 0 <= i < |updates| :: !Returning(Row(updates[i]))
  }

  lemma {:induction false} WritableSurvives(contents: string, section: string, updates: seq<Setting>)
    requires ReturnsInside(contents) && Writable(section, updates)
    ensures Survive(Output(contents, section, updates), NewlineOf(contents), EndsLine(contents))
  {
    hide SplitLines, EndsLine, NewlineOf, UpdatedLines, HasSection, Returning, Rows, Row, Settable;
    var lines, out := SplitLines(contents), Output(contents, section, updates);
    OutputUnbroken(contents, section, updates);
    OutputIs(lines, section, updates);
    HeadingStays(section);
    forall i | 0 <= i < |out|
      ensures !Returning(out[i])
    {
      var x := out[i];
      assert x in out;
      if x in lines {
        var k :| 0 <= k < |lines| && lines[k] == x;
      } else if x in Rows(updates) {
        var k :| 0 <= k < |updates| && Rows(updates)[k] == x;
        RowAt(updates, k);
      }
    }
  }

  /** In a line of its own no row ends in a carriage return, if a second update of a text
      with plain newlines changes nothing. */
  lemma {:induction false} StableRows(contents: string, section: string, updates: seq<Setting>, i: nat)
    requires NewlineOf(contents) == "\n" && i < |updates|
    requires var once := UpdatedText(contents, section, updates); UpdatedText(once, section, updates) == once
    ensures !Returning(Row(updates[i]))
  {
    hide SplitLines, EndsLine, NewlineOf, UpdatedLines, HasSection, Starts, Returning, Rows, Row, Settable, UpdatedText;
    var lines, out := SplitLines(contents), Output(contents, section, updates);
    UpdatingTextIsIdempotent(contents, section, updates);
    OutputIs(lines, section, updates);
    OutputBegins(lines, section, updates);
    HeadingStays(section);
    RowAt(updates, i);
    var k :| 0 <= k < |out| && out[k] == Row(updates[i]);
    if |out| == 1 && lines != [] {
      assert |lines + Rows(updates)| == |lines| + |updates|;
    }
  }

  /** For texts in which carriage returns stand only inside lines and before newlines, the
      updates decide: a second update changes nothing if they are writable and, for texts
      with plain newlines, only if they are. */
  lemma {:induction false} UpdatesDecide(contents: string, section: string, updates: seq<Setting>)
    requires ReturnsInside(contents)
    ensures var once := UpdatedText(contents, section, updates);
      && (Writable(section, updates) ==> UpdatedText(once, section, updates) == once)
      && (NewlineOf(contents) == "\n" && UpdatedText(once, section, updates) == once ==> Writable(section, updates))
  {
    hide SplitLines, NewlineOf, EndsLine, UpdatedLines, Returning, Row, Settable, OneLineEach, UpdatedText, Survive;
    var once := UpdatedText(contents, section, updates);
    UpdatingTextIsIdempotent(contents, section, updates);
    if Writable(section, updates) {
      WritableSurvives(contents, section, updates);
    }
    if NewlineOf(contents) == "\n" && UpdatedText(once, section, updates) == once {
      OutputNotEmpty(contents, section, updates);
      StableIsOneLineEach(once, section, updates);
      forall i | 0 <= i < |updates|
        ensures !Returning(Row(updates[i]))
      {
        StableRows(contents, section, updates, i);
      }
    }
  }

  // ----- The preference that the program writes

  const KDE_SECTION := "General"

  function KdeUpdates(executable: string): seq<Setting> {
    [Setting("TerminalApplication", executable), Setting("TerminalService", "Zetta.desktop")]
  }

  lemma {:induction false} StartsPlain(s: string)
    requires s != "" && !IsWhitespace(s[0]) && s[0] != '['
    ensures Heading(s).None?
  {
    TrimEndIs(s);
    hide TrimEnd, IsWhitespace;
    assert TrimStart(s) == s;
  }

  lemma {:induction false} KdeUpdatesAreSettable(executable: string)
    ensures Settable(KdeUpdates(executable))
  {
    var updates := KdeUpdates(executable);
    forall i | 0 <= i < |updates|
      ensures !Unmatchable(updates, i) && Heading(Row(updates[i])).None?
    {
      var key := updates[i].key;
      assert key[0] == 'T' && !IsWhitespace(key[0]) && !IsWhitespace(key[|key| - 1]) && '=' !in key;
      TightIsTrimmed(key);
      StartsPlain(Row(updates[i]));
      hide Trim, Heading;
    }
  }

  /** Writing the preference again changes nothing if and only if the path of the
      executable holds no newline and does not end in a carriage return. */
  lemma {:induction false} KdePreferenceIsIdempotent(contents: string, executable: string)
    requires '\r' !in contents
    ensures var once := UpdatedText(contents, KDE_SECTION, KdeUpdates(executable));
      UpdatedText(once, KDE_SECTION, KdeUpdates(executable)) == once <==>
        '\n' !in executable && !Returning(executable)
  {
    SplitLinesAre(contents);
    assert NewlineOf(contents) == "\n";
    KdeUpdatesAreSettable(executable);
    KdeRows(executable);
    hide Settable, Row, NewlineOf, SplitLines, UpdatedText, Returning;
    UpdatesDecide(contents, KDE_SECTION, KdeUpdates(executable));
    var updates := KdeUpdates(executable);
    assert |updates| == 2;
  }

  lemma {:induction false} RowHolds(u: Setting)
    ensures '\n' in Row(u) <==> '\n' in u.key || '\n' in u.value
    ensures Returning(Row(u)) <==> Returning(u.value)
  {
    var row := Row(u);
    assert row == u.key + "=" + u.value;
    if u.value == "" {
      assert row[|row| - 1] == '=';
    } else {
      assert row[|row| - 1] == u.value[|u.value| - 1];
    }
  }

  lemma {:induction false} KdeRows(executable: string)
    ensures '\n' !in KDE_SECTION
    ensures var updates := KdeUpdates(executable);
      && ('\n' in Row(updates[0]) <==> '\n' in executable) && '\n' !in Row(updates[1])
      && (Returning(Row(updates[0])) <==> Returning(executable)) && !Returning(Row(updates[1]))
  {
    var updates := KdeUpdates(executable);
    RowHolds(updates[0]);
    RowHolds(updates[1]);
    hide Row;
    assert '\n' !in updates[0].key && '\n' !in updates[1].key && '\n' !in updates[1].value;
  }

  /** A path with a line break, which the next update reads as two lines. */
  lemma {:induction false} BrokenPathGrows(text: string)
    requires text != ""
    ensures Breaks(UpdatedText(text, KDE_SECTION, KdeUpdates("/opt/a\nb"))) > Breaks(text)
  {
    var path := "/opt/a\nb";
    assert path[6] == '\n';
    KdeRows(path);
    BrokenRowGrows(text, KDE_SECTION, KdeUpdates(path), 0);
  }
}
