/** The list of preferred terminals: Zetta is put first. */
module XdgTerminals {
  import opened Text
  import opened TextLines
  import opened LineText
  import opened IniFile

  const ZETTA := "Zetta.desktop"

  /** The entry that is named on a line, after its mark and without its options. */
  function EntryName(line: string): string {
    var parts := SplitOnce(line, ':');
    Trim(if parts.None? then line else parts.value.0)
  }

  function IsZettaEntry(line: string): bool {
    var t := Trim(line);
    if t == "" || t[0] == '#' || t[0] == '/' then false
    else EntryName(TrimStart(if t[0] == '+' || t[0] == '-' then t[1..] else t)) == ZETTA
  }

  /** The entry that a line prefers, if it prefers one. */
  function Preferred(line: string): Option<string> {
    var t := Trim(line);
    if t == "" || t[0] == '#' || t[0] == '/' || t[0] == '-' then None
    else
      var entry := EntryName(TrimStart(if t[0] == '+' then t[1..] else t));
      if entry == "" then None else Some(entry)
  }

  /** The first entry that is preferred. */
  function FirstEntry(lines: seq<string>): Option<string> {
    if lines == [] then None
    else if Preferred(lines[0]).Some? then Preferred(lines[0])
    else FirstEntry(lines[1..])
  }

  function Others(lines: seq<string>): (others: seq<string>)
    ensures forall line | line in others :: line in lines && !IsZettaEntry(line)
  {
    if lines == [] then []
    else (if IsZettaEntry(lines[0]) then [] else [lines[0]]) + Others(lines[1..])
  }

  function UpdatedList(lines: seq<string>): seq<string> {
    [ZETTA] + Others(lines)
  }

  function UpdatedText(contents: string): string {
    JoinLines(UpdatedList(SplitLines(contents)), NewlineOf(contents), EndsLine(contents))
  }

  /** Neither holds a newline nor ends in a carriage return. */
  predicate Clean(line: string) {
    '\n' !in line && !Returning(line)
  }

  lemma {:induction false} ZettaIsZetta()
    ensures Trim(ZETTA) == ZETTA && IsZettaEntry(ZETTA) && Preferred(ZETTA) == Some(ZETTA)
    ensures Clean(ZETTA) && ZETTA != ""
  {
    assert ZETTA[0] == 'Z' && ZETTA[|ZETTA| - 1] == 'p' && |ZETTA| == 13;
    assert Tight(ZETTA) && Clean(ZETTA) && ':' !in ZETTA;
    TightIsTrimmed(ZETTA);
    assert TrimStart(ZETTA) == ZETTA;
    hide ZETTA, Trim, TrimStart, Clean;
  }

  lemma {:induction false} OthersStay(lines: seq<string>)
    requires forall line | line in lines :: !IsZettaEntry(line)
    ensures Others(lines) == lines
    decreases |lines|
  {
    hide IsZettaEntry;
    if lines != [] {
      assert lines[0] in lines && lines == [lines[0]] + lines[1..];
      OthersStay(lines[1..]);
    }
  }

  /** After an update Zetta is preferred, it is listed once, and everything else is
      listed as before. */
  lemma {:induction false} ZettaIsPreferred(lines: seq<string>)
    ensures var out := UpdatedList(lines);
      && FirstEntry(out) == Some(ZETTA)
      && IsZettaEntry(out[0]) && (forall i | 1 <= i < |out| :: !IsZettaEntry(out[i]))
      && Others(out) == Others(lines)
  {
    ZettaIsZetta();
    hide ZETTA, IsZettaEntry, Preferred;
    var out := UpdatedList(lines);
    OthersStay(Others(lines));
    assert out[1..] == Others(lines);
    assert forall i | 1 <= i < |out| :: out[i] in Others(lines);
    assert [] + Others(out[1..]) == Others(out[1..]);
  }

  lemma {:induction false} UpdatingTwice(lines: seq<string>)
    ensures UpdatedList(UpdatedList(lines)) == UpdatedList(lines)
  {
    hide IsZettaEntry, ZETTA;
    ZettaIsPreferred(lines);
  }

  /** A list whose last line is empty and has no newline reads back without that line. */
  lemma {:induction false} EmptyLastLine(lines: seq<string>)
    requires |lines| > 1 && lines[|lines| - 1] == ""
    ensures JoinLines(lines, "\n", false) == JoinLines(lines[..|lines| - 1], "\n", true)
    decreases |lines|
  {
    if |lines| > 2 {
      EmptyLastLine(lines[1..]);
      assert lines[..|lines| - 1][1..] == lines[1..][..|lines| - 2];
      hide Join;
      assert JoinLines(lines, "\n", false) == lines[0] + "\n" + JoinLines(lines[1..], "\n", false)
        by { JoinFirst(lines, false); }
      assert JoinLines(lines[..|lines| - 1], "\n", true) ==
        lines[0] + "\n" + JoinLines(lines[1..][..|lines| - 2], "\n", true)
        by { JoinFirst(lines[..|lines| - 1], true); }
    } else {
      assert lines == [lines[0], ""] && lines[1..] == [""] && lines[..1] == [lines[0]];
      JoinOne("");
      JoinOne(lines[0]);
      assert Join(lines, "\n") == lines[0] + "\n" + Join([""], "\n");
    }
  }

  lemma {:induction false} JoinOne(line: string)
    ensures Join([line], "\n") == line
  {
  }

  lemma {:induction false} JoinFirst(lines: seq<string>, trailing: bool)
    requires |lines| > 1
    ensures JoinLines(lines, "\n", trailing) == lines[0] + "\n" + JoinLines(lines[1..], "\n", trailing)
  {
  }

  /** The lines of the updated text: those written, but for an empty last line without
      a newline. */
  function ReadList(contents: string): seq<string> {
    var out := UpdatedList(SplitLines(contents));
    if EndsLine(contents) || out[|out| - 1] != "" then out else out[..|out| - 1]
  }

  lemma {:induction false} CleanSurvive(lines: seq<string>, trailing: bool)
    requires forall line | line in lines :: Clean(line)
    ensures Survive(lines, "\n", trailing)
  {
    assert forall i | 0 <= i < |lines| :: Clean(lines[i]);
  }

  /** The lines that are written are clean. */
  lemma {:induction false} UpdatedIsClean(contents: string)
    requires '\r' !in contents
    ensures forall line | line in UpdatedList(SplitLines(contents)) :: Clean(line)
    ensures NewlineOf(contents) == "\n"
  {
    var lines := SplitLines(contents);
    SplitLinesAre(contents);
    ZettaIsZetta();
    hide ZETTA, SplitLines, IsZettaEntry, EndsLine, Clean;
    forall line | line in lines
      ensures Clean(line)
    {
      var i :| 0 <= i < |lines| && lines[i] == line;
      CleanLine(line);
    }
  }

  lemma {:induction false} CleanLine(line: string)
    requires '\n' !in line && !Returning(line)
    ensures Clean(line)
  {
  }

  lemma {:induction false} UpdatedTextReads(contents: string)
    requires '\r' !in contents
    ensures SplitLines(UpdatedText(contents)) == ReadList(contents)
    ensures UpdatedList(ReadList(contents)) == ReadList(contents)
    ensures UpdatedText(UpdatedText(contents)) == UpdatedText(contents)
  {
    hide ZETTA, JoinLines, SplitLines, IsZettaEntry, NewlineOf, EndsLine, Clean, Survive;
    var lines, trailing := SplitLines(contents), EndsLine(contents);
    var out := UpdatedList(lines);
    UpdatedIsClean(contents);
    UpdatingTwice(lines);
    CleanSurvive(out, trailing);
    if trailing || out[|out| - 1] != "" {
      LinesReadBack(out, "\n", trailing);
    } else {
      LastEmptyAgain(lines);
      var front := out[..|out| - 1];
      hide UpdatedList;
      EmptyLastLine(out);
      assert forall line | line in front :: line in out;
      CleanSurvive(front, true);
      LinesReadBack(front, "\n", true);
    }
  }

  /** On texts without carriage returns the update is idempotent. */
  lemma {:induction false} UpdatingTextIsIdempotent(contents: string)
    requires '\r' !in contents
    ensures UpdatedText(UpdatedText(contents)) == UpdatedText(contents)
  {
    UpdatedTextReads(contents);
  }

  /** Zetta is preferred, and it is listed first and only there. */
  ghost predicate ZettaFirst(lines: seq<string>) {
    && FirstEntry(lines) == Some(ZETTA)
    && lines != [] && IsZettaEntry(lines[0]) && (forall i | 1 <= i < |lines| :: !IsZettaEntry(lines[i]))
  }

  lemma {:induction false} UpdatedIsFirst(lines: seq<string>)
    requires UpdatedList(lines) == lines
    ensures ZettaFirst(lines) && Others(lines) == lines[1..]
  {
    ZettaIsPreferred(lines);
    hide ZETTA, IsZettaEntry, FirstEntry, Others;
    assert ([ZETTA] + Others(lines))[1..] == Others(lines);
  }

  lemma {:induction false} WithoutLast<T>(s: seq<T>)
    requires |s| > 1
    ensures s[..|s| - 1] != [] && s[..|s| - 1][1..] + [s[|s| - 1]] == s[1..]
  {
  }

  /** The updated text prefers Zetta, lists it once and first, and lists everything else
      as before; only an empty last line that had no newline is not read again. */
  lemma {:induction false} TextPrefersZetta(contents: string)
    requires '\r' !in contents
    ensures var before, after := SplitLines(contents), SplitLines(UpdatedText(contents));
      && ZettaFirst(after)
      && (Others(after) == Others(before) || (!EndsLine(contents) && Others(after) + [""] == Others(before)))
  {
    var before := SplitLines(contents);
    var out := UpdatedList(before);
    UpdatedTextReads(contents);
    UpdatingTwice(before);
    ZettaIsPreferred(before);
    hide *;
    UpdatedIsFirst(ReadList(contents));
    UpdatedIsFirst(out);
    ReadListIs(contents);
  }

  lemma {:induction false} ReadListIs(contents: string)
    ensures var out := UpdatedList(SplitLines(contents));
      && out != []
      && (ReadList(contents) == out ||
           (!EndsLine(contents) && ReadList(contents) != [] && ReadList(contents)[1..] + [""] == out[1..]))
  {
    var lines := SplitLines(contents);
    var out := UpdatedList(lines);
    hide SplitLines, EndsLine, IsZettaEntry;
    if !EndsLine(contents) && out[|out| - 1] == "" {
      LastEmptyAgain(lines);
      WithoutLast(out);
    }
  }

  lemma {:induction false} LastEmptyAgain(lines: seq<string>)
    requires var out := UpdatedList(lines); out[|out| - 1] == ""
    ensures var out := UpdatedList(lines);
      && |out| > 1 && UpdatedList(out[..|out| - 1]) == out[..|out| - 1]
  {
    ZettaIsZetta();
    hide ZETTA, IsZettaEntry;
    var others := Others(lines);
    assert |others| > 0;
    var front := others[..|others| - 1];
    assert UpdatedList(lines)[..|others|] == [ZETTA] + front;
    assert forall line | line in front :: line in others;
    OthersStay(front);
    OthersAfterZetta(front);
  }

  lemma {:induction false} OthersAfterZetta(lines: seq<string>)
    ensures Others([ZETTA] + lines) == Others(lines)
  {
    ZettaIsZetta();
    hide ZETTA, IsZettaEntry;
    assert ([ZETTA] + lines)[1..] == lines && [] + Others(lines) == Others(lines);
  }

  // ----- Which lines are kept

  /** The lines of the list that do not name Zetta are kept, in order, after it. */
  lemma {:induction false} UpdateKeepsOthers(lines: seq<string>)
    ensures UpdatedList(lines)[0] == ZETTA
    ensures Filtered(lines, UpdatedList(lines)[1..], line => !IsZettaEntry(line))
  {
    hide ZETTA, IsZettaEntry, Filtered;
    OthersFilter(lines);
    assert UpdatedList(lines)[1..] == Others(lines);
  }

  lemma {:induction false} OthersFilter(lines: seq<string>)
    ensures Filtered(lines, Others(lines), line => !IsZettaEntry(line))
    decreases |lines|
  {
    hide IsZettaEntry, Filtered;
    if lines == [] {
      FilteredNone<string>(line => !IsZettaEntry(line));
    } else {
      OthersFilter(lines[1..]);
      FilteredNext(lines, Others(lines[1..]), line => !IsZettaEntry(line));
      assert [] + Others(lines[1..]) == Others(lines[1..]);
    }
  }

  /** The parts of a line that names Zetta: whitespace, perhaps a plus or a minus sign,
      whitespace, the name, whitespace, and perhaps a colon and anything. */
  ghost predicate NamedBy(line: string, a: string, mark: string, b: string, c: string, rest: string) {
    && line == a + mark + b + ZETTA + c + rest && (mark == "" || mark == "+" || mark == "-")
    && AllWhitespace(a) && AllWhitespace(b) && AllWhitespace(c) && (rest == "" || rest[0] == ':')
  }

  ghost predicate NamesZetta(line: string) {
    exists a, mark, b, c, rest :: NamedBy(line, a, mark, b, c, rest)
  }

  lemma {:induction false} WhitespaceSum(a: string, b: string)
    ensures AllWhitespace(a + b) <==> AllWhitespace(a) && AllWhitespace(b)
  {
    hide IsWhitespace;
    assert forall i | 0 <= i < |a| :: (a + b)[i] == a[i];
    assert forall i | 0 <= i < |b| :: (a + b)[|a| + i] == b[i];
  }

  lemma {:induction false} TrimStartDrops(a: string, s: string)
    requires AllWhitespace(a) && s != "" && !IsWhitespace(s[0])
    ensures TrimStart(a + s) == s
    decreases |a|
  {
    hide IsWhitespace;
    if a == "" {
      assert a + s == s;
    } else {
      assert (a + s)[1..] == a[1..] + s && (a + s)[0] == a[0];
      TrimStartDrops(a[1..], s);
    }
  }

  lemma {:induction false} TrimEndDrops(s: string, b: string)
    requires AllWhitespace(b) && s != "" && !IsWhitespace(s[|s| - 1])
    ensures TrimEnd(s + b) == s
  {
    TrimEndAfter(s, b);
    TrimEndNothing(b);
    assert s + "" == s;
  }

  lemma {:induction false} TrimEndNothing(b: string)
    requires AllWhitespace(b)
    ensures TrimEnd(b) == ""
    decreases |b|
  {
    hide IsWhitespace;
    if b != "" {
      TrimEndNothing(b[..|b| - 1]);
    }
  }

  lemma {:induction false} ZettaIsTight()
    ensures ZETTA != "" && ZETTA[0] == 'Z' && !IsWhitespace(ZETTA[0]) && !IsWhitespace(ZETTA[|ZETTA| - 1])
    ensures ':' !in ZETTA && !IsWhitespace(':') && !IsWhitespace('+') && !IsWhitespace('-')
  {
    assert ZETTA[|ZETTA| - 1] == 'p';
  }

  /** An entry that names Zetta, with its options. */
  ghost predicate ZettaWith(s: string, c: string, rest: string) {
    s == ZETTA + c + rest && AllWhitespace(c) && (rest == "" || rest[0] == ':')
  }

  lemma {:induction false} EntryNameIs(s: string, c: string, rest: string)
    requires ZettaWith(s, c, rest)
    ensures EntryName(s) == ZETTA
  {
    ZettaIsTight();
    assert ':' !in ZETTA + c;
    TrimStartDrops("", ZETTA + c);
    assert "" + (ZETTA + c) == ZETTA + c;
    TrimEndDrops(ZETTA, c);
    hide ZETTA, IsWhitespace, TrimStart, TrimEnd;
    if rest != "" {
      SplitAtFirst(ZETTA + c, ':', rest[1..]);
      assert ZETTA + c + [':'] + rest[1..] == s;
    } else {
      assert s == ZETTA + c;
    }
  }

  lemma {:induction false} EntryNamed(s: string) returns (b: string, c: string, rest: string)
    requires EntryName(s) == ZETTA
    ensures s == b + ZETTA + c + rest && AllWhitespace(b) && AllWhitespace(c) && (rest == "" || rest[0] == ':')
  {
    var parts := SplitOnce(s, ':');
    var name := if parts.None? then s else parts.value.0;
    b, c := TrimParts(name);
    rest := if parts.None? then "" else [':'] + parts.value.1;
    assert s == name + rest;
    assert name == b + ZETTA + c;
  }

  /** Trimming what surrounds the entry. */
  lemma {:induction false} TrimmedEntry(a: string, front: string, c: string, rest: string)
      returns (c': string, rest': string)
    requires AllWhitespace(a) && AllWhitespace(c) && (rest == "" || rest[0] == ':')
    requires front != "" && !IsWhitespace(front[0]) && !IsWhitespace(front[|front| - 1])
    ensures Trim(a + front + c + rest) == front + c' + rest'
    ensures AllWhitespace(c') && (rest' == "" || rest'[0] == ':')
  {
    var s := front + c + rest;
    assert a + front + c + rest == a + s && s[0] == front[0];
    TrimStartDrops(a, s);
    if rest == "" {
      c', rest' := "", "";
      assert s == front + c;
      TrimEndDrops(front, c);
    } else {
      c', rest' := c, [':'] + TrimEnd(rest[1..]);
      assert !IsWhitespace(':');
      var head := front + c + [':'];
      assert s == head + rest[1..];
      TrimEndAfter(head, rest[1..]);
      hide IsWhitespace, TrimEnd, TrimStart;
      assert head + TrimEnd(rest[1..]) == front + c + rest';
    }
    hide IsWhitespace, TrimEnd, TrimStart;
    assert front + "" + "" == front;
  }

  /** The lines that are taken out are exactly those that name Zetta, and those of them
      that are not marked with a minus sign prefer it. */
  lemma {:induction false} ZettaEntriesNameZetta(line: string)
    ensures IsZettaEntry(line) <==> NamesZetta(line)
    ensures Preferred(line) == Some(ZETTA) <==> NamesZetta(line) && Trim(line) != "" && Trim(line)[0] != '-'
  {
    assert Preferred(line) == Some(ZETTA) <==> IsZettaEntry(line) && Trim(line)[0] != '-' by { ZettaIsTight(); }
    hide NamesZetta, Preferred;
    if IsZettaEntry(line) {
      EntryIsNamed(line);
    }
    if NamesZetta(line) {
      NamedIsEntry(line);
    }
  }

  lemma {:induction false} EntryIsNamed(line: string)
    requires IsZettaEntry(line)
    ensures NamesZetta(line)
  {
    var before, after := TrimParts(line);
    var mark, u := MarkOf(line);
    hide ZETTA, AllWhitespace, Trim, TrimStart, EntryName, IsZettaEntry, NamedBy;
    var front := TrimStartSplits(u);
    var b, c, rest := EntryNamed(TrimStart(u));
    PartsOfLine(line, before, Trim(line), mark, u, front, TrimStart(u), b, c, rest, after);
  }

  lemma {:induction false} MarkOf(line: string) returns (mark: string, u: string)
    requires IsZettaEntry(line)
    ensures Trim(line) == mark + u && (mark == "" || mark == "+" || mark == "-") && EntryName(TrimStart(u)) == ZETTA
  {
    var t := Trim(line);
    hide ZETTA, Trim, TrimStart, EntryName;
    if t[0] == '+' || t[0] == '-' {
      mark, u := [t[0]], t[1..];
    } else {
      mark, u := "", t;
    }
  }

  lemma {:induction false} PartsOfLine(line: string, a: string, t: string, mark: string, u: string, front: string,
                                       v: string, b: string, c: string, rest: string, after: string)
    requires line == a + t + after && t == mark + u && u == front + v && v == b + ZETTA + c + rest
    requires AllWhitespace(a) && AllWhitespace(front) && AllWhitespace(b) && AllWhitespace(c) && AllWhitespace(after)
    requires (mark == "" || mark == "+" || mark == "-") && (rest == "" || rest[0] == ':')
    ensures NamesZetta(line)
  {
    WhitespaceSum(front, b);
    WhitespaceSum(c, after);
    hide ZETTA, AllWhitespace;
    if rest == "" {
      assert line == a + mark + (front + b) + ZETTA + (c + after) + "";
      assert NamedBy(line, a, mark, front + b, c + after, "");
    } else {
      assert line == a + mark + (front + b) + ZETTA + c + (rest + after);
      assert NamedBy(line, a, mark, front + b, c, rest + after);
    }
  }

  lemma {:induction false} NoWhitespace()
    ensures AllWhitespace("")
  {
  }

  lemma {:induction false} NamedIsEntry(line: string)
    requires NamesZetta(line)
    ensures IsZettaEntry(line)
  {
    ZettaIsTight();
    hide ZETTA, IsWhitespace, AllWhitespace, Trim, TrimStart, EntryName;
    var a, mark, b, c, rest :| NamedBy(line, a, mark, b, c, rest);
    if mark == "" {
      WhitespaceSum(a, b);
      NoWhitespace();
      var c', rest' := TrimmedEntry(a + b, ZETTA, c, rest);
      assert line == (a + b) + ZETTA + c + rest;
      FromZetta("", "", c', rest');
      assert "" + "" + ZETTA + c' + rest' == ZETTA + c' + rest';
    } else {
      var front := mark + b + ZETTA;
      assert front[|front| - 1] == ZETTA[|ZETTA| - 1];
      var c', rest' := TrimmedEntry(a, front, c, rest);
      assert line == a + front + c + rest;
      FromZetta(mark, b, c', rest');
    }
  }

  /** A trimmed line that names Zetta. */
  lemma {:induction false} FromZetta(mark: string, b: string, c: string, rest: string)
    requires mark == "" || mark == "+" || mark == "-"
    requires AllWhitespace(b) && (mark == "" ==> b == "") && AllWhitespace(c) && (rest == "" || rest[0] == ':')
    ensures var t := mark + b + ZETTA + c + rest;
      && t != "" && t[0] != '#' && t[0] != '/'
      && EntryName(TrimStart(if t[0] == '+' || t[0] == '-' then t[1..] else t)) == ZETTA
  {
    ZettaIsTight();
    hide ZETTA, IsWhitespace, AllWhitespace, TrimStart, EntryName;
    var t, entry := mark + b + ZETTA + c + rest, ZETTA + c + rest;
    assert entry[0] == 'Z';
    TrimStartDrops(b, entry);
    EntryNameIs(entry, c, rest);
    assert b + entry == if mark == "" then t else t[1..];
    assert t[0] == if mark == "" then 'Z' else mark[0];
  }
}
