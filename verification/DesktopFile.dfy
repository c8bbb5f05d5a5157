/** The rewriting of a desktop entry as the program does it, on the text of the file. */
module DesktopFile {
  import opened Text
  import opened TextLines
  import opened ManagedBlocks
  import opened DesktopEntry
  import ExecQuoting

  /** The text of the rendered entry, if the entry can be rendered. */
  function RenderText(contents: string, p: Launch): Option<string> {
    Joined(Render(Lines(contents), p))
  }

  function Joined(lines: Option<seq<string>>): Option<string> {
    if lines.None? then None else Some(Flatten(lines.value))
  }

  /** Where the only line that is the marker starts and ends. */
  ghost function Span(lines: seq<string>, m: Marker): Option<(nat, nat)> {
    var i := MarkerLine(ENTRY, lines, m);
    if i.None? then None else Some((Offset(lines, i.value), Offset(lines, i.value + 1)))
  }

  /** What reading the first `i` lines for a marker has found: nothing, or line `e`. */
  ghost predicate Seen(lines: seq<string>, m: Marker, i: nat, found: Option<(nat, nat)>, e: nat)
    requires i <= |lines|
  {
    if found.None? then NextMarker(ENTRY, lines, m, 0) == NextMarker(ENTRY, lines, m, i)
    else
      && NextMarker(ENTRY, lines, m, 0) == e < i
      && NextMarker(ENTRY, lines, m, e + 1) == NextMarker(ENTRY, lines, m, i)
      && found == Some((Offset(lines, e), Offset(lines, e + 1)))
  }

  lemma {:induction false} SeenAll(lines: seq<string>, m: Marker, found: Option<(nat, nat)>, e: nat)
    requires Seen(lines, m, |lines|, found, e)
    ensures found == Span(lines, m)
  {
    hide IsMarker, IsHeading, IsExec, Offset;
  }

  lemma {:induction false} SeenNext(lines: seq<string>, m: Marker, i: nat, found: Option<(nat, nat)>, e: nat)
    requires i < |lines| && Seen(lines, m, i, found, e)
    ensures !IsMarker(lines[i], m) ==> Seen(lines, m, i + 1, found, e)
    ensures IsMarker(lines[i], m) && found.None? ==>
      Seen(lines, m, i + 1, Some((Offset(lines, i), Offset(lines, i + 1))), i)
    ensures IsMarker(lines[i], m) && found.Some? ==> Span(lines, m).None?
  {
    hide IsMarker, IsHeading, IsExec, Offset;
  }

  /** The line that is the marker, if it is the only one. */
  method ManagedMarkerLine(contents: string, m: Marker) returns (found: Option<(nat, nat)>)
    ensures found == Span(Lines(contents), m)
  {
    hide Seen, Span, MarkerText, Stripped, NextMarker, Lines;
    var lines := Lines(contents);
    SeenNone(lines, m);
    OffsetStart(lines);
    hide Offset;
    found := None;
    ghost var e := 0;
    var lineStart := 0;
    for i := 0 to |lines|
      invariant lineStart == Offset(lines, i)
      invariant Seen(lines, m, i, found, e)
    {
      OffsetNext(lines, i);
      SeenNext(lines, m, i, found, e);
      var lineEnd := lineStart + |lines[i]|;
      if Stripped(lines[i]) == MarkerText(m) {
        if found.Some? {
          return None;
        }
        found := Some((lineStart, lineEnd));
        e := i;
      }
      lineStart := lineEnd;
    }
    SeenAll(lines, m, found, e);
  }

  lemma {:induction false} SeenNone(lines: seq<string>, m: Marker)
    ensures Seen(lines, m, 0, None, 0)
  {
  }

  /** Replace a managed block in a text; `block` is the replacement as lines. */
  method ReplaceManagedBlock(contents: string, begin: Marker, end: Marker, replacement: string,
                             ghost block: seq<string>)
      returns (updated: Option<string>)
    requires Flatten(block) == replacement + "\n"
    ensures updated == Joined(ReplaceBlock(ENTRY, Lines(contents), begin, end, block))
  {
    hide IsMarker, IsHeading, IsExec, Lines, Offset, Flatten, MarkerLine, AreLines;
    ghost var lines := Lines(contents);
    LinesOfText(contents);
    var from := ManagedMarkerLine(contents, begin);
    if from.None? {
      return None;
    }
    var to := ManagedMarkerLine(contents, end);
    if to.None? {
      return None;
    }
    ghost var i, j := MarkerLine(ENTRY, lines, begin).value, MarkerLine(ENTRY, lines, end).value;
    OffsetsCompare(lines, i + 1, j);
    if from.value.1 > to.value.0 {
      return None;
    }
    SpliceLines(lines, i, j, replacement, block);
    updated := Some(contents[..from.value.0] + replacement + "\n" + contents[to.value.1..]);
  }

  lemma {:induction false} OffsetsCompare(lines: seq<string>, i: nat, j: nat)
    requires AreLines(lines) && i <= |lines| && j <= |lines|
    ensures Offset(lines, i) > Offset(lines, j) <==> i > j
  {
    if i < j {
      OffsetsIncrease(lines, i, j);
    } else if j < i {
      OffsetsIncrease(lines, j, i);
    }
  }

  /** Replacing lines in a text is replacing them among its lines. */
  lemma {:induction false} SpliceLines(lines: seq<string>, i: nat, j: nat, replacement: string, block: seq<string>)
    requires i <= j < |lines| && Flatten(block) == replacement + "\n"
    ensures Offset(lines, i) <= |Flatten(lines)| && Offset(lines, j + 1) <= |Flatten(lines)|
    ensures Flatten(lines[..i] + (block + lines[j + 1..])) ==
      Flatten(lines)[..Offset(lines, i)] + replacement + "\n" + Flatten(lines)[Offset(lines, j + 1)..]
  {
    hide Offset, Flatten;
    OffsetSplits(lines, i);
    OffsetSplits(lines, j + 1);
    FlattenSum(block, lines[j + 1..]);
    FlattenSum(lines[..i], block + lines[j + 1..]);
    var a, b := Flatten(lines[..i]), Flatten(lines[j + 1..]);
    assert a + ((replacement + "\n") + b) == a + replacement + "\n" + b;
  }

  // ----- The main line

  /** The first position at or after `from` where `pattern` occurs, or the length of `s`. */
  function Find(s: string, pattern: string, from: nat): (n: nat)
    requires from <= |s|
    ensures from <= n <= |s|
    ensures n < |s| ==> StartsWith(s[n..], pattern)
    ensures forall j | from <= j < n :: !StartsWith(s[j..], pattern)
    decreases |s| - from
  {
    if from == |s| || StartsWith(s[from..], pattern) then from else Find(s, pattern, from + 1)
  }

  /** The first line at or after `i` that starts with `key`, or the number of lines. */
  ghost function NextKey(lines: seq<string>, key: string, i: nat): (n: nat)
    requires i <= |lines|
    ensures i <= n <= |lines|
    ensures n < |lines| ==> StartsWith(lines[n], key)
    ensures forall j | i <= j < n :: !StartsWith(lines[j], key)
    decreases |lines| - i
  {
    if i == |lines| || StartsWith(lines[i], key) then i else NextKey(lines, key, i + 1)
  }

  /** Only a line that starts with `key` starts where `key` occurs. */
  lemma {:induction false} KeyAtLine(lines: seq<string>, key: string, m: nat)
    requires AreLines(lines) && m < |lines| && '\n' !in key
    ensures Offset(lines, m) <= |Flatten(lines)|
    ensures StartsWith(Flatten(lines)[Offset(lines, m)..], key) <==> StartsWith(lines[m], key)
  {
    OffsetSplits(lines, m);
    var text, rest := Flatten(lines[m..]), Flatten(lines[m + 1..]);
    assert lines[m..][1..] == lines[m + 1..];
    assert text == lines[m] + rest;
    var n := |lines[m]|;
    if n < |key| && rest != "" {
      assert Terminated(lines[m]);
      assert text[n - 1] == '\n' && key[n - 1] != '\n';
      assert |key| <= |text| ==> text[..|key|][n - 1] == '\n';
    }
    assert |key| <= n ==> text[..|key|] == lines[m][..|key|];
  }

  /** A newline is followed by the start of a line. */
  lemma {:induction false} LineAfterNewline(lines: seq<string>, p: nat) returns (m: nat)
    requires AreLines(lines) && p < |Flatten(lines)| && Flatten(lines)[p] == '\n'
    ensures 0 < m <= |lines| && Offset(lines, m) == p + 1
    decreases |lines|
  {
    var rest := lines[1..];
    if p < |lines[0]| {
      assert p == |lines[0]| - 1;
      m := 1;
      OffsetNext(lines, 0);
      assert lines[..0] == [];
    } else {
      m := LineAfterNewline(rest, p - |lines[0]|);
      assert lines[..m + 1] == [lines[0]] + rest[..m];
      m := m + 1;
    }
  }

  lemma {:induction false} AfterNewline(s: string, p: nat, key: string)
    requires p < |s|
    ensures StartsWith(s[p..], "\n" + key) <==> s[p] == '\n' && StartsWith(s[p + 1..], key)
  {
    var pattern := "\n" + key;
    assert pattern[0] == '\n' && pattern[1..] == key && s[p + 1..] == s[p..][1..];
    if |pattern| <= |s| - p {
      assert s[p..][..|pattern|] == [s[p]] + s[p + 1..][..|key|];
      assert pattern == ['\n'] + key;
      assert (['\n'] + key)[1..] == key && ([s[p]] + s[p + 1..][..|key|])[1..] == s[p + 1..][..|key|];
    }
  }

  /** The first `key` after a newline starts the first line, but for line 0, that
      starts with `key`. */
  lemma {:induction false} FindsLine(lines: seq<string>, key: string)
    requires AreLines(lines) && lines != [] && key != "" && '\n' !in key
    ensures var n, at := NextKey(lines, key, 1), Find(Flatten(lines), "\n" + key, 0);
      if n == |lines| then at == |Flatten(lines)| else at + 1 == Offset(lines, n) <= |Flatten(lines)|
  {
    var text := Flatten(lines);
    var n, at := NextKey(lines, key, 1), Find(text, "\n" + key, 0);
    hide Offset, Flatten, StartsWith;
    if at < |text| {
      AfterNewline(text, at, key);
      var m := LineAfterNewline(lines, at);
      LastIsEnd(lines, key, m);
      KeyAtLine(lines, key, m);
      OffsetsCompare(lines, m, n);
    }
    if n < |lines| {
      KeyOccurs(lines, key, n);
    }
  }

  lemma {:induction false} LastIsEnd(lines: seq<string>, key: string, m: nat)
    requires key != "" && m <= |lines| && Offset(lines, m) <= |Flatten(lines)|
    requires StartsWith(Flatten(lines)[Offset(lines, m)..], key)
    ensures m < |lines|
  {
    assert lines[..|lines|] == lines;
  }

  lemma {:induction false} KeyOccurs(lines: seq<string>, key: string, n: nat)
    requires AreLines(lines) && '\n' !in key && 0 < n < |lines| && StartsWith(lines[n], key)
    ensures 0 < Offset(lines, n) < |Flatten(lines)|
    ensures StartsWith(Flatten(lines)[Offset(lines, n) - 1..], "\n" + key)
  {
    hide Offset, Flatten, StartsWith;
    KeyAtLine(lines, key, n);
    OffsetSplits(lines, n);
    OffsetSplits(lines, n - 1);
    OffsetNext(lines, n - 1);
    var p := Offset(lines, n) - 1;
    NewlineBefore(lines, n);
    AfterNewline(Flatten(lines), p, key);
  }

  lemma {:induction false} NewlineBefore(lines: seq<string>, n: nat)
    requires AreLines(lines) && 0 < n < |lines|
    ensures 0 < Offset(lines, n) <= |Flatten(lines)| && Flatten(lines)[Offset(lines, n) - 1] == '\n'
    ensures Offset(lines, n) < |Flatten(lines)|
  {
    OffsetSplits(lines, n);
    OffsetNext(lines, n - 1);
    FlattenSum(lines[..n - 1], [lines[n - 1]]);
    assert lines[..n] == lines[..n - 1] + [lines[n - 1]] && [lines[n - 1]][1..] == [];
    assert Flatten(lines)[..Offset(lines, n)][Offset(lines, n) - 1] == '\n';
    assert lines[n..] != [];
  }

  /** Line `n` is the first heading after line 0. */
  ghost predicate HeadingAt(lines: seq<string>, n: nat) {
    0 < n < |lines| && IsHeading(lines[n]) && forall j | 0 < j < n :: !IsHeading(lines[j])
  }

  /** What reading the first `i` lines for a main line has found: nothing, or line `e`. */
  ghost predicate MainSeen(lines: seq<string>, i: nat, found: Option<(nat, nat)>, e: nat)
    requires i <= |lines|
  {
    if found.None? then forall j | 0 <= j < i :: !IsExec(lines[j])
    else
      && e < i && IsExec(lines[e]) && (forall j | 0 <= j < i && j != e :: !IsExec(lines[j]))
      && found == Some((Offset(lines, e), Offset(lines, e + 1)))
  }

  function MainReplaced(lines: seq<string>, main: string): Option<seq<string>> {
    ReplaceMain(ENTRY, lines, false, false, main)
  }

  lemma {:induction false} MainTwice(lines: seq<string>, n: nat, e: nat, f: nat, main: string)
    requires HeadingAt(lines, n) && e < f < n && IsExec(lines[e]) && IsExec(lines[f])
    ensures MainReplaced(lines, main).None?
  {
    hide IsHeading, IsExec, ReplaceMain, Pass;
    ReplaceMainBefore(ENTRY, lines, n, main);
    PassMany(ENTRY, lines[..n], false, false, e, f, main);
  }

  lemma {:induction false} MainOnce(lines: seq<string>, n: nat, found: Option<(nat, nat)>, e: nat, main: string)
    requires HeadingAt(lines, n) && MainSeen(lines, n, found, e)
    ensures MainReplaced(lines, main) ==
      if found.None? then None else Some(lines[..e] + ([main] + lines[e + 1..]))
  {
    hide IsHeading, IsExec, ReplaceMain, Pass, Offset;
    ReplaceMainBefore(ENTRY, lines, n, main);
    var region := lines[..n];
    if found.None? {
      PassNone(ENTRY, region, false, false, main);
    } else {
      PassOne(ENTRY, region, false, e, main);
      assert region[e := main] + lines[n..] == lines[..e] + ([main] + lines[e + 1..]);
    }
  }

  /** The text before the first heading consists of the lines before it. */
  lemma {:induction false} TextBeforeHeading(contents: string)
    ensures var at := Find(contents, "\n" + ACTION_HEADING, 0);
      if at == |contents| then forall main :: MainReplaced(Lines(contents), main).None?
      else exists n: nat | HeadingAt(Lines(contents), n) :: Lines(contents[..at + 1]) == Lines(contents)[..n]
  {
    hide Lines, Offset, ReplaceMain;
    var lines := Lines(contents);
    LinesOfText(contents);
    if lines != [] {
      FindsLine(lines, ACTION_HEADING);
    }
    var n := if lines == [] then 0 else NextKey(lines, ACTION_HEADING, 1);
    if n < |lines| {
      NewlineBefore(lines, n);
      OffsetSplits(lines, n);
      LinesOfFlatten(lines[..n]);
      assert HeadingAt(lines, n);
    } else {
      assert Find(contents, "\n" + ACTION_HEADING, 0) == |contents|;
      forall main {
        NoMain(lines, main);
      }
    }
  }

  lemma {:induction false} NoMain(lines: seq<string>, main: string)
    requires forall j | 0 < j < |lines| :: !IsHeading(lines[j])
    ensures MainReplaced(lines, main).None?
  {
    hide IsHeading, IsExec, ReplaceMain;
    NoHeadingNoMain(ENTRY, lines, false, false, main);
  }

  lemma {:induction false} MainSeenNext(lines: seq<string>, n: nat, i: nat, found: Option<(nat, nat)>, e: nat,
                                        main: string)
    requires HeadingAt(lines, n) && i < n && MainSeen(lines, i, found, e)
    ensures !IsExec(lines[i]) ==> MainSeen(lines, i + 1, found, e)
    ensures IsExec(lines[i]) && found.None? ==>
      MainSeen(lines, i + 1, Some((Offset(lines, i), Offset(lines, i + 1))), i)
    ensures IsExec(lines[i]) && found.Some? ==> MainReplaced(lines, main).None?
  {
    hide IsHeading, IsExec, Offset;
    if IsExec(lines[i]) && found.Some? {
      MainTwice(lines, n, e, i, main);
    }
  }

  lemma {:induction false} FlattenOne(line: string)
    ensures Flatten([line]) == line
  {
    assert [line][1..] == [];
  }

  /** Replace the only main line before the first heading by the line `main`. */
  method ReplaceMainExec(contents: string, main: string) returns (updated: Option<string>)
    requires Terminated(main)
    ensures updated == Joined(MainReplaced(Lines(contents), main))
  {
    hide Lines, Offset, MainReplaced, IsHeading, IsExec, Flatten, StartsWith;
    ghost var lines := Lines(contents);
    LinesOfText(contents);
    TextBeforeHeading(contents);
    var at := Find(contents, "\n" + ACTION_HEADING, 0);
    if at == |contents| {
      return None;
    }
    var region := Lines(contents[..at + 1]);
    ghost var n: nat :| HeadingAt(lines, n) && region == lines[..n];
    var execLine: Option<(nat, nat)> := None;
    ghost var e := 0;
    var lineStart := 0;
    assert lines[..0] == [];
    assert lineStart == Offset(lines, 0) by { OffsetStart(lines); }
    for i := 0 to |region|
      invariant lineStart == Offset(lines, i) && MainSeen(lines, i, execLine, e)
    {
      assert region[i] == lines[i];
      OffsetNext(lines, i);
      MainSeenNext(lines, n, i, execLine, e, main);
      var lineEnd := lineStart + |region[i]|;
      if IsExec(region[i]) {
        if execLine.Some? {
          return None;
        }
        execLine := Some((lineStart, lineEnd));
        e := i;
      }
      lineStart := lineEnd;
    }
    MainOnce(lines, n, execLine, e, main);
    if execLine.None? {
      return None;
    }
    FlattenOne(main);
    SpliceLines(lines, e, e, main[..|main| - 1], [main]);
    assert main[..|main| - 1] + "\n" == main;
    assert forall a: string, b: string :: a + main[..|main| - 1] + "\n" + b == a + main + b;
    updated := Some(contents[..execLine.value.0] + main + contents[execLine.value.1..]);
  }

  // ----- The whole rendering

  ghost predicate AllGenerated(rows: seq<string>) {
    forall i | 0 <= i < |rows| :: Generated(rows[i])
  }

  lemma {:induction false} GeneratedIsLine(row: string)
    requires Generated(row)
    ensures IsLine(row) && Terminated(row)
  {
    var text := row[..|row| - 1];
    assert forall j | 0 <= j < |row| - 1 :: row[j] == text[j];
  }

  lemma {:induction false} SplicedAreLines(lines: seq<string>, i: nat, j: nat, block: seq<string>)
    requires AreLines(lines) && i <= j < |lines| && AllGenerated(block)
    ensures AreLines(lines[..i] + (block + lines[j + 1..]))
  {
    forall row | row in block {
      GeneratedIsLine(row);
    }
    hide Generated, IsLine, Terminated;
  }

  lemma {:induction false} BlockKeepsLines(lines: seq<string>, begin: Marker, end: Marker, block: seq<string>)
    requires AreLines(lines) && AllGenerated(block)
    ensures var r := ReplaceBlock(ENTRY, lines, begin, end, block); r.Some? ==> AreLines(r.value)
  {
    hide AreLines, AllGenerated, IsMarker, IsHeading, IsExec;
    var i, j := MarkerLine(ENTRY, lines, begin), MarkerLine(ENTRY, lines, end);
    if i.Some? && j.Some? && i.value < j.value {
      SplicedAreLines(lines, i.value, j.value, block);
    }
  }

  lemma {:induction false} MainKeepsLines(lines: seq<string>, started: bool, found: bool, main: string)
    requires AreLines(lines) && Generated(main)
    ensures var r := ReplaceMain(ENTRY, lines, started, found, main);
      r.Some? ==> AreLines(r.value) && r.value != []
    decreases |lines|
  {
    hide IsHeading, IsExec, Generated, IsLine, Terminated;
    GeneratedIsLine(main);
    if |lines| == 1 && !(started && IsHeading(lines[0])) {
      LastFails(lines[0], started, found, main);
      assert lines == [lines[0]];
    } else if lines != [] && !(started && IsHeading(lines[0])) {
      MainKeepsLines(lines[1..], true, found || IsExec(lines[0]), main);
    }
  }

  lemma {:induction false} LastFails(line: string, started: bool, found: bool, main: string)
    requires !(started && IsHeading(line))
    ensures ReplaceMain(ENTRY, [line], started, found, main).None?
  {
    hide IsHeading, IsExec;
    assert [line][1..] == [];
    assert ReplaceMain(ENTRY, [], true, found || IsExec(line), main).None?;
  }

  /** The rendered lines are lines of a text. */
  lemma {:induction false} RenderedAreLines(contents: string, p: Launch)
    ensures var r := Render(Lines(contents), p);
      r.Some? ==> AreLines(r.value) && Lines(Flatten(r.value)) == r.value
  {
    hide AreLines, ContentOf, ReplaceBlock, ReplaceMain, Lines, Proper, Generated;
    var lines := Lines(contents);
    LinesOfText(contents);
    if Render(lines, p).Some? {
      var c := ContentOf(p);
      ContentIsProper(p);
      assert AllGenerated(c.actions);
      BlockKeepsLines(lines, ActionsBegin, ActionsEnd, c.actions);
      var first := ReplaceBlock(ENTRY, lines, ActionsBegin, ActionsEnd, c.actions).value;
      BlockKeepsLines(first, GroupsBegin, GroupsEnd, c.groups);
      MainKeepsLines(ReplaceBlocks(ENTRY, lines, c).value, false, false, c.main);
      LinesOfFlatten(Render(lines, p).value);
    }
  }

  /** On texts too the last rendering wins, exactly on the same entries. */
  lemma {:induction false} LastRenderingOfTextWins(contents: string, p: Launch, q: Launch, result: string)
    requires RenderText(contents, p) == Some(result)
    ensures RenderText(result, q) == RenderText(contents, q) <==>
      !Nested(ENTRY, Lines(contents)) || !Printable(q.executable) || Refuses(Lines(contents), q)
  {
    hide Render, Lines, Nested, AreLines, Refuses, Printable;
    var lines := Lines(contents);
    var rendered := Render(lines, p).value;
    RenderedAreLines(contents, p);
    RenderedAreLines(contents, q);
    RenderedAreLines(result, q);
    LastRenderingWins(lines, p, q, rendered);
  }

  /** Rendering a text is idempotent exactly when the actions block is not nested in the
      groups block. */
  lemma {:induction false} RenderingOfTextIsIdempotent(contents: string, p: Launch, result: string)
    requires RenderText(contents, p) == Some(result)
    ensures RenderText(result, p) == Some(result) <==> !Nested(ENTRY, Lines(contents))
  {
    hide Render, Lines, Nested, AreLines;
    RenderedAreLines(contents, p);
    RenderedAreLines(result, p);
    RenderingIsIdempotent(Lines(contents), p, Render(Lines(contents), p).value);
  }

  function GroupOf(executable: string, name: string, index: nat): seq<string> {
    ["\n", HeadingRow(index), NameRow(name), ExecRow(executable, name)]
  }

  lemma {:induction false} GroupRowsNext(executable: string, names: seq<string>, index: nat)
    requires names != []
    ensures GroupRows(executable, names, index) ==
      GroupRows(executable, names[..|names| - 1], index) + GroupOf(executable, names[|names| - 1], index + |names| - 1)
    decreases |names|
  {
    hide HeadingRow, NameRow, ExecRow;
    if |names| > 1 {
      GroupRowsNext(executable, names[1..], index + 1);
      assert names[..|names| - 1][1..] == names[1..][..|names| - 2];
    } else {
      assert names[1..] == [];
    }
  }

  /** What the program appends for one profile, with its values quoted and escaped. */
  function GroupText(executable: string, index: nat, name: string, argument: string): string {
    "\n\n" + (ACTION_HEADING + ("profile-" + Digits(index) + "]")) + "\n" + ("Name=" + name) + "\n" +
    (EXEC_KEY + executable + " --new-window --profile " + argument)
  }

  lemma {:induction false} GroupTextIsRows(executable: string, name: string, index: nat)
    ensures "\n" + Flatten(GroupOf(executable, name, index)) ==
      GroupText(QuotedArgument(executable), index, EscapeValue(name), QuotedArgument(name)) + "\n"
  {
    hide QuotedArgument, EscapeValue, Digits, ACTION_HEADING;
    FourRows("\n", HeadingRow(index), NameRow(name), ExecRow(executable, name));
    hide Flatten;
    var id := "profile-" + Digits(index) + "]";
    assert "profile-" + Digits(index) + "]\n" == id + "\n";
    assert HeadingRow(index) == (ACTION_HEADING + id) + "\n";
    ThreeLines(ACTION_HEADING + id, "Name=" + EscapeValue(name),
               EXEC_KEY + QuotedArgument(executable) + " --new-window --profile " + QuotedArgument(name));
  }

  lemma {:induction false} ThreeLines(a: string, b: string, c: string)
    ensures "\n" + ("\n" + (a + "\n") + (b + "\n") + (c + "\n")) == "\n\n" + a + "\n" + b + "\n" + c + "\n"
  {
  }

  lemma {:induction false} ThreeRows(a: string, b: string, c: string)
    ensures Flatten([a, b, c]) == a + b + c
  {
    assert [a, b, c][1..] == [b, c];
    assert [b, c][1..] == [c];
    FlattenOne(c);
    assert a + (b + c) == a + b + c;
  }

  lemma {:induction false} FourRows(a: string, b: string, c: string, d: string)
    ensures Flatten([a, b, c, d]) == a + b + c + d
  {
    assert [a, b, c, d][1..] == [b, c, d];
    ThreeRows(b, c, d);
    assert a + (b + c + d) == a + b + c + d;
  }

  /** The rows that are written for the first `n` profiles, after the begin marker. */
  function GroupsSoFar(executable: string, names: seq<string>, n: nat): seq<string>
    requires n <= |names|
  {
    [MarkerRow(GroupsBegin)] + GroupRows(executable, names[..n], 1)
  }

  lemma {:induction false} GroupsGrow(executable: string, names: seq<string>, n: nat, groups: string)
    requires n < |names| && groups + "\n" == Flatten(GroupsSoFar(executable, names, n))
    ensures var more := GroupText(QuotedArgument(executable), n + 1, EscapeValue(names[n]), QuotedArgument(names[n]));
      groups + more + "\n" ==
      Flatten(GroupsSoFar(executable, names, n + 1))
  {
    hide Flatten, GroupText, GroupRows, GroupOf, MarkerRow, QuotedArgument, EscapeValue;
    var more := GroupOf(executable, names[n], n + 1);
    var front := names[..n + 1];
    assert front[..n] == names[..n];
    GroupRowsNext(executable, front, 1);
    assert GroupsSoFar(executable, names, n + 1) == GroupsSoFar(executable, names, n) + more;
    FlattenSum(GroupsSoFar(executable, names, n), more);
    GroupTextIsRows(executable, names[n], n + 1);
    var text := GroupText(QuotedArgument(executable), n + 1, EscapeValue(names[n]), QuotedArgument(names[n]));
    assert groups + text + "\n" == groups + (text + "\n");
    assert groups + ("\n" + Flatten(more)) == (groups + "\n") + Flatten(more);
  }

  method ProfileGroups(executable: string, names: seq<string>) returns (groups: string)
    ensures groups + "\n" == Flatten(GroupsSoFar(executable, names, |names|) + [MarkerRow(GroupsEnd)])
  {
    hide Flatten, GroupText, GroupsSoFar, QuotedArgument, EscapeValue, MarkerText;
    var command := ExecQuoting.QuoteExecArgument(executable);
    groups := MarkerText(GroupsBegin);
    FirstRow(executable, names);
    for n := 0 to |names|
      invariant groups + "\n" == Flatten(GroupsSoFar(executable, names, n))
    {
      GroupsGrow(executable, names, n, groups);
      var name := ExecQuoting.EscapeDesktopString(names[n]);
      var argument := ExecQuoting.QuoteExecArgument(names[n]);
      groups := groups + GroupText(command, n + 1, name, argument);
    }
    FlattenSum(GroupsSoFar(executable, names, |names|), [MarkerRow(GroupsEnd)]);
    FlattenOne(MarkerRow(GroupsEnd));
    groups := groups + "\n" + MarkerText(GroupsEnd);
  }

  lemma {:induction false} FirstRow(executable: string, names: seq<string>)
    ensures Flatten(GroupsSoFar(executable, names, 0)) == MarkerText(GroupsBegin) + "\n"
  {
    hide MarkerText;
    assert names[..0] == [];
    FlattenOne(MarkerRow(GroupsBegin));
    assert GroupsSoFar(executable, names, 0) == [MarkerRow(GroupsBegin)];
  }

  lemma {:induction false} ActionsText(n: nat)
    ensures Flatten([MarkerRow(ActionsBegin), ActionsRow(n), MarkerRow(ActionsEnd)]) ==
      MarkerText(ActionsBegin) + "\nActions=" + ActionIds(n) + "\n" + MarkerText(ActionsEnd) + "\n"
  {
    ThreeRows(MarkerRow(ActionsBegin), ActionsRow(n), MarkerRow(ActionsEnd));
    hide MarkerText, ActionIds, Flatten;
    assert ActionsRow(n) == "Actions=" + ActionIds(n) + "\n";
    var a, b, c := MarkerText(ActionsBegin), ActionIds(n), MarkerText(ActionsEnd);
    assert (a + "\n") + ("Actions=" + b + "\n") + (c + "\n") == a + "\nActions=" + b + "\n" + c + "\n";
  }

  /** Render the entry for `p`, whose profiles are the visible ones. */
  method RenderManagedDesktopEntry(contents: string, p: Launch) returns (updated: Option<string>)
    ensures updated == RenderText(contents, p)
  {
    hide Flatten, Lines, ReplaceBlock, ReplaceMain, AreLines;
    hide MarkerText, ActionIds, GroupRows, MarkerRow, ActionsRow, MainRow;
    hide Generated, Proper, IsMarker, IsHeading, IsExec, Terminated;
    var names := Representable(p.names);
    if !Printable(p.executable) {
      return None;
    }
    ghost var c := ContentOf(p);
    ContentIsProper(p);
    LinesOfText(contents);
    var actions := MarkerText(ActionsBegin) + "\nActions=" + ActionIds(|names|) + "\n" + MarkerText(ActionsEnd);
    ActionsText(|names|);
    var first := ReplaceManagedBlock(contents, ActionsBegin, ActionsEnd, actions, c.actions);
    if first.None? {
      return None;
    }
    BlockKeepsLines(Lines(contents), ActionsBegin, ActionsEnd, c.actions);
    LinesOfFlatten(ReplaceBlock(ENTRY, Lines(contents), ActionsBegin, ActionsEnd, c.actions).value);
    var groups := ProfileGroups(p.executable, names);
    assert names[..|names|] == names;
    var second := ReplaceManagedBlock(first.value, GroupsBegin, GroupsEnd, groups, c.groups);
    if second.None? {
      return None;
    }
    BlockKeepsLines(Lines(first.value), GroupsBegin, GroupsEnd, c.groups);
    LinesOfFlatten(ReplaceBlock(ENTRY, Lines(first.value), GroupsBegin, GroupsEnd, c.groups).value);
    GeneratedIsLine(c.main);
    updated := ReplaceMainExec(second.value, MainRow(p));
  }
}
