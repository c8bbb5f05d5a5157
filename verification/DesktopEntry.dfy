/** Rewriting the managed parts of a desktop entry. */
module DesktopEntry {
  import opened Text
  import opened ManagedBlocks

  const ACTION_HEADING := "[Desktop Action "
  const EXEC_KEY := "Exec="

  function MarkerText(m: Marker): string {
    match m
    case ActionsBegin => "# ZETTA MANAGED PROFILE ACTIONS BEGIN"
    case ActionsEnd => "# ZETTA MANAGED PROFILE ACTIONS END"
    case GroupsBegin => "# ZETTA MANAGED PROFILE GROUPS BEGIN"
    case GroupsEnd => "# ZETTA MANAGED PROFILE GROUPS END"
  }

  /** What an entry is rendered for: the executable, the names of the profiles that
      are not hidden, and the number that stands for the profile list. */
  datatype Launch = Launch(executable: string, names: seq<string>, generation: nat)

  // ----- Kinds of lines

  predicate StartsWith(s: string, prefix: string) {
    |prefix| <= |s| && s[..|prefix|] == prefix
  }

  /** A line without its line ending. */
  function Stripped(line: string): string {
    var l := if line != "" && line[|line| - 1] == '\n' then line[..|line| - 1] else line;
    if l != "" && l[|l| - 1] == '\r' then l[..|l| - 1] else l
  }

  predicate IsMarker(line: string, m: Marker) {
    Stripped(line) == MarkerText(m)
  }

  predicate IsHeading(line: string) {
    StartsWith(line, ACTION_HEADING)
  }

  predicate IsExec(line: string) {
    StartsWith(line, EXEC_KEY)
  }

  const ENTRY: Kinds<string> :=
    Kinds((line, m) => IsMarker(line, m), line => IsHeading(line), line => IsExec(line))

  // ----- The generated lines

  predicate IsControl(c: char) {
    c <= '\U{001F}' || '\U{007F}' <= c <= '\U{009F}'
  }

  predicate Printable(s: string) {
    forall i | 0 <= i < |s| :: !IsControl(s[i])
  }

  function Digits(n: nat): string {
    if n < 10 then [['0', '1', '2', '3', '4', '5', '6', '7', '8', '9'][n]]
    else Digits(n / 10) + Digits(n % 10)
  }

  function EscapedCharacter(c: char): string {
    match c
    case '\\' => "\\\\"
    case '\n' => "\\n"
    case '\t' => "\\t"
    case '\r' => "\\r"
    case ';' => "\\;"
    case _ => [c]
  }

  function EscapeValue(s: string): string {
    if s == "" then "" else EscapedCharacter(s[0]) + EscapeValue(s[1..])
  }

  const RESERVED := " \t\n\"'\\<>~|&;$*?#()`"

  predicate Reserved(c: char) {
    c in RESERVED || c == '%'
  }

  predicate NeedsQuotes(argument: string) {
    argument == "" || exists i | 0 <= i < |argument| :: Reserved(argument[i])
  }

  function QuotedCharacter(c: char): string {
    if c == '\\' || c == '"' || c == '`' || c == '$' then ['\\', c]
    else if c == '%' then "%%"
    else [c]
  }

  function QuotedCharacters(s: string): string {
    if s == "" then "" else QuotedCharacter(s[0]) + QuotedCharacters(s[1..])
  }

  function QuotedArgument(argument: string): string {
    if NeedsQuotes(argument) then "\"" + QuotedCharacters(argument) + "\"" else argument
  }

  /** The names that a desktop entry can hold. */
  function Representable(names: seq<string>): seq<string> {
    if names == [] then []
    else if names[0] != "" && Printable(names[0]) then [names[0]] + Representable(names[1..])
    else Representable(names[1..])
  }

  function ActionIds(n: nat): string {
    if n == 0 then "new-window;" else ActionIds(n - 1) + "profile-" + Digits(n) + ";"
  }

  function MarkerRow(m: Marker): string {
    MarkerText(m) + "\n"
  }

  function ActionsRow(n: nat): string {
    "Actions=" + ActionIds(n) + "\n"
  }

  function HeadingRow(index: nat): string {
    ACTION_HEADING + ("profile-" + Digits(index) + "]\n")
  }

  function NameRow(name: string): string {
    "Name=" + EscapeValue(name) + "\n"
  }

  function ExecRow(executable: string, name: string): string {
    EXEC_KEY + QuotedArgument(executable) + " --new-window --profile " + QuotedArgument(name) + "\n"
  }

  const GENERATION_FLAG := " --zetta-profile-actions-generation "

  function MainRow(p: Launch): string {
    EXEC_KEY + (QuotedArgument(p.executable) + GENERATION_FLAG + Digits(p.generation) + "\n")
  }

  /** The groups of the profiles from number `index` on. */
  function GroupRows(executable: string, names: seq<string>, index: nat): seq<string> {
    if names == [] then []
    else
      ["\n", HeadingRow(index), NameRow(names[0]), ExecRow(executable, names[0])] +
      GroupRows(executable, names[1..], index + 1)
  }

  function ContentOf(p: Launch): Content<string> {
    var names := Representable(p.names);
    Content(
      [MarkerRow(ActionsBegin), ActionsRow(|names|), MarkerRow(ActionsEnd)],
      [MarkerRow(GroupsBegin)] + GroupRows(p.executable, names, 1) + [MarkerRow(GroupsEnd)],
      names != [],
      MainRow(p))
  }

  /** The lines of the rendered entry, if the entry can be rendered. */
  function Render(lines: seq<string>, p: Launch): Option<seq<string>> {
    if Printable(p.executable) then Rewrite(ENTRY, lines, ContentOf(p)) else None
  }

  // ----- Generated lines are what they look like

  /** A line the rewriter writes: printable, ended by one newline. */
  ghost predicate Generated(line: string) {
    line != "" && line[|line| - 1] == '\n' && Printable(line[..|line| - 1])
  }

  ghost predicate Unmarked(line: string) {
    ManagedBlocks.Unmarked(ENTRY, line)
  }

  lemma {:induction false} PrintableSum(a: string, b: string)
    ensures Printable(a + b) <==> Printable(a) && Printable(b)
  {
    assert forall i | 0 <= i < |a| :: (a + b)[i] == a[i];
    assert forall i | 0 <= i < |b| :: (a + b)[|a| + i] == b[i];
  }

  lemma {:induction false} DigitsPrintable(n: nat)
    ensures Printable(Digits(n))
    decreases n
  {
    if n >= 10 {
      DigitsPrintable(n / 10);
      DigitsPrintable(n % 10);
    }
  }

  lemma {:induction false} EscapedPrintable(s: string)
    requires Printable(s)
    ensures Printable(EscapeValue(s))
    decreases |s|
  {
    if s != "" {
      EscapedPrintable(s[1..]);
    }
  }

  lemma {:induction false} QuotedPrintable(s: string)
    requires Printable(s)
    ensures Printable(QuotedCharacters(s)) && Printable(QuotedArgument(s))
    decreases |s|
  {
    if s != "" {
      QuotedPrintable(s[1..]);
      PrintableSum(QuotedCharacter(s[0]), QuotedCharacters(s[1..]));
    }
    PrintableSum("\"", QuotedCharacters(s));
    PrintableSum("\"" + QuotedCharacters(s), "\"");
  }

  lemma {:induction false} ActionIdsPrintable(n: nat)
    ensures Printable(ActionIds(n))
    decreases n
  {
    if n > 0 {
      ActionIdsPrintable(n - 1);
      DigitsPrintable(n);
      hide Digits;
      PrintableSum(ActionIds(n - 1), "profile-");
      PrintableSum(ActionIds(n - 1) + "profile-", Digits(n));
      PrintableSum(ActionIds(n - 1) + "profile-" + Digits(n), ";");
    }
  }

  lemma {:induction false} RepresentableArePrintable(names: seq<string>)
    ensures forall name | name in Representable(names) :: Printable(name)
    decreases |names|
  {
    if names != [] {
      RepresentableArePrintable(names[1..]);
    }
  }

  lemma {:induction false} MarkerTextIs(m: Marker)
    ensures Printable(MarkerText(m)) && MarkerText(m)[0] == '#'
    ensures |MarkerText(m)| == match m
      case ActionsBegin => 37
      case ActionsEnd => 35
      case GroupsBegin => 36
      case GroupsEnd => 34
  {
  }

  /** A row is a marker exactly when its text is. */
  lemma {:induction false} RowIs(text: string)
    requires Printable(text)
    ensures Generated(text + "\n") && Stripped(text + "\n") == text
    ensures text == "" || text[0] != '#' ==> Unmarked(text + "\n")
  {
    var line := text + "\n";
    assert line[..|line| - 1] == text;
    if text != "" {
      assert !IsControl(text[|text| - 1]);
    }
    forall m: Marker { MarkerTextIs(m); }
    hide MarkerText;
  }

  lemma {:induction false} MarkerRowIs(m: Marker)
    ensures Generated(MarkerRow(m)) && Only(ENTRY, MarkerRow(m), m) && Plain(ENTRY, MarkerRow(m))
  {
    forall n: Marker { MarkerTextIs(n); }
    hide MarkerText;
    RowIs(MarkerText(m));
    assert MarkerRow(m)[0] == '#';
  }

  lemma {:induction false} ActionsRowIs(n: nat)
    ensures Generated(ActionsRow(n)) && Unmarked(ActionsRow(n)) && Plain(ENTRY, ActionsRow(n))
  {
    ActionIdsPrintable(n);
    hide ActionIds;
    PrintableSum("Actions=", ActionIds(n));
    RowIs("Actions=" + ActionIds(n));
    assert ActionsRow(n)[0] == 'A';
  }

  lemma {:induction false} HeadingRowIs(index: nat)
    ensures Generated(HeadingRow(index)) && Unmarked(HeadingRow(index)) && IsHeading(HeadingRow(index))
  {
    DigitsPrintable(index);
    var text := "profile-" + Digits(index) + "]";
    assert Printable("profile-") && Printable("]");
    hide Digits, Printable;
    PrintableSum("profile-", Digits(index));
    PrintableSum("profile-" + Digits(index), "]");
    HeadingStarts(text);
    HeadingStarts(text + "\n");
    PrintableSum(ACTION_HEADING, text);
    RowIs(ACTION_HEADING + text);
    assert HeadingRow(index) == ACTION_HEADING + text + "\n" by {
      assert "profile-" + Digits(index) + "]\n" == text + "\n";
    }
  }

  lemma {:induction false} HeadingStarts(rest: string)
    ensures IsHeading(ACTION_HEADING + rest) && (ACTION_HEADING + rest)[0] != '#' && Printable(ACTION_HEADING)
  {
    assert (ACTION_HEADING + rest)[..|ACTION_HEADING|] == ACTION_HEADING;
    assert (ACTION_HEADING + rest)[0] == '[';
  }

  lemma {:induction false} NameRowIs(name: string)
    requires Printable(name)
    ensures Generated(NameRow(name)) && Unmarked(NameRow(name))
  {
    EscapedPrintable(name);
    hide EscapeValue;
    PrintableSum("Name=", EscapeValue(name));
    RowIs("Name=" + EscapeValue(name));
  }

  lemma {:induction false} ExecRowIs(executable: string, name: string)
    requires Printable(executable) && Printable(name)
    ensures Generated(ExecRow(executable, name)) && Unmarked(ExecRow(executable, name))
  {
    QuotedPrintable(executable);
    QuotedPrintable(name);
    hide QuotedArgument;
    var front := EXEC_KEY + QuotedArgument(executable) + " --new-window --profile ";
    PrintableSum(EXEC_KEY, QuotedArgument(executable));
    PrintableSum(EXEC_KEY + QuotedArgument(executable), " --new-window --profile ");
    PrintableSum(front, QuotedArgument(name));
    assert (front + QuotedArgument(name))[0] == 'E';
    RowIs(front + QuotedArgument(name));
  }

  lemma {:induction false} KeyStarts(rest: string)
    ensures IsExec(EXEC_KEY + rest) && !IsHeading(EXEC_KEY + rest)
    ensures (EXEC_KEY + rest)[0] != '#' && Printable(EXEC_KEY)
  {
    assert (EXEC_KEY + rest)[..5] == EXEC_KEY;
    assert (EXEC_KEY + rest)[0] == 'E';
    assert ACTION_HEADING[0] == '[';
  }

  lemma {:induction false} FlagIsPrintable()
    ensures Printable(GENERATION_FLAG)
  {
  }

  lemma {:induction false} MainRowIs(p: Launch)
    requires Printable(p.executable)
    ensures Generated(MainRow(p)) && Unmarked(MainRow(p)) && IsExec(MainRow(p)) && !IsHeading(MainRow(p))
  {
    QuotedPrintable(p.executable);
    DigitsPrintable(p.generation);
    FlagIsPrintable();
    hide QuotedArgument, Digits, GENERATION_FLAG, Printable;
    var row := QuotedArgument(p.executable) + GENERATION_FLAG + Digits(p.generation);
    PrintableSum(QuotedArgument(p.executable), GENERATION_FLAG);
    PrintableSum(QuotedArgument(p.executable) + GENERATION_FLAG, Digits(p.generation));
    KeyStarts(row);
    KeyStarts(row + "\n");
    PrintableSum(EXEC_KEY, row);
    RowIs(EXEC_KEY + row);
    assert MainRow(p) == EXEC_KEY + row + "\n";
  }

  lemma {:induction false} BlankRowIs()
    ensures Generated("\n") && Unmarked("\n") && Plain(ENTRY, "\n")
  {
    RowIs("");
    assert "" + "\n" == "\n";
  }

  lemma {:induction false} GroupRowsAre(executable: string, names: seq<string>, index: nat)
    requires Printable(executable) && forall name | name in names :: Printable(name)
    ensures forall i | 0 <= i < |GroupRows(executable, names, index)| ::
      Generated(GroupRows(executable, names, index)[i]) && Unmarked(GroupRows(executable, names, index)[i])
    decreases |names|
  {
    hide Generated, Unmarked, Printable;
    if names != [] {
      BlankRowIs();
      HeadingRowIs(index);
      NameRowIs(names[0]);
      ExecRowIs(executable, names[0]);
      GroupRowsAre(executable, names[1..], index + 1);
    }
  }

  /** What is generated for any launch is well formed. */
  lemma {:induction false} ContentIsProper(p: Launch)
    requires Printable(p.executable)
    ensures Proper(ENTRY, ContentOf(p))
    ensures |ContentOf(p).actions| == 3 && forall i | 0 <= i < 3 :: Generated(ContentOf(p).actions[i])
    ensures forall i | 0 <= i < |ContentOf(p).groups| :: Generated(ContentOf(p).groups[i])
    ensures Generated(ContentOf(p).main)
  {
    hide Printable, Generated, MarkerText, Stripped, StartsWith, Representable;
    hide MarkerRow, ActionsRow, MainRow, HeadingRow, NameRow, ExecRow, IsMarker, IsHeading, IsExec;
    var names := Representable(p.names);
    forall m: Marker { MarkerRowIs(m); }
    ActionsRowIs(|names|);
    MainRowIs(p);
    RepresentableArePrintable(p.names);
    GroupRowsAre(p.executable, names, 1);
    BlankRowIs();
    HeadingRowIs(1);
  }

  // ----- Main results

  /** The lines around the groups block of an entry do not hold one main line before
      their first heading, which may be a heading of a profile of `q`. */
  predicate Refuses(lines: seq<string>, q: Launch) {
    MainDoc(ENTRY, Outer(ENTRY, lines), Representable(q.names) != [], MainRow(q)).None?
  }

  /** Last writer wins, exactly on the entries that do not nest the actions block in
      the groups block, or cannot be rendered for the last writer at all: rendering for
      `p`, then the result for `q`, is rendering for `q`, failure included. */
  lemma {:induction false} LastRenderingWins(lines: seq<string>, p: Launch, q: Launch, result: seq<string>)
    requires Render(lines, p) == Some(result)
    ensures Render(result, q) == Render(lines, q) <==>
      !Nested(ENTRY, lines) || !Printable(q.executable) || Refuses(lines, q)
  {
    hide Proper, Rewrite, Representable, Nested, MainDoc, Outer, MainRow, GroupRows;
    ContentIsProper(p);
    if Printable(q.executable) {
      ContentIsProper(q);
      LastWriterWins(ENTRY, lines, ContentOf(p), ContentOf(q), result);
    }
  }

  /** Between launches that both have profiles, or both have none, the last writer wins
      exactly on the entries that do not nest the actions block in the groups block. */
  lemma {:induction false} LastAlikeRenderingWins(lines: seq<string>, p: Launch, q: Launch, result: seq<string>)
    requires Render(lines, p) == Some(result) && Printable(q.executable)
    requires Representable(p.names) == [] <==> Representable(q.names) == []
    ensures Render(result, q) == Render(lines, q) <==> !Nested(ENTRY, lines)
  {
    hide Proper, Rewrite, Representable, Nested, MainRow, GroupRows;
    ContentIsProper(p);
    ContentIsProper(q);
    LastAlikeWins(ENTRY, lines, ContentOf(p), ContentOf(q), result);
  }

  /** Rendering is idempotent exactly on the same entries. */
  lemma {:induction false} RenderingIsIdempotent(lines: seq<string>, p: Launch, result: seq<string>)
    requires Render(lines, p) == Some(result)
    ensures Render(result, p) == Some(result) <==> !Nested(ENTRY, lines)
  {
    LastAlikeRenderingWins(lines, p, p, result);
  }

  /** Outside its blocks an entry changes in one line, its main `Exec=` line; a nested
      entry loses its actions block. */
  lemma {:induction false} RenderingKeepsTheRest(lines: seq<string>, p: Launch, result: seq<string>)
      returns (before: Doc<string>, after: Doc<string>, actions: seq<string>, groups: seq<string>)
    requires Render(lines, p) == Some(result)
    ensures lines == Assemble(before, actions, groups)
    ensures result == Assemble(after, if Nested(ENTRY, lines) then [] else ContentOf(p).actions, ContentOf(p).groups)
    ensures if Nested(ENTRY, lines) then actions == [] else Delimited(ENTRY, actions, ActionsBegin, ActionsEnd)
    ensures Delimited(ENTRY, groups, GroupsBegin, GroupsEnd)
    ensures before.actionsFirst == after.actionsFirst
    ensures OneReplaced(ENTRY, Rest(before), Rest(after), MainRow(p))
  {
    hide Proper, Rewrite, Nested, Delimited, OneReplaced, Assemble, GroupRows, Representable, MainRow;
    ContentIsProper(p);
    before, after, actions, groups := RewriteKeepsTheRest(ENTRY, lines, ContentOf(p), result);
  }

  /** An entry with the actions block nested in the groups block. */
  function NestedEntry(): seq<string> {
    ["Exec=zetta\n", MarkerRow(GroupsBegin), MarkerRow(ActionsBegin), MarkerRow(ActionsEnd), MarkerRow(GroupsEnd),
     HeadingRow(1)]
  }

  /** The nested entry is rendered once, and the result is refused. */
  lemma {:induction false} NestedEntryIsLost(p: Launch)
    requires Printable(p.executable) && Representable(p.names) == []
    ensures Nested(ENTRY, NestedEntry())
    ensures Render(NestedEntry(), p).Some?
    ensures Render(Render(NestedEntry(), p).value, p).None?
  {
    hide Printable, Generated, MarkerText, Stripped, StartsWith, Digits, Proper, Nested, Rewrite;
    forall m: Marker { MarkerRowIs(m); }
    HeadingRowIs(1);
    ContentIsProper(p);
    MainOfNested();
    hide MarkerRow, HeadingRow, MainRow, ActionsRow, IsMarker, IsHeading, IsExec;
    SmallestNested(ENTRY, NestedEntry(), ContentOf(p));
  }

  lemma {:induction false} MainOfNested()
    ensures IsExec("Exec=zetta\n") && !IsHeading("Exec=zetta\n") && Unmarked("Exec=zetta\n")
  {
    RowIs("Exec=zetta");
    assert "Exec=zetta" + "\n" == "Exec=zetta\n";
    assert "Exec=zetta\n"[..5] == EXEC_KEY;
  }
}
