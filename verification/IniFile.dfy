/** Setting keys in one section of an INI text. */
module IniFile {
  import opened Text
  import opened Sectioned

  datatype Setting = Setting(key: string, value: string)

  // ----- Lines

  /** The text before and after the first `c`. */
  function SplitOnce(s: string, c: char): (r: Option<(string, string)>)
    ensures r.Some? ==> s == r.value.0 + [c] + r.value.1 && c !in r.value.0
    ensures r.None? <==> c !in s
  {
    if s == "" then None
    else if s[0] == c then Some(("", s[1..]))
    else
      var rest := SplitOnce(s[1..], c);
      if rest.None? then None else Some(([s[0]] + rest.value.0, rest.value.1))
  }

  /** The name of the section that a line starts, if it starts one. */
  function Heading(line: string): Option<string> {
    var t := Trim(line);
    if |t| >= 2 && t[0] == '[' && t[|t| - 1] == ']' then Some(t[1..|t| - 1]) else None
  }

  /** The key and the value that a line sets, if it sets one. */
  function Entry(line: string): Option<Setting> {
    var parts := SplitOnce(Trim(line), '=');
    if parts.None? then None else Some(Setting(Trim(parts.value.0), Trim(parts.value.1)))
  }

  function Row(u: Setting): string {
    u.key + "=" + u.value
  }

  /** The first update for the key that a line sets, or the number of updates. */
  function Match(line: string, updates: seq<Setting>): (i: nat)
    ensures i <= |updates|
    ensures i < |updates| ==> Entry(line).Some? && Entry(line).value.key == updates[i].key
    ensures forall j | 0 <= j < i :: Entry(line).None? || Entry(line).value.key != updates[j].key
    decreases |updates|
  {
    if updates == [] then 0
    else if Entry(line).Some? && Entry(line).value.key == updates[0].key then 0
    else 1 + Match(line, updates[1..])
  }

  predicate Starts(line: string, section: string) {
    Heading(line) == Some(section)
  }

  predicate HasSection(lines: seq<string>, section: string) {
    exists i | 0 <= i < |lines| :: Starts(lines[i], section)
  }

  function Rows(updates: seq<Setting>): (rows: seq<string>)
    ensures |rows| == |updates|
  {
    seq(|updates|, i requires 0 <= i < |updates| => Row(updates[i]))
  }

  const HEADING_KIND: string -> bool := line => Heading(line).Some?

  /** Setting `updates` in each section of this name. */
  function SetIn(section: string, updates: seq<Setting>): Rules<string> {
    Rules(HEADING_KIND, line => Starts(line, section), line => Match(line, updates), Rows(updates))
  }

  /** The blank line that separates a new section from other text. */
  function BlankBefore(lines: seq<string>): seq<string> {
    if lines != [] && lines[|lines| - 1] != "" then [""] else []
  }

  function NewSection(lines: seq<string>, section: string, updates: seq<Setting>): seq<string> {
    BlankBefore(lines) + ["[" + section + "]"] + Rows(updates)
  }

  function UpdatedLines(lines: seq<string>, section: string, updates: seq<Setting>): seq<string> {
    if HasSection(lines, section) then Update(SetIn(section, updates), lines)
    else lines + NewSection(lines, section, updates)
  }

  /** A new section stands at the end, after one blank line unless the text is empty or
      ends with a blank line already; its rows follow its heading in their order. */
  lemma {:induction false} NewSectionIsApart(lines: seq<string>, section: string, updates: seq<Setting>)
    requires !HasSection(lines, section)
    ensures var out := UpdatedLines(lines, section, updates);
      var h := |out| - |updates| - 1;
      && h >= |lines| && out[..|lines|] == lines && out[h] == "[" + section + "]"
      && (forall i | 0 <= i < |updates| :: out[h + 1 + i] == updates[i].key + "=" + updates[i].value)
      && (h > 0 ==> out[h - 1] == "") && (h == |lines| || (h == |lines| + 1 && lines[|lines| - 1] != ""))
  {
    hide HasSection;
  }

  // ----- The update as the program does it

  method AppendIniUpdates(output: seq<string>, updates: seq<Setting>, seen: seq<bool>) returns (appended: seq<string>)
    requires |seen| == |updates|
    ensures appended == output + Unseen(Rows(updates), seen)
  {
    hide Row;
    appended := output;
    var rows := Rows(updates);
    for i := 0 to |updates|
      invariant appended + Unseen(rows[i..], seen[i..]) == output + Unseen(rows, seen)
    {
      assert rows[i..][1..] == rows[i + 1..] && seen[i..][1..] == seen[i + 1..];
      if !seen[i] {
        appended := appended + [Row(updates[i])];
      }
    }
  }

  /** `output` is what is written up to line `i`. */
  ghost predicate Written<T>(r: Rules<T>, lines: seq<T>, i: nat, output: seq<T>, inside: bool, seen: seq<bool>)
    requires i <= |lines| && |seen| == |r.rows|
  {
    output + UpdateFrom(r, lines[i..], inside, seen) == Update(r, lines)
  }

  lemma {:induction false} WrittenNext<T>(r: Rules<T>, lines: seq<T>, i: nat, output: seq<T>, inside: bool,
                                          seen: seq<bool>)
    requires i < |lines| && |seen| == |r.rows| && Written(r, lines, i, output, inside, seen)
    ensures var line := lines[i];
      if r.heading(line) then
        var enters := r.target(line);
        Written(r, lines, i + 1, (if inside then output + Unseen(r.rows, seen) else output) + [line],
                enters, if enters then NothingSeen(|r.rows|) else seen)
      else
        Written(r, lines, i + 1, output + [if inside then Rewritten(r, line) else line],
                inside, if inside then Marked(r, line, seen) else seen)
  {
    hide Update, Rewritten, Unseen, Marked, NothingSeen;
    assert lines[i..][0] == lines[i] && lines[i..][1..] == lines[i + 1..];
  }

  lemma {:induction false} WrittenAll<T>(r: Rules<T>, lines: seq<T>, output: seq<T>, inside: bool, seen: seq<bool>)
    requires |seen| == |r.rows| && Written(r, lines, |lines|, output, inside, seen)
    ensures Update(r, lines) == if inside then output + Unseen(r.rows, seen) else output
  {
    assert lines[|lines|..] == [];
  }

  lemma {:induction false} WrittenNone<T>(r: Rules<T>, lines: seq<T>)
    ensures Written(r, lines, 0, [], false, NothingSeen(|r.rows|))
  {
    assert lines[0..] == lines;
  }

  /** Whether the section was found among the first `i` lines; until then everything
      is copied. */
  ghost predicate Found(lines: seq<string>, section: string, i: nat, found: bool, output: seq<string>)
    requires i <= |lines|
  {
    && found == HasSection(lines[..i], section)
    && (!found ==> output == lines[..i])
  }

  lemma {:induction false} FoundNext(lines: seq<string>, section: string, i: nat, found: bool,
                                     output: seq<string>, output': seq<string>)
    requires i < |lines| && Found(lines, section, i, found, output)
    requires !Starts(lines[i], section) && !found ==> output' == output + [lines[i]]
    ensures Found(lines, section, i + 1, found || Starts(lines[i], section), output')
  {
    hide Starts;
    HasNext(lines, section, i);
    hide HasSection;
  }

  lemma {:induction false} HasNext(lines: seq<string>, section: string, i: nat)
    requires i < |lines|
    ensures HasSection(lines[..i + 1], section) <==> HasSection(lines[..i], section) || Starts(lines[i], section)
    ensures lines[..i + 1] == lines[..i] + [lines[i]]
  {
    hide Starts;
    assert forall j | 0 <= j < i :: lines[..i + 1][j] == lines[..i][j];
    assert lines[..i + 1][i] == lines[i];
  }

  lemma {:induction false} FoundNone(lines: seq<string>, section: string)
    ensures Found(lines, section, 0, false, [])
  {
  }

  lemma {:induction false} FoundAll(lines: seq<string>, section: string, found: bool, output: seq<string>)
    requires Found(lines, section, |lines|, found, output)
    ensures found == HasSection(lines, section) && (!found ==> output == lines)
  {
    assert lines[..|lines|] == lines;
  }

  method UpdateLines(lines: seq<string>, section: string, updates: seq<Setting>) returns (output: seq<string>)
    ensures output == UpdatedLines(lines, section, updates)
  {
    hide Heading, Match, Row, Unseen, HasSection, Update, Written, Found, NothingSeen, Rows;
    ghost var rules := SetIn(section, updates);
    output := [];
    var inSection := false;
    var seen := NothingSeen(|updates|);
    var foundSection := false;
    WrittenNone(rules, lines);
    FoundNone(lines, section);
    for i := 0 to |lines|
      invariant |seen| == |updates|
      invariant Found(lines, section, i, foundSection, output) && (!foundSection ==> !inSection)
      invariant Written(rules, lines, i, output, inSection, seen)
    {
      var line := lines[i];
      ghost var found, before := foundSection, output;
      WrittenNext(rules, lines, i, output, inSection, seen);
      if Heading(line).Some? {
        if inSection {
          output := AppendIniUpdates(output, updates, seen);
        }
        inSection := Heading(line).value == section;
        if inSection {
          foundSection := true;
          seen := NothingSeen(|updates|);
        }
        output := output + [line];
        FoundNext(lines, section, i, found, before, output);
        continue;
      }
      if inSection && Match(line, updates) < |updates| {
        var index := Match(line, updates);
        RowAt(updates, index);
        output := output + [Row(updates[index])];
        seen := seen[index := true];
        FoundNext(lines, section, i, found, before, output);
        continue;
      }
      output := output + [line];
      FoundNext(lines, section, i, found, before, output);
    }
    WrittenAll(rules, lines, output, inSection, seen);
    FoundAll(lines, section, foundSection, output);
    if inSection {
      output := AppendIniUpdates(output, updates, seen);
    }
    if !foundSection {
      if output != [] && output[|output| - 1] != "" {
        output := output + [""];
      }
      output := output + ["[" + section + "]"];
      output := AppendRows(output, updates);
    }
  }

  lemma {:induction false} RowAt(updates: seq<Setting>, i: nat)
    requires i < |updates|
    ensures Rows(updates)[i] == Row(updates[i])
  {
  }

  method AppendRows(output: seq<string>, updates: seq<Setting>) returns (appended: seq<string>)
    ensures appended == output + Rows(updates)
  {
    appended := output;
    for i := 0 to |updates|
      invariant appended == output + Rows(updates)[..i]
    {
      appended := appended + [Row(updates[i])];
    }
  }

  // ----- What a row says when it is read again

  /** A key that no line can set: it has whitespace around it or an equals sign in it, or
      an earlier update has the same key. */
  ghost predicate Unmatchable(updates: seq<Setting>, i: nat)
    requires i < |updates|
  {
    || Trim(updates[i].key) != updates[i].key || '=' in updates[i].key
    || exists j :: 0 <= j < i && updates[j].key == updates[i].key
  }

  /** Updates whose rows set their keys when they are read again: no key is unmatchable,
      and no row looks like a heading. */
  ghost predicate Settable(updates: seq<Setting>) {
    forall i | 0 <= i < |updates| :: !Unmatchable(updates, i) && Heading(Row(updates[i])).None?
  }

  lemma {:induction false} SplitStep(s: string, c: char)
    requires s != "" && s[0] != c && SplitOnce(s[1..], c).Some?
    ensures var rest := SplitOnce(s[1..], c).value;
      SplitOnce(s, c) == Some(([s[0]] + rest.0, rest.1))
  {
  }

  lemma {:induction false} SplitAtFirst(a: string, c: char, b: string)
    requires c !in a
    ensures SplitOnce(a + [c] + b, c) == Some((a, b))
    decreases |a|
  {
    var s := a + [c] + b;
    if a == "" {
      assert s == [c] + b && s[1..] == b;
    } else {
      SplitAtFirst(a[1..], c, b);
      assert s[0] == a[0] && s[1..] == a[1..] + [c] + b;
      hide SplitOnce;
      SplitStep(s, c);
      assert a == [a[0]] + a[1..];
    }
  }

  /** A row of a trimmed key without an equals sign is read as its key and its value,
      without whitespace around it. */
  lemma {:induction false} RowReads(u: Setting)
    requires Trim(u.key) == u.key && '=' !in u.key
    ensures Entry(Row(u)) == Some(Setting(u.key, Trim(u.value)))
  {
    assert !IsWhitespace('=');
    hide IsWhitespace;
    TrimIsTight(u.key);
    var front := u.key + ['='];
    assert front[0] == if u.key == "" then '=' else u.key[0];
    assert Row(u) == front + u.value;
    assert TrimStart(Row(u)) == Row(u);
    TrimEndAfter(front, u.value);
    SplitAtFirst(u.key, '=', TrimEnd(u.value));
    TrimAfterTrimEnd(u.value);
    hide Trim, TrimStart, TrimEnd, SplitOnce;
  }

  lemma {:induction false} EntryKeyIs(line: string)
    ensures Entry(line).Some? ==> Trim(Entry(line).value.key) == Entry(line).value.key && '=' !in Entry(line).value.key
  {
    var parts := SplitOnce(Trim(line), '=');
    hide SplitOnce, Trim;
    if parts.Some? {
      TrimIsTight(parts.value.0);
    }
  }

  /** No line sets an unmatchable key. */
  lemma {:induction false} NeverMatches(line: string, updates: seq<Setting>, i: nat)
    requires i < |updates| && Unmatchable(updates, i)
    ensures Match(line, updates) != i
  {
    EntryKeyIs(line);
    hide Entry, Trim;
    var m := Match(line, updates);
  }

  lemma {:induction false} MatchIs(line: string, updates: seq<Setting>, i: nat)
    requires i < |updates| && forall j | 0 <= j < |updates| :: !Unmatchable(updates, j)
    ensures Match(line, updates) == i <==> Entry(line).Some? && Entry(line).value.key == updates[i].key
  {
    hide Entry, Trim;
    var m := Match(line, updates);
    assert !Unmatchable(updates, i);
    assert m < |updates| ==> !Unmatchable(updates, m);
    assert m < i ==> updates[m].key != updates[i].key;
  }

  lemma {:induction false} RulesAreLawful(section: string, updates: seq<Setting>)
    requires Settable(updates)
    ensures Lawful(SetIn(section, updates))
  {
    hide Heading, Entry, Row, Trim;
    var r := SetIn(section, updates);
    forall i | 0 <= i < |r.rows|
      ensures r.find(r.rows[i]) == i && !r.heading(r.rows[i])
    {
      assert !Unmatchable(updates, i);
      RowReads(updates[i]);
      MatchIs(Row(updates[i]), updates, i);
    }
  }

  /** If some update cannot be set, its row is not found again by any row. */
  lemma {:induction false} UnsettableIsUnfindable(section: string, updates: seq<Setting>) returns (j: nat)
    requires !Settable(updates)
    ensures j < |updates| && Unfindable(SetIn(section, updates), j)
  {
    hide Heading, Entry, Row, Trim, Match;
    var r := SetIn(section, updates);
    if i: nat :| i < |updates| && Unmatchable(updates, i) {
      j := i;
      forall x | x in r.rows
        ensures Avoids(r, x, j)
      {
        NeverMatches(x, updates, j);
      }
    } else {
      j :| j < |updates| && Heading(Row(updates[j])).Some?;
      forall x | x in r.rows
        ensures Avoids(r, x, j)
      {
        var k :| 0 <= k < |updates| && Row(updates[k]) == x;
        assert !Unmatchable(updates, k) && !Unmatchable(updates, j);
        RowReads(updates[k]);
        MatchIs(x, updates, j);
        SameKeySameUpdate(updates, j, k);
      }
    }
  }

  lemma {:induction false} SameKeySameUpdate(updates: seq<Setting>, j: nat, k: nat)
    requires j < |updates| && k < |updates| && !Unmatchable(updates, j) && !Unmatchable(updates, k)
    ensures updates[j].key == updates[k].key ==> j == k
  {
    hide Trim;
  }

  // ----- Looking keys up

  /** The values that lines give to a key, in order. */
  function Values(body: seq<string>, key: string): seq<string> {
    if body == [] then []
    else
      (if Entry(body[0]).Some? && Entry(body[0]).value.key == key then [Entry(body[0]).value.value] else []) +
      Values(body[1..], key)
  }

  /** The values that a text gives to a key in all sections of a name, in order. */
  function Lookup(sections: seq<Section<string>>, section: string, key: string): seq<string> {
    if sections == [] then []
    else
      (if Starts(sections[0].heading, section) then Values(sections[0].body, key) else []) +
      Lookup(sections[1..], section, key)
  }

  ghost predicate Updates(updates: seq<Setting>, key: string) {
    exists i :: 0 <= i < |updates| && updates[i].key == key
  }

  /** The values of a key that is not updated are those of the lines that are kept. */
  lemma {:induction false} OtherValues(section: string, updates: seq<Setting>, body: seq<string>, key: string)
    requires !Updates(updates, key)
    ensures Values(body, key) == Values(Unmatched(SetIn(section, updates), body), key)
    decreases |body|
  {
    hide Heading, Entry, Rows;
    if body != [] {
      OtherValues(section, updates, body[1..], key);
      var rest := Unmatched(SetIn(section, updates), body[1..]);
      assert ([body[0]] + rest)[1..] == rest && [] + rest == rest;
      var m := Match(body[0], updates);
      assert m < |updates| ==> updates[m].key == Entry(body[0]).value.key;
    }
  }

  /** The values of an updated key, in lines that are settled, are all the new one. */
  lemma {:induction false} UpdatedValues(section: string, updates: seq<Setting>, body: seq<string>, i: nat)
    requires Settable(updates) && i < |updates| && Settled(SetIn(section, updates), body)
    ensures forall v | v in Values(body, updates[i].key) :: v == Trim(updates[i].value)
    ensures Sets(SetIn(section, updates), body, i) ==> Values(body, updates[i].key) != []
    decreases |body|
  {
    var r := SetIn(section, updates);
    if body == [] {
      SetsNothing(r, i);
    } else {
      assert Settled(r, body[1..]);
      UpdatedValues(section, updates, body[1..], i);
      SetsFirst(r, body, i);
      assert !Unmatchable(updates, i);
      MatchIs(body[0], updates, i);
      RowReads(updates[i]);
      hide Entry, Row, Heading, Sets, Trim, Unmatchable;
    }
  }

  // ----- Main results

  function DocumentOf(lines: seq<string>): Document<string> {
    Parse(HEADING_KIND, lines)
  }

  lemma {:induction false} HasSectionMeans(lines: seq<string>, section: string, updates: seq<Setting>)
    ensures HasSection(lines, section) <==> Targets(SetIn(section, updates), DocumentOf(lines).sections)
  {
    var r := SetIn(section, updates);
    hide Heading, Parse, Rows, Match;
    TargetsParsed(r, lines);
    hide Targets;
    if HasSection(lines, section) {
      var i :| 0 <= i < |lines| && Starts(lines[i], section);
      assert r.target(lines[i]);
    }
    if TargetsLine(r, lines) {
      var i :| 0 <= i < |lines| && r.target(lines[i]);
      assert Starts(lines[i], section);
    }
  }

  lemma {:induction false} NewHeading(section: string)
    ensures Heading("[" + section + "]") == Some(section)
  {
    var line := "[" + section + "]";
    assert line[0] == '[' && line[|line| - 1] == ']' && line[1..|line| - 1] == section;
    assert !IsWhitespace('[') && !IsWhitespace(']');
    TightIsTrimmed(line);
  }

  /** The document after an update: every section of the name updated and nothing else
      changed or, if there was none, a section with the rows added at the end. */
  function UpdatedDocument(lines: seq<string>, section: string, updates: seq<Setting>): Document<string> {
    var r, d := SetIn(section, updates), DocumentOf(lines);
    if HasSection(lines, section) then Document(d.preamble, UpdatedSections(r, d.sections))
    else
      Extended(d, BlankBefore(lines), Section("[" + section + "]", Rows(updates)))
  }

  lemma {:induction false} UpdatedDocumentIs(lines: seq<string>, section: string, updates: seq<Setting>)
    requires Settable(updates)
    ensures DocumentOf(UpdatedLines(lines, section, updates)) == UpdatedDocument(lines, section, updates)
  {
    hide Heading, Parse, Match, Settable, Extended, Update, UpdatedSections, HasSection;
    RulesAreLawful(section, updates);
    if HasSection(lines, section) {
      UpdateParsed(SetIn(section, updates), lines);
    } else {
      NewHeading(section);
      BlankIsPlain();
      RowsArePlain(section, updates);
      hide Rows, Plain;
      ExtendedParsed(HEADING_KIND, lines, BlankBefore(lines), "[" + section + "]", Rows(updates));
    }
  }

  lemma {:induction false} RowsArePlain(section: string, updates: seq<Setting>)
    requires Lawful(SetIn(section, updates))
    ensures Plain(HEADING_KIND, Rows(updates))
  {
    hide Heading;
  }

  lemma {:induction false} BlankIsPlain()
    ensures Plain(HEADING_KIND, [""]) && Plain(HEADING_KIND, [])
  {
  }

  /** After an update every section of the name, and there is one, gives every updated
      key its new value, without whitespace around it, and no other. */
  lemma {:induction false} ReadsBack(lines: seq<string>, section: string, updates: seq<Setting>, i: nat)
    requires Settable(updates) && i < |updates|
    ensures HasSection(UpdatedLines(lines, section, updates), section)
    ensures forall s | s in DocumentOf(UpdatedLines(lines, section, updates)).sections && Starts(s.heading, section) ::
      && Values(s.body, updates[i].key) != []
      && forall v | v in Values(s.body, updates[i].key) :: v == Trim(updates[i].value)
  {
    hide Heading, Parse, Rows, Match, Settable, Update, UpdatedBody, HasSection, DocumentOf, UpdatedLines;
    var r, d := SetIn(section, updates), DocumentOf(lines);
    var updated := DocumentOf(UpdatedLines(lines, section, updates)).sections;
    UpdatedDocumentIs(lines, section, updates);
    HasSectionMeans(lines, section, updates);
    HasSectionMeans(UpdatedLines(lines, section, updates), section, updates);
    RulesAreLawful(section, updates);
    StillTargets(lines, section, updates);
    forall s | s in updated && Starts(s.heading, section)
      ensures Values(s.body, updates[i].key) != []
      ensures forall v | v in Values(s.body, updates[i].key) :: v == Trim(updates[i].value)
    {
      var body := UpdatedTarget(lines, section, updates, s);
      UpdatedBodyIs(r, body);
      EveryRowSet(r, body, i);
      UpdatedValues(section, updates, s.body, i);
    }
  }

  /** The updated document still has a section of the name. */
  lemma {:induction false} StillTargets(lines: seq<string>, section: string, updates: seq<Setting>)
    ensures Targets(SetIn(section, updates), UpdatedDocument(lines, section, updates).sections)
  {
    hide Heading, Rows, Match, UpdatedBody, DocumentOf, HasSection;
    var r, d := SetIn(section, updates), DocumentOf(lines);
    var sections := UpdatedDocument(lines, section, updates).sections;
    HasSectionMeans(lines, section, updates);
    if HasSection(lines, section) {
      var j :| 0 <= j < |d.sections| && r.target(d.sections[j].heading);
      assert r.target(sections[j].heading);
    } else {
      NewHeading(section);
      assert r.target(sections[|sections| - 1].heading);
    }
  }

  /** Every section of the name is an updated one. */
  lemma {:induction false} UpdatedTarget(lines: seq<string>, section: string, updates: seq<Setting>, s: Section<string>)
      returns (body: seq<string>)
    requires Settable(updates)
    requires s in UpdatedDocument(lines, section, updates).sections && Starts(s.heading, section)
    ensures s.body == UpdatedBody(SetIn(section, updates), body)
  {
    hide Heading, Match, UpdatedBody, DocumentOf, HasSection, Settable;
    var r, d := SetIn(section, updates), DocumentOf(lines);
    var sections := UpdatedDocument(lines, section, updates).sections;
    HasSectionMeans(lines, section, updates);
    var j :| 0 <= j < |sections| && sections[j] == s;
    if HasSection(lines, section) {
      body := d.sections[j].body;
      assert r.target(d.sections[j].heading) == r.target(s.heading);
    } else {
      RulesAreLawful(section, updates);
      RowsAreUpdated(r);
      body := Rows(updates);
      NotATarget(d.sections, section, updates, s, j);
    }
  }

  lemma {:induction false} NotATarget(sections: seq<Section<string>>, section: string, updates: seq<Setting>,
                                      s: Section<string>, j: nat)
    requires !Targets(SetIn(section, updates), sections) && Starts(s.heading, section)
    ensures j < |sections| ==> sections[j].heading != s.heading
  {
    var r := SetIn(section, updates);
    assert j < |sections| ==> !r.target(sections[j].heading);
  }

  lemma {:induction false} LookupSum(a: seq<Section<string>>, b: seq<Section<string>>, section: string, key: string)
    ensures Lookup(a + b, section, key) == Lookup(a, section, key) + Lookup(b, section, key)
    decreases |a|
  {
    hide Starts, Values;
    if a == [] {
      assert a + b == b;
    } else {
      assert (a + b)[1..] == a[1..] + b;
      LookupSum(a[1..], b, section, key);
    }
  }

  lemma {:induction false} ValuesSum(a: seq<string>, b: seq<string>, key: string)
    ensures Values(a + b, key) == Values(a, key) + Values(b, key)
    decreases |a|
  {
    hide Entry;
    if a == [] {
      assert a + b == b;
    } else {
      assert (a + b)[1..] == a[1..] + b;
      ValuesSum(a[1..], b, key);
    }
  }

  lemma {:induction false} OtherLookup(sections: seq<Section<string>>, section: string, updates: seq<Setting>,
                                       section': string, key: string)
    requires Settable(updates) && (section' != section || !Updates(updates, key))
    ensures Lookup(UpdatedSections(SetIn(section, updates), sections), section', key) == Lookup(sections, section', key)
    decreases |sections|
  {
    hide Heading, Rows, Match, Settable, UpdatedBody, Values, Updates;
    if sections != [] {
      var r, s := SetIn(section, updates), sections[0];
      OtherLookup(sections[1..], section, updates, section', key);
      assert UpdatedSections(r, sections)[1..] == UpdatedSections(r, sections[1..]);
      if Starts(s.heading, section) && section' == section {
        RulesAreLawful(section, updates);
        UpdatedBodyIs(r, s.body);
        OtherValues(section, updates, s.body, key);
        OtherValues(section, updates, UpdatedBody(r, s.body), key);
      }
    }
  }

  lemma {:induction false} ExtendedLookup(d: Document<string>, more: seq<string>, added: Section<string>,
                                          section: string, key: string)
    requires Values(more, key) == [] && (Starts(added.heading, section) ==> Values(added.body, key) == [])
    ensures Lookup(Extended(d, more, added).sections, section, key) == Lookup(d.sections, section, key)
  {
    hide Starts, Values;
    LookupOne(added, section, key);
    if d.sections != [] {
      var n := |d.sections| - 1;
      var last := d.sections[n];
      var longer := last.(body := last.body + more);
      assert d.sections == d.sections[..n] + [last] && [longer, added] == [longer] + [added];
      LookupSum(d.sections[..n], [last], section, key);
      LookupSum(d.sections[..n], [longer, added], section, key);
      LookupSum([longer], [added], section, key);
      LookupOne(last, section, key);
      LookupOne(longer, section, key);
      ValuesSum(last.body, more, key);
    }
  }

  lemma {:induction false} LookupOne(s: Section<string>, section: string, key: string)
    ensures Lookup([s], section, key) == if Starts(s.heading, section) then Values(s.body, key) else []
  {
    hide Starts, Values;
    assert [s][1..] == [];
  }

  lemma {:induction false} NewRowsLookup(section: string, updates: seq<Setting>, key: string)
    requires Settable(updates) && !Updates(updates, key)
    ensures Values(Rows(updates), key) == []
  {
    hide Heading, Settable, Updates, Rows, Match;
    var r := SetIn(section, updates);
    RulesAreLawful(section, updates);
    assert r.rows[0..] == r.rows;
    RowsUnmatched(r, 0);
    OtherValues(section, updates, Rows(updates), key);
  }

  lemma {:induction false} RowsUnmatched<T>(r: Rules<T>, from: nat)
    requires Lawful(r) && from <= |r.rows|
    ensures Unmatched(r, r.rows[from..]) == []
    decreases |r.rows| - from
  {
    if from < |r.rows| {
      assert r.rows[from..][1..] == r.rows[from + 1..];
      RowsUnmatched(r, from + 1);
    }
  }

  lemma {:induction false} NoValues(lines: seq<string>, key: string)
    ensures Values(BlankBefore(lines), key) == []
  {
    assert [""][1..] == [];
    assert Entry("").None?;
  }

  /** All other lookups, in this section and in others, give what they gave. */
  lemma {:induction false} OtherLookupsUnchanged(lines: seq<string>, section: string, updates: seq<Setting>,
                                                 section': string, key: string)
    requires Settable(updates) && (section' != section || !Updates(updates, key))
    ensures Lookup(DocumentOf(UpdatedLines(lines, section, updates)).sections, section', key) ==
      Lookup(DocumentOf(lines).sections, section', key)
  {
    hide Heading, Settable, UpdatedLines, Values, Lookup, DocumentOf, HasSection, Extended;
    hide UpdatedSections, Updates, Rows;
    UpdatedDocumentIs(lines, section, updates);
    OtherLookup(DocumentOf(lines).sections, section, updates, section', key);
    NewHeading(section);
    NoValues(lines, key);
    if !Updates(updates, key) {
      NewRowsLookup(section, updates, key);
    }
    if !HasSection(lines, section) {
      ExtendedLookup(DocumentOf(lines), BlankBefore(lines), Section("[" + section + "]", Rows(updates)), section', key);
    }
  }

  /** Where the section exists, no line outside it changes, and inside it no line that
      sets no updated key; headings keep their places. */
  lemma {:induction false} OtherLinesUnchanged(lines: seq<string>, section: string, updates: seq<Setting>)
    requires Settable(updates) && HasSection(lines, section)
    ensures var d, d' := DocumentOf(lines), DocumentOf(UpdatedLines(lines, section, updates));
      && d'.preamble == d.preamble && |d'.sections| == |d.sections|
      && forall j | 0 <= j < |d.sections| ::
           && d'.sections[j].heading == d.sections[j].heading
           && (Starts(d.sections[j].heading, section) ==>
                 Unmatched(SetIn(section, updates), d'.sections[j].body) ==
                 Unmatched(SetIn(section, updates), d.sections[j].body))
           && (!Starts(d.sections[j].heading, section) ==> d'.sections[j] == d.sections[j])
  {
    hide Heading, Settable, UpdatedLines, DocumentOf, HasSection, UpdatedBody, Unmatched;
    var r, d := SetIn(section, updates), DocumentOf(lines);
    UpdatedDocumentIs(lines, section, updates);
    RulesAreLawful(section, updates);
    forall j | 0 <= j < |d.sections| {
      UpdatedBodyIs(r, d.sections[j].body);
    }
  }

  lemma {:induction false} SettableIsIdempotent(lines: seq<string>, section: string, updates: seq<Setting>)
    requires Settable(updates)
    ensures var once := UpdatedLines(lines, section, updates);
      UpdatedLines(once, section, updates) == once
  {
    hide Heading, Settable, DocumentOf, HasSection, Update, UpdatedDocument, Targets;
    var r, once := SetIn(section, updates), UpdatedLines(lines, section, updates);
    RulesAreLawful(section, updates);
    UpdatedDocumentIs(lines, section, updates);
    StillTargets(lines, section, updates);
    HasSectionMeans(once, section, updates);
    if HasSection(lines, section) {
      UpdateTwice(r, lines);
    } else {
      NewSectionStays(lines, section, updates);
    }
  }

  lemma {:induction false} NewSectionStays(lines: seq<string>, section: string, updates: seq<Setting>)
    requires Settable(updates) && !HasSection(lines, section)
    ensures var once := UpdatedLines(lines, section, updates);
      Update(SetIn(section, updates), once) == once
  {
    hide Heading, Settable, HasSection, Update, Targets, UpdatedBody, UpdatedLines;
    var r, d, once := SetIn(section, updates), DocumentOf(lines), UpdatedLines(lines, section, updates);
    RulesAreLawful(section, updates);
    HasSectionMeans(lines, section, updates);
    UpdatedDocumentIs(lines, section, updates);
    UpdateIsBySection(r, once);
    ParseIs(HEADING_KIND, once);
    RowsAreUpdated(r);
    ExtendedStays(r, d, BlankBefore(lines), Section("[" + section + "]", Rows(updates)));
  }

  lemma {:induction false} ExtendedStays<T>(r: Rules<T>, d: Document<T>, more: seq<T>, added: Section<T>)
    requires !Targets(r, d.sections) && UpdatedBody(r, added.body) == added.body
    ensures UpdatedSections(r, Extended(d, more, added).sections) == Extended(d, more, added).sections
  {
    hide UpdatedBody;
    assert forall j | 0 <= j < |d.sections| :: !r.target(d.sections[j].heading);
  }

  lemma {:induction false} SectionIsTarget(lines: seq<string>, section: string, updates: seq<Setting>)
    ensures HasSection(lines, section) <==> TargetsLine(SetIn(section, updates), lines)
  {
    hide Starts, Match, Rows;
    var r := SetIn(section, updates);
    if HasSection(lines, section) {
      var k :| 0 <= k < |lines| && Starts(lines[k], section);
      assert r.target(lines[k]);
    }
    if TargetsLine(r, lines) {
      var k :| 0 <= k < |lines| && r.target(lines[k]);
      assert Starts(lines[k], section);
    }
  }

  lemma {:induction false} NoLineMatches(section: string, updates: seq<Setting>, lines: seq<string>, inside: bool,
                                         j: nat)
    requires j < |updates| && Unmatchable(updates, j)
    ensures Missing(SetIn(section, updates), lines, inside, j)
    decreases |lines|
  {
    hide Heading, Match, Rows, Unmatchable;
    if lines != [] {
      NeverMatches(lines[0], updates, j);
      var r := SetIn(section, updates);
      NoLineMatches(section, updates, lines[1..], if r.heading(lines[0]) then r.target(lines[0]) else inside, j);
    }
  }

  /** With an unmatchable key every update of a text that has the section makes it longer. */
  lemma {:induction false} UnmatchableKeyGrows(lines: seq<string>, section: string, updates: seq<Setting>, j: nat)
    requires j < |updates| && Unmatchable(updates, j) && HasSection(lines, section)
    ensures |UpdatedLines(lines, section, updates)| > |lines|
  {
    hide Heading, Match, Rows, Unmatchable, TargetsLine, UpdateFrom, HasSection, Missing;
    var r := SetIn(section, updates);
    SectionIsTarget(lines, section, updates);
    NoLineMatches(section, updates, lines, false, j);
    MissingGrows(r, lines, false, NothingSeen(|r.rows|), j);
  }

  /** If some update cannot be set, updating an updated text makes it longer. */
  lemma {:induction false} UnsettableGrows(lines: seq<string>, section: string, updates: seq<Setting>)
    requires !Settable(updates)
    ensures var once := UpdatedLines(lines, section, updates);
      |UpdatedLines(once, section, updates)| > |once|
  {
    hide Heading, Match, Rows, Settable, Unfindable, TargetsLine, Update, HasSection;
    var r, once := SetIn(section, updates), UpdatedLines(lines, section, updates);
    var j := UnsettableIsUnfindable(section, updates);
    SectionIsTarget(lines, section, updates);
    SectionIsTarget(once, section, updates);
    if HasSection(lines, section) {
      UnfindableGrows(r, lines, j);
    } else {
      NewHeading(section);
      BlankIsPlain();
      NewSectionGrows(r, lines, BlankBefore(lines), "[" + section + "]", j);
    }
  }

  /** Updating again changes nothing, exactly when every update can be set. */
  lemma {:induction false} UpdatingIsIdempotent(lines: seq<string>, section: string, updates: seq<Setting>)
    ensures var once := UpdatedLines(lines, section, updates);
      UpdatedLines(once, section, updates) == once <==> Settable(updates)
  {
    hide Settable, UpdatedLines;
    if Settable(updates) {
      SettableIsIdempotent(lines, section, updates);
    } else {
      UnsettableGrows(lines, section, updates);
    }
  }
}
