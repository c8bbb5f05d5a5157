/** The actions that the managed entry lists, and the groups that describe them. */
module DesktopActions {
  import opened Text
  import opened ManagedBlocks
  import opened DesktopEntry

  // ----- Reading what is written

  function FirstSemicolon(s: string): (n: nat)
    ensures n <= |s| && (forall i | 0 <= i < n :: s[i] != ';') && (n < |s| ==> s[n] == ';')
  {
    if s == "" || s[0] == ';' then 0 else 1 + FirstSemicolon(s[1..])
  }

  /** The elements of a list, each ended by a semicolon. */
  function Elements(s: string): seq<string> {
    if s == "" then []
    else
      var n := FirstSemicolon(s);
      [s[..n]] + if n == |s| then [] else Elements(s[n + 1..])
  }

  /** The action that a line starts the group of. */
  function ActionOf(line: string): Option<string> {
    if StartsWith(line, "[Desktop Action ") && |line| >= 18 && line[|line| - 2..] == "]\n"
    then Some(line[16..|line| - 2])
    else None
  }

  /** The actions that have a group, in order. */
  function Groups(lines: seq<string>): seq<string> {
    if lines == [] then []
    else (if ActionOf(lines[0]).Some? then [ActionOf(lines[0]).value] else []) + Groups(lines[1..])
  }

  predicate IsDigit(c: char) {
    '0' <= c <= '9'
  }

  /** The number that decimal digits stand for. */
  function Value(s: string): nat
    requires forall i | 0 <= i < |s| :: IsDigit(s[i])
  {
    if s == "" then 0
    else
      assert IsDigit(s[|s| - 1]);
      10 * Value(s[..|s| - 1]) + (s[|s| - 1] as int - '0' as int)
  }

  // ----- Numbers

  lemma {:induction false} DigitsAre(n: nat)
    ensures Digits(n) != "" && forall i | 0 <= i < |Digits(n)| :: IsDigit(Digits(n)[i])
    ensures Value(Digits(n)) == n
    decreases n
  {
    if n < 10 {
      assert Digits(n)[..0] == "";
    } else {
      DigitsAre(n / 10);
      DigitsAre(n % 10);
      var s := Digits(n);
      assert s == Digits(n / 10) + Digits(n % 10) && |Digits(n % 10)| == 1;
      assert s[..|s| - 1] == Digits(n / 10) && s[|s| - 1] == Digits(n % 10)[0];
      assert Digits(n % 10)[..0] == "";
    }
  }

  function ProfileId(index: nat): string {
    "profile-" + Digits(index)
  }

  lemma {:induction false} ProfileIdIs(index: nat)
    ensures ';' !in ProfileId(index) && ProfileId(index) != "new-window"
    ensures ProfileId(index)[..8] == "profile-" && ProfileId(index)[8..] == Digits(index)
  {
    DigitsAre(index);
    hide Digits, Value;
    assert ProfileId(index)[0] == 'p' && "new-window"[0] == 'n';
  }

  lemma {:induction false} ProfileIdsDiffer(i: nat, j: nat)
    requires i != j
    ensures ProfileId(i) != ProfileId(j)
  {
    DigitsAre(i);
    DigitsAre(j);
    ProfileIdIs(i);
    ProfileIdIs(j);
    hide Digits, ProfileId;
  }

  // ----- The actions row

  lemma {:induction false} FirstIs(element: string, rest: string)
    requires ';' !in element
    ensures FirstSemicolon(element + ";" + rest) == |element|
    decreases |element|
  {
    var s := element + ";" + rest;
    if element == "" {
      assert s[0] == ';';
    } else {
      assert s[0] == element[0] && s[1..] == element[1..] + ";" + rest;
      FirstIs(element[1..], rest);
    }
  }

  lemma {:induction false} ElementThen(element: string, rest: string)
    requires ';' !in element
    ensures Elements(element + ";" + rest) == [element] + Elements(rest)
  {
    var s, n := element + ";" + rest, |element|;
    FirstIs(element, rest);
    assert s[..n] == element && s[n + 1..] == rest && n < |s|;
    hide FirstSemicolon;
  }

  /** Elements as they are written. */
  function Listed(elements: seq<string>): string {
    if elements == [] then "" else elements[0] + ";" + Listed(elements[1..])
  }

  lemma {:induction false} ListedReadsBack(elements: seq<string>)
    requires forall i | 0 <= i < |elements| :: ';' !in elements[i]
    ensures Elements(Listed(elements)) == elements
    decreases |elements|
  {
    if elements != [] {
      ListedReadsBack(elements[1..]);
      ElementThen(elements[0], Listed(elements[1..]));
      hide Elements;
      assert elements == [elements[0]] + elements[1..];
    }
  }

  lemma {:induction false} ListedLast(elements: seq<string>, last: string)
    ensures Listed(elements + [last]) == Listed(elements) + (last + ";")
    decreases |elements|
  {
    if elements == [] {
      assert ([] + [last])[1..] == [] && Listed([last]) == last + ";" + "";
      Sum("", last + ";", "");
    } else {
      assert (elements + [last])[1..] == elements[1..] + [last];
      ListedLast(elements[1..], last);
      Sum(elements[0] + ";", Listed(elements[1..]), last + ";");
    }
  }

  lemma {:induction false} Sum(a: string, b: string, c: string)
    ensures a + (b + c) == (a + b) + c && a + "" == a && "" + b == b
  {
  }

  /** The ids of the profiles from number `index` on. */
  function ProfileIds(index: nat, count: nat): (ids: seq<string>)
    ensures |ids| == count
  {
    seq(count, i requires 0 <= i < count => ProfileId(index + i))
  }

  /** The actions: a new window, and every profile. */
  function Actions(count: nat): seq<string> {
    ["new-window"] + ProfileIds(1, count)
  }

  lemma {:induction false} ActionsAreListed(n: nat)
    ensures ActionIds(n) == Listed(Actions(n))
    decreases n
  {
    hide Digits;
    if n == 0 {
      assert Actions(0) == ["new-window"] && ["new-window"][1..] == [];
      assert Listed(["new-window"]) == "new-window" + ";" + Listed([]);
    } else {
      ActionsAreListed(n - 1);
      assert Actions(n) == Actions(n - 1) + [ProfileId(n)];
      hide Actions, Listed;
      ListedLast(Actions(n - 1), ProfileId(n));
      IdStep(ActionIds(n - 1), Digits(n));
    }
  }

  lemma {:induction false} IdStep(front: string, digits: string)
    ensures front + "profile-" + digits + ";" == front + (("profile-" + digits) + ";")
  {
  }

  lemma {:induction false} ActionsAre(n: nat)
    ensures Elements(ActionIds(n)) == Actions(n)
  {
    ActionsAreListed(n);
    forall i | 0 <= i < |Actions(n)|
      ensures ';' !in Actions(n)[i]
    {
      if i > 0 {
        ProfileIdIs(i);
        assert Actions(n)[i] == ProfileId(i);
      }
      hide ProfileId;
    }
    hide Actions, Elements, ActionIds;
    ListedReadsBack(Actions(n));
  }

  // ----- The groups block

  lemma {:induction false} HeadingNames(index: nat)
    ensures ActionOf(HeadingRow(index)) == Some(ProfileId(index))
  {
    var row, id := HeadingRow(index), ProfileId(index);
    ProfileIdIs(index);
    hide Digits;
    assert row == ACTION_HEADING + (id + "]\n");
    assert row[..16] == ACTION_HEADING && row[|row| - 2..] == "]\n" && row[16..|row| - 2] == id;
  }

  lemma {:induction false} OthersNameNone(executable: string, name: string)
    ensures ActionOf("\n").None? && ActionOf(NameRow(name)).None? && ActionOf(ExecRow(executable, name)).None?
    ensures forall m: Marker :: ActionOf(MarkerRow(m)).None?
  {
    hide QuotedArgument, EscapeValue;
    assert NameRow(name)[0] == 'N' && ExecRow(executable, name)[0] == 'E' && "[Desktop Action "[0] == '[';
    forall m: Marker
      ensures ActionOf(MarkerRow(m)).None?
    {
      MarkerTextIs(m);
      hide MarkerText;
      assert MarkerRow(m)[0] == '#';
    }
  }

  lemma {:induction false} GroupsSum(a: seq<string>, b: seq<string>)
    ensures Groups(a + b) == Groups(a) + Groups(b)
    decreases |a|
  {
    hide ActionOf;
    if a == [] {
      assert a + b == b;
    } else {
      assert (a + b)[1..] == a[1..] + b;
      GroupsSum(a[1..], b);
    }
  }

  lemma {:induction false} GroupsOfProfile(executable: string, name: string, index: nat)
    ensures Groups(["\n", HeadingRow(index), NameRow(name), ExecRow(executable, name)]) == [ProfileId(index)]
  {
    OthersNameNone(executable, name);
    HeadingNames(index);
    hide ActionOf, HeadingRow, NameRow, ExecRow, ProfileId;
    var rows := ["\n", HeadingRow(index), NameRow(name), ExecRow(executable, name)];
    assert rows[1..] == [HeadingRow(index), NameRow(name), ExecRow(executable, name)];
    assert rows[1..][1..] == [NameRow(name), ExecRow(executable, name)];
    assert rows[1..][1..][1..] == [ExecRow(executable, name)] && rows[1..][1..][1..][1..] == [];
    assert Groups([ExecRow(executable, name)]) == [];
    assert Groups(rows[1..][1..]) == [];
    assert Groups(rows[1..]) == [ProfileId(index)];
  }

  lemma {:induction false} GroupsAre(executable: string, names: seq<string>, index: nat)
    ensures Groups(GroupRows(executable, names, index)) == ProfileIds(index, |names|)
    decreases |names|
  {
    hide Groups, HeadingRow, NameRow, ExecRow, ProfileId;
    if names == [] {
      assert Groups([]) == [] by { NoGroups(); }
    } else {
      GroupsAre(executable, names[1..], index + 1);
      GroupsOfProfile(executable, names[0], index);
      GroupsSum(["\n", HeadingRow(index), NameRow(names[0]), ExecRow(executable, names[0])],
                GroupRows(executable, names[1..], index + 1));
      assert ProfileIds(index, |names|) == [ProfileId(index)] + ProfileIds(index + 1, |names| - 1);
    }
  }

  lemma {:induction false} NoGroups()
    ensures Groups([]) == []
  {
  }

  /** Where the lines of profile `i` stand among the group rows. */
  lemma {:induction false} RowsOfProfile(executable: string, names: seq<string>, index: nat, i: nat)
    requires i < |names|
    ensures var rows := GroupRows(executable, names, index);
      && |rows| == 4 * |names| && rows[4 * i + 1] == HeadingRow(index + i)
      && rows[4 * i + 2] == NameRow(names[i]) && rows[4 * i + 3] == ExecRow(executable, names[i])
    decreases |names|
  {
    hide HeadingRow, NameRow, ExecRow;
    if i > 0 {
      RowsOfProfile(executable, names[1..], index + 1, i - 1);
    } else if |names| > 1 {
      RowsOfProfile(executable, names[1..], index + 1, 0);
    }
  }

  // ----- Main results

  lemma {:induction false} ContentParts(p: Launch)
    ensures var c, names := ContentOf(p), Representable(p.names);
      && c.actions[1] == "Actions=" + ActionIds(|names|) + "\n"
      && Groups(c.groups) == ProfileIds(1, |names|)
  {
    var names := Representable(p.names);
    GroupsAre(p.executable, names, 1);
    OthersNameNone("", "");
    hide Representable, GroupRows, MarkerRow, ActionOf, ActionIds;
    var front, rows, back := [MarkerRow(GroupsBegin)], GroupRows(p.executable, names, 1), [MarkerRow(GroupsEnd)];
    GroupsSum(front + rows, back);
    GroupsSum(front, rows);
    assert front[1..] == [] && back[1..] == [];
    assert [] + ProfileIds(1, |names|) + [] == ProfileIds(1, |names|);
  }

  /** The list of actions names a new window and then the groups of the groups block, in
      their order, each once; the groups are numbered from one. */
  lemma {:induction false} ActionsAreGroups(p: Launch)
    ensures var c := ContentOf(p);
      var row, actions := c.actions[1], Elements(c.actions[1][8..|c.actions[1]| - 1]);
      && row[..8] == "Actions=" && row[|row| - 1] == '\n'
      && actions == ["new-window"] + Groups(c.groups)
      && (forall i, j | 0 <= i < j < |actions| :: actions[i] != actions[j])
      && (forall i | 0 <= i < |Groups(c.groups)| :: Groups(c.groups)[i] == "profile-" + Digits(i + 1))
  {
    var names := Representable(p.names);
    ContentParts(p);
    ActionsAre(|names|);
    IdsDiffer(|names|);
    hide ContentOf, Representable, Groups, Elements, ActionIds, ProfileId;
    var row := ContentOf(p).actions[1];
    RowOf(ActionIds(|names|));
    assert row == "Actions=" + ActionIds(|names|) + "\n";
    forall i | 0 <= i < |names|
      ensures ProfileIds(1, |names|)[i] == "profile-" + Digits(i + 1)
    {
      ProfileIdText(i + 1);
    }
  }

  lemma {:induction false} ProfileIdText(index: nat)
    ensures ProfileId(index) == "profile-" + Digits(index)
  {
  }

  lemma {:induction false} RowOf(list: string)
    ensures var row := "Actions=" + list + "\n";
      row[..8] == "Actions=" && row[|row| - 1] == '\n' && row[8..|row| - 1] == list
  {
  }

  lemma {:induction false} IdsDiffer(count: nat)
    ensures forall i, j | 0 <= i < j < |Actions(count)| :: Actions(count)[i] != Actions(count)[j]
  {
    hide ProfileId;
    var actions := Actions(count);
    forall i, j | 0 <= i < j < |actions|
      ensures actions[i] != actions[j]
    {
      assert actions[j] == ProfileId(j) && (i > 0 ==> actions[i] == ProfileId(i));
      ProfileIdIs(j);
      ProfileIdsDiffer(i, j);
    }
  }

  /** The groups are those of the names that can be written, which are all that are not
      empty and hold no control character, in their order: group `i` is headed by its
      action and holds the name and the command of name `i`. */
  lemma {:induction false} GroupsDescribeNames(p: Launch)
    ensures Filtered(p.names, Representable(p.names), name => name != "" && Printable(name))
    ensures var groups, names := ContentOf(p).groups, Representable(p.names);
      && |Groups(groups)| == |names| && |groups| == 4 * |names| + 2
      && forall i | 0 <= i < |names| ::
           && ActionOf(groups[4 * i + 2]) == Some(Groups(groups)[i])
           && groups[4 * i + 3] == "Name=" + EscapeValue(names[i]) + "\n"
           && groups[4 * i + 4] == ExecRow(p.executable, names[i])
  {
    RepresentableFilters(p.names);
    ContentParts(p);
    hide Filtered, Groups, ActionOf, Representable, HeadingRow, ExecRow, EscapeValue, ActionIds, ContentOf;
    GroupsHaveSize(p);
    forall i | 0 <= i < |Representable(p.names)| {
      GroupIs(p, i);
    }
  }

  lemma {:induction false} GroupsHaveSize(p: Launch)
    ensures |ContentOf(p).groups| == 4 * |Representable(p.names)| + 2
  {
    hide Representable, MarkerRow, HeadingRow, NameRow, ExecRow;
    var names := Representable(p.names);
    if names == [] {
      assert |GroupRows(p.executable, names, 1)| == 0;
    } else {
      RowsOfProfile(p.executable, names, 1, 0);
    }
  }

  lemma {:induction false} GroupIs(p: Launch, i: nat)
    requires i < |Representable(p.names)|
    ensures |ContentOf(p).groups| == 4 * |Representable(p.names)| + 2
    ensures Groups(ContentOf(p).groups) == ProfileIds(1, |Representable(p.names)|)
    ensures var groups, names := ContentOf(p).groups, Representable(p.names);
      && ActionOf(groups[4 * i + 2]) == Some(Groups(groups)[i])
      && groups[4 * i + 3] == "Name=" + EscapeValue(names[i]) + "\n"
      && groups[4 * i + 4] == ExecRow(p.executable, names[i])
  {
    ContentParts(p);
    HeadingNames(1 + i);
    GroupsHaveSize(p);
    LinesOfGroup(p, i);
    hide Groups, ActionOf, Representable, HeadingRow, ExecRow, EscapeValue, ContentOf;
  }

  lemma {:induction false} LinesOfGroup(p: Launch, i: nat)
    requires i < |Representable(p.names)|
    ensures |ContentOf(p).groups| == 4 * |Representable(p.names)| + 2
    ensures var groups, name := ContentOf(p).groups, Representable(p.names)[i];
      && groups[4 * i + 2] == HeadingRow(1 + i) && groups[4 * i + 3] == NameRow(name)
      && groups[4 * i + 4] == ExecRow(p.executable, name)
  {
    GroupsHaveSize(p);
    hide Representable, MarkerRow, HeadingRow, NameRow, ExecRow, ActionIds, GroupRows;
    var names := Representable(p.names);
    RowsOfProfile(p.executable, names, 1, i);
    var front, rows, back := [MarkerRow(GroupsBegin)], GroupRows(p.executable, names, 1), [MarkerRow(GroupsEnd)];
    assert ContentOf(p).groups == front + rows + back;
    forall k | 0 <= k < |rows|
      ensures (front + rows + back)[k + 1] == rows[k]
    {
    }
  }

  lemma {:induction false} RepresentableFilters(names: seq<string>)
    ensures Filtered(names, Representable(names), name => name != "" && Printable(name))
    decreases |names|
  {
    hide Filtered, Printable;
    if names == [] {
      FilteredNone<string>(name => name != "" && Printable(name));
    } else {
      RepresentableFilters(names[1..]);
      FilteredNext(names, Representable(names[1..]), name => name != "" && Printable(name));
    }
  }

  /** The decimal digits of a number read back as the number. */
  lemma {:induction false} DigitsReadBack(n: nat)
    ensures (forall i | 0 <= i < |Digits(n)| :: IsDigit(Digits(n)[i])) && Value(Digits(n)) == n
  {
    DigitsAre(n);
  }
}
