/** Reading back the values that the rewriter quotes and escapes: the value rules of
    the freedesktop.org Desktop Entry Specification, sections "Possible value types"
    and "The Exec key". */
module ExecQuoting {
  import opened Text
  import opened DesktopEntry

  // ----- The program's loops

  method QuoteExecArgument(argument: string) returns (quoted: string)
    ensures quoted == QuotedArgument(argument)
  {
    if !NeedsQuotes(argument) {
      return argument;
    }
    hide QuotedCharacter, NeedsQuotes;
    quoted := "\"";
    for i := 0 to |argument|
      invariant quoted + QuotedCharacters(argument[i..]) == "\"" + QuotedCharacters(argument)
    {
      assert argument[i..][1..] == argument[i + 1..];
      quoted := quoted + QuotedCharacter(argument[i]);
    }
    quoted := quoted + "\"";
  }

  method EscapeDesktopString(value: string) returns (escaped: string)
    ensures escaped == EscapeValue(value)
  {
    hide EscapedCharacter;
    escaped := "";
    for i := 0 to |value|
      invariant escaped + EscapeValue(value[i..]) == EscapeValue(value)
    {
      assert value[i..][1..] == value[i + 1..];
      escaped := escaped + EscapedCharacter(value[i]);
    }
  }

  lemma {:induction false} QuotedIsLonger(s: string)
    ensures |QuotedCharacters(s)| >= |s|
    decreases |s|
  {
    if s != "" {
      QuotedIsLonger(s[1..]);
    }
  }

  /** An argument is written as it is exactly when it is not empty and none of its
      characters is reserved. */
  lemma {:induction false} QuotesExactly(argument: string)
    ensures QuotedArgument(argument) == argument <==>
      argument != "" && forall c | c in argument :: c !in " \t\n\"'\\<>~|&;$*?#()`%"
  {
    QuotedIsLonger(argument);
    forall c: char
      ensures Reserved(c) <==> c in " \t\n\"'\\<>~|&;$*?#()`%"
    {
      ReservedIs(c);
    }
    hide Reserved, QuotedCharacters;
    assert NeedsQuotes(argument) ==> |QuotedArgument(argument)| > |argument|;
  }

  lemma {:induction false} ReservedIs(c: char)
    ensures Reserved(c) <==> c in " \t\n\"'\\<>~|&;$*?#()`%"
  {
    assert " \t\n\"'\\<>~|&;$*?#()`%" == RESERVED + "%";
  }

  // ----- Reading a value

  function Cons(c: char, s: Option<string>): Option<string> {
    if s.None? then None else Some([c] + s.value)
  }

  /** The character that `\c` stands for in a value of type string; in a list,
      `\;` is a semicolon. */
  function Escaped(c: char, list: bool): Option<char> {
    if c == 's' then Some(' ')
    else if c == 'n' then Some('\n')
    else if c == 't' then Some('\t')
    else if c == 'r' then Some('\r')
    else if c == '\\' then Some('\\')
    else if c == ';' && list then Some(';')
    else None
  }

  /** The value that a text of the file stands for, unless it holds an escape that
      is not defined. */
  function ReadValue(s: string, list: bool): Option<string> {
    if s == "" then Some("")
    else if s[0] != '\\' then Cons(s[0], ReadValue(s[1..], list))
    else if |s| == 1 || Escaped(s[1], list).None? then None
    else Cons(Escaped(s[1], list).value, ReadValue(s[2..], list))
  }

  /** One escaped character is read back before anything else. */
  lemma {:induction false} CharacterReadsBack(c: char, rest: string, list: bool)
    ensures ReadValue(EscapedCharacter(c) + rest, list) ==
      if c == ';' && !list then None else Cons(c, ReadValue(rest, list))
  {
    var e := EscapedCharacter(c);
    var text := e + rest;
    assert text[|e|..] == rest && text[0] == e[0] && (|e| == 2 ==> text[1] == e[1]);
  }

  lemma {:induction false} ValueReadsBack(value: string)
    ensures ReadValue(EscapeValue(value), true) == Some(value)
    ensures ReadValue(EscapeValue(value), false) == if ';' in value then None else Some(value)
    decreases |value|
  {
    hide EscapedCharacter;
    if value != "" {
      ValueReadsBack(value[1..]);
      CharacterReadsBack(value[0], EscapeValue(value[1..]), true);
      CharacterReadsBack(value[0], EscapeValue(value[1..]), false);
      assert value == [value[0]] + value[1..];
    }
  }

  // ----- Reading an entry

  function DropSpaces(s: string): string {
    if s != "" && s[0] == ' ' then DropSpaces(s[1..]) else s
  }

  /** The value of an entry with this text after its equals sign: spaces in front do not
      belong to it. */
  function ReadEntry(text: string, list: bool): Option<string> {
    ReadValue(DropSpaces(text), list)
  }

  /** No character but a space is escaped to something that starts with one. */
  lemma {:induction false} DroppedSpaces(value: string)
    ensures DropSpaces(EscapeValue(value)) == EscapeValue(DropSpaces(value))
    decreases |value|
  {
    if value != "" {
      var rest := EscapeValue(value[1..]);
      assert EscapeValue(value)[0] == EscapedCharacter(value[0])[0];
      if value[0] == ' ' {
        assert EscapeValue(value)[1..] == rest;
        DroppedSpaces(value[1..]);
      }
    }
  }

  lemma {:induction false} DroppedAll(s: string)
    ensures DropSpaces(s) == s <==> s == "" || s[0] != ' '
    ensures |DropSpaces(s)| <= |s| && (';' in DropSpaces(s) <==> ';' in s)
    decreases |s|
  {
    if s != "" && s[0] == ' ' {
      DroppedAll(s[1..]);
    }
  }

  /** How an escaped name is read from its entry: without the spaces that it starts with,
      and not at all as a string with a semicolon.  So a list starts with the name exactly
      when it does not start with a space, and a string is the name exactly when it has no
      semicolon either. */
  lemma {:induction false} NameReadsBack(name: string)
    ensures ReadEntry(EscapeValue(name), true) == Some(DropSpaces(name))
    ensures ReadEntry(EscapeValue(name), false) == if ';' in name then None else Some(DropSpaces(name))
    ensures ReadEntry(EscapeValue(name), true) == Some(name) <==> name == "" || name[0] != ' '
    ensures ReadEntry(EscapeValue(name), false) == Some(name) <==> ';' !in name && (name == "" || name[0] != ' ')
  {
    DroppedSpaces(name);
    DroppedAll(name);
    hide DropSpaces, EscapeValue, ReadValue;
    ValueReadsBack(DropSpaces(name));
  }

  /** A name that loses its first character. */
  lemma {:induction false} LeadingSpaceIsLost()
    ensures ReadEntry(EscapeValue(" foo"), false) == Some("foo")
  {
    NameReadsBack(" foo");
    assert " foo"[1..] == "foo" && "foo"[0] == 'f';
    DroppedAll("foo");
  }

  // ----- Reading a command

  predicate Special(c: char) {
    c == '\\' || c == '"' || c == '`' || c == '$'
  }

  datatype Read = Failed | Read(value: string, rest: string)

  function Put(c: char, r: Read): Read {
    if r.Failed? then Failed else Read([c] + r.value, r.rest)
  }

  /** Read a quoted argument, from after its opening quote. */
  function ReadQuoted(s: string): (r: Read)
    ensures r.Read? ==> |r.rest| < |s|
  {
    if s == "" then Failed
    else if s[0] == '"' then Read("", s[1..])
    else if s[0] == '\\' then
      if |s| > 1 && Special(s[1]) then Put(s[1], ReadQuoted(s[2..])) else Failed
    else if s[0] == '%' then
      if |s| > 1 && s[1] == '%' then Put('%', ReadQuoted(s[2..])) else Failed
    else if Special(s[0]) then Failed
    else Put(s[0], ReadQuoted(s[1..]))
  }

  /** Read an argument that is not quoted. */
  function ReadPlain(s: string): (r: Read)
    ensures r.Read? ==> |r.rest| <= |s|
  {
    if s == "" || s[0] == ' ' then Read("", s)
    else if Reserved(s[0]) then Failed
    else Put(s[0], ReadPlain(s[1..]))
  }

  function ReadArgument(s: string): (r: Read)
    ensures r.Read? ==> |r.rest| <= |s|
  {
    if s != "" && s[0] == '"' then ReadQuoted(s[1..]) else ReadPlain(s)
  }

  /** The arguments of a command, separated by single spaces. */
  function ReadCommand(s: string): Option<seq<string>>
    decreases |s|
  {
    var first := ReadArgument(s);
    if first.Failed? then None
    else if first.rest == "" then Some([first.value])
    else if first.rest[0] != ' ' then None
    else
      var rest := ReadCommand(first.rest[1..]);
      if rest.None? then None else Some([first.value] + rest.value)
  }

  function QuotedArguments(arguments: seq<string>): (r: seq<string>)
    ensures |r| == |arguments|
  {
    seq(|arguments|, i requires 0 <= i < |arguments| => QuotedArgument(arguments[i]))
  }

  lemma {:induction false} QuotedCharacterReadsBack(c: char, tail: string)
    ensures ReadQuoted(QuotedCharacter(c) + tail) == Put(c, ReadQuoted(tail))
  {
    var q := QuotedCharacter(c);
    var text := q + tail;
    assert text[|q|..] == tail && text[0] == q[0] && (|q| == 2 ==> text[1] == q[1]);
  }

  lemma {:induction false} QuotedReadsBack(s: string, rest: string)
    ensures ReadQuoted(QuotedCharacters(s) + "\"" + rest) == Read(s, rest)
    decreases |s|
  {
    hide QuotedCharacter;
    if s == "" {
      assert "" + "\"" + rest == ['"'] + rest && (['"'] + rest)[1..] == rest;
    } else {
      QuotedReadsBack(s[1..], rest);
      hide ReadQuoted;
      var tail := QuotedCharacters(s[1..]) + "\"" + rest;
      QuotedCharacterReadsBack(s[0], tail);
      assert QuotedCharacters(s) + "\"" + rest == QuotedCharacter(s[0]) + tail;
      assert s == [s[0]] + s[1..];
    }
  }

  lemma {:induction false} SpaceAndQuoteReserved()
    ensures Reserved(' ') && Reserved('"')
  {
    assert RESERVED[0] == ' ' && RESERVED[3] == '"';
  }

  lemma {:induction false} PlainStep(c: char, rest: string)
    requires !Reserved(c)
    ensures ReadPlain([c] + rest) == Put(c, ReadPlain(rest))
  {
    hide Reserved;
    SpaceAndQuoteReserved();
    assert ([c] + rest)[1..] == rest;
  }

  lemma {:induction false} PlainEnds(rest: string)
    requires rest == "" || rest[0] == ' '
    ensures ReadPlain(rest) == Read("", rest)
  {
  }

  lemma {:induction false} PlainReadsBack(s: string, rest: string)
    requires forall i | 0 <= i < |s| :: !Reserved(s[i])
    requires rest == "" || rest[0] == ' '
    ensures ReadPlain(s + rest) == Read(s, rest)
    decreases |s|
  {
    hide Reserved, ReadPlain;
    if s == "" {
      assert s + rest == rest;
      PlainEnds(rest);
    } else {
      PlainReadsBack(s[1..], rest);
      PlainStep(s[0], s[1..] + rest);
      assert s == [s[0]] + s[1..];
      assert s + rest == [s[0]] + (s[1..] + rest);
    }
  }

  lemma {:induction false} ArgumentReadsBack(argument: string, rest: string)
    requires rest == "" || rest[0] == ' '
    ensures ReadArgument(QuotedArgument(argument) + rest) == Read(argument, rest)
  {
    hide Reserved, NeedsQuotes, QuotedCharacters, ReadQuoted, ReadPlain;
    if NeedsQuotes(argument) {
      QuotedReadsBack(argument, rest);
      InQuotes(QuotedCharacters(argument), rest);
    } else {
      PlainStarts(argument);
      PlainReadsBack(argument, rest);
      assert (argument + rest)[0] == argument[0];
    }
  }

  lemma {:induction false} InQuotes(s: string, rest: string)
    ensures ReadArgument("\"" + s + "\"" + rest) == ReadQuoted(s + "\"" + rest)
  {
    hide ReadQuoted, ReadPlain;
    var text := s + "\"" + rest;
    assert "\"" + s + "\"" + rest == ['"'] + text;
    assert (['"'] + text)[1..] == text;
  }

  lemma {:induction false} PlainStarts(argument: string)
    requires !NeedsQuotes(argument)
    ensures argument != "" && argument[0] != '"' && forall i | 0 <= i < |argument| :: !Reserved(argument[i])
  {
    hide Reserved;
    SpaceAndQuoteReserved();
  }

  /** The quoting rule undoes the quoting: any arguments, each quoted and joined by
      spaces, are read back. */
  lemma {:induction false} CommandReadsBack(arguments: seq<string>)
    requires arguments != []
    ensures ReadCommand(Join(QuotedArguments(arguments), " ")) == Some(arguments)
    decreases |arguments|
  {
    hide QuotedArgument, ReadArgument;
    var parts := QuotedArguments(arguments);
    if |arguments| == 1 {
      ArgumentReadsBack(arguments[0], "");
      assert parts[0] + "" == parts[0] && arguments == [arguments[0]];
    } else {
      var rest := Join(QuotedArguments(arguments[1..]), " ");
      assert parts[1..] == QuotedArguments(arguments[1..]);
      CommandReadsBack(arguments[1..]);
      ArgumentReadsBack(arguments[0], " " + rest);
      assert Join(parts, " ") == parts[0] + (" " + rest);
      assert (" " + rest)[1..] == rest;
      assert arguments == [arguments[0]] + arguments[1..];
    }
  }

  // ----- Reading the file: first the value, then the command

  /** The arguments of an `Exec=` entry with this text after its equals sign. */
  function ReadExec(text: string): Option<seq<string>> {
    var value := ReadEntry(text, false);
    if value.None? then None else ReadCommand(value.value)
  }

  ghost predicate HasSpecial(s: string) {
    exists i | 0 <= i < |s| :: Special(s[i])
  }

  /** A character whose escape is not defined in a value. */
  predicate Undefined(c: char) {
    Special(c) && c != '\\'
  }

  ghost predicate HasUndefined(s: string) {
    exists i | 0 <= i < |s| :: Undefined(s[i])
  }

  /** What the rule for values makes of quoted characters, if it accepts them: a
      backslash is a backslash again. */
  function Valued(s: string): string {
    if s == "" then "" else (if s[0] == '%' then "%%" else [s[0]]) + Valued(s[1..])
  }

  function ValuedArgument(argument: string): string {
    if NeedsQuotes(argument) then "\"" + Valued(argument) + "\"" else argument
  }

  function ValuedArguments(arguments: seq<string>): (r: seq<string>)
    ensures |r| == |arguments|
  {
    seq(|arguments|, i requires 0 <= i < |arguments| => ValuedArgument(arguments[i]))
  }

  function Before(front: string, s: Option<string>): Option<string> {
    if s.None? then None else Some(front + s.value)
  }

  lemma {:induction false} HasFirst(s: string)
    requires s != ""
    ensures HasUndefined(s) <==> Undefined(s[0]) || HasUndefined(s[1..])
    ensures HasSpecial(s) <==> Special(s[0]) || HasSpecial(s[1..])
    ensures HasSpecial(s) <==> HasUndefined(s) || '\\' in s
  {
    assert forall i | 0 < i < |s| :: s[i] == s[1..][i - 1];
    if i :| 0 <= i < |s[1..]| && Special(s[1..][i]) {
      assert Special(s[i + 1]);
    }
    if i :| 0 <= i < |s[1..]| && Undefined(s[1..][i]) {
      assert Undefined(s[i + 1]);
    }
  }

  lemma {:induction false} QuotedCharacterValue(c: char, tail: string)
    ensures ReadValue(QuotedCharacter(c) + tail, false) ==
      if Undefined(c) then None else Before(if c == '%' then "%%" else [c], ReadValue(tail, false))
  {
    var q := QuotedCharacter(c);
    var text := q + tail;
    assert text[|q|..] == tail && text[0] == q[0];
    if |q| == 2 {
      assert text[1] == q[1] && text[1..] == [q[1]] + tail;
      assert ([q[1]] + tail)[1..] == tail;
    }
    if c == '%' && ReadValue(tail, false).Some? {
      assert ['%'] + (['%'] + ReadValue(tail, false).value) == "%%" + ReadValue(tail, false).value;
    }
  }

  lemma {:induction false} BeforeSum(a: string, b: string, s: Option<string>)
    ensures Before(a, Before(b, s)) == Before(a + b, s) && Before("", s) == s && Before(a, None).None?
  {
    if s.Some? {
      assert a + (b + s.value) == a + b + s.value && "" + s.value == s.value;
    }
  }

  /** How quoted characters are read as a value. */
  lemma {:induction false} QuotedValue(s: string, tail: string)
    ensures ReadValue(QuotedCharacters(s) + tail, false) ==
      if HasUndefined(s) then None else Before(Valued(s), ReadValue(tail, false))
    decreases |s|
  {
    if s == "" {
      assert "" + tail == tail;
      BeforeSum("", "", ReadValue(tail, false));
    } else {
      HasFirst(s);
      QuotedValue(s[1..], tail);
      QuotedCharacterValue(s[0], QuotedCharacters(s[1..]) + tail);
      hide QuotedCharacter, Undefined, HasUndefined, ReadValue, Before;
      assert QuotedCharacters(s) + tail == QuotedCharacter(s[0]) + (QuotedCharacters(s[1..]) + tail);
      BeforeSum(if s[0] == '%' then "%%" else [s[0]], Valued(s[1..]), ReadValue(tail, false));
    }
  }

  lemma {:induction false} PlainValue(s: string, tail: string)
    requires '\\' !in s
    ensures ReadValue(s + tail, false) == Before(s, ReadValue(tail, false))
    decreases |s|
  {
    if s == "" {
      assert "" + tail == tail;
      BeforeSum("", "", ReadValue(tail, false));
    } else {
      PlainValue(s[1..], tail);
      assert (s + tail)[1..] == s[1..] + tail && s == [s[0]] + s[1..];
      BeforeSum([s[0]], s[1..], ReadValue(tail, false));
    }
  }

  lemma {:induction false} SpecialReserved(argument: string)
    requires HasSpecial(argument)
    ensures NeedsQuotes(argument)
  {
    assert RESERVED[3] == '"' && RESERVED[5] == '\\' && RESERVED[12] == '$' && RESERVED[18] == '`';
    hide RESERVED;
    var i :| 0 <= i < |argument| && Special(argument[i]);
    assert Reserved(argument[i]);
  }

  /** How a quoted argument is read as a value. */
  lemma {:induction false} ArgumentValue(argument: string, tail: string)
    ensures ReadValue(QuotedArgument(argument) + tail, false) ==
      if HasUndefined(argument) then None else Before(ValuedArgument(argument), ReadValue(tail, false))
  {
    if HasSpecial(argument) {
      SpecialReserved(argument);
    }
    assert HasUndefined(argument) ==> HasSpecial(argument);
    hide NeedsQuotes, HasUndefined, HasSpecial, ReadValue;
    if NeedsQuotes(argument) {
      InQuotesValue(argument, tail);
    } else {
      assert '\\' !in argument by { NoBackslash(argument); }
      PlainValue(argument, tail);
    }
  }

  lemma {:induction false} InQuotesValue(s: string, tail: string)
    ensures ReadValue("\"" + QuotedCharacters(s) + "\"" + tail, false) ==
      if HasUndefined(s) then None else Before("\"" + Valued(s) + "\"", ReadValue(tail, false))
  {
    hide QuotedCharacters, Valued, HasUndefined, ReadValue;
    var inner, rest := QuotedCharacters(s) + ("\"" + tail), ReadValue(tail, false);
    PlainValue("\"", tail);
    QuotedValue(s, "\"" + tail);
    PlainValue("\"", inner);
    assert "\"" + QuotedCharacters(s) + "\"" + tail == "\"" + inner;
    assert rest.Some? ==> "\"" + (Valued(s) + ("\"" + rest.value)) == "\"" + Valued(s) + "\"" + rest.value;
  }

  lemma {:induction false} NoBackslash(s: string)
    requires !HasSpecial(s)
    ensures '\\' !in s
  {
    assert forall i | 0 <= i < |s| :: !Special(s[i]);
  }

  ghost predicate AnyUndefined(arguments: seq<string>) {
    exists i | 0 <= i < |arguments| :: HasUndefined(arguments[i])
  }

  /** How a quoted command is read as a value. */
  lemma {:induction false} CommandValue(arguments: seq<string>)
    requires arguments != []
    ensures ReadValue(Join(QuotedArguments(arguments), " "), false) ==
      if AnyUndefined(arguments) then None else Some(Join(ValuedArguments(arguments), " "))
    decreases |arguments|
  {
    hide QuotedArgument, ValuedArgument, HasUndefined;
    var parts, values := QuotedArguments(arguments), ValuedArguments(arguments);
    if |arguments| == 1 {
      ArgumentValue(arguments[0], "");
      assert parts[0] + "" == parts[0] && values[0] + "" == values[0];
    } else {
      var rest, restValue := Join(QuotedArguments(arguments[1..]), " "), Join(ValuedArguments(arguments[1..]), " ");
      assert parts[1..] == QuotedArguments(arguments[1..]) && values[1..] == ValuedArguments(arguments[1..]);
      CommandValue(arguments[1..]);
      ArgumentValue(arguments[0], " " + rest);
      PlainValue(" ", rest);
      assert Join(parts, " ") == parts[0] + (" " + rest);
      assert Join(values, " ") == values[0] + (" " + restValue);
      assert AnyUndefined(arguments) <==> HasUndefined(arguments[0]) || AnyUndefined(arguments[1..])
        by { AnyFirst(arguments); }
    }
  }

  lemma {:induction false} AnyFirst(arguments: seq<string>)
    requires arguments != []
    ensures AnyUndefined(arguments) <==> HasUndefined(arguments[0]) || AnyUndefined(arguments[1..])
  {
    hide HasUndefined;
    assert forall i | 0 < i < |arguments| :: arguments[i] == arguments[1..][i - 1];
    if i :| 0 <= i < |arguments[1..]| && HasUndefined(arguments[1..][i]) {
      assert HasUndefined(arguments[i + 1]);
    }
  }

  /** After it was read as a value, a backslash swallows what follows: what is read is
      shorter, or a quote is read that was none. */
  lemma {:induction false} BackslashIsLost(s: string, tail: string)
    requires !HasUndefined(s)
    ensures var r := ReadQuoted(Valued(s) + "\"" + tail);
      r.Read? ==> '"' in r.value || (|r.value| <= |s| && ('\\' in s ==> |r.value| < |s|))
    decreases |s|
  {
    var text := Valued(s) + "\"" + tail;
    if s == "" {
      assert text == ['"'] + tail;
    } else {
      HasFirst(s);
      assert !Undefined(s[0]);
      assert s == [s[0]] + s[1..];
      var rest := Valued(s[1..]) + "\"" + tail;
      if s[0] == '%' {
        assert text == "%%" + rest && text[2..] == rest;
        BackslashIsLost(s[1..], tail);
      } else if s[0] == '\\' {
        assert text == ['\\'] + rest && text[1] == rest[0];
        if |s| == 1 {
          assert rest == ['"'] + tail && text[1] == '"';
        } else {
          HasFirst(s[1..]);
          assert text[1] == s[1] && !Undefined(s[1..][0]);
          if s[1] == '\\' {
            var after := Valued(s[2..]) + "\"" + tail;
            assert s[1..][1..] == s[2..];
            assert rest == ['\\'] + after && text[2..] == after;
            BackslashIsLost(s[2..], tail);
          }
        }
      } else {
        assert text == [s[0]] + rest && text[1..] == rest;
        BackslashIsLost(s[1..], tail);
      }
    }
  }

  lemma {:induction false} LostArgument(argument: string, tail: string)
    requires !HasUndefined(argument) && '\\' in argument
    ensures var r := ReadArgument(ValuedArgument(argument) + tail); r.Read? ==> r.value != argument
  {
    assert HasSpecial(argument) by {
      var i :| 0 <= i < |argument| && argument[i] == '\\';
      assert Special(argument[i]);
    }
    SpecialReserved(argument);
    assert '"' !in argument by { assert forall i | 0 <= i < |argument| :: !Undefined(argument[i]); }
    BackslashIsLost(argument, tail);
    hide NeedsQuotes, HasUndefined, HasSpecial, Valued;
    InQuotes(Valued(argument), tail);
  }

  /** Without special characters the value is the quoted text itself. */
  lemma {:induction false} CleanValue(argument: string)
    requires !HasSpecial(argument)
    ensures ValuedArgument(argument) == QuotedArgument(argument)
  {
    CleanCharacters(argument);
  }

  lemma {:induction false} CleanCharacters(s: string)
    requires !HasSpecial(s)
    ensures Valued(s) == QuotedCharacters(s)
    decreases |s|
  {
    if s != "" {
      HasFirst(s);
      CleanCharacters(s[1..]);
    }
  }

  ghost predicate AnySpecial(arguments: seq<string>) {
    exists i | 0 <= i < |arguments| :: HasSpecial(arguments[i])
  }

  lemma {:induction false} AnySpecialFirst(arguments: seq<string>)
    requires arguments != []
    ensures AnySpecial(arguments) <==> HasSpecial(arguments[0]) || AnySpecial(arguments[1..])
  {
    hide HasSpecial;
    assert forall i | 0 < i < |arguments| :: arguments[i] == arguments[1..][i - 1];
    if i :| 0 <= i < |arguments[1..]| && HasSpecial(arguments[1..][i]) {
      assert HasSpecial(arguments[i + 1]);
    }
  }

  lemma {:induction false} CommandOfValue(arguments: seq<string>)
    requires arguments != [] && !AnyUndefined(arguments)
    ensures ReadCommand(Join(ValuedArguments(arguments), " ")) == Some(arguments) <==> !AnySpecial(arguments)
    decreases |arguments|
  {
    var values, first := ValuedArguments(arguments), arguments[0];
    var text := Join(values, " ");
    var tail := if |arguments| == 1 then "" else " " + Join(ValuedArguments(arguments[1..]), " ");
    assert values[1..] == ValuedArguments(arguments[1..]);
    assert text == ValuedArgument(first) + tail;
    AnyFirst(arguments);
    AnySpecialFirst(arguments);
    assert first != "" ==> (HasSpecial(first) <==> '\\' in first) by { if first != "" { HasFirst(first); } }
    assert |arguments| == 1 ==> !AnySpecial(arguments[1..]);
    hide ValuedArgument, HasUndefined, HasSpecial, AnyUndefined, AnySpecial, ReadArgument;
    assert arguments == [first] + arguments[1..];
    var r := ReadArgument(text);
    if HasSpecial(first) {
      LostArgument(first, tail);
      assert r.Read? && ReadCommand(text).Some? ==> ReadCommand(text).value[0] == r.value;
    } else {
      CleanValue(first);
      ArgumentReadsBack(first, tail);
      assert r == Read(first, tail);
      if |arguments| > 1 {
        CommandOfValue(arguments[1..]);
        assert tail[1..] == Join(ValuedArguments(arguments[1..]), " ");
        var rest := ReadCommand(tail[1..]);
        assert ReadCommand(text) == if rest.None? then None else Some([first] + rest.value);
        assert rest.Some? ==> ([first] + rest.value)[1..] == rest.value;
      } else {
        assert ReadCommand(text) == Some([first]) && arguments == [first];
      }
    }
  }

  /** A quoted command, read from the file, gives its arguments exactly when none of them
      has a character that the quoting rule escapes. */
  lemma {:induction false} FileReadsBack(arguments: seq<string>)
    requires arguments != []
    ensures ReadExec(Join(QuotedArguments(arguments), " ")) == Some(arguments) <==> !AnySpecial(arguments)
  {
    CommandValue(arguments);
    NoSpaceInFront(arguments);
    hide QuotedArguments, ValuedArguments, Join, ReadValue, ReadCommand;
    if AnyUndefined(arguments) {
      assert AnySpecial(arguments);
    } else {
      CommandOfValue(arguments);
    }
  }

  lemma {:induction false} NoSpaceInFront(arguments: seq<string>)
    requires arguments != []
    ensures DropSpaces(Join(QuotedArguments(arguments), " ")) == Join(QuotedArguments(arguments), " ")
  {
    var text, first := Join(QuotedArguments(arguments), " "), arguments[0];
    if !NeedsQuotes(first) {
      PlainStarts(first);
      SpaceAndQuoteReserved();
    }
    hide Reserved;
    assert QuotedArguments(arguments)[0] == QuotedArgument(first);
    assert text[0] == QuotedArgument(first)[0];
  }

  // ----- The commands of the entry

  lemma {:induction false} OptionIsPlain(option: string)
    requires option != "" && forall i | 0 <= i < |option| :: option[i] == '-' || 'a' <= option[i] <= 'z'
    ensures QuotedArgument(option) == option && !HasSpecial(option)
  {
    forall i | 0 <= i < |option|
      ensures !Reserved(option[i])
    {
      assert forall k | 0 <= k < |RESERVED| :: RESERVED[k] != option[i];
    }
    hide RESERVED;
    assert !NeedsQuotes(option);
    assert forall i | 0 <= i < |option| :: !Special(option[i]);
  }

  lemma {:induction false} DigitsArePlain(n: nat)
    ensures Digits(n) != "" && forall i | 0 <= i < |Digits(n)| :: '0' <= Digits(n)[i] <= '9'
    decreases n
  {
    if n >= 10 {
      DigitsArePlain(n / 10);
      DigitsArePlain(n % 10);
    }
  }

  lemma {:induction false} DigitsAreQuoted(n: nat)
    ensures QuotedArgument(Digits(n)) == Digits(n) && !HasSpecial(Digits(n))
  {
    DigitsArePlain(n);
    var s := Digits(n);
    forall i | 0 <= i < |s|
      ensures !Reserved(s[i])
    {
      assert forall k | 0 <= k < |RESERVED| :: RESERVED[k] != s[i];
    }
    hide RESERVED, Digits;
    assert !NeedsQuotes(s);
    assert forall i | 0 <= i < |s| :: !Special(s[i]);
  }

  lemma {:induction false} JoinFour(a: string, b: string, c: string, d: string)
    ensures Join([a, b, c, d], " ") == a + " " + b + " " + c + " " + d
    ensures Join([a, b, c], " ") == a + " " + b + " " + c
  {
    assert [a, b, c, d][1..] == [b, c, d] && [b, c, d][1..] == [c, d] && [c, d][1..] == [d];
    assert [a, b, c][1..] == [b, c] && [b, c][1..] == [c];
    assert Join([c, d], " ") == c + " " + d && Join([b, c], " ") == b + " " + c;
    assert Join([b, c, d], " ") == b + " " + (c + " " + d);
    assert a + " " + (b + " " + (c + " " + d)) == a + " " + b + " " + c + " " + d;
    assert a + " " + (b + " " + c) == a + " " + b + " " + c;
  }

  const NEW_WINDOW := "--new-window"
  const PROFILE := "--profile"
  const GENERATION := "--zetta-profile-actions-generation"

  lemma {:induction false} OptionsArePlain()
    ensures QuotedArgument(NEW_WINDOW) == NEW_WINDOW && !HasSpecial(NEW_WINDOW)
    ensures QuotedArgument(PROFILE) == PROFILE && !HasSpecial(PROFILE)
    ensures QuotedArgument(GENERATION) == GENERATION && !HasSpecial(GENERATION)
  {
    OptionIsPlain(NEW_WINDOW);
    OptionIsPlain(PROFILE);
    OptionIsPlain(GENERATION);
    hide QuotedArgument, HasSpecial;
  }

  lemma {:induction false} ProfileOptions()
    ensures " " + NEW_WINDOW + " " + PROFILE + " " == " --new-window --profile "
  {
  }

  lemma {:induction false} GenerationOption()
    ensures " " + GENERATION + " " == GENERATION_FLAG
  {
  }

  lemma {:induction false} Regroup(a: string, b: string, c: string, d: string)
    ensures a + " " + b + " " + c + " " + d == a + (" " + b + " " + c + " ") + d
    ensures a + " " + b + " " + c == a + (" " + b + " ") + c
  {
  }

  /** Every profile's command is read from the entry as the executable with its options
      and the name, exactly when neither path nor name has a special character. */
  lemma {:induction false} ProfileCommandReadsBack(executable: string, name: string)
    ensures var row := ExecRow(executable, name);
      && |row| > |EXEC_KEY| && row[..|EXEC_KEY|] == EXEC_KEY
      && (ReadExec(row[|EXEC_KEY|..|row| - 1]) == Some([executable, NEW_WINDOW, PROFILE, name]) <==>
            !HasSpecial(executable) && !HasSpecial(name))
  {
    OptionsArePlain();
    ProfileOptions();
    hide NEW_WINDOW, PROFILE, EXEC_KEY, QuotedArgument, HasSpecial, ReadExec, Join;
    var arguments := [executable, NEW_WINDOW, PROFILE, name];
    var e, n := QuotedArgument(executable), QuotedArgument(name);
    FileReadsBack(arguments);
    assert QuotedArguments(arguments) == [e, NEW_WINDOW, PROFILE, n];
    JoinFour(e, NEW_WINDOW, PROFILE, n);
    Regroup(e, NEW_WINDOW, PROFILE, n);
    RowText(EXEC_KEY, e, " --new-window --profile ", n);
    SpecialOfFour(executable, NEW_WINDOW, PROFILE, name);
  }

  lemma {:induction false} RowText(key: string, a: string, b: string, c: string)
    ensures var row := key + a + b + c + "\n"; row[..|key|] == key && row[|key|..|row| - 1] == a + b + c
    ensures key + a + b + c + "\n" == key + (a + b + c + "\n")
  {
  }

  lemma {:induction false} SpecialOfFour(a: string, b: string, c: string, d: string)
    requires !HasSpecial(b) && !HasSpecial(c)
    ensures AnySpecial([a, b, c, d]) <==> HasSpecial(a) || HasSpecial(d)
    ensures AnySpecial([a, b, c]) <==> HasSpecial(a)
  {
    assert [a, b, c, d][1..] == [b, c, d] && [b, c, d][1..] == [c, d] && [c, d][1..] == [d];
    assert [a, b, c][1..] == [b, c] && [b, c][1..] == [c];
    assert !AnySpecial([c][1..]) && !AnySpecial([d][1..]);
    hide HasSpecial, AnySpecial;
    AnySpecialFirst([a, b, c, d]);
    AnySpecialFirst([b, c, d]);
    AnySpecialFirst([c, d]);
    AnySpecialFirst([d]);
    AnySpecialFirst([a, b, c]);
    AnySpecialFirst([b, c]);
    AnySpecialFirst([c]);
  }

  /** The same for the main command. */
  lemma {:induction false} MainCommandReadsBack(p: Launch)
    ensures var row := MainRow(p);
      && |row| > |EXEC_KEY| && row[..|EXEC_KEY|] == EXEC_KEY
      && (ReadExec(row[|EXEC_KEY|..|row| - 1]) == Some([p.executable, GENERATION, Digits(p.generation)]) <==>
            !HasSpecial(p.executable))
  {
    OptionsArePlain();
    GenerationOption();
    DigitsAreQuoted(p.generation);
    hide GENERATION, EXEC_KEY, GENERATION_FLAG, QuotedArgument, HasSpecial, ReadExec, Join, Digits;
    var e, digits := QuotedArgument(p.executable), Digits(p.generation);
    var arguments := [p.executable, GENERATION, digits];
    FileReadsBack(arguments);
    assert QuotedArguments(arguments) == [e, GENERATION, digits];
    JoinFour(e, GENERATION, digits, "");
    Regroup(e, GENERATION, digits, "");
    RowText(EXEC_KEY, e, GENERATION_FLAG, digits);
    SpecialOfFour(p.executable, GENERATION, digits, "");
  }
}
