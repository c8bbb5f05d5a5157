/** Commands that are sent to PowerShell: quoted values, and a scope in which some
    environment variables are set. */
module PowerShell {
  import opened Text

  // ----- Quoting

  predicate IsCurly(c: char) {
    '\U{2018}' <= c <= '\U{201B}'
  }

  predicate IsQuote(c: char) {
    c == '\'' || IsCurly(c)
  }

  function Doubled(s: string, double: char -> bool): string {
    if s == "" then ""
    else (if double(s[0]) then [s[0], s[0]] else [s[0]]) + Doubled(s[1..], double)
  }

  function Literal(value: string): string {
    "'" + Doubled(value, c => IsQuote(c)) + "'"
  }

  method QuotePowershellLiteral(value: string) returns (quoted: string)
    ensures quoted == Literal(value)
  {
    var double := (c: char) => IsQuote(c);
    quoted := "'";
    assert value[0..] == value;
    for i := 0 to |value|
      invariant quoted + Doubled(value[i..], double) == "'" + Doubled(value, double)
    {
      assert value[i..][1..] == value[i + 1..];
      if IsQuote(value[i]) {
        quoted := quoted + [value[i]];
      }
      quoted := quoted + [value[i]];
    }
    quoted := quoted + "'";
  }

  /** Read a single-quoted string from after its opening quote: any two quotes in a row
      are one, and any other quote ends it. */
  function ReadLiteral(s: string): Option<(string, string)> {
    if s == "" then None
    else if !IsQuote(s[0]) then Prepend(s[0], ReadLiteral(s[1..]))
    else if |s| > 1 && IsQuote(s[1]) then Prepend(s[1], ReadLiteral(s[2..]))
    else Some(("", s[1..]))
  }

  function Prepend(c: char, r: Option<(string, string)>): Option<(string, string)> {
    if r.None? then None else Some(([c] + r.value.0, r.value.1))
  }

  /** A literal, followed by anything but another quote, is read as its value. */
  lemma {:induction false} LiteralReadsBack(value: string, rest: string)
    requires rest != "" ==> !IsQuote(rest[0])
    ensures Literal(value) + rest != "" && (Literal(value) + rest)[0] == '\''
    ensures ReadLiteral((Literal(value) + rest)[1..]) == Some((value, rest))
  {
    DoubledReadsBack(value, rest);
    var doubled := Doubled(value, c => IsQuote(c));
    assert (Literal(value) + rest)[1..] == doubled + "'" + rest;
  }

  lemma {:induction false} DoubledReadsBack(value: string, rest: string)
    requires rest != "" ==> !IsQuote(rest[0])
    ensures ReadLiteral(Doubled(value, c => IsQuote(c)) + "'" + rest) == Some((value, rest))
    decreases |value|
  {
    var double := c => IsQuote(c);
    var text := Doubled(value, double) + "'" + rest;
    if value == "" {
      assert text == "'" + rest && text[1..] == rest;
    } else {
      DoubledReadsBack(value[1..], rest);
      var tail := Doubled(value[1..], double) + "'" + rest;
      assert value == [value[0]] + value[1..];
      if IsQuote(value[0]) {
        assert text == [value[0], value[0]] + tail && text[2..] == tail;
      } else {
        assert text == [value[0]] + tail && text[1..] == tail;
      }
    }
  }

  /** What the quoting that the program builds on gives for a value: the value itself
      if nothing in it needs quotes, where curly quotes do not count, or the value in
      quotes with only the straight ones doubled. */
  predicate Upstream(value: string, quoted: string) {
    || (quoted == value && '\'' !in value)
    || quoted == "'" + Doubled(value, c => c == '\'') + "'"
  }

  predicate HasCurly(s: string) {
    exists i | 0 <= i < |s| :: IsCurly(s[i])
  }

  method QuoteShellValue(value: string, quoted: string) returns (result: string)
    requires Upstream(value, quoted)
    ensures result == if HasCurly(value) || quoted != value then Literal(value) else value
  {
    if HasCurly(value) {
      if quoted != "" && quoted[0] == '\'' {
        StartsQuoted(value, quoted);
        CurlyDoubled(value);
        result := Doubled(quoted, c => IsCurly(c));
      } else {
        result := QuotePowershellLiteral(value);
      }
    } else {
      NoCurlyDoubled(value);
      result := quoted;
    }
  }

  lemma {:induction false} StartsQuoted(value: string, quoted: string)
    requires Upstream(value, quoted) && quoted != "" && quoted[0] == '\''
    ensures quoted == "'" + Doubled(value, c => c == '\'') + "'"
  {
    if quoted == value {
      assert value[0] in value;
    }
  }

  lemma {:induction false} DoubledSum(a: string, b: string, double: char -> bool)
    ensures Doubled(a + b, double) == Doubled(a, double) + Doubled(b, double)
    decreases |a|
  {
    if a == "" {
      assert a + b == b;
    } else {
      assert (a + b)[1..] == a[1..] + b;
      DoubledSum(a[1..], b, double);
    }
  }

  lemma {:induction false} DoubledTwice(value: string)
    ensures Doubled(Doubled(value, c => c == '\''), c => IsCurly(c)) == Doubled(value, c => IsQuote(c))
    decreases |value|
  {
    if value != "" {
      DoubledTwice(value[1..]);
      var c := value[0];
      var first := if c == '\'' then [c, c] else [c];
      var curly := (c: char) => IsCurly(c);
      DoubledSum(first, Doubled(value[1..], c => c == '\''), curly);
      assert first[1..] == if c == '\'' then [c] else [];
      assert Doubled([c], curly) == if IsCurly(c) then [c, c] else [c] by { assert [c][1..] == ""; }
      assert Doubled(first, curly) == if IsQuote(c) then [c, c] else [c];
    }
  }

  /** Doubling the curly quotes of what is already quoted makes it the literal. */
  lemma {:induction false} CurlyDoubled(value: string)
    ensures Doubled("'" + Doubled(value, c => c == '\'') + "'", c => IsCurly(c)) == Literal(value)
  {
    var inner := Doubled(value, c => c == '\'');
    var curly := (c: char) => IsCurly(c);
    DoubledTwice(value);
    DoubledSum("'" + inner, "'", curly);
    DoubledSum("'", inner, curly);
    assert Doubled("'", curly) == "'" by { assert "'"[1..] == ""; }
  }

  lemma {:induction false} NoCurlyDoubled(value: string)
    requires !HasCurly(value)
    ensures Doubled(value, c => c == '\'') == Doubled(value, c => IsQuote(c))
    decreases |value|
  {
    if value != "" {
      assert !IsCurly(value[0]);
      assert forall i | 0 <= i < |value| - 1 :: value[1..][i] == value[i + 1];
      NoCurlyDoubled(value[1..]);
    }
  }

  // ----- The scope

  datatype Entry = Entry(name: string, value: string)

  /** The statements of the generated scope: remember whether a variable is there, and
      what it holds; set it; put it back. */
  datatype Statement =
    | Had(name: string)
    | Old(name: string)
    | SetTo(name: string, value: string)
    | Restore(name: string)

  datatype Script = Script(setup: seq<Statement>, assignments: seq<Statement>, restores: seq<Statement>)

  function Setups(entries: seq<Entry>): seq<Statement> {
    if entries == [] then []
    else
      var n := |entries| - 1;
      Setups(entries[..n]) + [Had(entries[n].name), Old(entries[n].name)]
  }

  function Assignments(entries: seq<Entry>): (r: seq<Statement>)
    ensures |r| == |entries|
  {
    seq(|entries|, i requires 0 <= i < |entries| => SetTo(entries[i].name, entries[i].value))
  }

  function Restores(entries: seq<Entry>): (r: seq<Statement>)
    ensures |r| == |entries|
  {
    seq(|entries|, i requires 0 <= i < |entries| => Restore(entries[i].name))
  }

  function ScriptOf(entries: seq<Entry>): Script {
    Script(Setups(entries), Assignments(entries), Restores(entries))
  }

  method BuildScript(environment: seq<Entry>) returns (script: Script)
    ensures script == ScriptOf(environment)
  {
    var setup, assignments, restores := [], [], [];
    for i := 0 to |environment|
      invariant setup == Setups(environment[..i])
      invariant assignments == Assignments(environment[..i])
      invariant restores == Restores(environment[..i])
    {
      assert environment[..i + 1][..i] == environment[..i];
      setup := setup + [Had(environment[i].name)];
      setup := setup + [Old(environment[i].name)];
      assignments := assignments + [SetTo(environment[i].name, environment[i].value)];
      restores := restores + [Restore(environment[i].name)];
    }
    assert environment[..|environment|] == environment;
    script := Script(setup, assignments, restores);
  }

  type Variables = map<string, string>

  /** Where the script runs: which names are the same variable, which are the same key of
      a table, and whether a variable can be set to the empty text or is removed by it.  A
      table of PowerShell ignores case; the system's variables may not. */
  datatype Host = Host(variable: string -> string, key: string -> string, keepsEmpty: bool)

  datatype Shell = Shell(env: Variables, had: map<string, bool>, held: map<string, Option<string>>)

  function Get(env: Variables, v: string): Option<string> {
    if v in env then Some(env[v]) else None
  }

  /** What a variable is after it has been set to this. */
  function Stored(h: Host, value: Option<string>): Option<string> {
    if value == Some("") && !h.keepsEmpty then None else value
  }

  function Put(h: Host, env: Variables, v: string, value: Option<string>): Variables {
    var stored := Stored(h, value);
    if stored.Some? then env[v := stored.value] else env - {v}
  }

  function Exec(h: Host, s: Shell, st: Statement): Shell {
    match st
    case Had(name) => s.(had := s.had[h.key(name) := h.variable(name) in s.env])
    case Old(name) => s.(held := s.held[h.key(name) := Get(s.env, h.variable(name))])
    case SetTo(name, value) => s.(env := Put(h, s.env, h.variable(name), Some(value)))
    case Restore(name) =>
      var k := h.key(name);
      s.(env := Put(h, s.env, h.variable(name), if k in s.had && s.had[k] && k in s.held then s.held[k] else None))
  }

  function ExecAll(h: Host, s: Shell, statements: seq<Statement>): Shell {
    if statements == [] then s
    else Exec(h, ExecAll(h, s, statements[..|statements| - 1]), statements[|statements| - 1])
  }

  /** The shell in which the command starts, unless an assignment fails. */
  function Started(h: Host, script: Script, env: Variables): Shell {
    ExecAll(h, ExecAll(h, Shell(env, map[], map[]), script.setup), script.assignments)
  }

  /** Running the scope.  The assignments may fail after `cut` of them; if none does,
      the command runs, and whether it fails makes no difference here. */
  function Run(h: Host, script: Script, env: Variables, cut: nat, command: Variables -> Variables): Variables
    requires cut <= |script.assignments|
  {
    var s := ExecAll(h, Shell(env, map[], map[]), script.setup);
    var t := ExecAll(h, s, script.assignments[..cut]);
    var u := if cut == |script.assignments| then t.(env := command(t.env)) else t;
    ExecAll(h, u, script.restores).env
  }

  /** Names that share a table key are the same variable. */
  ghost predicate Apart(h: Host, entries: seq<Entry>) {
    forall i, j | 0 <= i < |entries| && 0 <= j < |entries| && h.key(entries[i].name) == h.key(entries[j].name) ::
      h.variable(entries[i].name) == h.variable(entries[j].name)
  }

  /** `s` remembers what `env` has for this name. */
  ghost predicate Remembers(h: Host, s: Shell, env: Variables, name: string) {
    var k, v := h.key(name), h.variable(name);
    k in s.had && k in s.held && s.had[k] == (v in env) && s.held[k] == Get(env, v)
  }

  /** The shell after remembering one more name. */
  function Noted(h: Host, s: Shell, name: string): Shell {
    Exec(h, Exec(h, s, Had(name)), Old(name))
  }

  lemma {:induction false} SetupNext(h: Host, s: Shell, entries: seq<Entry>)
    requires entries != []
    ensures var m := |entries| - 1;
      ExecAll(h, s, Setups(entries)) == Noted(h, ExecAll(h, s, Setups(entries[..m])), entries[m].name)
  {
    hide Exec;
    var m := |entries| - 1;
    var front, had, held := Setups(entries[..m]), Had(entries[m].name), Old(entries[m].name);
    var all := front + [had, held];
    assert all[..|all| - 1] == front + [had] && (front + [had])[..|front|] == front;
    assert (front + [had])[|front|] == had && all[|all| - 1] == held;
  }

  lemma {:induction false} NotedRemembers(h: Host, s: Shell, env: Variables, name: string, other: string)
    requires s.env == env
    ensures Noted(h, s, name).env == env && Remembers(h, Noted(h, s, name), env, name)
    ensures Remembers(h, s, env, other) && (h.key(other) == h.key(name) ==> h.variable(other) == h.variable(name)) ==>
      Remembers(h, Noted(h, s, name), env, other)
  {
  }

  lemma {:induction false} SetupRemembers(h: Host, entries: seq<Entry>, env: Variables)
    requires Apart(h, entries)
    ensures var s := ExecAll(h, Shell(env, map[], map[]), Setups(entries));
      s.env == env && forall i | 0 <= i < |entries| :: Remembers(h, s, env, entries[i].name)
    decreases |entries|
  {
    if entries != [] {
      var m := |entries| - 1;
      SetupRemembers(h, entries[..m], env);
      SetupNext(h, Shell(env, map[], map[]), entries);
      hide Setups, ExecAll, Noted, Remembers;
      var s := ExecAll(h, Shell(env, map[], map[]), Setups(entries[..m]));
      forall i | 0 <= i < |entries|
        ensures Remembers(h, Noted(h, s, entries[m].name), env, entries[i].name)
      {
        assert i < m ==> Remembers(h, s, env, entries[..m][i].name);
        NotedRemembers(h, s, env, entries[m].name, entries[i].name);
      }
      NotedRemembers(h, s, env, entries[m].name, entries[m].name);
    }
  }

  /** The last name with a key is remembered. */
  lemma {:induction false} SetupRemembersLast(h: Host, entries: seq<Entry>, env: Variables, l: nat)
    requires l < |entries| && forall i | l < i < |entries| :: h.key(entries[i].name) != h.key(entries[l].name)
    ensures var s := ExecAll(h, Shell(env, map[], map[]), Setups(entries));
      s.env == env && Remembers(h, s, env, entries[l].name)
    decreases |entries|
  {
    var m := |entries| - 1;
    SetupKeepsEnv(h, entries[..m], env);
    SetupNext(h, Shell(env, map[], map[]), entries);
    if l < m {
      SetupRemembersLast(h, entries[..m], env, l);
    }
    hide Setups, ExecAll, Noted, Remembers;
    var before := ExecAll(h, Shell(env, map[], map[]), Setups(entries[..m]));
    NotedRemembers(h, before, env, entries[m].name, entries[l].name);
  }

  lemma {:induction false} SetupKeepsEnv(h: Host, entries: seq<Entry>, env: Variables)
    ensures ExecAll(h, Shell(env, map[], map[]), Setups(entries)).env == env
    decreases |entries|
  {
    if entries != [] {
      SetupKeepsEnv(h, entries[..|entries| - 1], env);
      SetupNext(h, Shell(env, map[], map[]), entries);
      hide Setups, ExecAll;
    }
  }

  lemma {:induction false} AssignmentsKeep(h: Host, s: Shell, entries: seq<Entry>, cut: nat)
    requires cut <= |entries|
    ensures var t := ExecAll(h, s, Assignments(entries)[..cut]); t.had == s.had && t.held == s.held
    decreases cut
  {
    if cut > 0 {
      assert Assignments(entries)[..cut][..cut - 1] == Assignments(entries)[..cut - 1];
      AssignmentsKeep(h, s, entries, cut - 1);
    }
  }

  lemma {:induction false} RestoresNext(h: Host, s: Shell, entries: seq<Entry>)
    requires entries != []
    ensures var m := |entries| - 1;
      ExecAll(h, s, Restores(entries)) == Exec(h, ExecAll(h, s, Restores(entries[..m])), Restore(entries[m].name))
  {
    hide Exec;
    var m := |entries| - 1;
    assert Restores(entries)[..m] == Restores(entries[..m]);
  }

  lemma {:induction false} RestoreOne(h: Host, s: Shell, name: string)
    ensures var t, v := Exec(h, s, Restore(name)), h.variable(name);
      && t.had == s.had && t.held == s.held
      && (forall env | Remembers(h, s, env, name) :: Get(t.env, v) == Stored(h, Get(env, v)))
      && (forall x | x != v :: Get(t.env, x) == Get(s.env, x))
  {
  }

  lemma {:induction false} RemembersAlike(h: Host, s: Shell, t: Shell, env: Variables, name: string)
    requires Remembers(h, s, env, name) && t.had == s.had && t.held == s.held
    ensures Remembers(h, t, env, name)
  {
  }

  lemma {:induction false} RestoresPutBack(h: Host, s: Shell, entries: seq<Entry>, env: Variables)
    requires forall i | 0 <= i < |entries| :: Remembers(h, s, env, entries[i].name)
    ensures var t := ExecAll(h, s, Restores(entries));
      && t.had == s.had && t.held == s.held
      && (forall i | 0 <= i < |entries| ::
            Get(t.env, h.variable(entries[i].name)) == Stored(h, Get(env, h.variable(entries[i].name))))
    decreases |entries|
  {
    if entries != [] {
      var m := |entries| - 1;
      hide ExecAll, Restores, Exec, Remembers, Get;
      assert forall i | 0 <= i < m :: entries[..m][i] == entries[i];
      RestoresPutBack(h, s, entries[..m], env);
      RestoresNext(h, s, entries);
      var t := ExecAll(h, s, Restores(entries[..m]));
      RestoreOne(h, t, entries[m].name);
      RemembersAlike(h, s, t, env, entries[m].name);
      forall i | 0 <= i < |entries|
        ensures Get(Exec(h, t, Restore(entries[m].name)).env, h.variable(entries[i].name)) ==
          Stored(h, Get(env, h.variable(entries[i].name)))
      {
        var v := h.variable(entries[i].name);
        assert i < m ==> entries[..m][i] == entries[i] && Get(t.env, v) == Stored(h, Get(env, v));
      }
    }
  }

  /** Variables that are not in the request stay as the command left them. */
  lemma {:induction false} RestoresKeepOthers(h: Host, s: Shell, entries: seq<Entry>, x: string)
    requires forall i | 0 <= i < |entries| :: h.variable(entries[i].name) != x
    ensures Get(ExecAll(h, s, Restores(entries)).env, x) == Get(s.env, x)
    decreases |entries|
  {
    if entries != [] {
      var m := |entries| - 1;
      RestoresKeepOthers(h, s, entries[..m], x);
      RestoresNext(h, s, entries);
      RestoreOne(h, ExecAll(h, s, Restores(entries[..m])), entries[m].name);
      hide ExecAll, Restores, Exec, Get;
    }
  }

  lemma {:induction false} ApartScopeRestores(h: Host, entries: seq<Entry>, env: Variables, cut: nat,
                                              command: Variables -> Variables, i: nat)
    requires Apart(h, entries) && cut <= |entries| && i < |entries|
    ensures var v := h.variable(entries[i].name);
      Get(Run(h, ScriptOf(entries), env, cut, command), v) == Stored(h, Get(env, v))
  {
    var s := ExecAll(h, Shell(env, map[], map[]), Setups(entries));
    SetupRemembers(h, entries, env);
    AssignmentsKeep(h, s, entries, cut);
    hide Setups, Assignments, Restores, ExecAll;
    var t := ExecAll(h, s, Assignments(entries)[..cut]);
    var u := if cut == |entries| then t.(env := command(t.env)) else t;
    RestoresPutBack(h, u, entries, env);
  }

  // ----- Requests that are accepted

  function UpperCharacter(c: char): char {
    if 'a' <= c <= 'z' then c - 32 as char else c
  }

  /** The text with ASCII letters in upper case. */
  function Upper(s: string): (r: string)
    ensures |r| == |s|
  {
    seq(|s|, i requires 0 <= i < |s| => UpperCharacter(s[i]))
  }

  predicate IsNameCharacter(c: char) {
    'a' <= c <= 'z' || 'A' <= c <= 'Z' || c == '_'
  }

  /** Letters, digits and underscores of ASCII, the first no digit. */
  predicate IsIdentifier(name: string) {
    && name != "" && IsNameCharacter(name[0])
    && forall i | 0 < i < |name| :: IsNameCharacter(name[i]) || '0' <= name[i] <= '9'
  }

  /** An entry that a request may hold: its name is an identifier that is not reserved,
      and its value has no NUL. */
  predicate IsValid(e: Entry) {
    && e.name != "" && '=' !in e.name && '\0' !in e.name
    && !(|e.name| >= 6 && Upper(e.name[..6]) == "ZETTA_")
    && '\0' !in e.value && IsIdentifier(e.name)
  }

  /** The environments that the decoder of requests lets through. */
  predicate Accepted(entries: seq<Entry>) {
    && (forall i | 0 <= i < |entries| :: IsValid(entries[i]))
    && (forall i, j | 0 <= i < j < |entries| :: Upper(entries[i].name) != Upper(entries[j].name))
  }

  method AcceptEnvironment(environment: seq<Entry>) returns (accepted: bool)
    ensures accepted <==> Accepted(environment)
  {
    hide IsValid, Upper;
    var names: set<string> := {};
    for i := 0 to |environment|
      invariant Accepted(environment[..i])
      invariant names == set j | 0 <= j < i :: Upper(environment[j].name)
    {
      if !IsValid(environment[i]) || Upper(environment[i].name) in names {
        return false;
      }
      names := names + {Upper(environment[i].name)};
    }
    accepted := true;
    assert environment[..|environment|] == environment;
  }

  /** Identifiers that a table takes for one key differ at most in case. */
  ghost predicate FoldsAsciiCase(h: Host) {
    forall a, b | IsIdentifier(a) && IsIdentifier(b) && h.key(a) == h.key(b) :: Upper(a) == Upper(b)
  }

  /** No two names of an accepted request share a table key. */
  lemma {:induction false} AcceptedIsApart(h: Host, entries: seq<Entry>)
    requires FoldsAsciiCase(h) && Accepted(entries)
    ensures Apart(h, entries)
  {
    hide Upper, IsIdentifier;
    forall i, j | 0 <= i < |entries| && 0 <= j < |entries| && h.key(entries[i].name) == h.key(entries[j].name)
      ensures i == j
    {
      assert IsValid(entries[i]) && IsValid(entries[j]);
    }
  }

  /** For every accepted request: however the command changes the variables, and wherever
      the scope fails, every variable of the request is afterwards as it was before, unless
      it was empty and setting the empty text removes a variable. */
  lemma {:induction false} ScopeRestores(h: Host, entries: seq<Entry>, env: Variables, cut: nat,
                                         command: Variables -> Variables, i: nat)
    requires FoldsAsciiCase(h) && Accepted(entries) && cut <= |entries| && i < |entries|
    ensures var v := h.variable(entries[i].name);
      var after := Get(Run(h, ScriptOf(entries), env, cut, command), v);
      && after == Stored(h, Get(env, v))
      && (after == Get(env, v) <==> h.keepsEmpty || Get(env, v) != Some(""))
  {
    AcceptedIsApart(h, entries);
    hide Run, Accepted, FoldsAsciiCase, Apart;
    ApartScopeRestores(h, entries, env, cut, command, i);
  }

  /** One more variable set. */
  lemma {:induction false} AssignmentsNext(h: Host, s: Shell, entries: seq<Entry>)
    requires entries != []
    ensures var m := |entries| - 1;
      ExecAll(h, s, Assignments(entries)) ==
      Exec(h, ExecAll(h, s, Assignments(entries[..m])), SetTo(entries[m].name, entries[m].value))
  {
    hide Exec;
    assert Assignments(entries)[..|entries| - 1] == Assignments(entries[..|entries| - 1]);
  }

  /** Every variable of the entries is set to the value of the last entry for it. */
  lemma {:induction false} AssignmentsSet(h: Host, s: Shell, entries: seq<Entry>)
    requires forall i, j | 0 <= i < j < |entries| :: h.variable(entries[i].name) != h.variable(entries[j].name)
    ensures var env := ExecAll(h, s, Assignments(entries)).env;
      && (forall i | 0 <= i < |entries| ::
            Get(env, h.variable(entries[i].name)) == Stored(h, Some(entries[i].value)))
      && (forall x | (forall i | 0 <= i < |entries| :: h.variable(entries[i].name) != x) ::
            Get(env, x) == Get(s.env, x))
    decreases |entries|
  {
    if entries != [] {
      var m := |entries| - 1;
      assert forall i | 0 <= i < m :: entries[..m][i] == entries[i];
      AssignmentsSet(h, s, entries[..m]);
      AssignmentsNext(h, s, entries);
      hide ExecAll, Assignments;
      var before := ExecAll(h, s, Assignments(entries[..m]));
      SetOne(h, before, entries[m].name, entries[m].value);
      hide Exec, Get, Stored;
    }
  }

  lemma {:induction false} SetOne(h: Host, s: Shell, name: string, value: string)
    ensures var env, v := Exec(h, s, SetTo(name, value)).env, h.variable(name);
      Get(env, v) == Stored(h, Some(value)) && forall x | x != v :: Get(env, x) == Get(s.env, x)
  {
  }

  /** What the scope is for: in every accepted request's scope the command starts with
      every variable of the request set to its value, and all others as they were. */
  lemma {:induction false} CommandSeesRequest(h: Host, entries: seq<Entry>, env: Variables)
    requires FoldsAsciiCase(h) && Accepted(entries)
    requires forall a, b :: h.variable(a) == h.variable(b) ==> h.key(a) == h.key(b)
    ensures var seen := Started(h, ScriptOf(entries), env).env;
      && (forall i | 0 <= i < |entries| ::
            Get(seen, h.variable(entries[i].name)) == Stored(h, Some(entries[i].value)))
      && (forall x | (forall i | 0 <= i < |entries| :: h.variable(entries[i].name) != x) :: Get(seen, x) == Get(env, x))
  {
    var s := ExecAll(h, Shell(env, map[], map[]), Setups(entries));
    SetupKeepsEnv(h, entries, env);
    forall i, j | 0 <= i < j < |entries|
      ensures h.variable(entries[i].name) != h.variable(entries[j].name)
    {
      assert IsValid(entries[i]) && IsValid(entries[j]);
      assert Upper(entries[i].name) != Upper(entries[j].name);
    }
    hide Setups, ExecAll, Get, Stored, IsValid, Upper;
    AssignmentsSet(h, s, entries);
  }

  /** Every other variable is as the command left it. */
  lemma {:induction false} ScopeKeepsOthers(h: Host, entries: seq<Entry>, env: Variables,
                                            command: Variables -> Variables, x: string)
    requires forall i | 0 <= i < |entries| :: h.variable(entries[i].name) != x
    ensures Get(Run(h, ScriptOf(entries), env, |entries|, command), x) ==
      Get(command(Started(h, ScriptOf(entries), env).env), x)
  {
    var s := ExecAll(h, Shell(env, map[], map[]), Setups(entries));
    assert Assignments(entries)[..|entries|] == Assignments(entries);
    var t := ExecAll(h, s, Assignments(entries));
    hide Setups, Assignments, Restores, ExecAll, Get;
    RestoresKeepOthers(h, t.(env := command(t.env)), entries, x);
  }

  /** The scope restores every variable of the request, whatever the variables are, when
      nothing fails and the command changes nothing. */
  ghost predicate AlwaysRestores(h: Host, entries: seq<Entry>) {
    forall env: Variables, i | 0 <= i < |entries| ::
      Get(Run(h, ScriptOf(entries), env, |entries|, e => e), h.variable(entries[i].name)) ==
      Get(env, h.variable(entries[i].name))
  }

  lemma {:induction false} RestoresRemove(h: Host, s: Shell, entries: seq<Entry>, x: string)
    requires forall i | 0 <= i < |entries| && h.variable(entries[i].name) == x ::
      h.key(entries[i].name) in s.had && !s.had[h.key(entries[i].name)]
    ensures var t := ExecAll(h, s, Restores(entries));
      && t.had == s.had
      && ((exists i :: 0 <= i < |entries| && h.variable(entries[i].name) == x) ==> x !in t.env)
    decreases |entries|
  {
    if entries != [] {
      var m := |entries| - 1;
      assert forall i | 0 <= i < m :: entries[..m][i] == entries[i];
      RestoresRemove(h, s, entries[..m], x);
      RestoresNext(h, s, entries);
      hide ExecAll, Restores;
      if i :| 0 <= i < |entries| && h.variable(entries[i].name) == x {
        assert i < m ==> h.variable(entries[..m][i].name) == x;
      }
    }
  }

  /** The last entry with the key of entry `i`. */
  lemma {:induction false} LastWithKey(h: Host, entries: seq<Entry>, i: nat) returns (l: nat)
    requires i < |entries|
    ensures l < |entries| && h.key(entries[l].name) == h.key(entries[i].name)
    ensures forall j | l < j < |entries| :: h.key(entries[j].name) != h.key(entries[l].name)
  {
    l := |entries| - 1;
    while h.key(entries[l].name) != h.key(entries[i].name)
      invariant i <= l < |entries|
      invariant forall j | l < j < |entries| :: h.key(entries[j].name) != h.key(entries[i].name)
      decreases l
    {
      l := l - 1;
    }
  }

  /** Two variables that share a table key: the scope removes the one remembered first,
      if only that one is there. */
  lemma {:induction false} CollisionRemoves(h: Host, entries: seq<Entry>, i: nat, l: nat, value: string)
    requires i < |entries| && l < |entries|
    requires h.key(entries[i].name) == h.key(entries[l].name)
    requires h.variable(entries[i].name) != h.variable(entries[l].name)
    requires forall j | l < j < |entries| :: h.key(entries[j].name) != h.key(entries[l].name)
    requires forall a, b :: h.variable(a) == h.variable(b) ==> h.key(a) == h.key(b)
    ensures var v := h.variable(entries[i].name);
      v !in Run(h, ScriptOf(entries), map[v := value], |entries|, e => e)
  {
    var v := h.variable(entries[i].name);
    var env: Variables := map[v := value];
    SetupRemembersLast(h, entries, env, l);
    var s := ExecAll(h, Shell(env, map[], map[]), Setups(entries));
    AssignmentsKeep(h, s, entries, |entries|);
    hide Setups, Assignments, Restores, ExecAll, Exec;
    RestoresRemove(h, ExecAll(h, s, Assignments(entries)[..|entries|]), entries, v);
  }

  /** Why requests are checked: the scope restores its variables exactly when no two of
      them share a table key, and the empty text can be restored. */
  lemma {:induction false} RestoresExactlyWhenApart(h: Host, entries: seq<Entry>)
    requires forall a, b :: h.variable(a) == h.variable(b) ==> h.key(a) == h.key(b)
    ensures AlwaysRestores(h, entries) <==> Apart(h, entries) && (h.keepsEmpty || entries == [])
  {
    hide Run;
    if !Apart(h, entries) {
      var i, j :| 0 <= i < |entries| && 0 <= j < |entries| && h.key(entries[i].name) == h.key(entries[j].name) &&
        h.variable(entries[i].name) != h.variable(entries[j].name);
      var l := LastWithKey(h, entries, i);
      var m := if h.variable(entries[i].name) == h.variable(entries[l].name) then j else i;
      CollisionRemoves(h, entries, m, l, entries[m].value);
      var v := h.variable(entries[m].name);
      var env: Variables := map[v := entries[m].value];
      assert Get(Run(h, ScriptOf(entries), env, |entries|, e => e), v) != Get(env, v);
    } else {
      forall env: Variables, i | 0 <= i < |entries| {
        ApartScopeRestores(h, entries, env, |entries|, e => e, i);
      }
      if !h.keepsEmpty && entries != [] {
        var v := h.variable(entries[0].name);
        var env: Variables := map[v := ""];
        assert Get(Run(h, ScriptOf(entries), env, |entries|, e => e), v) != Get(env, v);
      }
    }
  }
}
