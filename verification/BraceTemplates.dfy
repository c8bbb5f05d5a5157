/** Templates as syntax trees.  Expanding the text of a tree gives the tree's
    Cartesian product, in left-to-right order. */
module BraceTemplates {
  import opened Text
  import opened BraceScanner
  import opened BraceExpansion

  datatype Template = Empty | Then(head: Node, tail: Template)

  datatype Node = Literal(text: string) | List(branches: Branches)

  /** The alternatives of a list: two or more. */
  datatype Branches = Two(first: Template, second: Template) | More(first: Template, rest: Branches)

  function Render(t: Template): string {
    match t
    case Empty => ""
    case Then(head, tail) => RenderNode(head) + Render(tail)
  }

  function RenderNode(n: Node): string {
    match n
    case Literal(text) => text
    case List(b) => "{{" + RenderBranches(b) + "}}"
  }

  function RenderBranches(b: Branches): string {
    match b
    case Two(first, second) => Render(first) + "," + Render(second)
    case More(first, rest) => Render(first) + "," + RenderBranches(rest)
  }

  // ----- Literals

  /** Scanning the literal `text` from a cursor ends outside quotes and escapes and
      meets no active delimiter, save commas where they are allowed, whatever text
      comes next. */
  predicate Inert(text: string, at: Cursor, commas: bool)
    requires at.i <= |text|
    decreases |text| - at.i
  {
    if at.i == |text| then at.quote.None? && !at.escaped
    else
      && (KindAt(text, at).None? || (commas && KindAt(text, at) == Some(Comma)))
      && (at.i + 1 == |text| && at.quote.None? && !at.escaped ==>
            text[at.i] != '{' && text[at.i] != '}' && (text[at.i] == ',' ==> commas))
      && Inert(text, Next(text, at), commas)
  }

  /** Every literal is inert; commas are literal only outside lists. */
  predicate WellFormed(t: Template, commas: bool) {
    match t
    case Empty => true
    case Then(head, tail) => WellFormedNode(head, commas) && WellFormed(tail, commas)
  }

  predicate WellFormedNode(n: Node, commas: bool) {
    match n
    case Literal(text) => Inert(text, START, commas)
    case List(b) => WellFormedBranches(b)
  }

  predicate WellFormedBranches(b: Branches) {
    match b
    case Two(first, second) => WellFormed(first, false) && WellFormed(second, false)
    case More(first, rest) => WellFormed(first, false) && WellFormedBranches(rest)
  }

  /** The literals users write: characters with no role in the syntax, single braces
      before such a character, escaped characters and quoted text. */
  datatype Atom =
    | Plain(c: char)
    | Brace(brace: char, after: char)
    | Escaped(c: char)
    | SingleQuoted(text: string)
    | DoubleQuoted(parts: seq<Part>)

  datatype Part = Character(c: char) | EscapedCharacter(c: char)

  predicate IsPlain(c: char, commas: bool) {
    c != '\\' && c != '\'' && c != '"' && c != '{' && c != '}' && (c == ',' ==> commas)
  }

  predicate ValidAtom(a: Atom, commas: bool) {
    match a
    case Plain(c) => IsPlain(c, commas)
    case Brace(brace, after) => (brace == '{' || brace == '}') && IsPlain(after, commas)
    case Escaped(_) => true
    case SingleQuoted(text) => '\'' !in text
    case DoubleQuoted(parts) => forall u | u in parts :: u.Character? ==> u.c != '"' && u.c != '\\'
  }

  function RenderParts(parts: seq<Part>): string {
    if parts == [] then ""
    else (if parts[0].Character? then [parts[0].c] else ['\\', parts[0].c]) + RenderParts(parts[1..])
  }

  function RenderAtom(a: Atom): string {
    match a
    case Plain(c) => [c]
    case Brace(brace, after) => [brace, after]
    case Escaped(c) => ['\\', c]
    case SingleQuoted(text) => "'" + text + "'"
    case DoubleQuoted(parts) => "\"" + RenderParts(parts) + "\""
  }

  function RenderAtoms(atoms: seq<Atom>): string {
    if atoms == [] then "" else RenderAtom(atoms[0]) + RenderAtoms(atoms[1..])
  }

  function Shift(at: Cursor, offset: nat): Cursor {
    Cursor(at.i + offset, at.quote, at.escaped)
  }

  lemma {:induction false} InertShift(a: string, b: string, at: Cursor, commas: bool)
    requires at.i <= |b| && Inert(b, at, commas)
    ensures Inert(a + b, Shift(at, |a|), commas)
    decreases |b| - at.i
  {
    if at.i < |b| {
      assert (a + b)[|a| + at.i] == b[at.i];
      assert KindAt(a + b, Shift(at, |a|)) == KindAt(b, at);
      assert Next(a + b, Shift(at, |a|)) == Shift(Next(b, at), |a|);
      InertShift(a, b, Next(b, at), commas);
    }
  }

  lemma {:induction false} InertAppend(a: string, b: string, at: Cursor, commas: bool)
    requires at.i <= |a| && Inert(a, at, commas) && Inert(b, START, commas)
    ensures Inert(a + b, at, commas)
    decreases |a| - at.i
  {
    if at.i == |a| {
      InertShift(a, b, START, commas);
    } else {
      assert (a + b)[at.i] == a[at.i];
      assert Next(a + b, at) == Next(a, at);
      InertAppend(a, b, Next(a, at), commas);
    }
  }

  lemma {:induction false} InertAllowsCommas(text: string, at: Cursor)
    requires at.i <= |text| && Inert(text, at, false)
    ensures Inert(text, at, true)
    decreases |text| - at.i
  {
    if at.i < |text| {
      InertAllowsCommas(text, Next(text, at));
    }
  }

  lemma {:induction false} QuotedIsInert(text: string, i: nat, commas: bool)
    requires '\'' !in text && 1 <= i <= |text| + 1
    ensures Inert("'" + text + "'", Cursor(i, Some('\''), false), commas)
    decreases |text| + 1 - i
  {
    var s := "'" + text + "'";
    if i <= |text| {
      assert s[i] == text[i - 1];
      assert Next(s, Cursor(i, Some('\''), false)) == Cursor(i + 1, Some('\''), false);
      QuotedIsInert(text, i + 1, commas);
    } else {
      assert Next(s, Cursor(i, Some('\''), false)) == Cursor(i + 1, None, false);
    }
  }

  lemma {:induction false} PartsAreInert(parts: seq<Part>, before: string, commas: bool)
    requires forall u | u in parts :: u.Character? ==> u.c != '"' && u.c != '\\'
    ensures Inert(before + RenderParts(parts) + "\"", Cursor(|before|, Some('"'), false), commas)
    decreases |parts|
  {
    var s, q := before + RenderParts(parts) + "\"", Some('"');
    var i := |before|;
    if parts == [] {
      assert Next(s, Cursor(i, q, false)) == Cursor(i + 1, None, false);
    } else if parts[0].Character? {
      var longer := before + [parts[0].c];
      assert s == longer + RenderParts(parts[1..]) + "\"";
      assert s[i] == parts[0].c;
      assert Next(s, Cursor(i, q, false)) == Cursor(i + 1, q, false);
      PartsAreInert(parts[1..], longer, commas);
    } else {
      var longer := before + ['\\', parts[0].c];
      assert s == longer + RenderParts(parts[1..]) + "\"";
      assert s[i] == '\\';
      assert Next(s, Cursor(i, q, false)) == Cursor(i + 1, q, true);
      assert Next(s, Cursor(i + 1, q, true)) == Cursor(i + 2, q, false);
      PartsAreInert(parts[1..], longer, commas);
    }
  }

  lemma {:induction false} AtomIsInert(a: Atom, commas: bool)
    requires ValidAtom(a, commas)
    ensures Inert(RenderAtom(a), START, commas)
  {
    var s := RenderAtom(a);
    match a
    case Plain(c) =>
      assert Next(s, START) == Cursor(1, None, false);
    case Brace(brace, after) =>
      assert Next(s, START) == Cursor(1, None, false);
      assert Next(s, Cursor(1, None, false)) == Cursor(2, None, false);
    case Escaped(c) =>
      assert Next(s, START) == Cursor(1, None, true);
      assert Next(s, Cursor(1, None, true)) == Cursor(2, None, false);
    case SingleQuoted(text) =>
      assert Next(s, START) == Cursor(1, Some('\''), false);
      QuotedIsInert(text, 1, commas);
    case DoubleQuoted(parts) =>
      assert Next(s, START) == Cursor(1, Some('"'), false);
      PartsAreInert(parts, "\"", commas);
  }

  /** Any sequence of plain, escaped and quoted atoms is a literal. */
  lemma {:induction false} AtomsAreInert(atoms: seq<Atom>, commas: bool)
    requires forall a | a in atoms :: ValidAtom(a, commas)
    ensures Inert(RenderAtoms(atoms), START, commas)
    decreases |atoms|
  {
    if atoms != [] {
      AtomIsInert(atoms[0], commas);
      AtomsAreInert(atoms[1..], commas);
      InertAppend(RenderAtom(atoms[0]), RenderAtoms(atoms[1..]), START, commas);
    }
  }

  // ----- Scanning the text of a tree

  ghost predicate At(s: string, i: nat, text: string) {
    i + |text| <= |s| && s[i..i + |text|] == text
  }

  lemma {:induction false} AtSplit(s: string, i: nat, a: string, b: string)
    requires At(s, i, a + b)
    ensures At(s, i, a) && At(s, i + |a|, b)
  {
    var whole := s[i..i + |a + b|];
    assert whole[..|a|] == a && whole[|a|..] == b;
    assert whole[..|a|] == s[i..i + |a|] && whole[|a|..] == s[i + |a|..i + |a| + |b|];
  }

  function Clear(i: nat): Cursor {
    Cursor(i, None, false)
  }

  /** Inside a larger text, a literal is scanned as on its own. */
  lemma {:induction false} LiteralStep(s: string, p: nat, text: string, at: Cursor, commas: bool)
    requires At(s, p, text) && at.i < |text| && Inert(text, at, commas)
    ensures Next(s, Shift(at, p)) == Shift(Next(text, at), p)
    ensures KindAt(s, Shift(at, p)).None? || (commas && KindAt(s, Shift(at, p)) == Some(Comma))
    ensures Inert(text, Next(text, at), commas)
  {
    assert s[p + at.i] == s[p..p + |text|][at.i] == text[at.i];
    if at.i + 1 < |text| {
      assert s[p + at.i + 1] == s[p..p + |text|][at.i + 1] == text[at.i + 1];
    }
  }

  /** A literal contributes at most commas, and none where they are not allowed. */
  lemma {:induction false} LiteralTokens(s: string, p: nat, text: string, at: Cursor, commas: bool)
      returns (cs: seq<Token>)
    requires At(s, p, text) && at.i <= |text| && Inert(text, at, commas)
    ensures Silent(cs, commas)
    ensures Tokens(s, Shift(at, p)) == cs + Tokens(s, Clear(p + |text|))
    decreases |text| - at.i
  {
    hide KindAt, Next;
    if at.i == |text| {
      cs := [];
      assert [] + Tokens(s, Clear(p + |text|)) == Tokens(s, Clear(p + |text|));
    } else {
      LiteralStep(s, p, text, at, commas);
      TokensStep(s, Shift(at, p));
      hide At, Inert, Tokens, Silent;
      var more := LiteralTokens(s, p, text, Next(text, at), commas);
      var first := if KindAt(s, Shift(at, p)).Some? then [Token(Comma, p + at.i)] else [];
      cs := first + more;
      SilentSum(first, more, Tokens(s, Clear(p + |text|)), commas);
    }
  }

  /** Only commas, and none where they are not allowed. */
  ghost predicate Silent(cs: seq<Token>, commas: bool) {
    (forall i | 0 <= i < |cs| :: cs[i].kind == Comma) && (!commas ==> cs == [])
  }

  lemma {:induction false} SilentSum(a: seq<Token>, b: seq<Token>, rest: seq<Token>, commas: bool)
    requires Silent(b, commas) && (a == [] || (commas && |a| == 1 && a[0].kind == Comma))
    ensures Silent(a + b, commas) && a + (b + rest) == (a + b) + rest
  {
  }

  lemma {:induction false} TokensStep(s: string, at: Cursor)
    requires at.i < |s|
    ensures Tokens(s, at) ==
      (if KindAt(s, at).Some? then [Token(KindAt(s, at).value, at.i)] else []) + Tokens(s, Next(s, at))
  {
    hide KindAt, Next;
  }

  lemma {:induction false} CommasOutsideLists(cs: seq<Token>, rest: seq<Token>, list: Option<BraceList>)
    requires forall i | 0 <= i < |cs| :: cs[i].kind == Comma
    ensures Parse(cs + rest, [], list) == Parse(rest, [], list)
    decreases |cs|
  {
    if cs == [] {
      assert cs + rest == rest;
    } else {
      assert (cs + rest)[1..] == cs[1..] + rest;
      CommasOutsideLists(cs[1..], rest, list);
    }
  }

  function BranchSpans(b: Branches, i: nat): seq<(nat, nat)> {
    var end := i + |Render(b.first)|;
    match b
    case Two(_, second) => [(i, end), (end + 1, end + 1 + |Render(second)|)]
    case More(_, rest) => [(i, end)] + BranchSpans(rest, end + 1)
  }

  /** Where the first list of a tree lies when its text starts at `i`. */
  function ListOf(t: Template, i: nat): Option<BraceList> {
    match t
    case Empty => None
    case Then(Literal(text), tail) => ListOf(tail, i + |text|)
    case Then(List(b), tail) => Some(BraceList(i, i + |RenderNode(t.head)|, BranchSpans(b, i + 2)))
  }

  function Or(list: Option<BraceList>, other: Option<BraceList>): Option<BraceList> {
    if list.Some? then list else other
  }

  /** The outcome of scanning on from position `i` with these open groups. */
  function Scan(s: string, i: nat, groups: seq<Group>, list: Option<BraceList>): Option<BraceList>
    requires i <= |s|
  {
    Parse(Tokens(s, Clear(i)), groups, list)
  }

  lemma {:induction false} ScanDelimiter(s: string, i: nat, kind: Kind, groups: seq<Group>, list: Option<BraceList>)
    requires i + 1 < |s| && KindAt(s, Clear(i)) == Some(kind)
    ensures var t := Token(kind, i);
      Scan(s, i, groups, list) == Scan(s, i + Width(Some(kind)), NextGroups(t, groups), NextList(t, groups, list))
  {
    ParseStep(s, Clear(i), groups, list);
    assert Next(s, Clear(i)) == Clear(i + Width(Some(kind)));
  }

  lemma {:induction false} ScanLiteral(s: string, i: nat, text: string, groups: seq<Group>, list: Option<BraceList>)
    requires At(s, i, text) && Inert(text, START, groups == [])
    ensures Scan(s, i, groups, list) == Scan(s, i + |text|, groups, list)
  {
    var cs := LiteralTokens(s, i, text, START, groups == []);
    assert Shift(START, i) == Clear(i);
    var rest := Tokens(s, Clear(i + |text|));
    if groups == [] {
      CommasOutsideLists(cs, rest, list);
    } else {
      assert [] + rest == rest;
    }
  }

  /** Scanning the text of a tree leaves the open groups alone and offers the
      tree's first list. */
  lemma {:induction false} ScanTemplate(s: string, i: nat, t: Template, groups: seq<Group>, list: Option<BraceList>)
    requires At(s, i, Render(t)) && WellFormed(t, groups == [])
    requires list.Some? ==> list.value.start < i
    ensures Scan(s, i, groups, list) == Scan(s, i + |Render(t)|, groups, Or(list, ListOf(t, i)))
    decreases t, 0
  {
    hide Scan;
    match t
    case Empty =>
    case Then(head, tail) =>
      var text := RenderNode(head);
      AtSplit(s, i, text, Render(tail));
      if head.Literal? {
        ScanLiteral(s, i, text, groups, list);
        ScanTemplate(s, i + |text|, tail, groups, list);
      } else {
        ScanList(s, i, head.branches, groups, list);
        ScanTemplate(s, i + |text|, tail, groups, Or(list, ListOf(t, i)));
      }
  }

  lemma {:induction false} ScanList(s: string, i: nat, b: Branches, groups: seq<Group>, list: Option<BraceList>)
    requires At(s, i, RenderNode(List(b))) && WellFormedBranches(b)
    requires list.Some? ==> list.value.start < i
    ensures var end := i + |RenderNode(List(b))|;
      Scan(s, i, groups, list) == Scan(s, end, groups, Or(list, Some(BraceList(i, end, BranchSpans(b, i + 2)))))
    decreases b, 1
  {
    hide Scan;
    var text := RenderBranches(b);
    assert RenderNode(List(b)) == "{{" + (text + "}}");
    AtSplit(s, i, "{{", text + "}}");
    AtSplit(s, i + 2, text, "}}");
    assert s[i..i + 2][0] == s[i] && s[i..i + 2][1] == s[i + 1];
    ScanDelimiter(s, i, Open, groups, list);
    ScanBranches(s, i + 2, b, groups, Group(i, i + 2, [], false), list);
    assert [] + BranchSpans(b, i + 2) == BranchSpans(b, i + 2);
  }

  /** Scanning an alternative and the comma after it. */
  lemma {:induction false} ScanToComma(s: string, i: nat, t: Template, groups: seq<Group>, g: Group,
                                       list: Option<BraceList>)
    requires At(s, i, Render(t)) && WellFormed(t, false)
    requires i + |Render(t)| + 1 < |s| && s[i + |Render(t)|] == ','
    requires g.alternativeStart == i
    requires list.Some? ==> list.value.start < i
    ensures var k := i + |Render(t)|;
      Scan(s, i, groups + [g], list) ==
      Scan(s, k + 1, groups + [AfterComma(g, i, k)], Or(list, ListOf(t, i)))
    decreases t, 1
  {
    hide Scan, ListOf, WellFormed, Render;
    var k, list' := i + |Render(t)|, Or(list, ListOf(t, i));
    ScanTemplate(s, i, t, groups + [g], list);
    CommaAfter(s, i, k, groups, g, list');
  }

  lemma {:induction false} CommaAfter(s: string, i: nat, k: nat, groups: seq<Group>, g: Group, list: Option<BraceList>)
    requires k + 1 < |s| && s[k] == ',' && g.alternativeStart == i
    ensures Scan(s, k, groups + [g], list) == Scan(s, k + 1, groups + [AfterComma(g, i, k)], list)
  {
    hide Scan;
    ScanDelimiter(s, k, Comma, groups + [g], list);
    assert (groups + [g])[..|groups|] == groups;
  }

  /** Scanning the last alternative and the braces after it. */
  lemma {:induction false} ScanToClose(s: string, i: nat, t: Template, groups: seq<Group>, g: Group,
                                       list: Option<BraceList>)
    requires At(s, i, Render(t)) && WellFormed(t, false)
    requires At(s, i + |Render(t)|, "}}")
    requires g.hasComma && g.start < i && g.alternativeStart == i
    requires list.Some? ==> list.value.start < i && list.value.start != g.start
    ensures var j := i + |Render(t)|;
      Scan(s, i, groups + [g], list) == Scan(s, j + 2, groups, ClosedList(g, [(i, j)], j + 2, list))
    decreases t, 1
  {
    hide Scan, ListOf, WellFormed, Render;
    var j, list' := i + |Render(t)|, Or(list, ListOf(t, i));
    ScanTemplate(s, i, t, groups + [g], list);
    ListOfLies(t, i);
    CloseAfter(s, i, j, groups, g, list');
  }

  lemma {:induction false} CloseAfter(s: string, i: nat, j: nat, groups: seq<Group>, g: Group, list: Option<BraceList>)
    requires At(s, j, "}}") && g.alternativeStart == i
    ensures Scan(s, j, groups + [g], list) == Scan(s, j + 2, groups, Closed(g, j, list))
  {
    hide Scan, Closed;
    assert s[j..j + 2][0] == s[j] && s[j..j + 2][1] == s[j + 1];
    ScanDelimiter(s, j, Close, groups + [g], list);
    assert (groups + [g])[..|groups|] == groups;
  }

  /** The parts of a rendered sequence of alternatives. */
  function Others(b: Branches): string {
    if b.Two? then Render(b.second) else RenderBranches(b.rest)
  }

  lemma {:induction false} BranchesAt(s: string, i: nat, b: Branches)
    requires At(s, i, RenderBranches(b))
    ensures var k := i + |Render(b.first)|;
      && At(s, i, Render(b.first)) && At(s, k + 1, Others(b))
      && s[k] == ',' && k + 1 + |Others(b)| == i + |RenderBranches(b)|
  {
    var first, others := Render(b.first), Others(b);
    var k := i + |first|;
    assert RenderBranches(b) == first + ("," + others);
    AtSplit(s, i, first, "," + others);
    AtSplit(s, k, ",", others);
    assert s[k..k + 1][0] == s[k];
  }

  lemma {:induction false} BranchSpansSplit(spans: seq<(nat, nat)>, b: Branches, i: nat)
    ensures var k := i + |Render(b.first)|;
      spans + BranchSpans(b, i) ==
      (spans + [(i, k)]) + if b.Two? then [(k + 1, k + 1 + |Others(b)|)] else BranchSpans(b.rest, k + 1)
  {
  }

  /** The list left when the group `g`, with `spans` after it, closes just before `end`. */
  function ClosedList(g: Group, spans: seq<(nat, nat)>, end: nat, list: Option<BraceList>): Option<BraceList> {
    if list.Some? && list.value.start < g.start then list else Some(BraceList(g.start, end, g.spans + spans))
  }

  function AfterComma(g: Group, i: nat, k: nat): Group {
    Group(g.start, k + 1, g.spans + [(i, k)], true)
  }

  /** Scanning the first alternative leaves the same task for the others. */
  lemma {:induction false} ScanFirstBranch(s: string, i: nat, b: Branches, groups: seq<Group>, g: Group,
                                           list: Option<BraceList>)
    requires At(s, i, RenderBranches(b)) && At(s, i + |RenderBranches(b)|, "}}") && WellFormedBranches(b)
    requires g.start < i && g.alternativeStart == i
    requires list.Some? ==> list.value.start < i && list.value.start != g.start
    ensures var k := i + |Render(b.first)|;
      var list1 := Or(list, ListOf(b.first, i));
      var end := i + |RenderBranches(b)| + 2;
      var g1 := AfterComma(g, i, k);
      && At(s, k + 1, Others(b)) && k + 1 + |Others(b)| + 2 == end
      && (list1.Some? ==> list1.value.start < k + 1 && list1.value.start != g.start)
      && Scan(s, i, groups + [g], list) == Scan(s, k + 1, groups + [g1], list1)
      && ClosedList(g, BranchSpans(b, i), end, list) ==
         ClosedList(g1, if b.Two? then [(k + 1, end - 2)] else BranchSpans(b.rest, k + 1), end, list1)
    decreases b.first, 2
  {
    hide Scan;
    BranchesAt(s, i, b);
    BranchSpansSplit(g.spans, b, i);
    ListOfLies(b.first, i);
    ScanToComma(s, i, b.first, groups, g, list);
  }

  lemma {:induction false} ScanBranches(s: string, i: nat, b: Branches, groups: seq<Group>, g: Group,
                                        list: Option<BraceList>)
    requires At(s, i, RenderBranches(b)) && At(s, i + |RenderBranches(b)|, "}}") && WellFormedBranches(b)
    requires g.start < i && g.alternativeStart == i
    requires list.Some? ==> list.value.start < i && list.value.start != g.start
    ensures var end := i + |RenderBranches(b)| + 2;
      Scan(s, i, groups + [g], list) == Scan(s, end, groups, ClosedList(g, BranchSpans(b, i), end, list))
    decreases b, 0
  {
    hide Scan, At;
    ScanFirstBranch(s, i, b, groups, g, list);
    var k := i + |Render(b.first)|;
    var g1 := AfterComma(g, i, k);
    var list1 := Or(list, ListOf(b.first, i));
    match b
    case Two(_, second) => ScanToClose(s, k + 1, second, groups, g1, list1);
    case More(_, rest) => ScanBranches(s, k + 1, rest, groups, g1, list1);
  }

  lemma {:induction false} ListOfLies(t: Template, i: nat)
    ensures ListOf(t, i).Some? ==> i <= ListOf(t, i).value.start < i + |Render(t)|
    decreases t
  {
    match t
    case Empty =>
    case Then(Literal(text), tail) => ListOfLies(tail, i + |text|);
    case Then(List(b), tail) =>
  }

  /** The list the scanner finds in the text of a tree is the tree's first list. */
  lemma {:induction false} FirstListOfTree(t: Template)
    requires WellFormed(t, true)
    ensures FirstList(Render(t)) == ListOf(t, 0)
  {
    ScanTemplate(Render(t), 0, t, [], None);
  }

  // ----- The Cartesian product of a tree

  function Prefixed(prefix: string, texts: seq<string>): seq<string> {
    seq(|texts|, i requires 0 <= i < |texts| => prefix + texts[i])
  }

  /** Every text of `xs` before every text of `ys`; the left choice varies slowest. */
  function Cross(xs: seq<string>, ys: seq<string>): seq<string> {
    if xs == [] then [] else Prefixed(xs[0], ys) + Cross(xs[1..], ys)
  }

  function Product(t: Template): seq<string> {
    match t
    case Empty => [""]
    case Then(Literal(text), tail) => Prefixed(text, Product(tail))
    case Then(List(b), tail) => Cross(BranchProducts(b), Product(tail))
  }

  /** The products of the alternatives, one after the other. */
  function BranchProducts(b: Branches): seq<string> {
    match b
    case Two(first, second) => Product(first) + Product(second)
    case More(first, rest) => Product(first) + BranchProducts(rest)
  }

  /** The product with the alternatives chosen, after those of `parameters`. */
  function LabelledProduct(t: Template, parameters: seq<string>): seq<Choice>
    decreases t, 0
  {
    match t
    case Empty => [Choice("", parameters)]
    case Then(Literal(text), tail) => PrefixedChoices(text, LabelledProduct(tail, parameters))
    case Then(List(b), tail) => LabelledCross(BranchProducts(b), tail, parameters)
  }

  function LabelledCross(texts: seq<string>, tail: Template, parameters: seq<string>): seq<Choice>
    decreases tail, 1, |texts|
  {
    if texts == [] then []
    else
      PrefixedChoices(texts[0], LabelledProduct(tail, parameters + [Parameter(texts[0])])) +
      LabelledCross(texts[1..], tail, parameters)
  }

  function PrefixedChoices(prefix: string, choices: seq<Choice>): seq<Choice> {
    seq(|choices|, i requires 0 <= i < |choices| =>
      Choice(prefix + choices[i].command, choices[i].parameters))
  }

  function Commands(choices: seq<Choice>): seq<string> {
    seq(|choices|, i requires 0 <= i < |choices| => choices[i].command)
  }

  // ----- Algebra of products

  lemma {:induction false} PrefixedEmpty(texts: seq<string>)
    ensures Prefixed("", texts) == texts
  {
    assert forall i | 0 <= i < |texts| :: "" + texts[i] == texts[i];
  }

  lemma {:induction false} PrefixedPrefixed(a: string, b: string, ys: seq<string>)
    ensures Prefixed(a, Prefixed(b, ys)) == Prefixed(a + b, ys)
  {
    assert forall i | 0 <= i < |ys| :: a + (b + ys[i]) == (a + b) + ys[i];
  }

  lemma {:induction false} PrefixedSum(a: string, xs: seq<string>, ys: seq<string>)
    ensures Prefixed(a, xs + ys) == Prefixed(a, xs) + Prefixed(a, ys)
  {
  }

  lemma {:induction false} CrossSum(xs: seq<string>, ys: seq<string>, zs: seq<string>)
    ensures Cross(xs + ys, zs) == Cross(xs, zs) + Cross(ys, zs)
    decreases |xs|
  {
    if xs == [] {
      assert xs + ys == ys;
    } else {
      assert (xs + ys)[1..] == xs[1..] + ys;
      CrossSum(xs[1..], ys, zs);
    }
  }

  lemma {:induction false} CrossPrefixed(a: string, xs: seq<string>, ys: seq<string>)
    ensures Cross(Prefixed(a, xs), ys) == Prefixed(a, Cross(xs, ys))
    decreases |xs|
  {
    if xs != [] {
      assert Prefixed(a, xs)[1..] == Prefixed(a, xs[1..]);
      PrefixedPrefixed(a, xs[0], ys);
      PrefixedSum(a, Prefixed(xs[0], ys), Cross(xs[1..], ys));
      CrossPrefixed(a, xs[1..], ys);
    }
  }

  lemma {:induction false} CrossAssociates(xs: seq<string>, ys: seq<string>, zs: seq<string>)
    ensures Cross(Cross(xs, ys), zs) == Cross(xs, Cross(ys, zs))
    decreases |xs|
  {
    if xs != [] {
      CrossSum(Prefixed(xs[0], ys), Cross(xs[1..], ys), zs);
      CrossPrefixed(xs[0], ys, zs);
      CrossAssociates(xs[1..], ys, zs);
    }
  }

  function Append(t: Template, u: Template): Template {
    match t
    case Empty => u
    case Then(head, tail) => Then(head, Append(tail, u))
  }

  lemma {:induction false} AppendKeeps(t: Template, u: Template)
    ensures Render(Append(t, u)) == Render(t) + Render(u)
    ensures Product(Append(t, u)) == Cross(Product(t), Product(u))
    ensures forall commas: bool :: WellFormed(t, commas) && WellFormed(u, commas) ==> WellFormed(Append(t, u), commas)
    decreases t
  {
    match t
    case Empty =>
      PrefixedEmpty(Product(u));
      assert [""][1..] == [];
    case Then(Literal(text), tail) =>
      AppendKeeps(tail, u);
      CrossPrefixed(text, Product(tail), Product(u));
    case Then(List(b), tail) =>
      AppendKeeps(tail, u);
      CrossAssociates(BranchProducts(b), Product(tail), Product(u));
  }

  // ----- Rewriting the first list of a tree

  function Count(b: Branches): nat {
    if b.Two? then 2 else 1 + Count(b.rest)
  }

  function Nth(b: Branches, j: nat): Template
    requires j < Count(b)
  {
    if j == 0 then b.first else if b.Two? then b.second else Nth(b.rest, j - 1)
  }

  /** A tree with a list, seen as a literal, its first list and what follows. */
  datatype Parts = Parts(prefix: string, branches: Branches, tail: Template)

  function Split(t: Template): Option<Parts> {
    match t
    case Empty => None
    case Then(Literal(text), tail) =>
      var parts := Split(tail);
      if parts.None? then None else Some(parts.value.(prefix := text + parts.value.prefix))
    case Then(List(b), tail) => Some(Parts("", b, tail))
  }

  /** The tree with `u` in place of its first list. */
  function Insert(t: Template, u: Template): Template
    requires Split(t).Some?
  {
    match t
    case Then(Literal(text), tail) => Then(t.head, Insert(tail, u))
    case Then(List(b), tail) => Append(u, tail)
  }

  lemma {:induction false} Prepend(a: string, b: string, c: string, d: string)
    ensures a + (b + c + d) == (a + b) + c + d
  {
  }

  lemma {:induction false} SplitRenders(t: Template, i: nat)
    ensures ListOf(t, i).Some? <==> Split(t).Some?
    ensures match Split(t)
      case None => Product(t) == [Render(t)]
      case Some(p) =>
        && Render(t) == p.prefix + RenderNode(List(p.branches)) + Render(p.tail)
        && Product(t) == Prefixed(p.prefix, Cross(BranchProducts(p.branches), Product(p.tail)))
        && var start := i + |p.prefix|;
           var end := start + |RenderNode(List(p.branches))|;
           ListOf(t, i) == Some(BraceList(start, end, BranchSpans(p.branches, start + 2)))
    decreases t
  {
    match t
    case Empty =>
    case Then(Literal(text), tail) =>
      SplitRenders(tail, i + |text|);
      if Split(tail).Some? {
        var p := Split(tail).value;
        hide Cross, BranchProducts, RenderBranches, BranchSpans;
        PrefixedPrefixed(text, p.prefix, Cross(BranchProducts(p.branches), Product(p.tail)));
        Prepend(text, p.prefix, RenderNode(List(p.branches)), Render(p.tail));
      }
    case Then(List(b), tail) =>
      hide Cross, BranchProducts, RenderBranches, BranchSpans;
      PrefixedEmpty(Cross(BranchProducts(b), Product(tail)));
  }

  lemma {:induction false} InsertKeeps(t: Template, u: Template)
    requires Split(t).Some? && WellFormed(t, true) && WellFormed(u, true)
    ensures var p := Split(t).value;
      && WellFormed(Insert(t, u), true) && WellFormedBranches(p.branches) && WellFormed(p.tail, true)
      && Render(Insert(t, u)) == p.prefix + Render(u) + Render(p.tail)
      && Product(Insert(t, u)) == Prefixed(p.prefix, Cross(Product(u), Product(p.tail)))
    decreases t
  {
    match t
    case Then(Literal(text), tail) =>
      InsertKeeps(tail, u);
      var p := Split(tail).value;
      PrefixedPrefixed(text, p.prefix, Cross(Product(u), Product(p.tail)));
      Prepend(text, p.prefix, Render(u), Render(p.tail));
    case Then(List(b), tail) =>
      AppendKeeps(u, tail);
      PrefixedEmpty(Cross(Product(u), Product(tail)));
  }

  lemma {:induction false} NthBranch(s: string, b: Branches, i: nat, j: nat)
    requires At(s, i, RenderBranches(b)) && WellFormedBranches(b) && j < Count(b)
    ensures |BranchSpans(b, i)| == Count(b)
    ensures var (from, to) := BranchSpans(b, i)[j];
      from <= to <= |s| && s[from..to] == Render(Nth(b, j))
    ensures WellFormed(Nth(b, j), false)
    decreases b
  {
    BranchesAt(s, i, b);
    hide Render, RenderBranches, WellFormed;
    var k := i + |Render(b.first)|;
    if b.More? {
      NthBranch(s, b.rest, k + 1, if j == 0 then 0 else j - 1);
    }
  }

  lemma {:induction false} WellFormedAllowsCommas(t: Template)
    requires WellFormed(t, false)
    ensures WellFormed(t, true)
    decreases t
  {
    if t.Then? {
      if t.head.Literal? {
        InertAllowsCommas(t.head.text, START);
      }
      WellFormedAllowsCommas(t.tail);
    }
  }

  /** Alternative `j` of the text of a tree is the text of its branch `j`. */
  lemma {:induction false} AlternativeOfTree(t: Template, j: nat)
    requires WellFormed(t, true) && Split(t).Some? && j < Count(Split(t).value.branches)
    ensures var p := Split(t).value;
      && FirstList(Render(t)).Some? && Arity(Render(t)) == Count(p.branches)
      && WellFormedBranches(p.branches) && WellFormed(Nth(p.branches, j), false)
      && Alternative(Render(t), j) == Render(Nth(p.branches, j))
  {
    var p := Split(t).value;
    var s := Render(t);
    FirstListOfTree(t);
    SplitRenders(t, 0);
    InsertKeeps(t, Empty);
    hide Product, BranchProducts, Cross, Render, RenderBranches, ListOf, Split, FirstList;
    hide WellFormed, WellFormedBranches;
    var start := |p.prefix|;
    assert s[start..start + |RenderNode(List(p.branches))|] == RenderNode(List(p.branches));
    BranchOfNode(s, p.branches, start, j);
  }

  lemma {:induction false} BranchOfNode(s: string, b: Branches, start: nat, j: nat)
    requires At(s, start, RenderNode(List(b))) && WellFormedBranches(b) && j < Count(b)
    ensures |BranchSpans(b, start + 2)| == Count(b)
    ensures var (from, to) := BranchSpans(b, start + 2)[j];
      from <= to <= |s| && s[from..to] == Render(Nth(b, j))
    ensures WellFormed(Nth(b, j), false)
  {
    hide Render, RenderBranches, WellFormed, WellFormedBranches;
    var inner := RenderBranches(b);
    assert RenderNode(List(b)) == "{{" + (inner + "}}");
    AtSplit(s, start, "{{", inner + "}}");
    AtSplit(s, start + 2, inner, "}}");
    NthBranch(s, b, start + 2, j);
  }

  /** Splicing into the text of a tree is inserting into the tree. */
  lemma {:induction false} SpliceOfTree(t: Template, u: Template)
    requires WellFormed(t, true) && WellFormed(u, true) && Split(t).Some?
    ensures FirstList(Render(t)).Some?
    ensures Splice(Render(t), Render(u)) == Render(Insert(t, u))
  {
    var p := Split(t).value;
    var s := Render(t);
    FirstListOfTree(t);
    SplitRenders(t, 0);
    InsertKeeps(t, u);
    var start, end := |p.prefix|, |p.prefix| + |RenderNode(List(p.branches))|;
    assert s[..start] == p.prefix && s[end..] == Render(p.tail);
  }

  // ----- Expansion is the product

  /** The products of the branches from `j` on. */
  function ProductsFrom(b: Branches, j: nat): seq<string>
    requires j <= Count(b)
    decreases Count(b) - j
  {
    if j == Count(b) then [] else Product(Nth(b, j)) + ProductsFrom(b, j + 1)
  }

  lemma {:induction false} ProductsFromRest(b: Branches, j: nat)
    requires b.More? && j <= Count(b.rest)
    ensures ProductsFrom(b, j + 1) == ProductsFrom(b.rest, j)
    decreases Count(b) - j
  {
    if j < Count(b.rest) {
      ProductsFromRest(b, j + 1);
    }
  }

  lemma {:induction false} ProductsFromStart(b: Branches)
    ensures ProductsFrom(b, 0) == BranchProducts(b)
    decreases b
  {
    match b
    case Two(first, second) =>
      assert ProductsFrom(b, 1) == Product(second) + ProductsFrom(b, 2);
      assert Product(second) + [] == Product(second);
    case More(first, rest) =>
      ProductsFromRest(b, 0);
      ProductsFromStart(rest);
  }

  /** The expansion of the text of a tree is the tree's Cartesian product. */
  lemma {:induction false} ExpandIsProduct(t: Template)
    requires WellFormed(t, true)
    ensures Expand(Render(t)) == Product(t)
    decreases |Render(t)|
  {
    FirstListOfTree(t);
    SplitRenders(t, 0);
    if Split(t).Some? {
      var p := Split(t).value;
      AlternativeOfTree(t, 0);
      ExpandFromIsProduct(t, 0);
      ProductsFromStart(p.branches);
    }
  }

  lemma {:induction false} ExpandFromIsProduct(t: Template, j: nat)
    requires WellFormed(t, true) && Split(t).Some?
    requires Arity(Render(t)) == Count(Split(t).value.branches) && j <= Arity(Render(t))
    ensures var p := Split(t).value;
      ExpandFrom(Render(t), j) == Prefixed(p.prefix, Cross(ProductsFrom(p.branches, j), Product(p.tail)))
    decreases |Render(t)|, Arity(Render(t)) - j
  {
    var p := Split(t).value;
    if j < Arity(Render(t)) {
      var u := Nth(p.branches, j);
      AlternativeOfTree(t, j);
      WellFormedAllowsCommas(u);
      SpliceOfTree(t, u);
      InsertKeeps(t, u);
      ExpandIsProduct(Insert(t, u));
      ExpandFromIsProduct(t, j + 1);
      CrossSum(Product(u), ProductsFrom(p.branches, j + 1), Product(p.tail));
      PrefixedSum(p.prefix, Cross(Product(u), Product(p.tail)),
                  Cross(ProductsFrom(p.branches, j + 1), Product(p.tail)));
    }
  }

  // ----- Labelled expansion is the labelled product

  /** Every text in the product of an inert tree is inert. */
  lemma {:induction false} ProductsAreInert(t: Template, e: string)
    requires WellFormed(t, false) && e in Product(t)
    ensures Inert(e, START, false)
    decreases t
  {
    match t
    case Empty =>
    case Then(Literal(text), tail) =>
      var i :| 0 <= i < |Product(tail)| && e == text + Product(tail)[i];
      ProductsAreInert(tail, Product(tail)[i]);
      InertAppend(text, Product(tail)[i], START, false);
    case Then(List(b), tail) =>
      var x, y := InCross(BranchProducts(b), Product(tail), e);
      BranchProductsAreInert(b, x);
      ProductsAreInert(tail, y);
      InertAppend(x, y, START, false);
  }

  lemma {:induction false} BranchProductsAreInert(b: Branches, e: string)
    requires WellFormedBranches(b) && e in BranchProducts(b)
    ensures Inert(e, START, false)
    decreases b
  {
    if e in Product(b.first) {
      ProductsAreInert(b.first, e);
    } else if b.Two? {
      ProductsAreInert(b.second, e);
    } else {
      BranchProductsAreInert(b.rest, e);
    }
  }

  lemma {:induction false} InCross(xs: seq<string>, ys: seq<string>, e: string) returns (x: string, y: string)
    requires e in Cross(xs, ys)
    ensures x in xs && y in ys && e == x + y
    decreases |xs|
  {
    if e in Prefixed(xs[0], ys) {
      var i :| 0 <= i < |ys| && e == xs[0] + ys[i];
      x, y := xs[0], ys[i];
    } else {
      x, y := InCross(xs[1..], ys, e);
    }
  }

  lemma {:induction false} PrefixedChoicesCompose(a: string, b: string, choices: seq<Choice>)
    ensures PrefixedChoices(a, PrefixedChoices(b, choices)) == PrefixedChoices(a + b, choices)
  {
    assert forall i | 0 <= i < |choices| ::
      a + (b + choices[i].command) == (a + b) + choices[i].command;
  }

  lemma {:induction false} PrefixedChoicesEmpty(choices: seq<Choice>)
    ensures PrefixedChoices("", choices) == choices
  {
    assert forall i | 0 <= i < |choices| :: "" + choices[i].command == choices[i].command;
  }

  lemma {:induction false} PrefixedChoicesSum(a: string, xs: seq<Choice>, ys: seq<Choice>)
    ensures PrefixedChoices(a, xs + ys) == PrefixedChoices(a, xs) + PrefixedChoices(a, ys)
  {
  }

  lemma {:induction false} SplitLabels(t: Template, parameters: seq<string>)
    ensures match Split(t)
      case None => LabelledProduct(t, parameters) == [Choice(Render(t), parameters)]
      case Some(p) =>
        var cross := LabelledCross(BranchProducts(p.branches), p.tail, parameters);
        LabelledProduct(t, parameters) == PrefixedChoices(p.prefix, cross)
    decreases t
  {
    match t
    case Empty =>
    case Then(Literal(text), tail) =>
      SplitLabels(tail, parameters);
      if Split(tail).Some? {
        var p := Split(tail).value;
        PrefixedChoicesCompose(text, p.prefix, LabelledCross(BranchProducts(p.branches), p.tail, parameters));
      }
    case Then(List(b), tail) =>
      PrefixedChoicesEmpty(LabelledProduct(t, parameters));
  }

  /** A tree with the text `e` in place of its first list. */
  lemma {:induction false} InsertTextLabels(t: Template, e: string, parameters: seq<string>)
    requires Split(t).Some?
    ensures var p := Split(t).value;
      LabelledProduct(Insert(t, Then(Literal(e), Empty)), parameters) ==
      PrefixedChoices(p.prefix, PrefixedChoices(e, LabelledProduct(p.tail, parameters)))
    decreases t
  {
    match t
    case Then(Literal(text), tail) =>
      InsertTextLabels(tail, e, parameters);
      var p := Split(tail).value;
      PrefixedChoicesCompose(text, p.prefix, PrefixedChoices(e, LabelledProduct(p.tail, parameters)));
    case Then(List(b), tail) =>
      assert Append(Then(Literal(e), Empty), tail) == Then(Literal(e), tail);
      PrefixedChoicesEmpty(PrefixedChoices(e, LabelledProduct(tail, parameters)));
  }

  /** Expanding the alternatives of a tree's first list gives the products of its branches. */
  lemma {:induction false} FlatsOfTree(t: Template, j: nat)
    requires WellFormed(t, true) && Split(t).Some?
    requires Arity(Render(t)) == Count(Split(t).value.branches) && j <= Arity(Render(t))
    ensures Flats(Render(t), j) == ProductsFrom(Split(t).value.branches, j)
    decreases Arity(Render(t)) - j
  {
    if j < Arity(Render(t)) {
      AlternativeOfTree(t, j);
      WellFormedAllowsCommas(Nth(Split(t).value.branches, j));
      ExpandIsProduct(Nth(Split(t).value.branches, j));
      FlatsOfTree(t, j + 1);
    }
  }

  /** Choosing alternatives in the text of a tree gives its labelled product. */
  lemma {:induction false} ChooseIsProduct(t: Template, parameters: seq<string>)
    requires WellFormed(t, true)
    ensures Choose(Render(t), parameters) == LabelledProduct(t, parameters)
    decreases |Render(t)|
  {
    FirstListOfTree(t);
    SplitRenders(t, 0);
    SplitLabels(t, parameters);
    if Split(t).Some? {
      var b := Split(t).value.branches;
      AlternativeOfTree(t, 0);
      FlatsOfTree(t, 0);
      ProductsFromStart(b);
      FlatsAreShort(Render(t), 0);
      ChooseFromIsProduct(t, BranchProducts(b), parameters);
    }
  }

  lemma {:induction false} ChooseFromIsProduct(t: Template, texts: seq<string>, parameters: seq<string>)
    requires WellFormed(t, true) && Split(t).Some? && FirstList(Render(t)).Some?
    requires AllShort(Render(t), texts)
    requires forall e | e in texts :: e in BranchProducts(Split(t).value.branches)
    ensures var p := Split(t).value;
      ChooseFrom(Render(t), texts, parameters) == PrefixedChoices(p.prefix, LabelledCross(texts, p.tail, parameters))
    decreases |Render(t)|, |texts|
  {
    var p := Split(t).value;
    if texts != [] {
      var e := texts[0];
      var u := Then(Literal(e), Empty);
      var next := parameters + [Parameter(e)];
      InsertKeeps(t, Empty);
      BranchProductsAreInert(p.branches, e);
      InertAllowsCommas(e, START);
      assert Render(u) == e;
      SpliceOfTree(t, u);
      InsertKeeps(t, u);
      ChooseIsProduct(Insert(t, u), next);
      InsertTextLabels(t, e, next);
      ChooseFromIsProduct(t, texts[1..], parameters);
      PrefixedChoicesSum(p.prefix, PrefixedChoices(e, LabelledProduct(p.tail, next)),
                         LabelledCross(texts[1..], p.tail, parameters));
    }
  }

  /** The commands of the labelled product are the Cartesian product. */
  lemma {:induction false} CommandsAreProduct(t: Template, parameters: seq<string>)
    ensures Commands(LabelledProduct(t, parameters)) == Product(t)
    decreases t, 0
  {
    match t
    case Empty =>
    case Then(Literal(text), tail) =>
      CommandsAreProduct(tail, parameters);
      var rest := LabelledProduct(tail, parameters);
      assert forall i | 0 <= i < |rest| :: Product(tail)[i] == rest[i].command;
    case Then(List(b), tail) =>
      CommandsAreCross(BranchProducts(b), tail, parameters);
  }

  lemma {:induction false} CommandsAreCross(texts: seq<string>, tail: Template, parameters: seq<string>)
    ensures Commands(LabelledCross(texts, tail, parameters)) == Cross(texts, Product(tail))
    decreases tail, 1, |texts|
  {
    if texts != [] {
      var first := LabelledProduct(tail, parameters + [Parameter(texts[0])]);
      CommandsAreProduct(tail, parameters + [Parameter(texts[0])]);
      CommandsPrefixed(texts[0], first);
      CommandsAreCross(texts[1..], tail, parameters);
      var rest := LabelledCross(texts[1..], tail, parameters);
      CommandsSum(PrefixedChoices(texts[0], first), rest);
      hide Product, LabelledProduct, Commands, PrefixedChoices, Prefixed;
    }
  }

  lemma {:induction false} CommandsPrefixed(text: string, choices: seq<Choice>)
    ensures Commands(PrefixedChoices(text, choices)) == Prefixed(text, Commands(choices))
  {
    assert forall i | 0 <= i < |choices| :: Commands(choices)[i] == choices[i].command;
  }

  lemma {:induction false} CommandsSum(a: seq<Choice>, b: seq<Choice>)
    ensures Commands(a + b) == Commands(a) + Commands(b)
  {
  }

  /** Outside lists a tree holds no opener. */
  lemma {:induction false} NoListNoOpener(s: string, i: nat, t: Template)
    requires At(s, i, Render(t)) && WellFormed(t, true) && Split(t).None?
    requires i + |Render(t)| == |s|
    ensures !HasOpener(Tokens(s, Clear(i)))
    decreases t
  {
    match t
    case Empty =>
    case Then(Literal(text), tail) =>
      AtSplit(s, i, text, Render(tail));
      var cs := LiteralTokens(s, i, text, START, true);
      assert Shift(START, i) == Clear(i);
      assert forall k | 0 <= k < |cs| :: cs[k] in cs;
      NoListNoOpener(s, i + |text|, tail);
  }

  /** Main result.  A template written as a tree of literals and lists, not blank
      and not too long, expands to the tree's Cartesian product in left-to-right
      order, each command labelled with the alternatives that made it; it is
      refused exactly when the product has more than `limit` entries. */
  lemma {:induction false} TemplateIsCartesianProduct(t: Template, limit: nat)
    requires WellFormed(t, true)
    requires Trim(Render(t)) != "" && ByteLength(Render(t)) <= MAX_TEMPLATE_BYTES
    ensures |Product(t)| > limit ==> Meaning(Render(t), limit) == Err(TooMany)
    ensures |Product(t)| <= limit ==>
      && Meaning(Render(t), limit) == Ok(AllLabelled(LabelledProduct(t, [])))
      && Commands(LabelledProduct(t, [])) == Product(t)
  {
    var s := Render(t);
    ChooseIsProduct(t, []);
    CommandsAreProduct(t, []);
    FirstListOfTree(t);
    SplitRenders(t, 0);
    if Split(t).None? {
      NoListNoOpener(s, 0, t);
    }
    AbortIsExact(s, limit);
  }
}
