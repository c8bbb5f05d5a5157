/** The quote- and escape-aware scanners that find double-brace lists. */
module BraceScanner {
  import opened Text

  datatype Kind = Open | Close | Comma

  datatype Token = Token(kind: Kind, pos: nat)

  /** An open `{{` whose `}}` has not been met yet. */
  datatype Group = Group(start: nat, alternativeStart: nat, spans: seq<(nat, nat)>, hasComma: bool)

  /** A closed group with a comma: where it starts and ends, and where each
      alternative starts and ends. */
  datatype BraceList = BraceList(start: nat, end: nat, spans: seq<(nat, nat)>)

  // ----- Tokens: what quoting and escaping leave of a text

  function AfterQuote(quote: Option<char>, c: char): Option<char> {
    if quote == Some(c) then None else if quote == None then Some(c) else quote
  }

  /** Where a scan stands: the position, the quote it is inside of, and whether
      the previous character was an active backslash. */
  datatype Cursor = Cursor(i: nat, quote: Option<char>, escaped: bool)

  /** The delimiter that starts at the cursor, if any. */
  function KindAt(s: string, at: Cursor): Option<Kind>
    requires at.i < |s|
  {
    if at.escaped || at.quote.Some? || at.i + 1 >= |s| then None
    else if s[at.i] == '{' && s[at.i + 1] == '{' then Some(Open)
    else if s[at.i] == '}' && s[at.i + 1] == '}' then Some(Close)
    else if s[at.i] == ',' then Some(Comma)
    else None
  }

  function Width(kind: Option<Kind>): nat {
    if kind == Some(Open) || kind == Some(Close) then 2 else 1
  }

  function Next(s: string, at: Cursor): (next: Cursor)
    requires at.i < |s|
    ensures at.i < next.i <= |s|
  {
    if at.escaped then Cursor(at.i + 1, at.quote, false)
    else if s[at.i] == '\\' && at.quote != Some('\'') then Cursor(at.i + 1, at.quote, true)
    else if s[at.i] == '\'' || s[at.i] == '"' then Cursor(at.i + 1, AfterQuote(at.quote, s[at.i]), false)
    else Cursor(at.i + Width(KindAt(s, at)), at.quote, false)
  }

  /** The active delimiters of `s` from a cursor on, in order. */
  function Tokens(s: string, at: Cursor): seq<Token>
    requires at.i <= |s|
    decreases |s| - at.i
  {
    if at.i == |s| then []
    else
      match KindAt(s, at)
      case None => Tokens(s, Next(s, at))
      case Some(kind) => [Token(kind, at.i)] + Tokens(s, Next(s, at))
  }

  const START := Cursor(0, None, false)

  function AllTokens(s: string): seq<Token> {
    Tokens(s, START)
  }

  ghost predicate TokenFits(s: string, t: Token) {
    && t.pos + Width(Some(t.kind)) <= |s|
    && match t.kind
       case Open => s[t.pos] == '{' && s[t.pos + 1] == '{'
       case Close => s[t.pos] == '}' && s[t.pos + 1] == '}'
       case Comma => s[t.pos] == ','
  }

  /** Tokens lie at or after `i`, where their characters are, and do not overlap. */
  ghost predicate Fit(s: string, i: nat, ts: seq<Token>) {
    && (forall k | 0 <= k < |ts| :: i <= ts[k].pos && TokenFits(s, ts[k]))
    && (forall j, k | 0 <= j < k < |ts| :: ts[j].pos + Width(Some(ts[j].kind)) <= ts[k].pos)
  }

  lemma {:induction false} TokensFit(s: string, at: Cursor)
    requires at.i <= |s|
    ensures Fit(s, at.i, Tokens(s, at))
    decreases |s| - at.i
  {
    if at.i < |s| {
      TokensFit(s, Next(s, at));
    }
  }

  // ----- Matching tokens with a stack of open groups

  function Pushed(groups: seq<Group>, pos: nat): seq<Group> {
    groups + [Group(pos, pos + 2, [], false)]
  }

  function WithComma(groups: seq<Group>, pos: nat): seq<Group>
    requires groups != []
  {
    var g := groups[|groups| - 1];
    groups[..|groups| - 1] + [Group(g.start, pos + 1, g.spans + [(g.alternativeStart, pos)], true)]
  }

  function Closed(g: Group, pos: nat, list: Option<BraceList>): Option<BraceList> {
    if g.hasComma && (list.None? || g.start < list.value.start)
    then Some(BraceList(g.start, pos + 2, g.spans + [(g.alternativeStart, pos)]))
    else list
  }

  /** The stack of open groups after token `t`. */
  function NextGroups(t: Token, groups: seq<Group>): seq<Group> {
    match t.kind
    case Open => Pushed(groups, t.pos)
    case Close => if groups == [] then [] else groups[..|groups| - 1]
    case Comma => if groups == [] then [] else WithComma(groups, t.pos)
  }

  /** The leftmost completed list after token `t`. */
  function NextList(t: Token, groups: seq<Group>, list: Option<BraceList>): Option<BraceList> {
    if t.kind == Close && groups != [] then Closed(groups[|groups| - 1], t.pos, list) else list
  }

  /** The leftmost list that the tokens `ts` complete. */
  function Parse(ts: seq<Token>, groups: seq<Group>, list: Option<BraceList>): Option<BraceList> {
    if ts == [] then list
    else Parse(ts[1..], NextGroups(ts[0], groups), NextList(ts[0], groups, list))
  }

  /** The stack of groups still open after the tokens `ts`. */
  function OpenGroups(ts: seq<Token>, groups: seq<Group>): seq<Group> {
    if ts == [] then groups else OpenGroups(ts[1..], NextGroups(ts[0], groups))
  }

  function FirstList(s: string): Option<BraceList> {
    Parse(AllTokens(s), [], None)
  }

  /** One step of the scan does what its token says. */
  lemma {:induction false} ParseStep(s: string, at: Cursor, groups: seq<Group>, list: Option<BraceList>)
    requires at.i < |s|
    ensures Parse(Tokens(s, at), groups, list) ==
      match KindAt(s, at)
      case None => Parse(Tokens(s, Next(s, at)), groups, list)
      case Some(kind) =>
        var t := Token(kind, at.i);
        Parse(Tokens(s, Next(s, at)), NextGroups(t, groups), NextList(t, groups, list))
  {
    if KindAt(s, at).Some? {
      var rest := Tokens(s, Next(s, at));
      assert ([Token(KindAt(s, at).value, at.i)] + rest)[1..] == rest;
    }
  }

  /** Whether a character only takes part in quoting: it is escaped, escapes the next
      one, or opens, closes or stands in the place of a quote. */
  predicate Skips(c: char, quote: Option<char>, escaped: bool) {
    escaped || (c == '\\' && quote != Some('\'')) || c == '\'' || c == '"'
  }

  /** What all scanners do first with a character. */
  method SkipQuoting(c: char, quote: Option<char>, escaped: bool)
      returns (skips: bool, quote': Option<char>, escaped': bool)
    ensures skips == Skips(c, quote, escaped)
    ensures !skips ==> quote' == quote && escaped' == escaped
    ensures forall s: string, i: nat | skips && i < |s| && s[i] == c ::
      && KindAt(s, Cursor(i, quote, escaped)).None?
      && Next(s, Cursor(i, quote, escaped)) == Cursor(i + 1, quote', escaped')
  {
    quote', escaped' := quote, escaped;
    if escaped {
      return true, quote, false;
    }
    if c == '\\' && quote != Some('\'') {
      return true, quote, true;
    }
    if c == '\'' || c == '"' {
      if quote == Some(c) {
        quote' := None;
      } else if quote == None {
        quote' := Some(c);
      }
      return true, quote', false;
    }
    return false, quote, escaped;
  }

  /** The scanner that finds the list to expand. */
  method FirstDoubleBraceList(command: string) returns (list: Option<BraceList>)
    ensures list == FirstList(command)
  {
    var quote: Option<char> := None;
    var escaped := false;
    var groups: seq<Group> := [];
    list := None;
    var index: nat := 0;
    hide Parse, Tokens, Pushed, WithComma, Closed;
    while index < |command|
      invariant index <= |command|
      invariant Parse(Tokens(command, Cursor(index, quote, escaped)), groups, list) == FirstList(command)
    {
      var c := command[index];
      ghost var at := Cursor(index, quote, escaped);
      ghost var next := Next(command, at);
      ParseStep(command, at, groups, list);
      var skips;
      skips, quote, escaped := SkipQuoting(c, quote, escaped);
      if skips {
        index := index + 1;
        assert Cursor(index, quote, escaped) == next;
        continue;
      }
      if quote.Some? || index + 1 >= |command| {
        index := index + 1;
        assert Cursor(index, quote, escaped) == next;
        continue;
      }
      if c == '{' && command[index + 1] == '{' {
        groups := Pushed(groups, index);
        index := index + 2;
      } else if c == '}' && command[index + 1] == '}' {
        if groups != [] {
          var group := groups[|groups| - 1];
          groups := groups[..|groups| - 1];
          list := Closed(group, index, list);
        }
        index := index + 2;
      } else {
        if c == ',' && groups != [] {
          groups := WithComma(groups, index);
        }
        index := index + 1;
      }
      assert Cursor(index, quote, escaped) == next;
    }
    ParseEnd(command, Cursor(index, quote, escaped), groups, list);
  }

  lemma {:induction false} ParseEnd(s: string, at: Cursor, groups: seq<Group>, list: Option<BraceList>)
    requires at.i == |s|
    ensures Tokens(s, at) == [] && Parse(Tokens(s, at), groups, list) == list
    ensures OpenGroups(Tokens(s, at), groups) == groups
  {
  }

  // ----- What a list is, said without a stack

  function Step(kind: Kind): int {
    match kind case Open => 1 case Close => -1 case Comma => 0
  }

  /** Openers minus closers after token `x` and before token `k`. */
  function Depth(ts: seq<Token>, x: nat, k: nat): int
    requires k <= |ts|
  {
    if k <= x + 1 then 0 else Depth(ts, x, k - 1) + Step(ts[k - 1].kind)
  }

  /** Token `x` opens a group that no token before `k` closes. */
  ghost predicate OpenAt(ts: seq<Token>, x: nat, k: nat)
    requires k <= |ts|
  {
    x < k && ts[x].kind == Open && forall m | x < m <= k :: Depth(ts, x, m) >= 0
  }

  /** Token `y` closes the group that token `x` opens. */
  ghost predicate Matches(ts: seq<Token>, x: nat, y: nat) {
    y < |ts| && OpenAt(ts, x, y) && Depth(ts, x, y) == 0 && ts[y].kind == Close
  }

  /** Positions of the commas before token `k` that separate alternatives of the
      group opened by token `x`: those at no deeper level. */
  function Commas(ts: seq<Token>, x: nat, k: nat): seq<nat>
    requires k <= |ts|
  {
    if k <= x + 1 then []
    else
      Commas(ts, x, k - 1) +
      if ts[k - 1].kind == Comma && Depth(ts, x, k - 1) == 0 then [ts[k - 1].pos] else []
  }

  /** Where the alternative after the last of `commas` starts. */
  function LastStart(start: nat, commas: seq<nat>): nat {
    if commas == [] then start else commas[|commas| - 1] + 1
  }

  /** The spans that `commas` cut off a text starting at `start`. */
  function Cuts(start: nat, commas: seq<nat>): seq<(nat, nat)> {
    seq(|commas|, j requires 0 <= j < |commas| => (if j == 0 then start else commas[j - 1] + 1, commas[j]))
  }

  /** Tokens `x` and `y` delimit a closed group with at least one comma of its own. */
  ghost predicate IsList(ts: seq<Token>, x: nat, y: nat) {
    Matches(ts, x, y) && Commas(ts, x, y) != []
  }

  function ListBetween(ts: seq<Token>, x: nat, y: nat): BraceList
    requires x < |ts| && y < |ts|
  {
    var commas := Commas(ts, x, y);
    var start := ts[x].pos + 2;
    BraceList(ts[x].pos, ts[y].pos + 2, Cuts(start, commas) + [(LastStart(start, commas), ts[y].pos)])
  }

  /** `list` is the list with the smallest start among those closed before token `k`. */
  ghost predicate Leftmost(ts: seq<Token>, k: nat, list: Option<BraceList>)
    requires k <= |ts|
  {
    match list
    case None => forall x, y | 0 <= x < y < k :: !IsList(ts, x, y)
    case Some(l) =>
      && (exists x, y | 0 <= x < y < k :: IsList(ts, x, y) && l == ListBetween(ts, x, y))
      && (forall x, y | 0 <= x < y < k :: IsList(ts, x, y) ==> l.start <= ts[x].pos)
  }

  /** The stack after `k` tokens: the groups opened by tokens `opens`. */
  ghost predicate StackOf(ts: seq<Token>, k: nat, groups: seq<Group>, opens: seq<nat>)
    requires k <= |ts|
  {
    && |groups| == |opens|
    && (forall d, e | 0 <= d < e < |opens| :: opens[d] < opens[e])
    && (forall x: nat :: OpenAt(ts, x, k) <==> x in opens)
    && (forall d | 0 <= d < |opens| :: Depth(ts, opens[d], k) == |opens| - 1 - d)
    && (forall d | 0 <= d < |opens| :: IsGroup(ts, k, groups[d], opens[d]))
  }

  ghost predicate IsGroup(ts: seq<Token>, k: nat, g: Group, x: nat)
    requires k <= |ts|
  {
    x < k &&
    var commas := Commas(ts, x, k);
    var start := ts[x].pos + 2;
    g == Group(ts[x].pos, LastStart(start, commas), Cuts(start, commas), commas != [])
  }

  lemma {:induction false} OpenNext(ts: seq<Token>, x: nat, k: nat)
    requires x < k < |ts|
    ensures OpenAt(ts, x, k + 1) <==> OpenAt(ts, x, k) && Depth(ts, x, k + 1) >= 0
  {
  }

  lemma {:induction false} CutsAppend(start: nat, commas: seq<nat>, pos: nat)
    ensures Cuts(start, commas + [pos]) == Cuts(start, commas) + [(LastStart(start, commas), pos)]
  {
    var longer := commas + [pos];
    assert forall j | 0 <= j < |commas| :: longer[j] == commas[j];
  }

  lemma {:induction false} CommasNext(ts: seq<Token>, k: nat, g: Group, x: nat)
    requires k < |ts| && IsGroup(ts, k, g, x)
    ensures (ts[k].kind != Comma || Depth(ts, x, k) != 0) ==> IsGroup(ts, k + 1, g, x)
    ensures ts[k].kind == Comma && Depth(ts, x, k) == 0 ==>
      IsGroup(ts, k + 1, Group(g.start, ts[k].pos + 1, g.spans + [(g.alternativeStart, ts[k].pos)], true), x)
  {
    assert Commas(ts, x, k) + [] == Commas(ts, x, k);
    if ts[k].kind == Comma && Depth(ts, x, k) == 0 {
      var commas := Commas(ts, x, k);
      assert Commas(ts, x, k + 1) == commas + [ts[k].pos];
      CutsAppend(ts[x].pos + 2, commas, ts[k].pos);
    }
  }

  function NextOpens(t: Token, k: nat, opens: seq<nat>): seq<nat> {
    match t.kind
    case Open => opens + [k]
    case Close => if opens == [] then [] else opens[..|opens| - 1]
    case Comma => opens
  }

  /** The next stack holds the tokens that are then open. */
  lemma {:induction false} OpensStep(ts: seq<Token>, k: nat, groups: seq<Group>, opens: seq<nat>)
    requires k < |ts| && StackOf(ts, k, groups, opens)
    ensures forall x: nat :: OpenAt(ts, x, k + 1) <==> x in NextOpens(ts[k], k, opens)
  {
    var after := NextOpens(ts[k], k, opens);
    forall x: nat
      ensures OpenAt(ts, x, k + 1) <==> x in after
    {
      assert OpenAt(ts, x, k) <==> x in opens;
      if x < k {
        OpenNext(ts, x, k);
        if x in opens {
          var d :| 0 <= d < |opens| && opens[d] == x;
          assert Depth(ts, x, k + 1) == |opens| - 1 - d + Step(ts[k].kind);
          if d < |after| {
            assert after[d] == x;
          }
        }
      }
    }
  }

  lemma {:induction false} NewGroup(ts: seq<Token>, k: nat)
    requires k < |ts|
    ensures IsGroup(ts, k + 1, Group(ts[k].pos, ts[k].pos + 2, [], false), k)
  {
    assert Commas(ts, k, k + 1) == [] && Cuts(ts[k].pos + 2, []) == [];
  }

  /** The next stack records each open group as it then is. */
  lemma {:induction false} GroupsStep(ts: seq<Token>, k: nat, groups: seq<Group>, opens: seq<nat>, d: nat)
    requires k < |ts| && StackOf(ts, k, groups, opens)
    requires d < |NextOpens(ts[k], k, opens)|
    ensures |NextGroups(ts[k], groups)| == |NextOpens(ts[k], k, opens)|
    ensures IsGroup(ts, k + 1, NextGroups(ts[k], groups)[d], NextOpens(ts[k], k, opens)[d])
  {
    if d < |opens| {
      assert IsGroup(ts, k, groups[d], opens[d]);
      assert Depth(ts, opens[d], k) == |opens| - 1 - d;
      CommasNext(ts, k, groups[d], opens[d]);
      hide StackOf, IsGroup, Depth;
    } else {
      NewGroup(ts, k);
      hide StackOf, IsGroup;
    }
  }

  lemma {:induction false} DepthStep(ts: seq<Token>, k: nat, groups: seq<Group>, opens: seq<nat>, d: nat)
    requires k < |ts| && StackOf(ts, k, groups, opens)
    requires d < |NextOpens(ts[k], k, opens)|
    ensures Depth(ts, NextOpens(ts[k], k, opens)[d], k + 1) == |NextOpens(ts[k], k, opens)| - 1 - d
  {
    if d < |opens| {
      assert IsGroup(ts, k, groups[d], opens[d]);
      assert Depth(ts, opens[d], k) == |opens| - 1 - d;
      assert opens[d] < k;
      hide StackOf, IsGroup;
    }
  }

  lemma {:induction false} OpensIncrease(ts: seq<Token>, k: nat, groups: seq<Group>, opens: seq<nat>)
    requires k < |ts| && StackOf(ts, k, groups, opens)
    ensures var after := NextOpens(ts[k], k, opens);
      forall d, e | 0 <= d < e < |after| :: after[d] < after[e]
  {
    assert forall d | 0 <= d < |opens| :: IsGroup(ts, k, groups[d], opens[d]);
  }

  lemma {:induction false} SameSize(t: Token, k: nat, groups: seq<Group>, opens: seq<nat>)
    requires |groups| == |opens|
    ensures |NextGroups(t, groups)| == |NextOpens(t, k, opens)|
  {
  }

  lemma {:induction false} StackStep(ts: seq<Token>, k: nat, groups: seq<Group>, opens: seq<nat>)
    requires k < |ts| && StackOf(ts, k, groups, opens)
    ensures StackOf(ts, k + 1, NextGroups(ts[k], groups), NextOpens(ts[k], k, opens))
  {
    OpensStep(ts, k, groups, opens);
    OpensIncrease(ts, k, groups, opens);
    SameSize(ts[k], k, groups, opens);
    hide IsGroup, Depth, OpenAt, NextGroups, NextOpens;
    forall d | 0 <= d < |NextOpens(ts[k], k, opens)|
      ensures IsGroup(ts, k + 1, NextGroups(ts[k], groups)[d], NextOpens(ts[k], k, opens)[d])
      ensures Depth(ts, NextOpens(ts[k], k, opens)[d], k + 1) == |NextOpens(ts[k], k, opens)| - 1 - d
    {
      GroupsStep(ts, k, groups, opens, d);
      DepthStep(ts, k, groups, opens, d);
    }
  }

  /** A closing token completes exactly the innermost open group. */
  lemma {:induction false} ListsClosedAt(ts: seq<Token>, k: nat, groups: seq<Group>, opens: seq<nat>, x: nat)
    requires k < |ts| && StackOf(ts, k, groups, opens)
    ensures Matches(ts, x, k) <==>
      ts[k].kind == Close && opens != [] && x == opens[|opens| - 1]
  {
    if Matches(ts, x, k) {
      assert OpenAt(ts, x, k);
      var d :| 0 <= d < |opens| && opens[d] == x;
    } else if opens != [] && x == opens[|opens| - 1] {
      assert x in opens;
      assert OpenAt(ts, x, k);
    }
  }

  lemma {:induction false} LeftmostStep(ts: seq<Token>, k: nat, groups: seq<Group>, opens: seq<nat>,
                                        list: Option<BraceList>)
    requires k < |ts| && StackOf(ts, k, groups, opens) && Leftmost(ts, k, list)
    ensures Leftmost(ts, k + 1, NextList(ts[k], groups, list))
  {
    forall x: nat { ListsClosedAt(ts, k, groups, opens, x); }
    if ts[k].kind == Close && groups != [] {
      var x := opens[|opens| - 1];
      var g := groups[|groups| - 1];
      assert IsGroup(ts, k, g, x);
      if g.hasComma {
        assert IsList(ts, x, k);
        assert ListBetween(ts, x, k) == BraceList(g.start, ts[k].pos + 2, g.spans + [(g.alternativeStart, ts[k].pos)]);
      }
    }
    if list.Some? {
      var x, y :| 0 <= x < y < k && IsList(ts, x, y) && list.value == ListBetween(ts, x, y);
      assert 0 <= x < y < k + 1;
    }
  }

  lemma {:induction false} ParseAt(ts: seq<Token>, k: nat, groups: seq<Group>, list: Option<BraceList>)
    requires k < |ts|
    ensures Parse(ts[k..], groups, list) ==
      Parse(ts[k + 1..], NextGroups(ts[k], groups), NextList(ts[k], groups, list))
    ensures OpenGroups(ts[k..], groups) == OpenGroups(ts[k + 1..], NextGroups(ts[k], groups))
  {
    assert ts[k..][0] == ts[k] && ts[k..][1..] == ts[k + 1..];
  }

  /** After `k` tokens, `groups` are the open groups and `list` is the leftmost list. */
  ghost predicate Scanned(ts: seq<Token>, k: nat, groups: seq<Group>, list: Option<BraceList>)
    requires k <= |ts|
  {
    exists opens :: StackOf(ts, k, groups, opens) && Leftmost(ts, k, list)
  }

  lemma {:induction false} ScannedStep(ts: seq<Token>, k: nat, groups: seq<Group>, list: Option<BraceList>)
    requires k < |ts| && Scanned(ts, k, groups, list)
    ensures Scanned(ts, k + 1, NextGroups(ts[k], groups), NextList(ts[k], groups, list))
  {
    var opens :| StackOf(ts, k, groups, opens) && Leftmost(ts, k, list);
    LeftmostStep(ts, k, groups, opens, list);
    StackStep(ts, k, groups, opens);
  }

  lemma {:induction false} ParseIsLeftmost(ts: seq<Token>, k: nat, groups: seq<Group>, list: Option<BraceList>,
                                           groups': seq<Group>, list': Option<BraceList>)
    requires k <= |ts| && Scanned(ts, k, groups, list)
    requires groups' == OpenGroups(ts[k..], groups) && list' == Parse(ts[k..], groups, list)
    ensures Scanned(ts, |ts|, groups', list')
    decreases |ts| - k
  {
    if k < |ts| {
      ParseAt(ts, k, groups, list);
      ScannedStep(ts, k, groups, list);
      ParseIsLeftmost(ts, k + 1, NextGroups(ts[k], groups), NextList(ts[k], groups, list), groups', list');
    }
  }

  lemma {:induction false} ScannedAll(s: string)
    ensures Scanned(AllTokens(s), |AllTokens(s)|, OpenGroups(AllTokens(s), []), FirstList(s))
  {
    var ts := AllTokens(s);
    assert ts[0..] == ts;
    assert StackOf(ts, 0, [], []) && Leftmost(ts, 0, None);
    ParseIsLeftmost(ts, 0, [], None, OpenGroups(ts, []), FirstList(s));
  }

  /** The scanner returns the comma-bearing closed group with the smallest start. */
  lemma {:induction false} FirstListIsLeftmost(s: string)
    ensures Leftmost(AllTokens(s), |AllTokens(s)|, FirstList(s))
  {
    ScannedAll(s);
  }

  // ----- The slices a list is made of

  /** The spans of `l` lie side by side inside its braces, one comma apart. */
  ghost predicate Tiled(s: string, l: BraceList) {
    && |l.spans| >= 2
    && l.start + 4 <= l.end <= |s|
    && s[l.start..l.start + 2] == "{{" && s[l.end - 2..l.end] == "}}"
    && l.spans[0].0 == l.start + 2 && l.spans[|l.spans| - 1].1 == l.end - 2
    && (forall j | 0 <= j < |l.spans| :: l.start + 2 <= l.spans[j].0 <= l.spans[j].1 <= l.end - 2)
    && (forall j | 0 <= j < |l.spans| - 1 :: l.spans[j].1 + 1 == l.spans[j + 1].0 && s[l.spans[j].1] == ',')
  }

  /** `commas` are commas of `s` in order, between tokens `x` and `k`. */
  ghost predicate CommasFit(s: string, ts: seq<Token>, x: nat, k: nat, commas: seq<nat>)
    requires x < |ts|
  {
    && (forall j | 0 <= j < |commas| :: ts[x].pos + 2 <= commas[j] < |s| && s[commas[j]] == ',')
    && (forall j, z | 0 <= j < |commas| && k <= z < |ts| :: commas[j] < ts[z].pos)
    && (forall i, j | 0 <= i < j < |commas| :: commas[i] < commas[j])
  }

  lemma {:induction false} CommasLie(s: string, ts: seq<Token>, x: nat, k: nat)
    requires Fit(s, 0, ts) && x < k <= |ts| && ts[x].kind == Open
    ensures CommasFit(s, ts, x, k, Commas(ts, x, k))
    decreases k
  {
    if k > x + 1 {
      CommasLie(s, ts, x, k - 1);
      var before, t := Commas(ts, x, k - 1), ts[k - 1];
      CommasFitNext(s, ts, x, k, before);
      assert before + [] == before;
      hide CommasFit, Fit;
    }
  }

  lemma {:induction false} CommasFitNext(s: string, ts: seq<Token>, x: nat, k: nat, before: seq<nat>)
    requires Fit(s, 0, ts) && x + 1 < k <= |ts| && ts[x].kind == Open && CommasFit(s, ts, x, k - 1, before)
    ensures CommasFit(s, ts, x, k, before)
    ensures ts[k - 1].kind == Comma ==> CommasFit(s, ts, x, k, before + [ts[k - 1].pos])
  {
    var t := ts[k - 1];
    assert TokenFits(s, t) && ts[x].pos + 2 <= t.pos;
    if t.kind == Comma {
      assert forall z | k <= z < |ts| :: t.pos < ts[z].pos;
    }
  }

  /** The spans cut off by all `commas` and closed at `end` lie side by side. */
  lemma {:induction false} SpansTile(s: string, start: nat, commas: seq<nat>, end: nat)
    requires commas != [] && start <= end <= |s|
    requires forall j | 0 <= j < |commas| :: start <= commas[j] < end && s[commas[j]] == ','
    requires forall i, j | 0 <= i < j < |commas| :: commas[i] < commas[j]
    ensures var spans := Cuts(start, commas) + [(LastStart(start, commas), end)];
      && |spans| == |commas| + 1
      && spans[0].0 == start && spans[|spans| - 1].1 == end
      && (forall j | 0 <= j < |spans| :: start <= spans[j].0 <= spans[j].1 <= end)
      && (forall j | 0 <= j < |spans| - 1 ::
            spans[j].1 < end && spans[j].1 + 1 == spans[j + 1].0 && s[spans[j].1] == ',')
  {
  }

  lemma {:induction false} ListBetweenIsTiled(s: string, ts: seq<Token>, x: nat, y: nat)
    requires Fit(s, 0, ts) && x < y < |ts| && ts[x].kind == Open && ts[y].kind == Close
    requires Commas(ts, x, y) != []
    ensures Tiled(s, ListBetween(ts, x, y))
  {
    assert TokenFits(s, ts[x]) && TokenFits(s, ts[y]) && ts[x].pos + 2 <= ts[y].pos;
    CommasLie(s, ts, x, y);
    SpansTile(s, ts[x].pos + 2, Commas(ts, x, y), ts[y].pos);
  }

  lemma {:induction false} FirstListIsTiled(s: string)
    requires FirstList(s).Some?
    ensures Tiled(s, FirstList(s).value)
  {
    var ts, l := AllTokens(s), FirstList(s).value;
    FirstListIsLeftmost(s);
    var x, y :| 0 <= x < y < |ts| && IsList(ts, x, y) && l == ListBetween(ts, x, y);
    TokensFit(s, START);
    CommasLie(s, ts, x, y);
    ListBetweenIsTiled(s, ts, x, y);
  }

  /** The texts of the alternatives of a list. */
  function Alternatives(s: string, l: BraceList): (alternatives: seq<string>)
    requires forall j | 0 <= j < |l.spans| :: l.spans[j].0 <= l.spans[j].1 <= |s|
  {
    seq(|l.spans|, j requires 0 <= j < |l.spans| => s[l.spans[j].0..l.spans[j].1])
  }

  lemma {:induction false} JoinFrom(s: string, l: BraceList, j: nat)
    requires Tiled(s, l) && j < |l.spans|
    ensures Join(Alternatives(s, l)[j..], ",") == s[l.spans[j].0..l.end - 2]
    decreases |l.spans| - j
  {
    var parts := Alternatives(s, l);
    if j + 1 < |l.spans| {
      JoinFrom(s, l, j + 1);
      assert parts[j..][1..] == parts[j + 1..];
      var (a, b) := l.spans[j];
      assert s[a..l.end - 2] == s[a..b] + [s[b]] + s[b + 1..l.end - 2];
    }
  }

  /** Joining the alternatives with commas inside double braces rebuilds the list. */
  lemma {:induction false} AlternativesRebuildList(s: string)
    requires FirstList(s).Some?
    ensures var l := FirstList(s).value;
      Tiled(s, l) && "{{" + Join(Alternatives(s, l), ",") + "}}" == s[l.start..l.end]
  {
    FirstListIsTiled(s);
    var l := FirstList(s).value;
    JoinFrom(s, l, 0);
    assert Alternatives(s, l)[0..] == Alternatives(s, l);
    assert s[l.start..l.end] == s[l.start..l.start + 2] + s[l.start + 2..l.end - 2] + s[l.end - 2..l.end];
  }

  /** Putting any alternative in place of the list shortens the text by at least
      four braces and a comma. */
  lemma {:induction false} SpliceShortens(s: string, j: nat)
    requires FirstList(s).Some? && j < |FirstList(s).value.spans|
    ensures var l := FirstList(s).value;
      Tiled(s, l) && l.start + |Alternatives(s, l)[j]| + (|s| - l.end) + 5 <= |s|
  {
    FirstListIsTiled(s);
    var l := FirstList(s).value;
    if j == 0 {
      assert l.spans[0].1 + 1 == l.spans[1].0;
    } else {
      assert l.spans[0].1 + 1 == l.spans[1].0;
      assert l.spans[j - 1].1 + 1 == l.spans[j].0;
    }
  }

  // ----- The other two scanners

  ghost predicate HasOpener(ts: seq<Token>) {
    exists k | 0 <= k < |ts| :: ts[k].kind == Open
  }

  lemma {:induction false} ListHasOpener(s: string)
    requires FirstList(s).Some?
    ensures HasOpener(AllTokens(s))
  {
    FirstListIsLeftmost(s);
  }

  lemma {:induction false} OpenerAhead(s: string, at: Cursor)
    requires at.i < |s|
    ensures HasOpener(Tokens(s, at)) <==> KindAt(s, at) == Some(Open) || HasOpener(Tokens(s, Next(s, at)))
  {
    var ts, rest := Tokens(s, at), Tokens(s, Next(s, at));
    if KindAt(s, at).Some? {
      if k :| 0 <= k < |rest| && rest[k].kind == Open {
        assert ts[k + 1].kind == Open;
      }
      assert ts[0].kind == KindAt(s, at).value;
      if k :| 0 <= k < |ts| && ts[k].kind == Open {
        assert k == 0 || rest[k - 1] == ts[k];
      }
    }
  }

  /** A scan may step over one closing brace of a pair without missing an opener. */
  lemma {:induction false} OpenerPastBrace(s: string, i: nat)
    requires i < |s| && s[i] == '}'
    ensures HasOpener(Tokens(s, Cursor(i, None, false))) <==> HasOpener(Tokens(s, Cursor(i + 1, None, false)))
    decreases |s| - i
  {
    OpenerAhead(s, Cursor(i, None, false));
    if i + 1 < |s| && s[i + 1] == '}' {
      OpenerPastBrace(s, i + 1);
    }
  }

  /** The scanner that looks for any active opener steps one character at a time
      over closing braces, unlike the list scanner; both see the same openers. */
  method HasActiveDoubleBraceOpener(command: string) returns (found: bool)
    ensures found <==> HasOpener(AllTokens(command))
  {
    var quote: Option<char> := None;
    var escaped := false;
    var index: nat := 0;
    hide Tokens, HasOpener;
    while index < |command|
      invariant index <= |command|
      invariant HasOpener(Tokens(command, Cursor(index, quote, escaped))) <==> HasOpener(AllTokens(command))
    {
      var c := command[index];
      OpenerAhead(command, Cursor(index, quote, escaped));
      var skips;
      skips, quote, escaped := SkipQuoting(c, quote, escaped);
      if skips {
        index := index + 1;
        continue;
      }
      if quote.None? && index + 1 < |command| && command[index..index + 2] == "{{" {
        assert command[index] == "{{"[0] && command[index + 1] == "{{"[1];
        return true;
      }
      if quote.None? && c == '}' {
        OpenerPastBrace(command, index);
      }
      index := index + 1;
    }
    NoOpenerLeft(command, Cursor(index, quote, escaped));
    return false;
  }

  lemma {:induction false} NoOpenerLeft(s: string, at: Cursor)
    requires at.i == |s|
    ensures !HasOpener(Tokens(s, at))
  {
  }

  /** A text leaves a group open if and only if some opener of it is never closed. */
  lemma {:induction false} GroupsLeftOpen(s: string)
    ensures OpenGroups(AllTokens(s), []) != [] <==> exists x: nat :: OpenAt(AllTokens(s), x, |AllTokens(s)|)
  {
    var ts := AllTokens(s);
    ScannedAll(s);
    var opens :| StackOf(ts, |ts|, OpenGroups(ts, []), opens) && Leftmost(ts, |ts|, FirstList(s));
    assert opens != [] ==> opens[0] in opens;
  }

  function GroupsPast(s: string, at: Cursor, groups: seq<Group>): seq<Group>
    requires at.i < |s|
  {
    match KindAt(s, at)
    case None => groups
    case Some(kind) => NextGroups(Token(kind, at.i), groups)
  }

  lemma {:induction false} OpenGroupsStep(s: string, at: Cursor, groups: seq<Group>)
    requires at.i < |s|
    ensures OpenGroups(Tokens(s, at), groups) == OpenGroups(Tokens(s, Next(s, at)), GroupsPast(s, at, groups))
  {
    if KindAt(s, at).Some? {
      var rest := Tokens(s, Next(s, at));
      assert ([Token(KindAt(s, at).value, at.i)] + rest)[1..] == rest;
    }
  }

  /** The scanner that decides whether a completion is inside a group counts
      depth only; it answers whether the text before the cursor leaves a group open. */
  method InsideDoubleBraceGroup(text: string, cursor: nat) returns (inside: bool)
    requires cursor <= |text|
    ensures inside <==> OpenGroups(AllTokens(text[..cursor]), []) != []
    ensures inside <==> exists x: nat :: OpenAt(AllTokens(text[..cursor]), x, |AllTokens(text[..cursor])|)
  {
    var s := text[..cursor];
    var depth: nat := 0;
    var quote: Option<char> := None;
    var escaped := false;
    ghost var groups: seq<Group> := [];
    var index: nat := 0;
    while index < |s|
      invariant index <= |s|
      invariant depth == |groups|
      invariant OpenGroups(Tokens(s, Cursor(index, quote, escaped)), groups) == OpenGroups(AllTokens(s), [])
    {
      var c := s[index];
      ghost var at := Cursor(index, quote, escaped);
      ghost var next := Next(s, at);
      OpenGroupsStep(s, at, groups);
      groups := GroupsPast(s, at, groups);
      var skips;
      skips, quote, escaped := SkipQuoting(c, quote, escaped);
      if skips {
        index := index + 1;
        assert Cursor(index, quote, escaped) == next;
        continue;
      }
      if quote.None? && index + 1 < |s| {
        if c == '{' && s[index + 1] == '{' {
          depth := depth + 1;
          index := index + 2;
          assert Cursor(index, quote, escaped) == next;
          continue;
        } else if c == '}' && s[index + 1] == '}' {
          depth := if depth > 0 then depth - 1 else 0;
          index := index + 2;
          assert Cursor(index, quote, escaped) == next;
          continue;
        }
      }
      index := index + 1;
      assert Cursor(index, quote, escaped) == next;
    }
    GroupsLeftOpen(s);
    return depth > 0;
  }
}
