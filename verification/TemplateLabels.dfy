/** What the commands of a template are, and how the alternatives chosen for each are
    shown in its label. */
module TemplateLabels {
  import opened Text
  import opened BraceScanner
  import opened BraceExpansion
  import opened BraceTemplates

  /** How a chosen text is shown: without the whitespace around it, or as "(empty)" when
      there is nothing else. */
  ghost predicate Shows(parameter: string, text: string) {
    if AllWhitespace(text) then parameter == "(empty)"
    else
      && parameter != "" && Tight(parameter)
      && exists before, after :: text == before + parameter + after && AllWhitespace(before) && AllWhitespace(after)
  }

  ghost predicate ShowAll(parameters: seq<string>, texts: seq<string>) {
    |parameters| == |texts| && forall k | 0 <= k < |texts| :: Shows(parameters[k], texts[k])
  }

  lemma {:induction false} ParameterShows(text: string)
    ensures Shows(Parameter(text), text)
  {
    TrimSplits(text);
    hide AllWhitespace, Tight, Trim;
  }

  lemma {:induction false} OnlyInside(text: string, n: nat)
    requires n <= |text| && text != "" && Tight(text)
    ensures AllWhitespace(text[..n]) ==> n == 0
    ensures AllWhitespace(text[n..]) ==> n == |text|
  {
    if n > 0 {
      assert text[..n][0] == text[0];
    }
    if n < |text| {
      assert text[n..][|text| - 1 - n] == text[|text| - 1];
    }
  }

  /** A text with no whitespace around it is shown as it is. */
  lemma {:induction false} TightIsShown(parameter: string, text: string)
    requires Shows(parameter, text) && text != "" && Tight(text)
    ensures parameter == text
  {
    OnlyInside(text, |text|);
    assert text[..|text|] == text;
    var before, after :| text == before + parameter + after && AllWhitespace(before) && AllWhitespace(after);
    hide AllWhitespace, Tight;
    assert text[..|before|] == before && text[|text| - |after|..] == after;
    OnlyInside(text, |before|);
    OnlyInside(text, |text| - |after|);
  }

  /** `c` continues `parameters` with what shows the texts. */
  ghost predicate Continues(c: Choice, parameters: seq<string>, texts: seq<string>) {
    && |c.parameters| == |parameters| + |texts| && c.parameters[..|parameters|] == parameters
    && ShowAll(c.parameters[|parameters|..], texts)
  }

  lemma {:induction false} ContinuesNothing(c: Choice)
    ensures Continues(c, c.parameters, [])
  {
  }

  lemma {:induction false} ContinuesNext(c: Choice, parameters: seq<string>, text: string, texts: seq<string>)
    requires Continues(c, parameters + [Parameter(text)], texts)
    ensures Continues(c, parameters, [text] + texts)
  {
    ParameterShows(text);
    hide Shows, Parameter;
    var n := |parameters|;
    assert c.parameters[..n] == c.parameters[..n + 1][..n] == parameters;
    assert c.parameters[n] == c.parameters[..n + 1][n] == Parameter(text);
    assert c.parameters[n..] == [c.parameters[n]] + c.parameters[n + 1..];
  }

  // ----- Any template

  /** `command` is `s` with its first list replaced by the first text, an expansion of one
      of the list's alternatives, and so on until no list is left. */
  ghost predicate Fills(s: string, texts: seq<string>, command: string)
    decreases |texts|
  {
    if texts == [] then FirstList(s).None? && command == s
    else FirstList(s).Some? && texts[0] in Flats(s, 0) && Fills(Splice(s, texts[0]), texts[1..], command)
  }

  /** The command and the parameters of a choice come from the same texts. */
  ghost predicate Made(s: string, parameters: seq<string>, c: Choice) {
    exists texts :: Fills(s, texts, c.command) && Continues(c, parameters, texts)
  }

  /** Every command of a template is the template with its lists filled in, and its
      parameters show what they were filled with, in order. */
  lemma {:induction false} ChoicesAreMade(s: string, parameters: seq<string>, c: Choice)
    requires c in Choose(s, parameters)
    ensures Made(s, parameters, c)
    decreases |s|
  {
    if FirstList(s).None? {
      ContinuesNothing(c);
      assert Fills(s, [], c.command);
    } else {
      FlatsAreShort(s, 0);
      ChoicesFromAreMade(s, Flats(s, 0), parameters, c);
    }
  }

  lemma {:induction false} ChoicesFromAreMade(s: string, texts: seq<string>, parameters: seq<string>, c: Choice)
    requires FirstList(s).Some? && AllShort(s, texts) && c in ChooseFrom(s, texts, parameters)
    requires forall e | e in texts :: e in Flats(s, 0)
    ensures Made(s, parameters, c)
    decreases |s|, |texts|
  {
    var text, next := texts[0], parameters + [Parameter(texts[0])];
    if c in Choose(Splice(s, text), next) {
      ChoicesAreMade(Splice(s, text), next, c);
      hide Continues;
      var more :| Fills(Splice(s, text), more, c.command) && Continues(c, next, more);
      ContinuesNext(c, parameters, text, more);
      assert ([text] + more)[1..] == more;
      assert Fills(s, [text] + more, c.command);
    } else {
      ChoicesFromAreMade(s, texts[1..], parameters, c);
    }
  }

  /** Each refusal has its own reason, and there is no other. */
  lemma {:induction false} RefusalsAreExact(template: string, limit: nat)
    ensures var r, readable := Meaning(template, limit),
        !AllWhitespace(template) && ByteLength(template) <= MAX_TEMPLATE_BYTES;
      && (r == Err(Failure.Blank) <==> AllWhitespace(template))
      && (r == Err(TooLong) <==> !AllWhitespace(template) && !readable)
      && (r == Err(TooMany) <==> readable && |Choose(template, [])| > limit)
      && (r == Err(UnusedOpener) <==>
            readable && limit >= 1 && FirstList(template).None? && HasOpener(AllTokens(template)))
  {
    TrimSplits(template);
    ChooseLength(template, []);
    hide AllWhitespace, Trim, FirstList, ByteLength, AllTokens;
  }

  // ----- Trees

  /** The outermost lists of a tree. */
  function Lists(t: Template): nat {
    match t
    case Empty => 0
    case Then(Literal(_), tail) => Lists(tail)
    case Then(List(_), tail) => 1 + Lists(tail)
  }

  /** The tree's text with the given texts in place of its outermost lists. */
  function Filled(t: Template, picks: seq<string>): string
    requires |picks| == Lists(t)
  {
    match t
    case Empty => ""
    case Then(Literal(text), tail) => text + Filled(tail, picks)
    case Then(List(_), tail) => picks[0] + Filled(tail, picks[1..])
  }

  function PickFirst(x: string, rest: seq<seq<string>>): (r: seq<seq<string>>)
    ensures |r| == |rest|
  {
    seq(|rest|, i requires 0 <= i < |rest| => [x] + rest[i])
  }

  function PickAny(xs: seq<string>, rest: seq<seq<string>>): seq<seq<string>> {
    if xs == [] then [] else PickFirst(xs[0], rest) + PickAny(xs[1..], rest)
  }

  /** All ways to pick, for each outermost list in turn, a text of its product; the first
      pick varies slowest. */
  function Picks(t: Template): seq<seq<string>> {
    match t
    case Empty => [[]]
    case Then(Literal(_), tail) => Picks(tail)
    case Then(List(b), tail) => PickAny(BranchProducts(b), Picks(tail))
  }

  ghost predicate Filling(t: Template, parameters: seq<string>, c: Choice, picks: seq<string>) {
    |picks| == Lists(t) && c.command == Filled(t, picks) && Continues(c, parameters, picks)
  }

  ghost predicate AllFilling(t: Template, parameters: seq<string>, choices: seq<Choice>, picks: seq<seq<string>>) {
    |choices| == |picks| && forall i | 0 <= i < |picks| :: Filling(t, parameters, choices[i], picks[i])
  }

  lemma {:induction false} AfterLiteral(t: Template, parameters: seq<string>, choices: seq<Choice>,
                                        picks: seq<seq<string>>)
    requires t.Then? && t.head.Literal? && AllFilling(t.tail, parameters, choices, picks)
    ensures AllFilling(t, parameters, PrefixedChoices(t.head.text, choices), picks)
  {
    forall i | 0 <= i < |picks|
      ensures Filling(t, parameters, PrefixedChoices(t.head.text, choices)[i], picks[i])
    {
      assert Filling(t.tail, parameters, choices[i], picks[i]);
    }
  }

  lemma {:induction false} AfterPick(t: Template, parameters: seq<string>, choices: seq<Choice>,
                                     picks: seq<seq<string>>, x: string)
    requires t.Then? && t.head.List? && AllFilling(t.tail, parameters + [Parameter(x)], choices, picks)
    ensures AllFilling(t, parameters, PrefixedChoices(x, choices), PickFirst(x, picks))
  {
    hide Continues;
    forall i | 0 <= i < |picks|
      ensures Filling(t, parameters, PrefixedChoices(x, choices)[i], PickFirst(x, picks)[i])
    {
      assert Filling(t.tail, parameters + [Parameter(x)], choices[i], picks[i]);
      var c := PrefixedChoices(x, choices)[i];
      CommandAside(c, choices[i], parameters + [Parameter(x)], picks[i]);
      ContinuesNext(c, parameters, x, picks[i]);
      assert ([x] + picks[i])[1..] == picks[i];
    }
  }

  lemma {:induction false} CommandAside(c: Choice, d: Choice, parameters: seq<string>, texts: seq<string>)
    requires c.parameters == d.parameters && Continues(d, parameters, texts)
    ensures Continues(c, parameters, texts)
  {
  }

  lemma {:induction false} FillingSum(t: Template, parameters: seq<string>, a: seq<Choice>, b: seq<Choice>,
                                      picks: seq<seq<string>>, more: seq<seq<string>>)
    requires AllFilling(t, parameters, a, picks) && AllFilling(t, parameters, b, more)
    ensures AllFilling(t, parameters, a + b, picks + more)
  {
    hide Filling;
  }

  /** Every choice of a tree is a way to pick, in order: its command is the tree filled in
      with the picks, and its parameters show them. */
  lemma {:induction false} ProductFills(t: Template, parameters: seq<string>)
    ensures AllFilling(t, parameters, LabelledProduct(t, parameters), Picks(t))
    decreases t, 0
  {
    match t
    case Empty =>
      ContinuesNothing(Choice("", parameters));
    case Then(Literal(text), tail) =>
      ProductFills(tail, parameters);
      hide AllFilling;
      AfterLiteral(t, parameters, LabelledProduct(tail, parameters), Picks(tail));
    case Then(List(b), tail) =>
      CrossFills(t, BranchProducts(b), parameters);
  }

  lemma {:induction false} CrossFills(t: Template, texts: seq<string>, parameters: seq<string>)
    requires t.Then? && t.head.List?
    ensures AllFilling(t, parameters, LabelledCross(texts, t.tail, parameters), PickAny(texts, Picks(t.tail)))
    decreases t.tail, 1, |texts|
  {
    if texts != [] {
      var next := parameters + [Parameter(texts[0])];
      ProductFills(t.tail, next);
      CrossFills(t, texts[1..], parameters);
      hide AllFilling, Parameter;
      AfterPick(t, parameters, LabelledProduct(t.tail, next), Picks(t.tail), texts[0]);
      FillingSum(t, parameters, PrefixedChoices(texts[0], LabelledProduct(t.tail, next)),
                 LabelledCross(texts[1..], t.tail, parameters), PickFirst(texts[0], Picks(t.tail)),
                 PickAny(texts[1..], Picks(t.tail)));
    }
  }

  /** An expansion is a tree filled in with picks, and its label shows them between dots. */
  ghost predicate IsPick(t: Template, e: Expansion, picks: seq<string>) {
    && |picks| == Lists(t) && e.command == Filled(t, picks)
    && exists parameters :: ShowAll(parameters, picks) && e.paneLabel == Join(parameters, " · ")
  }

  /** Main result.  The commands of a template that expands are all ways to pick, in order,
      each with a label that shows what was picked. */
  lemma {:induction false} ExpansionsArePicks(t: Template, limit: nat)
    requires WellFormed(t, true) && Meaning(Render(t), limit).Ok?
    ensures var expansions := Meaning(Render(t), limit).value;
      |expansions| == |Picks(t)| && forall i | 0 <= i < |Picks(t)| :: IsPick(t, expansions[i], Picks(t)[i])
  {
    var choices := LabelledProduct(t, []);
    ChooseIsProduct(t, []);
    ProductFills(t, []);
    hide LabelledProduct, Picks, Filled, Join, ShowAll, Trim, ByteLength, AllTokens;
    var expansions := Meaning(Render(t), limit).value;
    assert expansions == AllLabelled(choices);
    forall i | 0 <= i < |Picks(t)|
      ensures IsPick(t, expansions[i], Picks(t)[i])
    {
      assert Filling(t, [], choices[i], Picks(t)[i]);
      assert choices[i].parameters[0..] == choices[i].parameters;
      assert expansions[i] == Labelled(choices[i]);
    }
  }

  /** Every branch of an outermost list is a literal that is shown as it is. */
  predicate PlainBranches(b: Branches) {
    match b
    case Two(first, second) => PlainBranch(first) && PlainBranch(second)
    case More(first, rest) => PlainBranch(first) && PlainBranches(rest)
  }

  predicate PlainBranch(t: Template) {
    t.Then? && t.head.Literal? && t.tail.Empty? && t.head.text != "" && Tight(t.head.text)
  }

  predicate PlainLists(t: Template) {
    match t
    case Empty => true
    case Then(Literal(_), tail) => PlainLists(tail)
    case Then(List(b), tail) => PlainBranches(b) && PlainLists(tail)
  }

  predicate Plain(text: string) {
    text != "" && Tight(text)
  }

  lemma {:induction false} PlainProducts(b: Branches)
    requires PlainBranches(b)
    ensures forall e | e in BranchProducts(b) :: Plain(e)
    decreases b
  {
    hide Tight;
    PlainProduct(b.first);
    match b
    case Two(first, second) => PlainProduct(second);
    case More(first, rest) => PlainProducts(rest);
  }

  lemma {:induction false} PlainProduct(t: Template)
    requires PlainBranch(t)
    ensures Product(t) == [t.head.text]
  {
    assert Product(t) == Prefixed(t.head.text, [""]);
    assert t.head.text + "" == t.head.text;
  }

  lemma {:induction false} PlainPicks(t: Template, picks: seq<string>)
    requires PlainLists(t) && picks in Picks(t)
    ensures forall k | 0 <= k < |picks| :: Plain(picks[k])
    decreases t
  {
    hide Tight;
    match t
    case Empty =>
    case Then(Literal(_), tail) => PlainPicks(tail, picks);
    case Then(List(b), tail) =>
      PlainProducts(b);
      var x, rest := InPickAny(BranchProducts(b), Picks(tail), picks);
      PlainPicks(tail, rest);
  }

  lemma {:induction false} InPickAny(xs: seq<string>, all: seq<seq<string>>, picks: seq<string>)
      returns (x: string, rest: seq<string>)
    requires picks in PickAny(xs, all)
    ensures x in xs && rest in all && picks == [x] + rest
    decreases |xs|
  {
    if picks in PickFirst(xs[0], all) {
      var i :| 0 <= i < |all| && picks == [xs[0]] + all[i];
      x, rest := xs[0], all[i];
    } else {
      x, rest := InPickAny(xs[1..], all, picks);
    }
  }

  /** With plain literals in its lists, a template's labels are what was picked, joined by
      dots. */
  lemma {:induction false} PlainLabels(t: Template, limit: nat, i: nat)
    requires WellFormed(t, true) && Meaning(Render(t), limit).Ok? && PlainLists(t) && i < |Picks(t)|
    ensures i < |Meaning(Render(t), limit).value|
    ensures Meaning(Render(t), limit).value[i].paneLabel == Join(Picks(t)[i], " · ")
  {
    ExpansionsArePicks(t, limit);
    hide Meaning, PlainLists, Shows, Tight, Picks, Filled, Join;
    var picks := Picks(t)[i];
    assert IsPick(t, Meaning(Render(t), limit).value[i], picks);
    PlainPicks(t, picks);
    var parameters :| ShowAll(parameters, picks) &&
      Meaning(Render(t), limit).value[i].paneLabel == Join(parameters, " · ");
    forall k | 0 <= k < |picks|
      ensures parameters[k] == picks[k]
    {
      assert Plain(picks[k]);
      TightIsShown(parameters[k], picks[k]);
    }
    assert parameters == picks;
  }
}
