/** Expansion of double-brace templates: the recursive meaning of a template, and
    the explicit-stack rewriters with their early aborts. */
module BraceExpansion {
  import opened Text
  import opened BraceScanner

  const MAX_TEMPLATE_BYTES := 65536

  // ----- The meaning of a fragment

  /** How many alternatives the leftmost list of `s` has. */
  function Arity(s: string): nat {
    if FirstList(s).None? then 0 else |FirstList(s).value.spans|
  }

  /** `s` with `text` in place of its leftmost list. */
  function Splice(s: string, text: string): string
    requires FirstList(s).Some?
  {
    FirstListIsTiled(s);
    s[..FirstList(s).value.start] + text + s[FirstList(s).value.end..]
  }

  function Alternative(s: string, j: nat): (a: string)
    requires j < Arity(s)
    ensures |Splice(s, a)| + 5 <= |s| && |a| + 5 <= |s|
  {
    SpliceShortens(s, j);
    Alternatives(s, FirstList(s).value)[j]
  }

  /** Rewrite the leftmost list, alternative by alternative, until none is left. */
  function Expand(s: string): seq<string>
    decreases |s|
  {
    if FirstList(s).None? then [s] else ExpandFrom(s, 0)
  }

  /** The expansions of `s` that take alternative `j` or a later one of its leftmost list. */
  function ExpandFrom(s: string, j: nat): seq<string>
    requires j <= Arity(s)
    decreases |s|, Arity(s) - j
  {
    if j == Arity(s) then []
    else Expand(Splice(s, Alternative(s, j))) + ExpandFrom(s, j + 1)
  }

  lemma {:induction false} ExpandLength(s: string)
    ensures |Expand(s)| >= 1
    decreases |s|
  {
    if FirstList(s).Some? {
      FirstListIsTiled(s);
      ExpandFromLength(s, 0);
    }
  }

  lemma {:induction false} ExpandFromLength(s: string, j: nat)
    requires j <= Arity(s)
    ensures |ExpandFrom(s, j)| >= Arity(s) - j
    decreases |s|, Arity(s) - j
  {
    if j < Arity(s) {
      ExpandLength(Splice(s, Alternative(s, j)));
      ExpandFromLength(s, j + 1);
    }
  }

  /** No expansion holds a list, and each rewriting step has shortened the text by five. */
  lemma {:induction false} ExpansionsAreFinal(s: string, e: string)
    requires e in Expand(s)
    ensures FirstList(e).None?
    ensures if FirstList(s).None? then e == s else |e| + 5 <= |s|
    decreases |s|
  {
    if FirstList(s).Some? {
      ExpansionsFromAreFinal(s, 0, e);
    }
  }

  lemma {:induction false} ExpansionsFromAreFinal(s: string, j: nat, e: string)
    requires j <= Arity(s) && e in ExpandFrom(s, j)
    ensures FirstList(e).None? && |e| + 5 <= |s|
    decreases |s|, Arity(s) - j
  {
    if e in Expand(Splice(s, Alternative(s, j))) {
      ExpansionsAreFinal(Splice(s, Alternative(s, j)), e);
    } else {
      ExpansionsFromAreFinal(s, j + 1, e);
    }
  }

  // ----- The fragment rewriter

  /** The number of rewriting steps left in `s`. */
  function Work(s: string): nat
    decreases |s|
  {
    if FirstList(s).None? then 1 else 1 + WorkFrom(s, 0)
  }

  function WorkFrom(s: string, j: nat): nat
    requires j <= Arity(s)
    decreases |s|, Arity(s) - j
  {
    if j == Arity(s) then 0 else Work(Splice(s, Alternative(s, j))) + WorkFrom(s, j + 1)
  }

  /** What a stack of pending texts, its top last, will still produce. */
  function PendingExpansions(pending: seq<string>): seq<string> {
    if pending == [] then []
    else Expand(pending[|pending| - 1]) + PendingExpansions(pending[..|pending| - 1])
  }

  function PendingWork(pending: seq<string>): nat {
    if pending == [] then 0
    else Work(pending[|pending| - 1]) + PendingWork(pending[..|pending| - 1])
  }

  lemma {:induction false} PendingLength(pending: seq<string>)
    ensures |PendingExpansions(pending)| >= |pending|
    decreases |pending|
  {
    if pending != [] {
      ExpandLength(pending[|pending| - 1]);
      PendingLength(pending[..|pending| - 1]);
    }
  }

  lemma {:induction false} PendingPush(pending: seq<string>, top: string)
    ensures PendingExpansions(pending + [top]) == Expand(top) + PendingExpansions(pending)
    ensures PendingWork(pending + [top]) == Work(top) + PendingWork(pending)
  {
    assert (pending + [top])[..|pending|] == pending;
  }

  /** The text that alternative `j` of a list gives, as the rewriters build it. */
  lemma {:induction false} SpliceOf(s: string, list: BraceList, j: nat)
    requires FirstList(s) == Some(list) && j < |list.spans|
    ensures Tiled(s, list)
    ensures Splice(s, Alternative(s, j)) == s[..list.start] + Alternatives(s, list)[j] + s[list.end..]
  {
    FirstListIsTiled(s);
  }

  datatype Failure = Blank | TooLong | TooMany | UnusedOpener

  /** The stack rewriter for fragments is the recursive expansion, and aborts
      exactly when that has more than `limit` entries. */
  method ExpandFragment(fragment: string, limit: nat) returns (r: Result<seq<string>, Failure>)
    ensures r == if |Expand(fragment)| <= limit then Ok(Expand(fragment)) else Err(TooMany)
  {
    var expanded: seq<string> := [];
    var pending := [fragment];
    assert pending[..0] == [];
    while pending != []
      invariant expanded + PendingExpansions(pending) == Expand(fragment)
      invariant |expanded| <= limit
      decreases PendingWork(pending)
    {
      var value := pending[|pending| - 1];
      pending := pending[..|pending| - 1];
      PendingLength(pending);
      var list := FirstDoubleBraceList(value);
      if list.None? {
        if |expanded| >= limit {
          return Err(TooMany);
        }
        expanded := expanded + [value];
        continue;
      }
      FirstListIsTiled(value);
      var alternatives := Alternatives(value, list.value);
      ExpandFromLength(value, 0);
      if |expanded| + |pending| + |alternatives| > limit {
        return Err(TooMany);
      }
      pending := PushAlternatives(value, list.value, alternatives, pending);
    }
    assert expanded + [] == expanded;
    return Ok(expanded);
  }

  /** Push the text once for each alternative, the first alternative on top. */
  method PushAlternatives(value: string, list: BraceList, alternatives: seq<string>, base: seq<string>)
      returns (pending: seq<string>)
    requires FirstList(value) == Some(list) && Tiled(value, list) && alternatives == Alternatives(value, list)
    ensures PendingExpansions(pending) == ExpandFrom(value, 0) + PendingExpansions(base)
    ensures PendingWork(pending) == WorkFrom(value, 0) + PendingWork(base)
  {
    pending := base;
    var j: nat := |alternatives|;
    while j > 0
      invariant j <= |alternatives|
      invariant PendingExpansions(pending) == ExpandFrom(value, j) + PendingExpansions(base)
      invariant PendingWork(pending) == WorkFrom(value, j) + PendingWork(base)
    {
      j := j - 1;
      var next := value[..list.start] + alternatives[j] + value[list.end..];
      SpliceOf(value, list, j);
      PendingPush(pending, next);
      pending := pending + [next];
    }
  }

  lemma {:induction false} Associative<T>(a: seq<T>, b: seq<T>, c: seq<T>)
    ensures (a + b) + c == a + (b + c)
  {
  }

  // ----- The meaning of a template with its labels

  /** A command, and the alternatives chosen to make it. */
  datatype Choice = Choice(command: string, parameters: seq<string>)

  datatype Expansion = Expansion(command: string, paneLabel: string)

  function Parameter(alternative: string): string {
    if Trim(alternative) == "" then "(empty)" else Trim(alternative)
  }

  function Labelled(c: Choice): Expansion {
    Expansion(c.command, Join(c.parameters, " · "))
  }

  function AllLabelled(cs: seq<Choice>): seq<Expansion> {
    seq(|cs|, i requires 0 <= i < |cs| => Labelled(cs[i]))
  }

  /** The expansions of alternative `j` of the leftmost list and of those after it. */
  function Flats(s: string, j: nat): seq<string>
    requires j <= Arity(s)
    decreases Arity(s) - j
  {
    if j == Arity(s) then [] else Expand(Alternative(s, j)) + Flats(s, j + 1)
  }

  ghost predicate AllShort(s: string, texts: seq<string>)
    requires FirstList(s).Some?
  {
    forall e | e in texts :: |Splice(s, e)| + 5 <= |s|
  }

  lemma {:induction false} FlatsAreShort(s: string, j: nat)
    requires FirstList(s).Some? && j <= Arity(s)
    ensures AllShort(s, Flats(s, j))
    decreases Arity(s) - j
  {
    if j < Arity(s) {
      FlatsAreShort(s, j + 1);
      var a := Alternative(s, j);
      forall e | e in Expand(a)
        ensures |Splice(s, e)| + 5 <= |s|
      {
        ExpansionsAreFinal(a, e);
        FirstListIsTiled(s);
      }
    }
  }

  /** Expand every alternative of the leftmost list to completion, put each result
      in place of the list, record it as a parameter, and go on. */
  function Choose(s: string, parameters: seq<string>): seq<Choice>
    decreases |s|
  {
    if FirstList(s).None? then [Choice(s, parameters)]
    else
      FlatsAreShort(s, 0);
      ChooseFrom(s, Flats(s, 0), parameters)
  }

  function ChooseFrom(s: string, texts: seq<string>, parameters: seq<string>): seq<Choice>
    requires FirstList(s).Some? && AllShort(s, texts)
    decreases |s|, |texts|
  {
    if texts == [] then []
    else
      Choose(Splice(s, texts[0]), parameters + [Parameter(texts[0])]) + ChooseFrom(s, texts[1..], parameters)
  }

  lemma {:induction false} FlatsLength(s: string, j: nat)
    requires j <= Arity(s)
    ensures |Flats(s, j)| >= Arity(s) - j
    decreases Arity(s) - j
  {
    if j < Arity(s) {
      ExpandLength(Alternative(s, j));
      FlatsLength(s, j + 1);
    }
  }

  lemma {:induction false} FlatsStep(s: string, j: nat, before: seq<string>)
    requires j < Arity(s)
    ensures Tiled(s, FirstList(s).value)
    ensures var expansions := Expand(Alternatives(s, FirstList(s).value)[j]);
      && |expansions| >= 1
      && before + Flats(s, j) == (before + expansions) + Flats(s, j + 1)
  {
    FirstListIsTiled(s);
    ExpandLength(Alternative(s, j));
  }

  lemma {:induction false} ChooseLength(s: string, parameters: seq<string>)
    ensures |Choose(s, parameters)| >= 1
    ensures FirstList(s).Some? ==> |Choose(s, parameters)| >= 2
    decreases |s|
  {
    if FirstList(s).Some? {
      FlatsAreShort(s, 0);
      FlatsLength(s, 0);
      FirstListIsTiled(s);
      ChooseFromLength(s, Flats(s, 0), parameters);
    }
  }

  lemma {:induction false} ChooseFromLength(s: string, texts: seq<string>, parameters: seq<string>)
    requires FirstList(s).Some? && AllShort(s, texts)
    ensures |ChooseFrom(s, texts, parameters)| >= |texts|
    decreases |s|, |texts|
  {
    if texts != [] {
      ChooseLength(Splice(s, texts[0]), parameters + [Parameter(texts[0])]);
      ChooseFromLength(s, texts[1..], parameters);
    }
  }

  /** No command of a template holds a list. */
  lemma {:induction false} ChoicesAreFinal(s: string, parameters: seq<string>, c: Choice)
    requires c in Choose(s, parameters)
    ensures FirstList(c.command).None?
    ensures if FirstList(s).None? then c == Choice(s, parameters) else |c.command| + 5 <= |s|
    decreases |s|
  {
    if FirstList(s).Some? {
      FlatsAreShort(s, 0);
      ChoicesFromAreFinal(s, Flats(s, 0), parameters, c);
    }
  }

  lemma {:induction false} ChoicesFromAreFinal(s: string, texts: seq<string>, parameters: seq<string>, c: Choice)
    requires FirstList(s).Some? && AllShort(s, texts) && c in ChooseFrom(s, texts, parameters)
    ensures FirstList(c.command).None? && |c.command| + 5 <= |s|
    decreases |s|, |texts|
  {
    var next := parameters + [Parameter(texts[0])];
    if c in Choose(Splice(s, texts[0]), next) {
      ChoicesAreFinal(Splice(s, texts[0]), next, c);
    } else {
      ChoicesFromAreFinal(s, texts[1..], parameters, c);
    }
  }

  // ----- The template rewriter

  function ChoiceWork(s: string): nat
    decreases |s|
  {
    if FirstList(s).None? then 1
    else
      FlatsAreShort(s, 0);
      1 + ChoiceWorkFrom(s, Flats(s, 0))
  }

  function ChoiceWorkFrom(s: string, texts: seq<string>): nat
    requires FirstList(s).Some? && AllShort(s, texts)
    decreases |s|, |texts|
  {
    if texts == [] then 0 else ChoiceWork(Splice(s, texts[0])) + ChoiceWorkFrom(s, texts[1..])
  }

  function PendingChoices(pending: seq<Choice>): seq<Choice> {
    if pending == [] then []
    else
      var top := pending[|pending| - 1];
      Choose(top.command, top.parameters) + PendingChoices(pending[..|pending| - 1])
  }

  function PendingChoiceWork(pending: seq<Choice>): nat {
    if pending == [] then 0
    else ChoiceWork(pending[|pending| - 1].command) + PendingChoiceWork(pending[..|pending| - 1])
  }

  lemma {:induction false} PendingChoicesLength(pending: seq<Choice>)
    ensures |PendingChoices(pending)| >= |pending|
    decreases |pending|
  {
    if pending != [] {
      ChooseLength(pending[|pending| - 1].command, pending[|pending| - 1].parameters);
      PendingChoicesLength(pending[..|pending| - 1]);
    }
  }

  lemma {:induction false} PendingChoicesPush(pending: seq<Choice>, top: Choice)
    ensures PendingChoices(pending + [top]) == Choose(top.command, top.parameters) + PendingChoices(pending)
    ensures PendingChoiceWork(pending + [top]) == ChoiceWork(top.command) + PendingChoiceWork(pending)
  {
    assert (pending + [top])[..|pending|] == pending;
  }

  lemma {:induction false} ChooseFromSplit(s: string, texts: seq<string>, j: nat, parameters: seq<string>)
    requires FirstList(s).Some? && AllShort(s, texts) && j < |texts|
    ensures ChooseFrom(s, texts[j..], parameters) ==
      Choose(Splice(s, texts[j]), parameters + [Parameter(texts[j])]) + ChooseFrom(s, texts[j + 1..], parameters)
    ensures ChoiceWorkFrom(s, texts[j..]) == ChoiceWork(Splice(s, texts[j])) + ChoiceWorkFrom(s, texts[j + 1..])
  {
    assert texts[j..][0] == texts[j] && texts[j..][1..] == texts[j + 1..];
  }

  /** What the program promises of a template. */
  ghost function Meaning(template: string, limit: nat): Result<seq<Expansion>, Failure> {
    var choices := Choose(template, []);
    if Trim(template) == "" then Err(Blank)
    else if ByteLength(template) > MAX_TEMPLATE_BYTES then Err(TooLong)
    else if |choices| > limit then Err(TooMany)
    else if |choices| < 2 && HasOpener(AllTokens(template)) then Err(UnusedOpener)
    else Ok(AllLabelled(choices))
  }

  /** Append one text at a time, unless there are more than `room`. */
  method ExtendWithin(texts: seq<string>, more: seq<string>, room: nat) returns (r: Option<seq<string>>)
    requires |texts| <= room
    ensures r == if |texts| + |more| <= room then Some(texts + more) else None
  {
    var all := texts;
    for k := 0 to |more|
      invariant all == texts + more[..k]
      invariant |all| <= room
    {
      if |all| >= room {
        return None;
      }
      all := all + [more[k]];
    }
    assert more[..|more|] == more;
    return Some(all);
  }

  /** The alternatives of the leftmost list, each expanded to completion, unless
      there are more than `room` of them. */
  method ExpandAlternatives(s: string, list: BraceList, alternatives: seq<string>, limit: nat, room: nat)
      returns (r: Result<seq<string>, Failure>)
    requires FirstList(s) == Some(list) && Tiled(s, list) && alternatives == Alternatives(s, list)
    requires room <= limit
    ensures r == if |Flats(s, 0)| <= room then Ok(Flats(s, 0)) else Err(TooMany)
  {
    var flats: seq<string> := [];
    for j := 0 to |alternatives|
      invariant flats + Flats(s, j) == Flats(s, 0)
      invariant |flats| <= room
    {
      FlatsStep(s, j, flats);
      if |flats| >= room {
        return Err(TooMany);
      }
      var fragment := ExpandFragment(alternatives[j], limit);
      if fragment.Err? {
        return Err(TooMany);
      }
      var extended := ExtendWithin(flats, fragment.value, room);
      if extended.None? {
        return Err(TooMany);
      }
      flats := extended.value;
    }
    assert flats + [] == flats;
    return Ok(flats);
  }

  /** `pending` is `base` with the texts from `j` on pushed, the first of them on top. */
  ghost predicate ChoicesPushed(s: string, texts: seq<string>, j: nat, parameters: seq<string>,
                         base: seq<Choice>, pending: seq<Choice>)
    requires FirstList(s).Some? && AllShort(s, texts) && j <= |texts|
  {
    && PendingChoices(pending) == ChooseFrom(s, texts[j..], parameters) + PendingChoices(base)
    && PendingChoiceWork(pending) == ChoiceWorkFrom(s, texts[j..]) + PendingChoiceWork(base)
  }

  lemma {:induction false} ChoicesPushedStep(s: string, texts: seq<string>, j: nat, parameters: seq<string>,
                                      base: seq<Choice>, pending: seq<Choice>)
    requires FirstList(s).Some? && AllShort(s, texts) && j < |texts|
    requires ChoicesPushed(s, texts, j + 1, parameters, base, pending)
    ensures ChoicesPushed(s, texts, j, parameters, base,
      pending + [Choice(Splice(s, texts[j]), parameters + [Parameter(texts[j])])])
  {
    var top := Choice(Splice(s, texts[j]), parameters + [Parameter(texts[j])]);
    ChooseFromSplit(s, texts, j, parameters);
    PendingChoicesPush(pending, top);
    Associative(Choose(top.command, top.parameters), ChooseFrom(s, texts[j + 1..], parameters), PendingChoices(base));
  }

  /** Push the text once for each expanded alternative, the first on top. */
  method PushChoices(s: string, list: BraceList, texts: seq<string>, parameters: seq<string>, base: seq<Choice>)
      returns (pending: seq<Choice>)
    requires FirstList(s) == Some(list) && Tiled(s, list) && AllShort(s, texts)
    ensures ChoicesPushed(s, texts, 0, parameters, base, pending)
  {
    pending := base;
    var j: nat := |texts|;
    while j > 0
      invariant j <= |texts|
      invariant ChoicesPushed(s, texts, j, parameters, base, pending)
    {
      ChoicesPushedStep(s, texts, j - 1, parameters, base, pending);
      j := j - 1;
      var next := s[..list.start] + texts[j] + s[list.end..];
      var parameter := Trim(texts[j]);
      var nextParameters := parameters + [if parameter == "" then "(empty)" else parameter];
      pending := pending + [Choice(next, nextParameters)];
    }
  }

  /** The finished choices and what is pending make up the meaning of the template. */
  ghost predicate Progress(template: string, done: seq<Choice>, pending: seq<Choice>) {
    done + PendingChoices(pending) == Choose(template, [])
  }

  lemma {:induction false} ProgressOnFinal(template: string, done: seq<Choice>, rest: seq<Choice>, top: Choice)
    requires Progress(template, done, rest + [top]) && FirstList(top.command).None?
    ensures Progress(template, done + [top], rest)
    ensures |Choose(template, [])| >= |done| + 1
  {
    PendingChoicesPush(rest, top);
    Associative(done, [top], PendingChoices(rest));
  }

  lemma {:induction false} ProgressOnList(template: string, done: seq<Choice>, rest: seq<Choice>, top: Choice)
    requires Progress(template, done, rest + [top]) && FirstList(top.command).Some?
    ensures AllShort(top.command, Flats(top.command, 0)) && |Flats(top.command, 0)| >= 2
    ensures |Choose(template, [])| >= |done| + |rest| + |Flats(top.command, 0)|
    ensures PendingChoiceWork(rest + [top]) ==
      1 + ChoiceWorkFrom(top.command, Flats(top.command, 0)) + PendingChoiceWork(rest)
    ensures forall pending | ChoicesPushed(top.command, Flats(top.command, 0), 0, top.parameters, rest, pending) ::
      && Progress(template, done, pending)
      && PendingChoiceWork(pending) < PendingChoiceWork(rest + [top])
  {
    var flats := Flats(top.command, 0);
    FlatsAreShort(top.command, 0);
    FlatsLength(top.command, 0);
    FirstListIsTiled(top.command);
    ChooseFromLength(top.command, flats, top.parameters);
    PendingChoicesLength(rest);
    PendingChoicesPush(rest, top);
    assert flats[0..] == flats;
  }

  lemma {:induction false} AllLabelledPush(done: seq<Choice>, top: Choice)
    ensures AllLabelled(done + [top]) == AllLabelled(done) + [Labelled(top)]
  {
    assert forall i | 0 <= i < |done| :: (done + [top])[i] == done[i];
  }

  /** The stack rewriter for templates is the recursive choice, and aborts exactly
      when that has more than `limit` entries. */
  method RewriteTemplate(template: string, limit: nat) returns (r: Result<seq<Expansion>, Failure>)
    ensures r ==
      if |Choose(template, [])| <= limit then Ok(AllLabelled(Choose(template, []))) else Err(TooMany)
  {
    var expanded: seq<Expansion> := [];
    var pending := [Choice(template, [])];
    ghost var done: seq<Choice> := [];
    PendingChoicesPush([], Choice(template, []));
    hide Alternatives, Choose, FirstList, PendingChoiceWork, Join;
    while pending != []
      invariant Progress(template, done, pending)
      invariant expanded == AllLabelled(done)
      invariant |done| <= limit
      decreases PendingChoiceWork(pending)
    {
      var top := pending[|pending| - 1];
      var rest := pending[..|pending| - 1];
      assert pending == rest + [top];
      PendingChoicesPush(rest, top);
      var list := FirstDoubleBraceList(top.command);
      if list.None? {
        ProgressOnFinal(template, done, rest, top);
        AllLabelledPush(done, top);
        if |expanded| >= limit {
          return Err(TooMany);
        }
        expanded := expanded + [Expansion(top.command, Join(top.parameters, " · "))];
        done := done + [top];
        pending := rest;
      } else {
        ProgressOnList(template, done, rest, top);
        if |expanded| + |rest| > limit {
          return Err(TooMany);
        }
        FirstListIsTiled(top.command);
        var alternatives := Alternatives(top.command, list.value);
        var room := limit - |expanded| - |rest|;
        var flats := ExpandAlternatives(top.command, list.value, alternatives, limit, room);
        if flats.Err? {
          return Err(TooMany);
        }
        pending := PushChoices(top.command, list.value, flats.value, top.parameters, rest);
      }
    }
    assert done + [] == done;
    return Ok(expanded);
  }

  /** The whole expansion of what was typed into the prompt. */
  method ExpandTemplate(template: string, limit: nat) returns (r: Result<seq<Expansion>, Failure>)
    ensures r == Meaning(template, limit)
  {
    if Trim(template) == "" {
      return Err(Blank);
    }
    if ByteLength(template) > MAX_TEMPLATE_BYTES {
      return Err(TooLong);
    }
    r := RewriteTemplate(template, limit);
    if r.Ok? {
      var opener := HasActiveDoubleBraceOpener(template);
      if |r.value| < 2 && opener {
        return Err(UnusedOpener);
      }
    }
  }

  /** The early aborts are exact: a template that is neither blank nor too long nor
      left with an unused opener expands if and only if its complete recursive
      expansion has at most `limit` entries. */
  lemma {:induction false} AbortIsExact(template: string, limit: nat)
    requires Trim(template) != "" && ByteLength(template) <= MAX_TEMPLATE_BYTES
    requires FirstList(template).Some? || !HasOpener(AllTokens(template))
    ensures Meaning(template, limit).Ok? <==> |Choose(template, [])| <= limit
    ensures Meaning(template, limit).Ok? ==> Meaning(template, limit).value == AllLabelled(Choose(template, []))
  {
    ChooseLength(template, []);
  }

  /** A single command is the template itself, unlabelled, and only a template
      without lists and without openers gives one. */
  lemma {:induction false} SingleIsVerbatim(template: string, limit: nat)
    requires Meaning(template, limit).Ok?
    ensures |Meaning(template, limit).value| == 1 <==> FirstList(template).None?
    ensures FirstList(template).None? ==>
      Meaning(template, limit).value == [Expansion(template, "")] && !HasOpener(AllTokens(template))
  {
    ChooseLength(template, []);
  }
}
