/** The command prompt and its completion: a list of candidates, one of which may be
    selected, and the span of the query that the next selection replaces. */
module CompletionPrompt {
  import opened Text
  import opened Arithmetic
  import opened TextField
  import opened BraceScanner

  /** What a request for candidates remembers of the prompt it was made for. */
  datatype Request = Request(generation: nat, query: string, cursor: nat, start: nat, reverse: bool)

  /** The parts of the query that are drawn, and the query generation they are for. */
  datatype Rendered = Rendered(generation: nat, before: string, after: string)

  datatype Prompt = Prompt(
    query: Field,
    error: Option<string>,
    candidates: seq<string>,
    selected: Option<nat>,
    start: nat,
    end: nat,
    addSpace: bool,
    generation: nat,
    loading: bool,
    queryGeneration: nat,
    rendered: Option<Rendered>)

  // ----- Longest common prefix

  predicate IsPrefix(p: string, s: string) {
    |p| <= |s| && s[..|p|] == p
  }

  function Shared(a: string, b: string): (r: string)
    ensures IsPrefix(r, a) && IsPrefix(r, b)
  {
    if a != "" && b != "" && a[0] == b[0] then [a[0]] + Shared(a[1..], b[1..]) else ""
  }

  function CommonPrefix(values: seq<string>): string {
    if values == [] then ""
    else if |values| == 1 then values[0]
    else Shared(CommonPrefix(values[..|values| - 1]), values[|values| - 1])
  }

  lemma {:induction false} SharedIsLongest(a: string, b: string, p: string)
    ensures IsPrefix(p, a) && IsPrefix(p, b) <==> IsPrefix(p, Shared(a, b))
    decreases |p|
  {
    if p == "" {
      assert a[..0] == "" && b[..0] == "" && Shared(a, b)[..0] == "";
    } else if a != "" && b != "" && a[0] == b[0] {
      SharedIsLongest(a[1..], b[1..], p[1..]);
      PrefixTail(p, a);
      PrefixTail(p, b);
      PrefixTail(p, Shared(a, b));
      assert Shared(a, b)[1..] == Shared(a[1..], b[1..]);
    }
  }

  lemma {:induction false} PrefixTail(p: string, s: string)
    requires p != ""
    ensures IsPrefix(p, s) <==> s != "" && p[0] == s[0] && IsPrefix(p[1..], s[1..])
  {
    if |p| <= |s| {
      assert s[..|p|][1..] == s[1..][..|p| - 1] && s[..|p|][0] == s[0];
      assert p == [p[0]] + p[1..];
      assert s[..|p|] == [s[0]] + s[1..][..|p| - 1];
    }
  }

  /** The prefixes that all values share are exactly the prefixes of the common prefix. */
  lemma {:induction false} CommonPrefixIsLongest(values: seq<string>, p: string)
    requires values != []
    ensures (forall v | v in values :: IsPrefix(p, v)) <==> IsPrefix(p, CommonPrefix(values))
    decreases |values|
  {
    if |values| == 1 {
      assert forall v | v in values :: v == values[0];
    } else {
      var front, last := values[..|values| - 1], values[|values| - 1];
      CommonPrefixIsLongest(front, p);
      SharedIsLongest(CommonPrefix(front), last, p);
      assert forall v :: v in values <==> v in front || v == last;
    }
  }

  method LongestCommonPrefix(values: seq<string>) returns (prefix: string)
    ensures prefix == CommonPrefix(values)
  {
    if values == [] {
      return "";
    }
    var first := values[0];
    var end: nat := |first|;
    assert values[..1] == [first] && first[..end] == first;
    for i := 1 to |values|
      invariant end <= |first| && first[..end] == CommonPrefix(values[..i])
    {
      var value := values[i];
      var last: nat := 0;
      while last < end && last < |value| && value[..last + 1] == first[..last + 1]
        invariant last <= end && last <= |value| && value[..last] == first[..last]
      {
        last := last + 1;
      }
      SharedUpTo(first[..end], value, last);
      assert values[..i + 1][..i] == values[..i];
      end := last;
    }
    assert values[..|values|] == values;
    prefix := first[..end];
  }

  lemma {:induction false} SharedUpTo(a: string, b: string, n: nat)
    requires n <= |a| && n <= |b| && b[..n] == a[..n]
    requires n == |a| || n == |b| || b[..n + 1] != a[..n + 1]
    ensures Shared(a, b) == a[..n]
    decreases n
  {
    if n == 0 {
      assert a != "" ==> a[..1] == [a[0]];
      assert b != "" ==> b[..1] == [b[0]];
    } else {
      assert a[0] == a[..n][0] == b[..n][0] == b[0];
      assert a[1..][..n - 1] == a[..n][1..] && b[1..][..n - 1] == b[..n][1..];
      assert n < |a| ==> a[..n + 1] == [a[0]] + a[1..][..n];
      assert n < |b| ==> b[..n + 1] == [b[0]] + b[1..][..n];
      SharedUpTo(a[1..], b[1..], n - 1);
    }
  }

  // ----- Where a completion starts

  predicate EndsWord(c: char) {
    IsWhitespace(c) || c == '{' || c == ',' || c == '\'' || c == '"'
  }

  /** The start of the word before the cursor. */
  function WordStart(query: string, cursor: nat): (start: nat)
    requires cursor <= |query|
    ensures start <= cursor
    ensures start == 0 || EndsWord(query[start - 1])
    ensures forall i | start <= i < cursor :: !EndsWord(query[i])
  {
    if cursor == 0 || EndsWord(query[cursor - 1]) then cursor else WordStart(query, cursor - 1)
  }

  ghost predicate InsideGroup(text: string, cursor: nat)
    requires cursor <= |text|
  {
    OpenGroups(AllTokens(text[..cursor]), []) != []
  }

  // ----- Deleting a word

  /** The text between the whitespace before `end` and what ends a word before it. */
  function SpacesStart(text: string, end: nat): (start: nat)
    requires end <= |text|
    ensures start <= end && (forall i | start <= i < end :: IsWhitespace(text[i]))
    ensures start == 0 || !IsWhitespace(text[start - 1])
  {
    if end > 0 && IsWhitespace(text[end - 1]) then SpacesStart(text, end - 1) else end
  }

  function ItemStart(text: string, end: nat): (start: nat)
    requires end <= |text|
    ensures start <= end && (forall i | start <= i < end :: !IsWhitespace(text[i]) && text[i] != ',')
    ensures start == 0 || IsWhitespace(text[start - 1]) || text[start - 1] == ','
  {
    if end > 0 && !IsWhitespace(text[end - 1]) && text[end - 1] != ',' then ItemStart(text, end - 1) else end
  }

  function WordDeleted(f: Field): Field {
    if f.selectAll then f.(text := "", cursor := 0, selectAll := false)
    else
      var end := Min(f.cursor, |f.text|);
      var start := ItemStart(f.text, SpacesStart(f.text, end));
      f.(text := f.text[..start] + f.text[end..], cursor := start)
  }

  // ----- The prompt as functions on its state

  const NEW_PROMPT :=
    Prompt(Field(0, "", 0, false), None, [], None, 0, 0, false, 0, false, 0, None)

  /** The span that the next selection replaces lies in the query. */
  predicate Spanned(p: Prompt) {
    p.candidates != [] ==> p.start <= p.end <= |p.query.text|
  }

  function SpanText(p: Prompt): string
    requires p.candidates != [] && Spanned(p)
  {
    p.query.text[p.start..p.end]
  }

  function Cleared(p: Prompt): Prompt {
    p.(generation := p.generation + 1, loading := false, candidates := [], selected := None)
  }

  /** The query was edited to `f`. */
  function EditedTo(p: Prompt, f: Field): Prompt {
    Cleared(p).(query := f, error := None, queryGeneration := p.queryGeneration + 1)
  }

  /** The cursor or the selection moved. */
  function MovedTo(p: Prompt, f: Field): Prompt {
    Cleared(p).(query := f, queryGeneration := p.queryGeneration + 1)
  }

  function Replaced(p: Prompt, replacement: string): Prompt
    requires p.start <= p.end <= |p.query.text|
  {
    var text := p.query.text[..p.start] + replacement + p.query.text[p.end..];
    var end := p.start + |replacement|;
    p.(query := p.query.(text := text, cursor := end, selectAll := false),
       end := end, error := None, queryGeneration := p.queryGeneration + 1)
  }

  function Selected(p: Prompt, i: nat): Prompt
    requires Spanned(p)
  {
    if i < |p.candidates| then Replaced(p.(selected := Some(i)), p.candidates[i]) else p
  }

  /** The candidate after or before the selected one, round the list. */
  function Neighbour(selected: Option<nat>, count: nat, reverse: bool): nat
    requires count > 0
  {
    match selected
    case None => if reverse then count - 1 else 0
    case Some(i) => if reverse then (i + count - 1) % count else (i + 1) % count
  }

  function Navigated(p: Prompt, reverse: bool): Prompt
    requires Spanned(p)
  {
    if p.candidates == [] then p else Selected(p, Neighbour(p.selected, |p.candidates|, reverse))
  }

  function EndsInSeparator(s: string): bool {
    s != "" && (s[|s| - 1] == '/' || s[|s| - 1] == '\\')
  }

  /** Whether accepting the completion puts a space after it. */
  function WantsSpace(p: Prompt): bool
    requires p.candidates != [] && Spanned(p)
  {
    && p.addSpace && !EndsInSeparator(SpanText(p))
    && !(p.end < |p.query.text| && IsWhitespace(p.query.text[p.end]))
  }

  function Accepted(p: Prompt): Prompt
    requires Spanned(p)
  {
    if p.candidates == [] then p
    else if !WantsSpace(p) then Cleared(p)
    else
      var text := p.query.text[..p.end] + " " + p.query.text[p.end..];
      Cleared(p).(query := p.query.(text := text, cursor := p.end + 1),
                  end := p.end + 1, queryGeneration := p.queryGeneration + 1)
  }

  function Begun(p: Prompt): Prompt {
    p.(generation := p.generation + 1, loading := true)
  }

  /** The request that a prompt makes when it begins a completion. */
  function RequestOf(p: Prompt, reverse: bool): Request
    requires p.query.cursor <= |p.query.text|
  {
    Request(p.generation + 1, p.query.text, p.query.cursor, WordStart(p.query.text, p.query.cursor), reverse)
  }

  predicate Current(p: Prompt, r: Request) {
    p.generation == r.generation && p.query.text == r.query && p.query.cursor == r.cursor
  }

  predicate WellFormed(r: Request) {
    r.start <= r.cursor <= |r.query|
  }

  /** The prompt once it holds the candidates, before anything is selected. */
  ghost function Offered(p: Prompt, r: Request, candidates: seq<string>): Prompt
    requires WellFormed(r) && Current(p, r)
  {
    p.(loading := false, start := r.start, end := r.cursor, candidates := candidates,
       addSpace := !InsideGroup(r.query, r.start))
  }

  ghost function Applied(p: Prompt, r: Request, candidates: seq<string>): Prompt
    requires WellFormed(r)
  {
    if !Current(p, r) then p
    else if candidates == [] then p.(loading := false)
    else
      var offered := Offered(p, r, candidates);
      var common := CommonPrefix(candidates);
      if ByteLength(common) > ByteLength(SpanText(offered)) then
        var extended := Replaced(offered, common);
        if |candidates| == 1 && EndsInSeparator(common) then Cleared(extended) else extended
      else Navigated(offered, r.reverse)
  }

  // ----- The prompt as the program keeps it

  class MultiCommandPrompt {
    var query: Field
    var error: Option<string>
    var candidates: seq<string>
    var selected: Option<nat>
    var start: nat
    var end: nat
    var addSpace: bool
    var generation: nat
    var loading: bool
    var queryGeneration: nat
    var rendered: Option<Rendered>

    constructor ()
      ensures Snapshot() == NEW_PROMPT
    {
      query := Field(0, "", 0, false);
      error, candidates, selected := None, [], None;
      start, end, addSpace, generation, loading := 0, 0, false, 0, false;
      queryGeneration, rendered := 0, None;
    }

    function Snapshot(): Prompt
      reads this
    {
      Prompt(query, error, candidates, selected, start, end, addSpace, generation, loading, queryGeneration, rendered)
    }

    method ClearCompletion()
      modifies this
      ensures Snapshot() == Cleared(old(Snapshot()))
    {
      generation := generation + 1;
      loading := false;
      candidates := [];
      selected := None;
    }

    method MarkQueryChanged()
      modifies this`queryGeneration
      ensures queryGeneration == old(queryGeneration) + 1
    {
      queryGeneration := queryGeneration + 1;
    }

    method AcceptCompletion() returns (accepted: bool)
      requires Spanned(Snapshot())
      modifies this
      ensures accepted <==> old(candidates) != []
      ensures Snapshot() == Accepted(old(Snapshot()))
    {
      if candidates == [] {
        return false;
      }
      var completedDirectory := EndsInSeparator(query.text[start..end]);
      var followedByWhitespace := end < |query.text| && IsWhitespace(query.text[end]);
      var space := addSpace && !completedDirectory && !followedByWhitespace;
      ClearCompletion();
      if space {
        query := query.(text := query.text[..end] + " " + query.text[end..]);
        end := end + 1;
        query := query.(cursor := end);
        MarkQueryChanged();
      }
      accepted := true;
    }

    method ReplaceCompletion(replacement: string)
      requires start <= end <= |query.text|
      modifies this
      ensures Snapshot() == Replaced(old(Snapshot()), replacement)
    {
      query := query.(text := query.text[..start] + replacement + query.text[end..]);
      end := start + |replacement|;
      query := query.(cursor := end, selectAll := false);
      error := None;
      MarkQueryChanged();
    }

    method SelectCompletion(i: nat)
      requires Spanned(Snapshot())
      modifies this
      ensures Snapshot() == Selected(old(Snapshot()), i)
    {
      if i < |candidates| {
        selected := Some(i);
        ReplaceCompletion(candidates[i]);
      }
    }

    method NavigateCompletion(reverse: bool)
      requires Spanned(Snapshot())
      modifies this
      ensures Snapshot() == Navigated(old(Snapshot()), reverse)
    {
      if candidates != [] {
        var count := |candidates|;
        var i: nat;
        match selected {
          case Some(s) => i := if reverse then (s + count - 1) % count else (s + 1) % count;
          case None => i := if reverse then count - 1 else 0;
        }
        SelectCompletion(i);
      }
    }

    method BeginCompletionRequest(reverse: bool) returns (request: Request)
      requires query.cursor <= |query.text|
      modifies this
      ensures Snapshot() == Begun(old(Snapshot())) && request == RequestOf(old(Snapshot()), reverse)
    {
      generation := generation + 1;
      loading := true;
      request := Request(generation, query.text, query.cursor, WordStart(query.text, query.cursor), reverse);
    }

    /** Returns whether the request was current. */
    method ApplyCompletionResult(request: Request, found: seq<string>) returns (applied: bool)
      requires WellFormed(request)
      modifies this
      ensures applied <==> Current(old(Snapshot()), request)
      ensures Snapshot() == Applied(old(Snapshot()), request, found)
    {
      if !(generation == request.generation && query.text == request.query && query.cursor == request.cursor) {
        return false;
      }
      loading := false;
      if found == [] {
        return true;
      }
      start := request.start;
      end := request.cursor;
      var inside := InsideDoubleBraceGroup(query.text, request.start);
      addSpace := !inside;
      candidates := found;
      assert Snapshot() == Offered(old(Snapshot()), request, found);
      var current := query.text[start..end];
      var common := LongestCommonPrefix(found);
      if ByteLength(common) > ByteLength(current) {
        ReplaceCompletion(common);
        if |candidates| == 1 && EndsInSeparator(common) {
          ClearCompletion();
        }
        return true;
      }
      NavigateCompletion(request.reverse);
      applied := true;
    }

    method DeletePreviousWord()
      modifies this
      ensures Snapshot() == old(Snapshot()).(query := WordDeleted(old(query)), error := None,
                                             queryGeneration := old(queryGeneration) + 1)
    {
      hide IsWhitespace;
      if query.selectAll {
        query := query.(text := "", cursor := 0);
      } else {
        var end: nat := Min(query.cursor, |query.text|);
        var start: nat := end;
        while start > 0 && IsWhitespace(query.text[start - 1])
          invariant start <= end && SpacesStart(query.text, start) == SpacesStart(query.text, end)
        {
          start := start - 1;
        }
        while start > 0 && !IsWhitespace(query.text[start - 1]) && query.text[start - 1] != ','
          invariant start <= end
          invariant ItemStart(query.text, start) == ItemStart(query.text, SpacesStart(query.text, end))
        {
          start := start - 1;
        }
        query := query.(text := query.text[..start] + query.text[end..], cursor := start);
      }
      query := query.(selectAll := false);
      error := None;
      MarkQueryChanged();
    }

    /** The parts of the query on either side of the cursor, computed again only when
        the query has changed. */
    method RenderedQueryParts() returns (before: string, after: string)
      modifies this`rendered
      ensures Snapshot() == Drawn(old(Snapshot()))
      ensures rendered.Some? && rendered.value == Rendered(queryGeneration, before, after)
    {
      if rendered.None? || rendered.value.generation != queryGeneration {
        var at := Min(query.cursor, |query.text|);
        rendered := Some(Rendered(queryGeneration, query.text[..at], query.text[at..]));
      }
      return rendered.value.before, rendered.value.after;
    }
  }

  function Parts(f: Field): (string, string) {
    var at := Min(f.cursor, |f.text|);
    (f.text[..at], f.text[at..])
  }

  function Drawn(p: Prompt): Prompt {
    if p.rendered.Some? && p.rendered.value.generation == p.queryGeneration then p
    else p.(rendered := Some(Rendered(p.queryGeneration, Parts(p.query).0, Parts(p.query).1)))
  }
}
