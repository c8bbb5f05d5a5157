/** What the keys of the prompt and the results of completions do to its query, said
    without the functions that compute it. */
module PromptKeys {
  import opened Text
  import opened Arithmetic
  import opened TextField
  import opened CompletionPrompt
  import opened PromptRuns

  // ----- Results

  ghost predicate SharedBy(t: string, found: seq<string>) {
    forall c | c in found :: IsPrefix(t, c)
  }

  /** The longest prefix that all candidates share. */
  ghost predicate Longest(t: string, found: seq<string>) {
    SharedBy(t, found) && forall u | SharedBy(u, found) :: |u| <= |t|
  }

  lemma {:induction false} LongestIs(found: seq<string>, t: string)
    requires found != []
    ensures Longest(t, found) <==> t == CommonPrefix(found)
  {
    var common := CommonPrefix(found);
    forall u: string
      ensures SharedBy(u, found) <==> IsPrefix(u, common)
    {
      CommonPrefixIsLongest(found, u);
    }
    hide SharedBy, CommonPrefix;
    assert common[..|common|] == common && IsPrefix(common, common);
    if Longest(t, found) {
      assert IsPrefix(t, common) && |t| == |common|;
    }
  }

  /** A result for the prompt as it is, with candidates.  If the longest prefix they share
      is longer than the word, the word becomes that prefix and nothing is selected; a lone
      candidate that is a directory also ends the completion.  Otherwise the word becomes
      the first candidate or, backwards, the last, which is selected. */
  lemma {:induction false} ResultMeans(p: Prompt, r: Request, found: seq<string>, longest: string)
    requires WellFormed(r) && Current(p, r) && p.selected.None? && found != [] && Longest(longest, found)
    ensures var q := Applied(p, r, found);
      var longer := ByteLength(longest) > ByteLength(r.query[r.start..r.cursor]);
      var i := if r.reverse then |found| - 1 else 0;
      var word := if longer then longest else found[i];
      var directory := longest != "" && (longest[|longest| - 1] == '/' || longest[|longest| - 1] == '\\');
      && q.query.text == r.query[..r.start] + word + r.query[r.cursor..] && q.query.cursor == r.start + |word|
      && !q.query.selectAll && !q.loading && q.error.None?
      && q.selected == (if longer then None else Some(i))
      && q.candidates == (if longer && |found| == 1 && directory then [] else found)
  {
    LongestIs(found, longest);
    hide CommonPrefix, InsideGroup, Longest;
  }

  /** A result without candidates only ends the waiting. */
  lemma {:induction false} EmptyResult(p: Prompt, r: Request)
    requires WellFormed(r) && Current(p, r)
    ensures Applied(p, r, []) == p.(loading := false)
  {
  }

  lemma {:induction false} PrefixBytes(a: string, b: string)
    requires IsPrefix(a, b)
    ensures ByteLength(a) <= ByteLength(b) && (ByteLength(a) < ByteLength(b) <==> |a| < |b|)
    decreases |a|
  {
    if a != "" {
      PrefixTail(a, b);
      PrefixBytes(a[1..], b[1..]);
    }
  }

  /** Where all candidates extend the word, it is extended exactly if a longer text is a
      prefix of them all. */
  lemma {:induction false} ExtendsExactly(word: string, found: seq<string>, longest: string)
    requires found != [] && Longest(longest, found) && SharedBy(word, found)
    ensures ByteLength(longest) > ByteLength(word) <==> exists t :: |t| > |word| && SharedBy(t, found)
  {
    LongestIs(found, longest);
    CommonPrefixIsLongest(found, word);
    PrefixBytes(word, longest);
    hide CommonPrefix, ByteLength;
  }

  /** In every run the prompt has nothing selected when a result for it arrives. */
  lemma {:induction false} NothingSelectedYet(s: System, k: nat)
    requires Inv(s) && k < |s.outstanding| && Current(s.prompt, s.outstanding[k])
    ensures WellFormed(s.outstanding[k]) && s.prompt.candidates == [] && s.prompt.selected.None?
  {
  }

  /** Tab in a prompt without candidates asks for some: the request remembers the query,
      the cursor and where the word before it starts, and is the only current one. */
  lemma {:induction false} TabRequests(p: Prompt, shift: bool)
    requires p.query.cursor <= |p.query.text| && p.candidates == [] && !p.loading
    ensures var (q, request) := AfterKey(p, Tab(shift, None));
      && request.Some? && q.loading && q.query == p.query && q.candidates == []
      && var r := request.value;
         && r.generation == q.generation == p.generation + 1 && r.query == p.query.text
         && r.cursor == p.query.cursor && r.reverse == shift && r.start <= r.cursor
         && (forall i | r.start <= i < r.cursor ::
               !IsWhitespace(r.query[i]) && r.query[i] !in {'{', ',', '\'', '"'})
         && (r.start > 0 ==> IsWhitespace(r.query[r.start - 1]) || r.query[r.start - 1] in {'{', ',', '\'', '"'})
  {
    hide IsWhitespace;
  }

  /** While a request is out Tab does nothing; with candidates at hand it is answered at
      once, as its result would answer it. */
  lemma {:induction false} TabAtOnce(p: Prompt, shift: bool, found: seq<string>)
    requires p.query.cursor <= |p.query.text| && p.candidates == []
    ensures AfterKey(p, Tab(shift, Some(found))) ==
      if p.loading then (p, None)
      else (Applied(AfterKey(p, Tab(shift, None)).0, AfterKey(p, Tab(shift, None)).1.value, found), None)
  {
    hide Applied, WordStart;
  }

  /** Enter ends a completion: a space is put after the word unless the word stands in a
      brace group, is a directory, or has whitespace behind it. */
  lemma {:induction false} EnterAccepts(p: Prompt, r: Request)
    requires Fits(p, r)
    ensures var q, text := AfterKey(p, Enter).0, p.query.text;
      var word := text[p.start..p.end];
      var directory := word != "" && (word[|word| - 1] == '/' || word[|word| - 1] == '\\');
      var space := !InsideGroup(r.query, r.start) && !directory && !(p.end < |text| && IsWhitespace(text[p.end]));
      && q.candidates == [] && q.selected.None?
      && q.query == (if space then Field(p.query.identity, text[..p.end] + " " + text[p.end..], p.end + 1,
                                         p.query.selectAll) else p.query)
  {
    hide InsideGroup, IsWhitespace, CommonPrefix;
  }

  // ----- Moving through the candidates

  /** `q` is `p` with candidate `i` selected and in place of the word. */
  ghost predicate Picked(p: Prompt, q: Prompt, i: int)
    requires p.start <= p.end <= |p.query.text|
  {
    && 0 <= i < |p.candidates| && q.selected == Some(i) && q.candidates == p.candidates
    && q.query.text == p.query.text[..p.start] + p.candidates[i] + p.query.text[p.end..]
    && q.start == p.start && q.end == q.query.cursor == p.start + |p.candidates[i]|
  }

  /** Down and Tab select the next candidate, from the last the first; Up and Shift-Tab the
      one before, from the first the last.  With none selected they select the first and
      the last. */
  lemma {:induction false} ArrowKeys(p: Prompt, captured: Option<Request>, ready: Option<seq<string>>)
    requires Safe(p, captured) && p.candidates != []
    ensures var n := |p.candidates|;
      var next := if p.selected.None? || p.selected.value == n - 1 then 0 else p.selected.value + 1;
      var previous := if p.selected.None? || p.selected.value == 0 then n - 1 else p.selected.value - 1;
      && Picked(p, AfterKey(p, Down).0, next) && Picked(p, AfterKey(p, Up).0, previous)
      && AfterKey(p, Tab(false, ready)) == AfterKey(p, Down) && AfterKey(p, Tab(true, ready)) == AfterKey(p, Up)
  {
    var n := |p.candidates|;
    if p.selected.Some? {
      Round(p.selected.value, n);
    }
    NavigatedPicks(p, false, if p.selected.None? || p.selected.value == n - 1 then 0 else p.selected.value + 1);
    NavigatedPicks(p, true, if p.selected.None? || p.selected.value == 0 then n - 1 else p.selected.value - 1);
    hide CommonPrefix, InsideGroup, Navigated, Picked, Applied;
  }

  /** A click on a candidate selects it. */
  lemma {:induction false} ClickPicks(s: System, i: nat)
    requires Inv(s) && s.prompt.candidates != []
    ensures if i < |s.prompt.candidates| then Picked(s.prompt, After(s, Click(i)).prompt, i)
            else After(s, Click(i)).prompt == s.prompt
  {
    hide CommonPrefix, InsideGroup;
  }

  lemma {:induction false} NavigatedPicks(p: Prompt, reverse: bool, i: nat)
    requires Spanned(p) && i < |p.candidates| && i == Neighbour(p.selected, |p.candidates|, reverse)
    ensures Picked(p, Navigated(p, reverse), i)
  {
    hide Neighbour;
  }

  lemma {:induction false} Round(i: nat, n: nat)
    requires i < n
    ensures (i + 1) % n == if i == n - 1 then 0 else i + 1
    ensures (i + n - 1) % n == if i == 0 then n - 1 else i - 1
  {
    if i > 0 {
      RemainderIs(i + n - 1, n, 1, i - 1);
    }
  }

  // ----- Editing

  /** The keys that remove text, with `a` before the cursor and `b` after it. */
  lemma {:induction false} RemovingKeys(p: Prompt, id: nat, a: string, b: string)
    requires Spanned(p) && p.query == Field(id, a + b, |a|, false)
    ensures AfterKey(p, Edit(Backspace)).0.query ==
      if a == "" then p.query else Field(id, a[..|a| - 1] + b, |a| - 1, false)
    ensures AfterKey(p, Edit(Delete)).0.query == if b == "" then p.query else Field(id, a + b[1..], |a|, false)
    ensures AfterKey(p, Cut).0.query == if a + b == "" then p.query else Field(id, "", 0, false)
    ensures AfterKey(p, Copy).0 == p
  {
    var s := a + b;
    assert s[..|a|] == a && s[|a|..] == b;
    assert a != "" ==> s[..|a| - 1] == a[..|a| - 1];
    assert b != "" ==> s[|a| + 1..] == b[1..];
  }

  /** Text is inserted at the cursor, which ends up behind it. */
  lemma {:induction false} InsertingKeys(p: Prompt, id: nat, a: string, b: string, text: string)
    requires Spanned(p) && p.query == Field(id, a + b, |a|, false)
    ensures AfterKey(p, Edit(Typed(text))).0.query == Field(id, a + OneLine(text) + b, |a| + |OneLine(text)|, false)
    ensures AfterKey(p, Paste(text)).0.query == Field(id, a + OneLine(text) + b, |a| + |OneLine(text)|, false)
  {
    var s := a + b;
    assert s[..|a|] == a && s[|a|..] == b;
    assert a + "" + b == s;
    NoLine();
    hide OneLine;
  }

  /** The keys that move the cursor. */
  lemma {:induction false} MovingKeys(p: Prompt, id: nat, s: string, cursor: nat)
    requires Spanned(p) && cursor <= |s| && p.query == Field(id, s, cursor, false)
    ensures AfterKey(p, Edit(Left)).0.query == Field(id, s, if cursor == 0 then 0 else cursor - 1, false)
    ensures AfterKey(p, Edit(Right)).0.query == Field(id, s, if cursor == |s| then |s| else cursor + 1, false)
    ensures AfterKey(p, Edit(Home)).0.query == Field(id, s, 0, false)
    ensures AfterKey(p, Edit(End)).0.query == Field(id, s, |s|, false)
    ensures AfterKey(p, Edit(SelectAll)).0.query == Field(id, s, cursor, s != "")
  {
  }

  lemma {:induction false} NoLine()
    ensures OneLine("") == ""
  {
  }

  /** With everything selected, what removes text removes all of it. */
  lemma {:induction false} RemovingSelection(p: Prompt, id: nat, s: string, cursor: nat)
    requires Spanned(p) && cursor <= |s| && s != "" && p.query == Field(id, s, cursor, true)
    ensures AfterKey(p, Edit(Backspace)).0.query == AfterKey(p, Edit(Delete)).0.query == Field(id, "", 0, false)
    ensures AfterKey(p, Cut).0.query == AfterKey(p, DeleteWord).0.query == Field(id, "", 0, false)
  {
  }

  /** With everything selected, what inserts text replaces all of it. */
  lemma {:induction false} ReplacingSelection(p: Prompt, id: nat, s: string, cursor: nat, text: string)
    requires Spanned(p) && cursor <= |s| && p.query == Field(id, s, cursor, true)
    ensures AfterKey(p, Edit(Typed(text))).0.query == Field(id, OneLine(text), |OneLine(text)|, false)
    ensures text != "" ==> AfterKey(p, Paste(text)).0.query == Field(id, OneLine(text), |OneLine(text)|, false)
  {
    hide OneLine;
    assert "" + OneLine(text) + "" == OneLine(text);
  }

  /** With everything selected, what moves the cursor moves it to an end. */
  lemma {:induction false} LeavingSelection(p: Prompt, id: nat, s: string, cursor: nat)
    requires Spanned(p) && cursor <= |s| && p.query == Field(id, s, cursor, true)
    ensures AfterKey(p, Edit(Left)).0.query == AfterKey(p, Edit(Home)).0.query == Field(id, s, 0, false)
    ensures AfterKey(p, Edit(Right)).0.query == AfterKey(p, Edit(End)).0.query == Field(id, s, |s|, false)
  {
  }

  /** What is typed or pasted loses its line breaks and nothing else. */
  lemma {:induction false} OneLineKeeps(s: string)
    ensures Filtered(s, OneLine(s), c => c != '\r' && c != '\n')
    decreases |s|
  {
    hide Filtered;
    if s == "" {
      FilteredNone<char>(c => c != '\r' && c != '\n');
    } else {
      OneLineKeeps(s[1..]);
      FilteredNext(s, OneLine(s[1..]), c => c != '\r' && c != '\n');
    }
  }

  /** Deleting a word removes the whitespace before the cursor and the item before that,
      which ends at whitespace or a comma. */
  lemma {:induction false} DeletesWord(p: Prompt, id: nat, a: string, item: string, spaces: string, b: string)
    requires Spanned(p) && p.query == Field(id, a + item + spaces + b, |a + item + spaces|, false)
    requires AllWhitespace(spaces) && forall i | 0 <= i < |item| :: !IsWhitespace(item[i]) && item[i] != ','
    requires a == "" || a[|a| - 1] == ',' || (item != "" && IsWhitespace(a[|a| - 1]))
    ensures AfterKey(p, DeleteWord).0.query == Field(id, a + b, |a|, false)
  {
    var text, end := a + item + spaces + b, |a + item + spaces|;
    assert !IsWhitespace(',');
    hide IsWhitespace;
    WordSpans(a, item, spaces, b);
    SpacesStartIs(text, end, |a + item|);
    ItemStartIs(text, |a + item|, |a|);
  }

  lemma {:induction false} WordSpans(a: string, item: string, spaces: string, b: string)
    ensures var text, start, end := a + item + spaces + b, |a + item|, |a + item + spaces|;
      && (forall i | start <= i < end :: text[i] == spaces[i - start])
      && (forall i | |a| <= i < start :: text[i] == item[i - |a|])
      && (item != "" ==> text[start - 1] == item[|item| - 1]) && (a != "" ==> text[|a| - 1] == a[|a| - 1])
      && text[..|a|] == a && text[end..] == b
  {
  }

  lemma {:induction false} SpacesStartIs(text: string, end: nat, start: nat)
    requires start <= end <= |text| && forall i | start <= i < end :: IsWhitespace(text[i])
    requires start == 0 || !IsWhitespace(text[start - 1])
    ensures SpacesStart(text, end) == start
    decreases end
  {
    hide IsWhitespace;
    if start < end {
      SpacesStartIs(text, end - 1, start);
    }
  }

  lemma {:induction false} ItemStartIs(text: string, end: nat, start: nat)
    requires start <= end <= |text| && forall i | start <= i < end :: !IsWhitespace(text[i]) && text[i] != ','
    requires start == 0 || IsWhitespace(text[start - 1]) || text[start - 1] == ','
    ensures ItemStart(text, end) == start
    decreases end
  {
    hide IsWhitespace;
    if start < end {
      ItemStartIs(text, end - 1, start);
    }
  }
}
