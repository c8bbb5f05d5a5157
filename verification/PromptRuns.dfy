/** The command prompt over every sequence of keys, clicks and late results. */
module PromptRuns {
  import opened Text
  import opened TextField
  import opened CompletionPrompt
  import opened Arithmetic

  /** A key, as the prompt takes it.  `ready` holds the candidates when they need no
      scan of the file system; `text` is what the clipboard gives, "" for nothing. */
  datatype KeyEvent =
    | Tab(shift: bool, ready: Option<seq<string>>)
    | Copy
    | Cut
    | Paste(text: string)
    | Enter
    | Up
    | Down
    | DeleteWord
    | Edit(key: FieldKey)

  // ----- One key

  function Emptied(f: Field): Field {
    f.(text := "", cursor := 0, selectAll := false)
  }

  /** The prompt after a key, and the request left to a background scan. */
  ghost function AfterKey(p: Prompt, key: KeyEvent): (Prompt, Option<Request>)
    requires Spanned(p) && p.query.cursor <= |p.query.text|
  {
    match key
    case Tab(shift, ready) =>
      if p.loading then (p, None)
      else if p.candidates != [] then (Navigated(p, shift), None)
      else if ready.None? then (Begun(p), Some(RequestOf(p, shift)))
      else (Applied(Begun(p), RequestOf(p, shift), ready.value), None)
    case Copy => (p, None)
    case Cut => (if p.query.text == "" then p else EditedTo(p, Emptied(p.query)), None)
    case Paste(text) => (if text == "" then p else EditedTo(p, Insert(p.query, text)), None)
    case Enter => (Accepted(p), None)
    case Up => (Navigated(p, true), None)
    case Down => (Navigated(p, false), None)
    case DeleteWord => (EditedTo(p, WordDeleted(p.query)), None)
    case Edit(key) =>
      var (f, edit) := Press(p.query, key);
      (match edit
       case Ignored => p
       case CursorMoved => MovedTo(p, f)
       case Edited => EditedTo(p, f), None)
  }

  /** The prompt's key handler.  Escape, and Enter without candidates, close the
      prompt or try to; they are not part of it. */
  method KeyDown(prompt: MultiCommandPrompt, key: KeyEvent) returns (request: Option<Request>)
    requires Spanned(prompt.Snapshot()) && prompt.query.cursor <= |prompt.query.text|
    modifies prompt
    ensures (prompt.Snapshot(), request) == AfterKey(old(prompt.Snapshot()), key)
  {
    hide Applied, Navigated, Accepted, WordDeleted, TextField.Press, Insert;
    request := None;
    match key {
      case Tab(shift, ready) =>
        if !prompt.loading {
          if prompt.candidates != [] {
            prompt.NavigateCompletion(shift);
          } else {
            var made := prompt.BeginCompletionRequest(shift);
            if ready.Some? {
              var _ := prompt.ApplyCompletionResult(made, ready.value);
            } else {
              request := Some(made);
            }
          }
        }
      case Copy =>
      case Cut =>
        if prompt.query.text != "" {
          prompt.query := Emptied(prompt.query);
          Edited(prompt);
        }
      case Paste(text) =>
        if text != "" {
          prompt.query := Insert(prompt.query, text);
          Edited(prompt);
        }
      case Enter =>
        var _ := prompt.AcceptCompletion();
      case Up =>
        prompt.NavigateCompletion(true);
      case Down =>
        prompt.NavigateCompletion(false);
      case DeleteWord =>
        prompt.ClearCompletion();
        prompt.DeletePreviousWord();
      case Edit(key) =>
        var (f, edit) := Press(prompt.query, key);
        PressKeepsCursor(prompt.query, key);
        match edit {
          case Ignored =>
          case CursorMoved =>
            prompt.query := f;
            prompt.ClearCompletion();
            prompt.MarkQueryChanged();
          case Edited =>
            prompt.query := f;
            Edited(prompt);
        }
    }
  }

  /** What follows every edit of the query. */
  method Edited(prompt: MultiCommandPrompt)
    modifies prompt
    ensures prompt.Snapshot() == EditedTo(old(prompt.Snapshot()), old(prompt.query))
  {
    prompt.ClearCompletion();
    prompt.error := None;
    prompt.MarkQueryChanged();
  }

  // ----- Runs

  /** The prompt, the requests whose scans have not ended, and the request whose
      candidates were offered last. */
  datatype System = System(prompt: Prompt, outstanding: seq<Request>, captured: Option<Request>)

  datatype Step =
    | Key(key: KeyEvent)
    | Click(i: nat)
    | Report(error: string)
    | Draw
    | Deliver(k: nat, found: seq<string>)

  predicate Enabled(s: System, step: Step) {
    step.Deliver? ==> step.k < |s.outstanding|
  }

  /** The request that a step offers candidates for, if it does. */
  ghost function Offers(s: System, step: Step): Option<Request>
    requires Enabled(s, step) && s.prompt.query.cursor <= |s.prompt.query.text|
  {
    match step
    case Key(Tab(shift, Some(found))) =>
      if s.prompt.loading || s.prompt.candidates != [] || found == [] then None
      else Some(RequestOf(s.prompt, shift))
    case Deliver(k, found) =>
      if Current(s.prompt, s.outstanding[k]) && found != [] then Some(s.outstanding[k]) else None
    case _ => None
  }

  ghost function After(s: System, step: Step): System
    requires Inv(s) && Enabled(s, step)
  {
    var p := s.prompt;
    var captured := if Offers(s, step).Some? then Offers(s, step) else s.captured;
    match step
    case Key(key) =>
      var (q, request) := AfterKey(p, key);
      System(q, s.outstanding + (if request.Some? then [request.value] else []), captured)
    case Click(i) => s.(prompt := Selected(p, i))
    case Report(error) => s.(prompt := p.(error := Some(error)))
    case Draw => s.(prompt := Drawn(p))
    case Deliver(k, found) =>
      System(Applied(p, s.outstanding[k], found), s.outstanding[..k] + s.outstanding[k + 1..], captured)
  }

  const INITIAL := System(NEW_PROMPT, [], None)

  // ----- The invariant

  /** The candidates were found for `r`; outside the span the query is still what
      `r` captured, and the span holds the selected candidate, or the candidates'
      common prefix while none is selected. */
  ghost predicate Fits(p: Prompt, r: Request) {
    && WellFormed(r) && p.candidates != []
    && p.start == r.start && p.start <= p.end <= |p.query.text| && p.query.cursor == p.end
    && p.query.text[..p.start] == r.query[..r.start]
    && p.query.text[p.end..] == r.query[r.cursor..]
    && p.addSpace == !InsideGroup(r.query, r.start)
    && (p.selected.Some? ==> p.selected.value < |p.candidates|)
    && p.query.text[p.start..p.end] ==
         (if p.selected.Some? then p.candidates[p.selected.value] else CommonPrefix(p.candidates))
  }

  /** What is drawn is the query as it is, unless it must be computed again. */
  predicate Fresh(p: Prompt) {
    p.rendered.Some? ==>
      && p.rendered.value.generation <= p.queryGeneration
      && (p.rendered.value.generation == p.queryGeneration ==>
            (p.rendered.value.before, p.rendered.value.after) == Parts(p.query))
  }

  ghost predicate Safe(p: Prompt, captured: Option<Request>) {
    && p.query.cursor <= |p.query.text| && Fresh(p)
    && (if p.candidates == [] then p.selected.None?
        else !p.loading && captured.Some? && Fits(p, captured.value))
  }

  /** At most one outstanding request can still be current, and only while the prompt
      has no candidates. */
  predicate Awaits(p: Prompt, outstanding: seq<Request>) {
    && (forall i | 0 <= i < |outstanding| ::
          && WellFormed(outstanding[i]) && outstanding[i].generation <= p.generation
          && (outstanding[i].generation == p.generation ==> p.loading && p.candidates == []))
    && (forall i, j | 0 <= i < j < |outstanding| :: outstanding[i].generation < outstanding[j].generation)
  }

  ghost predicate Inv(s: System) {
    Safe(s.prompt, s.captured) && Awaits(s.prompt, s.outstanding)
  }

  // ----- Every operation keeps it

  lemma {:induction false} ReplacedFits(p: Prompt, r: Request, replacement: string)
    requires WellFormed(r) && p.candidates != [] && p.start == r.start && p.start <= p.end <= |p.query.text|
    requires p.query.text[..p.start] == r.query[..r.start] && p.query.text[p.end..] == r.query[r.cursor..]
    requires p.addSpace == !InsideGroup(r.query, r.start)
    requires p.selected.Some? ==> p.selected.value < |p.candidates|
    requires replacement == if p.selected.Some? then p.candidates[p.selected.value] else CommonPrefix(p.candidates)
    ensures Fits(Replaced(p, replacement), r)
  {
    hide CommonPrefix, InsideGroup;
    var q := Replaced(p, replacement);
    var head, tail := p.query.text[..p.start], p.query.text[p.end..];
    assert q.query.text == head + replacement + tail;
    assert q.query.text[..q.start] == head && q.query.text[q.end..] == tail;
    assert q.query.text[q.start..q.end] == replacement;
  }

  lemma {:induction false} SelectedFits(p: Prompt, r: Request, i: nat)
    requires WellFormed(r) && p.candidates != [] && p.start == r.start && p.start <= p.end <= |p.query.text|
    requires p.query.text[..p.start] == r.query[..r.start] && p.query.text[p.end..] == r.query[r.cursor..]
    requires p.addSpace == !InsideGroup(r.query, r.start)
    ensures i < |p.candidates| ==> Fits(Selected(p, i), r)
  {
    hide CommonPrefix, InsideGroup;
    if i < |p.candidates| {
      ReplacedFits(p.(selected := Some(i)), r, p.candidates[i]);
    }
  }

  lemma {:induction false} NeighbourInRange(selected: Option<nat>, count: nat, reverse: bool)
    requires count > 0
    ensures Neighbour(selected, count, reverse) < count
  {
  }

  lemma {:induction false} SelectedIsSafe(p: Prompt, captured: Option<Request>, i: nat)
    requires Safe(p, captured)
    ensures Safe(Selected(p, i), captured)
    ensures Selected(p, i).generation == p.generation && Selected(p, i).loading == p.loading
    ensures Selected(p, i).candidates == p.candidates
  {
    if p.candidates != [] {
      SelectedFits(p, captured.value, i);
      hide Fits;
    }
  }

  lemma {:induction false} NavigatedIsSafe(p: Prompt, captured: Option<Request>, reverse: bool)
    requires Safe(p, captured)
    ensures Safe(Navigated(p, reverse), captured)
    ensures Navigated(p, reverse).generation == p.generation && Navigated(p, reverse).loading == p.loading
    ensures Navigated(p, reverse).candidates == p.candidates
  {
    if p.candidates != [] {
      hide Fits;
      SelectedIsSafe(p, captured, Neighbour(p.selected, |p.candidates|, reverse));
    }
  }

  /** A current result leaves the prompt safe, whatever the candidates are. */
  lemma {:induction false} AppliedIsSafe(p: Prompt, captured: Option<Request>, r: Request, found: seq<string>)
    requires Safe(p, captured) && WellFormed(r) && (Current(p, r) ==> p.candidates == [])
    ensures var q := Applied(p, r, found);
      && Safe(q, if Current(p, r) && found != [] then Some(r) else captured)
      && q.generation >= p.generation
      && (q.loading ==> q == p)
      && (!Current(p, r) ==> q == p)
  {
    hide CommonPrefix, InsideGroup;
    if Current(p, r) && found != [] {
      var offered := Offered(p, r, found);
      var common := CommonPrefix(found);
      if ByteLength(common) > ByteLength(SpanText(offered)) {
        ReplacedFits(offered, r, common);
      } else {
        NeighbourInRange(None, |found|, r.reverse);
        SelectedFits(offered, r, Neighbour(None, |found|, r.reverse));
      }
    }
  }

  lemma {:induction false} WordDeletedKeepsCursor(f: Field)
    ensures WordDeleted(f).cursor <= |WordDeleted(f).text|
  {
    hide IsWhitespace;
  }

  lemma {:induction false} EditedIsSafe(p: Prompt, captured: Option<Request>, f: Field)
    requires Safe(p, captured) && f.cursor <= |f.text|
    ensures Safe(EditedTo(p, f), captured) && Safe(MovedTo(p, f), captured)
  {
  }

  lemma {:induction false} AcceptedIsSafe(p: Prompt, captured: Option<Request>)
    requires Safe(p, captured)
    ensures Safe(Accepted(p), captured)
    ensures Accepted(p) == p || (Accepted(p).generation == p.generation + 1 && Accepted(p).candidates == [])
  {
    hide IsWhitespace, CommonPrefix, InsideGroup;
  }

  /** A key keeps the prompt safe and never reuses a generation; it leaves the
      generation alone only if it leaves the candidates of a loading prompt alone. */
  lemma {:induction false} KeyIsSafe(s: System, key: KeyEvent)
    requires Inv(s)
    ensures var (q, request) := AfterKey(s.prompt, key);
      && Safe(q, After(s, Key(key)).captured)
      && q.generation >= s.prompt.generation
      && (q.generation == s.prompt.generation && s.prompt.loading ==> q.loading && q.candidates == s.prompt.candidates)
      && (request.Some? ==>
            && WellFormed(request.value) && request.value.generation == s.prompt.generation + 1
            && q.generation == request.value.generation && q.loading && q.candidates == [])
  {
    hide Fits, Applied, Navigated, Accepted, WordDeleted, Fresh, Insert;
    var p := s.prompt;
    match key
    case Tab(shift, ready) =>
      if !p.loading {
        if p.candidates != [] {
          NavigatedIsSafe(p, s.captured, shift);
        } else {
          BegunIsSafe(p, s.captured);
          if ready.Some? {
            AppliedIsSafe(Begun(p), s.captured, RequestOf(p, shift), ready.value);
          }
        }
      }
    case Copy =>
    case Cut => EditedIsSafe(p, s.captured, Emptied(p.query));
    case Paste(text) =>
      InsertKeepsCursor(p.query, text);
      EditedIsSafe(p, s.captured, Insert(p.query, text));
    case Enter => AcceptedIsSafe(p, s.captured);
    case Up => NavigatedIsSafe(p, s.captured, true);
    case Down => NavigatedIsSafe(p, s.captured, false);
    case DeleteWord =>
      WordDeletedKeepsCursor(p.query);
      EditedIsSafe(p, s.captured, WordDeleted(p.query));
    case Edit(key) =>
      PressKeepsCursor(p.query, key);
      EditedIsSafe(p, s.captured, Press(p.query, key).0);
  }

  lemma {:induction false} InsertKeepsCursor(f: Field, text: string)
    ensures Insert(f, text).cursor <= |Insert(f, text).text|
  {
  }

  lemma {:induction false} BegunIsSafe(p: Prompt, captured: Option<Request>)
    requires Safe(p, captured) && p.candidates == []
    ensures Safe(Begun(p), captured)
  {
  }

  /** Removing one request, or adding a newer one, keeps the requests in order. */
  lemma {:induction false} AwaitsAfter(p: Prompt, outstanding: seq<Request>, q: Prompt, k: nat)
    requires Awaits(p, outstanding) && k < |outstanding| && q.generation >= p.generation
    requires outstanding[k].generation == p.generation || q == p
    ensures Awaits(q, outstanding[..k] + outstanding[k + 1..])
  {
    var rest := outstanding[..k] + outstanding[k + 1..];
    assert forall i | 0 <= i < |rest| :: rest[i] == outstanding[if i < k then i else i + 1];
  }

  lemma {:induction false} KeyKeepsInv(s: System, key: KeyEvent)
    requires Inv(s)
    ensures Inv(After(s, Key(key))) && After(s, Key(key)).prompt.generation >= s.prompt.generation
  {
    KeyIsSafe(s, key);
    hide AfterKey, Safe;
    var (q, request) := AfterKey(s.prompt, key);
    assert s.outstanding + [] == s.outstanding;
    assert request.Some? ==>
      forall i | 0 <= i < |s.outstanding| :: (s.outstanding + [request.value])[i] == s.outstanding[i];
  }

  lemma {:induction false} StepKeepsInv(s: System, step: Step)
    requires Inv(s) && Enabled(s, step)
    ensures Inv(After(s, step)) && After(s, step).prompt.generation >= s.prompt.generation
  {
    hide Applied, AfterKey, Fits, Selected;
    var p := s.prompt;
    match step
    case Key(key) => KeyKeepsInv(s, key);
    case Click(i) => SelectedIsSafe(p, s.captured, i);
    case Report(error) => ReportIsSafe(s, error);
    case Draw => DrawIsSafe(s);
    case Deliver(k, found) =>
      var r := s.outstanding[k];
      assert Awaits(p, s.outstanding) && WellFormed(r);
      AppliedIsSafe(p, s.captured, r, found);
      AwaitsAfter(p, s.outstanding, Applied(p, r, found), k);
  }

  lemma {:induction false} DrawIsSafe(s: System)
    requires Inv(s)
    ensures Inv(After(s, Draw)) && After(s, Draw).prompt.generation == s.prompt.generation
  {
    hide CommonPrefix, InsideGroup;
  }

  lemma {:induction false} ReportIsSafe(s: System, error: string)
    requires Inv(s)
    ensures Inv(After(s, Report(error))) && After(s, Report(error)).prompt.generation == s.prompt.generation
  {
  }

  /** `run` starts with a new prompt and takes `steps`; a step is defined on systems
      that keep the invariant, and `RunKeepsInv` shows that all of these do. */
  ghost predicate Steps(run: seq<System>, steps: seq<Step>) {
    && |run| == |steps| + 1 && run[0] == INITIAL
    && forall i | 0 <= i < |steps| :: Inv(run[i]) && Enabled(run[i], steps[i]) ==> run[i + 1] == After(run[i], steps[i])
  }

  ghost predicate AllEnabled(run: seq<System>, steps: seq<Step>) {
    |run| == |steps| + 1 && forall i | 0 <= i < |steps| :: Enabled(run[i], steps[i])
  }

  /** Over every run of keys, clicks and results that arrive in any order: the span is
      inside the query, the query outside it is what the request captured, the span
      is the selected candidate, and what is drawn is never stale. */
  lemma {:induction false} RunKeepsInv(run: seq<System>, steps: seq<Step>, i: nat)
    requires Steps(run, steps) && AllEnabled(run, steps) && i < |run|
    ensures Inv(run[i])
    decreases i
  {
    if i > 0 {
      hide Inv, After, Enabled;
      RunKeepsInv(run, steps, i - 1);
      StepKeepsInv(run[i - 1], steps[i - 1]);
    }
  }

  // ----- Stale results

  /** Once the prompt has moved past a request, its result changes nothing, however
      late it comes. */
  lemma {:induction false} StaleForever(run: seq<System>, steps: seq<Step>, i: nat, j: nat, r: Request,
                                        found: seq<string>)
    requires Steps(run, steps) && AllEnabled(run, steps) && i <= j < |run|
    requires WellFormed(r) && r.generation < run[i].prompt.generation
    ensures r.generation < run[j].prompt.generation && Applied(run[j].prompt, r, found) == run[j].prompt
  {
    hide Steps, AllEnabled;
    GenerationsGrow(run, steps, i, j);
  }

  lemma {:induction false} GenerationsGrow(run: seq<System>, steps: seq<Step>, i: nat, j: nat)
    requires Steps(run, steps) && AllEnabled(run, steps) && i <= j < |run|
    ensures run[i].prompt.generation <= run[j].prompt.generation
    decreases j
  {
    if i < j {
      hide Steps, AllEnabled;
      GenerationsGrow(run, steps, i, j - 1);
      GenerationGrows(run, steps, j - 1);
    }
  }

  lemma {:induction false} GenerationGrows(run: seq<System>, steps: seq<Step>, i: nat)
    requires Steps(run, steps) && AllEnabled(run, steps) && i < |steps|
    ensures run[i].prompt.generation <= run[i + 1].prompt.generation
  {
    hide After, Inv, Enabled;
    RunKeepsInv(run, steps, i);
    StepKeepsInv(run[i], steps[i]);
  }

  predicate Edits(p: Prompt, key: KeyEvent)
    requires p.query.cursor <= |p.query.text|
  {
    match key
    case Cut => p.query.text != ""
    case Paste(text) => text != ""
    case DeleteWord => true
    case Edit(key) => !Press(p.query, key).1.Ignored?
    case _ => false
  }

  /** Any key that edits the query or moves its cursor makes every outstanding
      request stale. */
  lemma {:induction false} EditsInvalidate(s: System, key: KeyEvent, k: nat)
    requires Inv(s) && Edits(s.prompt, key) && k < |s.outstanding|
    ensures s.outstanding[k].generation < After(s, Key(key)).prompt.generation
    ensures After(s, Key(key)).prompt.candidates == []
  {
  }

  /** Never two outstanding requests are current. */
  lemma {:induction false} OneCurrent(s: System, i: nat, j: nat)
    requires Inv(s) && i < j < |s.outstanding|
    ensures !Current(s.prompt, s.outstanding[i])
  {
    assert s.outstanding[i].generation < s.outstanding[j].generation;
  }

  // ----- Moving through the candidates

  lemma {:induction false} ReplacedTwice(p: Prompt, a: string, b: string)
    requires p.start <= p.end <= |p.query.text|
    ensures var q := Replaced(p, a);
      && q.start <= q.end <= |q.query.text|
      && Replaced(q, b) == Replaced(p, b).(queryGeneration := p.queryGeneration + 2)
  {
    var q := Replaced(p, a);
    assert q.query.text[..q.start] == p.query.text[..p.start];
    assert q.query.text[q.end..] == p.query.text[p.end..];
  }

  lemma {:induction false} ReplacedBySame(p: Prompt)
    requires p.start <= p.end <= |p.query.text| && p.query.cursor == p.end
    ensures Replaced(p, p.query.text[p.start..p.end]) ==
      p.(query := p.query.(selectAll := false), error := None, queryGeneration := p.queryGeneration + 1)
  {
    var text := p.query.text;
    assert text[..p.start] + text[p.start..p.end] + text[p.end..] == text;
  }

  lemma {:induction false} NeighbourIs(i: nat, n: nat)
    requires i < n
    ensures Neighbour(Some(i), n, false) == if i == n - 1 then 0 else i + 1
    ensures Neighbour(Some(i), n, true) == if i == 0 then n - 1 else i - 1
  {
    if i == n - 1 {
      RemainderIs(i + 1, n, 1, 0);
    } else {
      RemainderIs(i + 1, n, 0, i + 1);
    }
    if i == 0 {
      RemainderIs(n - 1, n, 0, n - 1);
    } else {
      RemainderIs(i + n - 1, n, 1, i - 1);
    }
  }

  lemma {:induction false} Undoes(i: nat, n: nat, reverse: bool)
    requires i < n
    ensures Neighbour(Some(i), n, reverse) < n
    ensures Neighbour(Some(Neighbour(Some(i), n, reverse)), n, !reverse) == i
  {
    hide Neighbour;
    NeighbourIs(i, n);
    NeighbourIs(Neighbour(Some(i), n, reverse), n);
  }

  /** Selecting one candidate after another is selecting the last. */
  lemma {:induction false} SelectedTwice(p: Prompt, i: nat, j: nat)
    requires Spanned(p) && i < |p.candidates| && j < |p.candidates|
    ensures Spanned(Selected(p, i)) && Selected(p, i).candidates == p.candidates && Selected(p, i).selected == Some(i)
    ensures Selected(Selected(p, i), j) == Selected(p, j).(queryGeneration := p.queryGeneration + 2)
  {
    var one := p.(selected := Some(i));
    ReplacedTwice(one, p.candidates[i], p.candidates[j]);
    hide Replaced;
    SelectedAside(Replaced(one, p.candidates[i]), p.candidates[j], Some(j));
    SelectedAside(one, p.candidates[j], Some(j));
  }

  /** Replacing the span does not look at the selection. */
  lemma {:induction false} SelectedAside(p: Prompt, replacement: string, selected: Option<nat>)
    requires p.start <= p.end <= |p.query.text|
    ensures Replaced(p.(selected := selected), replacement) == Replaced(p, replacement).(selected := selected)
    ensures Replaced(p, replacement).candidates == p.candidates && Replaced(p, replacement).selected == p.selected
    ensures Replaced(p, replacement).start <= Replaced(p, replacement).end <= |Replaced(p, replacement).query.text|
  {
  }

  /** From a selected candidate, next and previous undo each other: they restore the
      query, the cursor, the selection and the span. */
  lemma {:induction false} NextThenPrevious(p: Prompt, r: Request, reverse: bool)
    requires Fits(p, r) && p.selected.Some?
    ensures Spanned(Navigated(p, reverse))
    ensures Navigated(Navigated(p, reverse), !reverse) ==
      p.(query := p.query.(selectAll := false), error := None, queryGeneration := p.queryGeneration + 2)
  {
    hide CommonPrefix, InsideGroup;
    var i, n := p.selected.value, |p.candidates|;
    var j := Neighbour(Some(i), n, reverse);
    Undoes(i, n, reverse);
    NeighbourInRange(Some(i), n, reverse);
    ReplacedBySame(p);
    SelectedTwice(p, j, i);
    hide Replaced, Selected, Neighbour;
    assert Selected(p, i) == Replaced(p, p.candidates[i]) by { SelectedSame(p, i); }
  }

  lemma {:induction false} SelectedSame(p: Prompt, i: nat)
    requires Spanned(p) && i < |p.candidates| && p.selected == Some(i)
    ensures Selected(p, i) == Replaced(p, p.candidates[i])
  {
    hide Replaced;
    assert p.(selected := Some(i)) == p;
  }

  /** The prompt after moving `n` times. */
  function Moved(p: Prompt, n: nat, reverse: bool): (q: Prompt)
    requires Spanned(p)
    ensures Spanned(q)
  {
    if n == 0 then p else
      var q := Moved(p, n - 1, reverse);
      SelectedSpanned(q, if q.candidates == [] then 0 else Neighbour(q.selected, |q.candidates|, reverse));
      Navigated(q, reverse)
  }

  lemma {:induction false} SelectedSpanned(p: Prompt, i: nat)
    requires Spanned(p)
    ensures Spanned(Selected(p, i))
  {
  }

  lemma {:induction false} MovesOnce(p: Prompt, i: nat)
    requires Spanned(p) && p.selected == Some(i) && i < |p.candidates|
    ensures Navigated(p, false).candidates == p.candidates
    ensures Navigated(p, false).selected == Some((i + 1) % |p.candidates|)
  {
    hide Replaced;
    SelectedAside(p, "", None);
    var j := (i + 1) % |p.candidates|;
    SelectedAside(p.(selected := Some(j)), p.candidates[j], Some(j));
  }

  lemma {:induction false} MovedNext(p: Prompt, n: nat, k: nat)
    requires Spanned(p) && n > 0 && Moved(p, n - 1, false).candidates == p.candidates
    requires Moved(p, n - 1, false).selected == Some(k) && k < |p.candidates|
    ensures Moved(p, n, false).candidates == p.candidates
    ensures Moved(p, n, false).selected == Some((k + 1) % |p.candidates|)
  {
    hide Navigated, Selected, Neighbour;
    MovesOnce(Moved(p, n - 1, false), k);
  }

  lemma {:induction false} NoMove(p: Prompt)
    requires Spanned(p)
    ensures Moved(p, 0, false) == p
  {
  }

  /** Moving forward `n` times from candidate `i` selects candidate `i + n`, counted
      round the list; so moving once round the list selects `i` again. */
  lemma {:induction false} MovesRound(p: Prompt, i: nat, n: nat)
    requires Spanned(p) && p.selected == Some(i) && i < |p.candidates|
    ensures Moved(p, n, false).candidates == p.candidates
    ensures Moved(p, n, false).selected == Some((i + n) % |p.candidates|)
    decreases n
  {
    hide Moved;
    if n == 0 {
      NoMove(p);
      RemainderIs(i, |p.candidates|, 0, i);
    } else {
      MovesRound(p, i, n - 1);
      MovedNext(p, n, (i + n - 1) % |p.candidates|);
      ModuloStep(i + n - 1, |p.candidates|);
    }
  }

  lemma {:induction false} ModuloStep(a: nat, n: nat)
    requires n > 0
    ensures (a % n + 1) % n == (a + 1) % n
  {
    var q, r := a / n, a % n;
    assert a == q * n + r;
    if r + 1 == n {
      assert (q + 1) * n == q * n + n;
      RemainderIs(a + 1, n, q + 1, 0);
      RemainderIs(n, n, 1, 0);
    } else {
      RemainderIs(a + 1, n, q, r + 1);
      RemainderIs(r + 1, n, 0, r + 1);
    }
  }

  // ----- What a completion does to the query

  /** Accepting a selected candidate: the query becomes the one that was completed,
      with the candidate in place of the word, and a space after it exactly when the
      completion is not inside a brace group, is no directory and no whitespace
      follows. */
  lemma {:induction false} AcceptSplices(p: Prompt, r: Request)
    requires Fits(p, r) && p.selected.Some?
    ensures var c := p.candidates[p.selected.value];
      var rest := r.query[r.cursor..];
      var space := !InsideGroup(r.query, r.start) && !EndsInSeparator(c) && !(rest != "" && IsWhitespace(rest[0]));
      && Accepted(p).query.text == r.query[..r.start] + c + (if space then " " else "") + rest
      && Accepted(p).query.cursor == r.start + |c| + (if space then 1 else 0)
      && Accepted(p).candidates == []
  {
    hide CommonPrefix, InsideGroup, IsWhitespace;
    var c, text := p.candidates[p.selected.value], p.query.text;
    var head, rest := r.query[..r.start], r.query[r.cursor..];
    assert text == text[..p.start] + text[p.start..p.end] + text[p.end..];
    assert p.end == r.start + |c|;
    assert text[..p.end] == head + c;
    assert rest != "" ==> text[p.end] == text[p.end..][0];
    assert head + c + " " + rest == (head + c) + " " + rest;
    assert head + c + "" + rest == head + c + rest;
  }

  /** The query still starts with everything that was before the cursor. */
  ghost predicate Extends(p: Prompt, r: Request)
    requires WellFormed(r)
  {
    p.query.cursor <= |p.query.text| && IsPrefix(r.query[..r.cursor], p.query.text[..p.query.cursor])
  }

  /** Candidates that extend what was typed never lose a typed character. */
  lemma {:induction false} CandidatesExtendTheWord(p: Prompt, r: Request, found: seq<string>)
    requires WellFormed(r) && Current(p, r) && found != []
    requires forall c | c in found :: IsPrefix(r.query[r.start..r.cursor], c)
    ensures Extends(Applied(p, r, found), r)
  {
    CommonPrefixIsLongest(found, r.query[r.start..r.cursor]);
    hide CommonPrefix, InsideGroup, IsPrefix, Replaced, Extends, Neighbour;
    var offered, common := Offered(p, r, found), CommonPrefix(found);
    if ByteLength(common) > ByteLength(SpanText(offered)) {
      ReplacedExtends(offered, r, common);
      ClearedExtends(Replaced(offered, common), r);
    } else {
      var i := Neighbour(offered.selected, |found|, r.reverse);
      assert offered.candidates == found;
      if i < |found| {
        ReplacedExtends(offered.(selected := Some(i)), r, found[i]);
      } else {
        OfferedExtends(offered, r);
      }
    }
  }

  lemma {:induction false} OfferedExtends(p: Prompt, r: Request)
    requires WellFormed(r) && Current(p, r)
    ensures Extends(p, r)
  {
  }

  lemma {:induction false} ClearedExtends(p: Prompt, r: Request)
    requires WellFormed(r) && Extends(p, r)
    ensures Extends(Cleared(p), r)
  {
  }

  lemma {:induction false} ReplacedExtends(p: Prompt, r: Request, word: string)
    requires WellFormed(r) && p.query.text == r.query && p.start == r.start && p.end == r.cursor
    requires IsPrefix(r.query[r.start..r.cursor], word)
    ensures Extends(Replaced(p, word), r)
  {
    var typed, q := r.query[r.start..r.cursor], Replaced(p, word);
    assert word == typed + word[|typed|..];
    assert r.query[..r.cursor] == r.query[..r.start] + typed;
    assert q.query.text[..q.query.cursor] == r.query[..r.cursor] + word[|typed|..];
  }
}
