/** Asynchronous paste in overlay text fields: clipboard reads finish in any
    order while keys keep arriving, and keys reach the field in the order typed. */
module PasteQueue {
  import opened Text
  import opened TextField

  datatype Key = Key(name: string, paste: bool)

  /** A key in the queue, with the clipboard text it brings: not known yet while its read
      is outstanding, and known to be none for a key that pastes nothing or a read that
      gave nothing. */
  datatype Pending = Pending(id: nat, key: Key, text: Option<Option<string>>)

  /** The application the keys act on: what a key does, given the clipboard text
      it may use, and which text field is open. */
  datatype Editor<!W> = Editor(dispatch: (W, Key, Option<string>) -> W, field: W -> Option<Field>)

  datatype State<W> = State(world: W, next: nat, target: Option<Field>, events: seq<Pending>)

  /** A key as it was dispatched; `id` is its place in the queue, if it had one. */
  datatype Sent = Sent(id: Option<nat>, key: Key, text: Option<string>)

  /** What one step does: the new state, the keys dispatched and those dropped. */
  datatype Outcome<W> = Outcome(state: State<W>, sent: seq<Sent>, dropped: seq<Pending>)

  // ----- The queue as functions on states

  function Cleared<W>(s: State<W>): State<W> {
    s.(target := None, events := [])
  }

  function SetText(events: seq<Pending>, id: nat, text: Option<string>): seq<Pending> {
    if events == [] then []
    else if events[0].id == id then [events[0].(text := Some(text))] + events[1..]
    else [events[0]] + SetText(events[1..], id, text)
  }

  /** Dispatch from the front up to the first unfinished paste, and stop when a
      dispatched key closes the field. */
  function DrainReady<W>(ed: Editor<W>, s: State<W>): Outcome<W>
    decreases |s.events|
  {
    if s.events == [] then Outcome(s.(target := None), [], [])
    else if s.events[0].text.None? then Outcome(s, [], [])
    else
      var e, rest := s.events[0], s.events[1..];
      var world := ed.dispatch(s.world, e.key, e.text.value);
      var sent := Sent(Some(e.id), e.key, e.text.value);
      if ed.field(world).None? then Outcome(State(world, s.next, None, []), [sent], rest)
      else
        var o := DrainReady(ed, State(world, s.next, ed.field(world), rest));
        Outcome(o.state, [sent] + o.sent, o.dropped)
  }

  function Drain<W>(ed: Editor<W>, s: State<W>): Outcome<W> {
    if s.target != ed.field(s.world) then Outcome(Cleared(s), [], s.events) else DrainReady(ed, s)
  }

  /** A key that does not pass through the queue; `ready` is what an immediate
      clipboard read gives, if it is ready at all. */
  function Direct<W>(ed: Editor<W>, s: State<W>, key: Key, ready: Option<Option<string>>): Outcome<W> {
    var text := if key.paste && ready.Some? then ready.value else None;
    Outcome(s.(world := ed.dispatch(s.world, key, text)), [Sent(None, key, text)], [])
  }

  /** The state after an arriving key has invalidated the queue, if it does. */
  function Settled<W>(ed: Editor<W>, s: State<W>, key: Key): State<W> {
    if s.target != ed.field(s.world) || key.name == "escape" then Cleared(s) else s
  }

  /** Whether an arriving key goes through the queue. */
  predicate Queues<W>(ed: Editor<W>, s: State<W>, key: Key) {
    (key.paste || s.events != []) &&
    ((ed.field(s.world).Some? && key.paste) || Settled(ed, s, key).events != [])
  }

  function Enqueued<W>(ed: Editor<W>, s: State<W>, key: Key, ready: Option<Option<string>>): State<W> {
    var settled := Settled(ed, s, key);
    var paste := ed.field(s.world).Some? && key.paste;
    var e := Pending(s.next + 1, key, if paste then ready else Some(None));
    State(s.world, s.next + 1, ed.field(s.world), settled.events + [e])
  }

  function KeyDown<W>(ed: Editor<W>, s: State<W>, key: Key, ready: Option<Option<string>>): Outcome<W> {
    var settled := if key.paste || s.events != [] then Settled(ed, s, key) else s;
    var dropped := s.events[|settled.events|..];
    var o := if Queues(ed, s, key) then Drain(ed, Enqueued(ed, s, key, ready)) else Direct(ed, settled, key, ready);
    Outcome(o.state, o.sent, dropped + o.dropped)
  }

  function Complete<W>(ed: Editor<W>, s: State<W>, id: nat, text: Option<string>): Outcome<W> {
    Drain(ed, s.(events := SetText(s.events, id, text)))
  }

  // ----- The queue as the program keeps it

  /** The overlay and its clipboard queue. */
  class Overlay<W> {
    const editor: Editor<W>
    var world: W
    var next: nat
    var target: Option<Field>
    var events: seq<Pending>

    constructor (editor: Editor<W>, world: W)
      ensures this.editor == editor && Snapshot() == State(world, 0, None, [])
    {
      this.editor := editor;
      this.world := world;
      next, target, events := 0, None, [];
    }

    function Snapshot(): State<W>
      reads this
    {
      State(world, next, target, events)
    }

    predicate Matches(field: Option<Field>)
      reads this
    {
      match (target, field)
      case (Some(a), Some(b)) =>
        a.identity == b.identity && a.text == b.text && a.cursor == b.cursor && a.selectAll == b.selectAll
      case (None, None) => true
      case _ => false
    }

    method Clear()
      modifies this
      ensures Snapshot() == Cleared(old(Snapshot()))
    {
      events := [];
      target := None;
    }

    method CompleteEvent(id: nat, text: Option<string>)
      modifies this`events
      ensures events == SetText(old(events), id, text)
    {
      var i := 0;
      while i < |events| && events[i].id != id
        invariant i <= |events|
        invariant forall k | 0 <= k < i :: events[k].id != id
      {
        i := i + 1;
      }
      SetTextFirst(events, i, id, text);
      if i < |events| {
        events := events[..i] + [events[i].(text := Some(text))] + events[i + 1..];
      }
    }

    method DrainEvents()
      modifies this
      ensures Snapshot() == Drain(editor, old(Snapshot())).state
    {
      var field := editor.field(world);
      if !Matches(field) {
        Clear();
        return;
      }
      while events != [] && events[0].text.Some?
        invariant DrainReady(editor, Snapshot()).state == DrainReady(editor, old(Snapshot())).state
        decreases |events|
      {
        var pending := events[0];
        events := events[1..];
        world := editor.dispatch(world, pending.key, pending.text.value);
        target := editor.field(world);
        if target.None? {
          Clear();
          break;
        }
      }
      if events == [] {
        target := None;
      }
    }

    /** Returns whether the key was taken into the queue. */
    method Queue(key: Key, ready: Option<Option<string>>) returns (queued: bool)
      requires forall e | e in events :: e.id <= next
      modifies this
      ensures queued <==> Queues(editor, old(Snapshot()), key)
      ensures queued ==> Snapshot() == Drain(editor, Enqueued(editor, old(Snapshot()), key, ready)).state
      ensures !queued ==>
        var before := old(Snapshot());
        Snapshot() == if key.paste || before.events != [] then Settled(editor, before, key) else before
    {
      if !key.paste && events == [] {
        return false;
      }
      var field := editor.field(world);
      if !Matches(field) || key.name == "escape" {
        Clear();
      }
      var paste := field.Some? && key.paste;
      if !paste && events == [] {
        return false;
      }
      target := field;
      next := next + 1;
      ghost var before := events;
      events := events + [Pending(next, key, if paste then None else Some(None))];
      if paste && ready.Some? {
        SetTextLast(before, Pending(next, key, None), ready.value);
        CompleteEvent(next, ready.value);
      }
      assert Snapshot() == Enqueued(editor, old(Snapshot()), key, ready);
      DrainEvents();
      return true;
    }

    method OnKeyDown(key: Key, ready: Option<Option<string>>)
      requires forall e | e in events :: e.id <= next
      modifies this
      ensures Snapshot() == KeyDown(editor, old(Snapshot()), key, ready).state
    {
      var queued := Queue(key, ready);
      if !queued {
        world := editor.dispatch(world, key, if key.paste && ready.Some? then ready.value else None);
      }
    }

    method OnReadFinished(id: nat, text: Option<string>)
      modifies this
      ensures Snapshot() == Complete(editor, old(Snapshot()), id, text).state
    {
      CompleteEvent(id, text);
      DrainEvents();
    }
  }

  lemma {:induction false} SetTextLast(events: seq<Pending>, e: Pending, text: Option<string>)
    requires forall d | d in events :: d.id < e.id
    ensures SetText(events + [e], e.id, text) == events + [e.(text := Some(text))]
    decreases |events|
  {
    if events != [] {
      assert (events + [e])[1..] == events[1..] + [e];
      assert events[0] in events;
      SetTextLast(events[1..], e, text);
    }
  }

  /** The first event with the given id is the one that gets the text. */
  lemma {:induction false} SetTextFirst(events: seq<Pending>, i: nat, id: nat, text: Option<string>)
    requires i <= |events| && forall k | 0 <= k < i :: events[k].id != id
    requires i < |events| ==> events[i].id == id
    ensures SetText(events, id, text) ==
      if i < |events| then events[i := events[i].(text := Some(text))] else events
    decreases |events|
  {
    if events == [] {
    } else if i == 0 {
      assert events == [events[0]] + events[1..];
    } else {
      var rest := events[1..];
      SetTextFirst(rest, i - 1, id, text);
      assert events == [events[0]] + rest;
    }
  }

  lemma {:induction false} SetTextIds(events: seq<Pending>, id: nat, text: Option<string>)
    ensures |SetText(events, id, text)| == |events|
    ensures forall i | 0 <= i < |events| :: SetText(events, id, text)[i].id == events[i].id
    decreases |events|
  {
    if events != [] && events[0].id != id {
      SetTextIds(events[1..], id, text);
    }
  }

  // ----- The queue invariant

  /** Shape of the queue: empty exactly when it has no target, led by an unfinished
      paste, ids increasing up to `next`. */
  ghost predicate Shaped<W>(s: State<W>) {
    && (s.events == [] <==> s.target.None?)
    && (s.events != [] ==> s.events[0].text.None?)
    && Ordered(s.events, s.next)
  }

  ghost predicate Ordered(events: seq<Pending>, next: nat) {
    && (forall i | 0 <= i < |events| :: 1 <= events[i].id <= next)
    && (forall i, j | 0 <= i < j < |events| :: events[i].id < events[j].id)
  }

  /** The unfinished events are the pastes whose reads are outstanding. */
  ghost predicate Awaited(events: seq<Pending>, outstanding: set<nat>) {
    forall i | 0 <= i < |events| ::
      && (events[i].text.None? <==> events[i].id in outstanding)
      && (events[i].text.None? ==> events[i].key.paste)
      && (!events[i].key.paste ==> events[i].text == Some(None))
  }

  lemma {:induction false} SetKeepsOrder(events: seq<Pending>, next: nat, i: nat, text: Option<string>)
    requires Ordered(events, next) && i < |events|
    ensures Ordered(events[i := events[i].(text := Some(text))], next)
  {
  }

  lemma {:induction false} SetKeepsAwaited(events: seq<Pending>, next: nat, outstanding: set<nat>, i: nat,
                                           text: Option<string>)
    requires Ordered(events, next) && Awaited(events, outstanding) && i < |events| && events[i].id in outstanding
    ensures Awaited(events[i := events[i].(text := Some(text))], outstanding - {events[i].id})
  {
  }

  lemma {:induction false} SetTextKeeps(events: seq<Pending>, next: nat, outstanding: set<nat>, id: nat,
                                        text: Option<string>)
    requires Ordered(events, next) && Awaited(events, outstanding) && id in outstanding
    ensures Ordered(SetText(events, id, text), next) && Awaited(SetText(events, id, text), outstanding - {id})
  {
    hide SetText;
    if i :| 0 <= i < |events| && events[i].id == id {
      SetTextFirst(events, i, id, text);
      SetKeepsOrder(events, next, i, text);
      SetKeepsAwaited(events, next, outstanding, i, text);
      hide Ordered, Awaited;
    } else {
      SetTextFirst(events, |events|, id, text);
      hide Ordered;
    }
  }

  // ----- Runs

  /** A key arrives; an outstanding read finishes; something other than this queue
      changes the application. */
  datatype Step<!W> =
    | Arrive(key: Key, ready: Option<Option<string>>)
    | Finish(id: nat, text: Option<string>)
    | Outside(world: W)

  /** A state with its history: the reads still outstanding, the keys dispatched,
      the keys that arrived (each paste with the text its own read gives, now or
      later), and the ids of the keys dropped. */
  datatype Run<W> = Run(s: State<W>, outstanding: set<nat>, log: seq<Sent>, arrivals: seq<Sent>, dropped: set<nat>)

  function Initial<W>(world: W): Run<W> {
    Run(State(world, 0, None, []), {}, [], [], {})
  }

  function Ids(events: seq<Pending>): set<nat> {
    set i | 0 <= i < |events| :: events[i].id
  }

  /** A key as it arrives, with the text it should bring: what the clipboard gives at once
      or, into an open field, what its read gives in the end. */
  function Arrival<W>(ed: Editor<W>, answers: nat -> Option<string>, s: State<W>, key: Key,
                      ready: Option<Option<string>>): Sent {
    var queued := Queues(ed, s, key);
    Sent(if queued then Some(s.next + 1) else None, key,
         if !key.paste then None
         else if ready.Some? then ready.value
         else if ed.field(s.world).Some? then answers(s.next + 1)
         else None)
  }

  predicate Enabled<W>(answers: nat -> Option<string>, r: Run<W>, step: Step<W>) {
    step.Finish? ==> step.id in r.outstanding && step.text == answers(step.id)
  }

  function After<W>(ed: Editor<W>, answers: nat -> Option<string>, r: Run<W>, step: Step<W>): Run<W> {
    match step
    case Arrive(key, ready) =>
      var o := KeyDown(ed, r.s, key, ready);
      var reading := Queues(ed, r.s, key) && key.paste && ready.None?;
      Run(o.state, r.outstanding + (if reading then {r.s.next + 1} else {}), r.log + o.sent,
          r.arrivals + [Arrival(ed, answers, r.s, key, ready)], r.dropped + Ids(o.dropped))
    case Finish(id, text) =>
      var o := Complete(ed, r.s, id, text);
      Run(o.state, r.outstanding - {id}, r.log + o.sent, r.arrivals, r.dropped + Ids(o.dropped))
    case Outside(world) => r.(s := r.s.(world := world))
  }

  ghost predicate Steps<W>(ed: Editor<W>, answers: nat -> Option<string>, run: seq<Run<W>>, steps: seq<Step<W>>) {
    && |run| == |steps| + 1
    && forall i | 0 <= i < |steps| ::
         Enabled(answers, run[i], steps[i]) && run[i + 1] == After(ed, answers, run[i], steps[i])
  }

  /** A queued key with the text it will have when it is dispatched. */
  function Resolve(e: Pending, answers: nat -> Option<string>): Sent {
    Sent(Some(e.id), e.key, if e.text.Some? then e.text.value else answers(e.id))
  }

  function Resolved(events: seq<Pending>, answers: nat -> Option<string>): seq<Sent> {
    seq(|events|, i requires 0 <= i < |events| => Resolve(events[i], answers))
  }

  /** The keys of `sent` that are not among the dropped. */
  function Without(sent: seq<Sent>, dropped: set<nat>): seq<Sent> {
    if sent == [] then []
    else if sent[0].id.Some? && sent[0].id.value in dropped then Without(sent[1..], dropped)
    else [sent[0]] + Without(sent[1..], dropped)
  }

  lemma {:induction false} WithoutSum(a: seq<Sent>, b: seq<Sent>, dropped: set<nat>)
    ensures Without(a + b, dropped) == Without(a, dropped) + Without(b, dropped)
    decreases |a|
  {
    if a == [] {
      assert a + b == b;
    } else {
      assert (a + b)[1..] == a[1..] + b;
      WithoutSum(a[1..], b, dropped);
    }
  }

  lemma {:induction false} WithoutNone(a: seq<Sent>, dropped: set<nat>)
    requires forall i | 0 <= i < |a| :: a[i].id.Some? ==> a[i].id.value !in dropped
    ensures Without(a, dropped) == a
    decreases |a|
  {
    if a != [] {
      WithoutNone(a[1..], dropped);
    }
  }

  lemma {:induction false} WithoutAll(a: seq<Sent>, dropped: set<nat>)
    requires forall i | 0 <= i < |a| :: a[i].id.Some? && a[i].id.value in dropped
    ensures Without(a, dropped) == []
    decreases |a|
  {
    if a != [] {
      WithoutAll(a[1..], dropped);
    }
  }

  lemma {:induction false} WithoutTwice(a: seq<Sent>, d: set<nat>, e: set<nat>)
    ensures Without(Without(a, d), e) == Without(a, d + e)
    decreases |a|
  {
    if a != [] {
      WithoutTwice(a[1..], d, e);
    }
  }

  /** What an outcome does with the events it started from: the first are
      dispatched, and the rest is either kept or dropped whole. */
  ghost predicate Partition<W>(events: seq<Pending>, o: Outcome<W>, answers: nat -> Option<string>) {
    && |o.sent| <= |events|
    && o.sent == Resolved(events[..|o.sent|], answers)
    && o.dropped + o.state.events == events[|o.sent|..]
    && (o.dropped == [] || o.state.events == [])
  }

  /** The effect of dispatching keys one after the other. */
  function Replay<W>(ed: Editor<W>, world: W, sent: seq<Sent>): W
    decreases |sent|
  {
    if sent == [] then world
    else
      var last := sent[|sent| - 1];
      ed.dispatch(Replay(ed, world, sent[..|sent| - 1]), last.key, last.text)
  }

  lemma {:induction false} ReplaySum<W>(ed: Editor<W>, world: W, a: seq<Sent>, b: seq<Sent>)
    ensures Replay(ed, world, a + b) == Replay(ed, Replay(ed, world, a), b)
    decreases |b|
  {
    if b == [] {
      assert a + b == a;
    } else {
      assert (a + b)[..|a + b| - 1] == a + b[..|b| - 1];
      ReplaySum(ed, world, a, b[..|b| - 1]);
    }
  }

  lemma {:induction false} PartitionFirst<W>(events: seq<Pending>, o: Outcome<W>, answers: nat -> Option<string>)
    requires events != [] && Partition(events[1..], o, answers)
    ensures Partition(events, Outcome(o.state, [Resolve(events[0], answers)] + o.sent, o.dropped), answers)
  {
    var n := |o.sent|;
    assert events[..n + 1] == [events[0]] + events[1..][..n];
    assert events[n + 1..] == events[1..][n..];
  }

  lemma {:induction false} DrainReadyPartitions<W>(ed: Editor<W>, s: State<W>, answers: nat -> Option<string>)
    requires Ordered(s.events, s.next) && (s.events != [] ==> s.target == ed.field(s.world) && s.target.Some?)
    ensures var o := DrainReady(ed, s);
      && Partition(s.events, o, answers)
      && Shaped(o.state) && o.state.next == s.next
      && o.state.world == Replay(ed, s.world, o.sent)
      && (o.state.events != [] ==> o.state.target == ed.field(o.state.world))
    decreases |s.events|
  {
    if s.events != [] && s.events[0].text.Some? {
      var e, rest := s.events[0], s.events[1..];
      var world := ed.dispatch(s.world, e.key, e.text.value);
      var first := Sent(Some(e.id), e.key, e.text.value);
      assert Replay(ed, s.world, [first]) == world by {
        assert [first][..0] == [];
      }
      if ed.field(world).Some? {
        var next := State(world, s.next, ed.field(world), rest);
        DrainReadyPartitions(ed, next, answers);
        var o := DrainReady(ed, next);
        ReplaySum(ed, s.world, [first], o.sent);
        PartitionFirst(s.events, o, answers);
      }
    }
  }

  /** Whether no step of the queue can find its target changed behind its back. */
  ghost predicate Synced<W>(ed: Editor<W>, s: State<W>) {
    s.events != [] ==> s.target == ed.field(s.world)
  }

  lemma {:induction false} DrainPartitions<W>(ed: Editor<W>, s: State<W>, answers: nat -> Option<string>)
    requires Ordered(s.events, s.next) && (s.events != [] ==> s.target.Some?)
    ensures var o := Drain(ed, s);
      && Partition(s.events, o, answers)
      && Shaped(o.state) && o.state.next == s.next && Synced(ed, o.state)
      && o.state.world == Replay(ed, s.world, o.sent)
  {
    if s.target == ed.field(s.world) {
      DrainReadyPartitions(ed, s, answers);
    } else {
      assert Resolved([], answers) == [];
    }
  }

  /** Dropped and dispatched keys never share an id, and both precede the queue. */
  ghost predicate Apart(log: seq<Sent>, dropped: set<nat>, events: seq<Pending>, next: nat) {
    && (forall x | x in dropped :: x <= next && forall i | 0 <= i < |events| :: x < events[i].id)
    && (forall k | 0 <= k < |log| && log[k].id.Some? ::
          && log[k].id.value <= next && log[k].id.value !in dropped
          && forall i | 0 <= i < |events| :: log[k].id.value < events[i].id)
  }

  /** The log and the queue together are the arrivals that were not dropped, in order. */
  ghost predicate Accounted<W>(answers: nat -> Option<string>, log: seq<Sent>, events: seq<Pending>,
                               arrivals: seq<Sent>, dropped: set<nat>) {
    log + Resolved(events, answers) == Without(arrivals, dropped)
  }

  lemma {:induction false} CutInThree<T>(s: seq<T>, n: nat, b: seq<T>, c: seq<T>)
    requires n <= |s| && b + c == s[n..]
    ensures n + |b| + |c| == |s|
    ensures forall i | 0 <= i < |b| :: b[i] == s[n + i]
    ensures forall i | 0 <= i < |c| :: c[i] == s[n + |b| + i]
  {
    assert forall i | 0 <= i < |b| :: b[i] == (b + c)[i];
    assert forall i | 0 <= i < |c| :: c[i] == (b + c)[|b| + i];
  }

  /** Where the dispatched, the dropped and the kept events of an outcome come from. */
  lemma {:induction false} PartitionOrigins<W>(events: seq<Pending>, o: Outcome<W>, answers: nat -> Option<string>)
    requires Partition(events, o, answers)
    ensures forall i | 0 <= i < |o.sent| :: i < |events| && o.sent[i] == Resolve(events[i], answers)
    ensures |o.sent| + |o.dropped| + |o.state.events| == |events|
    ensures forall i | 0 <= i < |o.dropped| :: o.dropped[i] == events[|o.sent| + i]
    ensures forall i | 0 <= i < |o.state.events| :: o.state.events[i] == events[|o.sent| + |o.dropped| + i]
  {
    CutInThree(events, |o.sent|, o.dropped, o.state.events);
    assert forall i | 0 <= i < |o.sent| :: events[..|o.sent|][i] == events[i];
  }

  lemma {:induction false} ApartAfter<W>(log: seq<Sent>, dropped: set<nat>, events: seq<Pending>, next: nat,
                                         o: Outcome<W>, answers: nat -> Option<string>)
    requires Ordered(events, next) && Apart(log, dropped, events, next) && Partition(events, o, answers)
    ensures Apart(log + o.sent, dropped + Ids(o.dropped), o.state.events, next)
  {
    PartitionOrigins(events, o, answers);
    hide Partition, Resolved;
    var log' := log + o.sent;
    forall k | 0 <= k < |log'| && log'[k].id.Some?
      ensures log'[k].id.value <= next && log'[k].id.value !in dropped + Ids(o.dropped)
      ensures forall i | 0 <= i < |o.state.events| :: log'[k].id.value < o.state.events[i].id
    {
      if k >= |log| {
        assert log'[k].id == Some(events[k - |log|].id);
      }
    }
  }

  lemma {:induction false} AccountedAfter<W>(log: seq<Sent>, dropped: set<nat>, events: seq<Pending>, next: nat,
                                             arrivals: seq<Sent>, o: Outcome<W>, answers: nat -> Option<string>)
    requires Ordered(events, next) && Apart(log, dropped, events, next) && Partition(events, o, answers)
    requires Accounted<W>(answers, log, events, arrivals, dropped)
    ensures Accounted<W>(answers, log + o.sent, o.state.events, arrivals, dropped + Ids(o.dropped))
  {
    var n, gone := |o.sent|, Ids(o.dropped);
    assert events == events[..n] + (o.dropped + o.state.events);
    var sent, lost, kept := o.sent, Resolved(o.dropped, answers), Resolved(o.state.events, answers);
    assert Resolved(events, answers) == sent + (lost + kept);
    WithoutTwice(arrivals, dropped, gone);
    ApartAfter(log, dropped, events, next, o, answers);
    assert forall k | 0 <= k < |log| :: (log + sent)[k] == log[k];
    assert forall k | 0 <= k < |sent| :: (log + sent)[|log| + k] == sent[k];
    WithoutMiddle(log, sent, lost, kept, gone);
  }

  lemma {:induction false} WithoutMiddle(a: seq<Sent>, b: seq<Sent>, c: seq<Sent>, d: seq<Sent>, gone: set<nat>)
    requires forall i | 0 <= i < |a| :: a[i].id.Some? ==> a[i].id.value !in gone
    requires forall i | 0 <= i < |b| :: b[i].id.Some? ==> b[i].id.value !in gone
    requires forall i | 0 <= i < |c| :: c[i].id.Some? && c[i].id.value in gone
    requires forall i | 0 <= i < |d| :: d[i].id.Some? ==> d[i].id.value !in gone
    ensures Without(a + (b + (c + d)), gone) == (a + b) + d
  {
    hide Without;
    WithoutSum(a, b + (c + d), gone);
    WithoutSum(b, c + d, gone);
    WithoutSum(c, d, gone);
    WithoutNone(a, gone);
    WithoutNone(b, gone);
    WithoutAll(c, gone);
    WithoutNone(d, gone);
    assert a + (b + ([] + d)) == (a + b) + d;
  }

  // ----- Every step keeps the account

  ghost predicate Inv<W>(ed: Editor<W>, answers: nat -> Option<string>, r: Run<W>) {
    && Shaped(r.s)
    && Awaited(r.s.events, r.outstanding)
    && (forall x | x in r.outstanding :: x <= r.s.next)
    && Apart(r.log, r.dropped, r.s.events, r.s.next)
    && Accounted<W>(answers, r.log, r.s.events, r.arrivals, r.dropped)
  }

  lemma {:induction false} AwaitedSuffix<W>(events: seq<Pending>, outstanding: set<nat>, o: Outcome<W>,
                                            answers: nat -> Option<string>)
    requires Awaited(events, outstanding) && Partition(events, o, answers)
    ensures Awaited(o.state.events, outstanding)
  {
    PartitionOrigins(events, o, answers);
  }

  /** A finished read resolves its event without touching the account. */
  lemma {:induction false} SetTextResolves(events: seq<Pending>, next: nat, outstanding: set<nat>, id: nat,
                                           answers: nat -> Option<string>)
    requires Ordered(events, next) && Awaited(events, outstanding) && id in outstanding
    ensures Resolved(SetText(events, id, answers(id)), answers) == Resolved(events, answers)
  {
    if i :| 0 <= i < |events| && events[i].id == id {
      SetTextFirst(events, i, id, answers(id));
    } else {
      SetTextFirst(events, |events|, id, answers(id));
    }
  }

  /** A queue whose account is kept, drained. */
  lemma {:induction false} DrainKeepsInv<W>(ed: Editor<W>, answers: nat -> Option<string>, r: Run<W>)
    requires Ordered(r.s.events, r.s.next) && (r.s.events != [] ==> r.s.target.Some?)
    requires Awaited(r.s.events, r.outstanding) && (forall x | x in r.outstanding :: x <= r.s.next)
    requires Apart(r.log, r.dropped, r.s.events, r.s.next)
    requires Accounted<W>(answers, r.log, r.s.events, r.arrivals, r.dropped)
    ensures var o := Drain(ed, r.s);
      && Inv(ed, answers, Run(o.state, r.outstanding, r.log + o.sent, r.arrivals, r.dropped + Ids(o.dropped)))
      && Synced(ed, o.state)
  {
    hide Drain, Resolved, Without, Partition, Ids, Apart, Awaited, Accounted, Ordered, Synced, Shaped;
    DrainPartitions(ed, r.s, answers);
    var o := Drain(ed, r.s);
    ApartAfter(r.log, r.dropped, r.s.events, r.s.next, o, answers);
    AccountedAfter(r.log, r.dropped, r.s.events, r.s.next, r.arrivals, o, answers);
    AwaitedSuffix(r.s.events, r.outstanding, o, answers);
  }

  lemma {:induction false} FinishKeepsInv<W>(ed: Editor<W>, answers: nat -> Option<string>, r: Run<W>, id: nat)
    requires Inv(ed, answers, r) && id in r.outstanding
    ensures Inv(ed, answers, After(ed, answers, r, Finish(id, answers(id))))
    ensures Synced(ed, After(ed, answers, r, Finish(id, answers(id))).s)
  {
    hide Drain, SetText, Resolved, Without, Partition, Ids, Awaited, Apart, Synced;
    var events := SetText(r.s.events, id, answers(id));
    SetTextKeeps(r.s.events, r.s.next, r.outstanding, id, answers(id));
    SetTextIds(r.s.events, id, answers(id));
    SetTextResolves(r.s.events, r.s.next, r.outstanding, id, answers);
    ApartAlike(r.log, r.dropped, r.s.events, events, r.s.next);
    assert Accounted<W>(answers, r.log, events, r.arrivals, r.dropped);
    hide Accounted, Ordered;
    DrainKeepsInv(ed, answers, r.(s := r.s.(events := events), outstanding := r.outstanding - {id}));
  }

  lemma {:induction false} ApartAlike(log: seq<Sent>, dropped: set<nat>, events: seq<Pending>, events': seq<Pending>,
                                      next: nat)
    requires Apart(log, dropped, events, next) && |events| == |events'|
    requires forall i | 0 <= i < |events| :: events'[i].id == events[i].id
    ensures Apart(log, dropped, events', next)
  {
  }

  /** Dropping the whole queue keeps the account. */
  lemma {:induction false} SettleKeepsInv<W>(ed: Editor<W>, answers: nat -> Option<string>, r: Run<W>)
    requires Inv(ed, answers, r)
    ensures Inv(ed, answers, r.(s := Cleared(r.s), dropped := r.dropped + Ids(r.s.events)))
  {
    var o := Outcome(Cleared(r.s), [], r.s.events);
    var events := r.s.events;
    assert o.sent == Resolved(events[..0], answers);
    assert o.dropped + o.state.events == events[0..];
    hide Apart, Accounted, Ids, Resolved;
    ApartAfter(r.log, r.dropped, events, r.s.next, o, answers);
    AccountedAfter(r.log, r.dropped, events, r.s.next, r.arrivals, o, answers);
    assert r.log + [] == r.log;
    assert r.log + o.sent == r.log;
  }

  /** A key dispatched at once while the queue is empty keeps the account. */
  lemma {:induction false} DirectKeepsInv<W>(ed: Editor<W>, answers: nat -> Option<string>, r: Run<W>, world: W,
                                             sent: Sent)
    requires Inv(ed, answers, r) && r.s.events == [] && sent.id.None?
    ensures Inv(ed, answers,
      r.(s := r.s.(world := world), log := r.log + [sent], arrivals := r.arrivals + [sent]))
  {
    hide Without, Apart;
    ApartDirect(r.log, r.dropped, sent, r.s.next);
    hide Awaited, Shaped;
    WithoutSum(r.arrivals, [sent], r.dropped);
    WithoutNone([sent], r.dropped);
    assert Resolved([], answers) == [];
    hide Resolved;
    assert r.log + [] == r.log;
    assert (r.log + [sent]) + [] == r.log + [sent];
  }

  lemma {:induction false} ApartDirect(log: seq<Sent>, dropped: set<nat>, sent: Sent, next: nat)
    requires Apart(log, dropped, [], next) && sent.id.None?
    ensures Apart(log + [sent], dropped, [], next)
  {
    assert forall k | 0 <= k < |log| :: (log + [sent])[k] == log[k];
  }

  /** A key joining the queue keeps the account, before the queue is drained. */
  lemma {:induction false} JoinAccounts<W>(answers: nat -> Option<string>, r: Run<W>, e: Pending)
    requires Ordered(r.s.events, r.s.next) && Awaited(r.s.events, r.outstanding)
    requires forall x | x in r.outstanding :: x <= r.s.next
    requires Apart(r.log, r.dropped, r.s.events, r.s.next)
    requires Accounted<W>(answers, r.log, r.s.events, r.arrivals, r.dropped)
    requires e.id == r.s.next + 1 && (e.key.paste || e.text == Some(None))
    ensures Ordered(r.s.events + [e], e.id)
    ensures Apart(r.log, r.dropped, r.s.events + [e], e.id)
    ensures Awaited(r.s.events + [e], r.outstanding + if e.text.None? then {e.id} else {})
    ensures Accounted<W>(answers, r.log, r.s.events + [e], r.arrivals + [Resolve(e, answers)], r.dropped)
  {
    var events, sent := r.s.events, Resolve(e, answers);
    WithoutSum(r.arrivals, [sent], r.dropped);
    WithoutNone([sent], r.dropped);
    assert Resolved(events + [e], answers) == Resolved(events, answers) + [sent];
    assert r.log + (Resolved(events, answers) + [sent]) == (r.log + Resolved(events, answers)) + [sent];
  }

  /** A key joining the queue, and the queue draining, keeps the account. */
  lemma {:induction false} JoinKeepsInv<W>(ed: Editor<W>, answers: nat -> Option<string>, r: Run<W>, e: Pending)
    requires Inv(ed, answers, r) && ed.field(r.s.world).Some?
    requires e.id == r.s.next + 1 && (e.key.paste || e.text == Some(None))
    ensures var o := Drain(ed, State(r.s.world, e.id, ed.field(r.s.world), r.s.events + [e]));
      var outstanding := r.outstanding + if e.text.None? then {e.id} else {};
      && Inv(ed, answers, Run(o.state, outstanding, r.log + o.sent, r.arrivals + [Resolve(e, answers)],
                              r.dropped + Ids(o.dropped)))
      && Synced(ed, o.state)
  {
    hide Drain, Resolved, Without, Partition, Ids, Apart, Awaited, Accounted, Synced;
    var s := State(r.s.world, e.id, ed.field(r.s.world), r.s.events + [e]);
    JoinAccounts(answers, r, e);
    hide Ordered, Shaped;
    DrainKeepsInv(ed, answers, Run(s, r.outstanding + if e.text.None? then {e.id} else {}, r.log,
                                   r.arrivals + [Resolve(e, answers)], r.dropped));
  }

  /** The run after an arriving key has invalidated the queue, if it does. */
  function Settle<W>(ed: Editor<W>, r: Run<W>, key: Key): Run<W> {
    if key.paste || r.s.events != [] then
      var settled := Settled(ed, r.s, key);
      r.(s := settled, dropped := r.dropped + Ids(r.s.events[|settled.events|..]))
    else r
  }

  lemma {:induction false} SettleStepKeepsInv<W>(ed: Editor<W>, answers: nat -> Option<string>, r: Run<W>, key: Key)
    requires Inv(ed, answers, r)
    ensures Inv(ed, answers, Settle(ed, r, key))
  {
    SettleKeepsInv(ed, answers, r);
    var settled := Settled(ed, r.s, key);
    if settled == r.s {
      assert r.dropped + Ids(r.s.events[|r.s.events|..]) == r.dropped;
    } else {
      assert r.s.events[0..] == r.s.events;
    }
  }

  /** The run after settling, in terms of what the key drops. */
  lemma {:induction false} SettleDrops<W>(ed: Editor<W>, r: Run<W>, key: Key)
    ensures var settled := if key.paste || r.s.events != [] then Settled(ed, r.s, key) else r.s;
      |settled.events| <= |r.s.events| &&
      Settle(ed, r, key) == r.(s := settled, dropped := r.dropped + Ids(r.s.events[|settled.events|..]))
  {
    IdsNone();
    assert r.dropped + {} == r.dropped;
  }

  lemma {:induction false} ArriveQueued<W>(ed: Editor<W>, answers: nat -> Option<string>, r: Run<W>, key: Key,
                                           ready: Option<Option<string>>)
    requires Inv(ed, answers, r) && Queues(ed, r.s, key)
    ensures Inv(ed, answers, After(ed, answers, r, Arrive(key, ready)))
  {
    hide Inv, Drain, Ids;
    var r1 := Settle(ed, r, key);
    SettleStepKeepsInv(ed, answers, r, key);
    ShapeOf(ed, answers, r);
    SettleDrops(ed, r, key);
    var e := Pending(r.s.next + 1, key, if key.paste then ready else Some(None));
    assert Enqueued(ed, r.s, key, ready) == State(r.s.world, e.id, ed.field(r.s.world), r1.s.events + [e]);
    JoinKeepsInv(ed, answers, r1, e);
    var o := Drain(ed, Enqueued(ed, r.s, key, ready));
    var dropped := r.s.events[|r1.s.events|..];
    IdsSum(dropped, o.dropped);
    assert (r.dropped + Ids(dropped)) + Ids(o.dropped) == r.dropped + Ids(dropped + o.dropped);
    assert Arrival(ed, answers, r.s, key, ready) == Resolve(e, answers);
  }

  lemma {:induction false} ArriveDirect<W>(ed: Editor<W>, answers: nat -> Option<string>, r: Run<W>, key: Key,
                                           ready: Option<Option<string>>)
    requires Inv(ed, answers, r) && !Queues(ed, r.s, key)
    ensures Inv(ed, answers, After(ed, answers, r, Arrive(key, ready)))
  {
    hide Inv, Ids;
    var r1 := Settle(ed, r, key);
    SettleStepKeepsInv(ed, answers, r, key);
    SettleDrops(ed, r, key);
    var o := Direct(ed, r1.s, key, ready);
    DirectKeepsInv(ed, answers, r1, o.state.world, o.sent[0]);
    var dropped := r.s.events[|r1.s.events|..];
    assert dropped + [] == dropped && r.outstanding + {} == r.outstanding;
    assert Arrival(ed, answers, r.s, key, ready) == o.sent[0];
  }

  lemma {:induction false} ArriveKeepsInv<W>(ed: Editor<W>, answers: nat -> Option<string>, r: Run<W>, key: Key,
                                             ready: Option<Option<string>>)
    requires Inv(ed, answers, r)
    ensures Inv(ed, answers, After(ed, answers, r, Arrive(key, ready)))
  {
    if Queues(ed, r.s, key) {
      ArriveQueued(ed, answers, r, key, ready);
    } else {
      ArriveDirect(ed, answers, r, key, ready);
    }
  }

  lemma {:induction false} ShapeOf<W>(ed: Editor<W>, answers: nat -> Option<string>, r: Run<W>)
    requires Inv(ed, answers, r)
    ensures Shaped(r.s)
  {
  }

  lemma {:induction false} IdsNone()
    ensures Ids([]) == {}
  {
  }

  lemma {:induction false} IdsEmpty(events: seq<Pending>)
    ensures Ids(events) == {} ==> events == []
  {
    if events != [] {
      assert events[0].id in Ids(events);
    }
  }

  lemma {:induction false} IdsSum(a: seq<Pending>, b: seq<Pending>)
    ensures Ids(a + b) == Ids(a) + Ids(b)
  {
    forall x | x in Ids(a) + Ids(b)
      ensures x in Ids(a + b)
    {
      if i :| 0 <= i < |a| && a[i].id == x {
        assert (a + b)[i].id == x;
      } else {
        var i :| 0 <= i < |b| && b[i].id == x;
        assert (a + b)[|a| + i].id == x;
      }
    }
  }

  /** The keys a step dispatches account for the whole change it makes, and leave
      the queue in step with the open field. */
  lemma {:induction false} StepReplays<W>(ed: Editor<W>, answers: nat -> Option<string>, r: Run<W>, step: Step<W>)
    requires Inv(ed, answers, r) && Enabled(answers, r, step) && !step.Outside?
    ensures var r' := After(ed, answers, r, step);
      && r.log <= r'.log
      && r'.s.world == Replay(ed, r.s.world, r'.log[|r.log|..])
      && Synced(ed, r'.s)
  {
    var r' := After(ed, answers, r, step);
    match step
    case Arrive(key, ready) =>
      var o := KeyDown(ed, r.s, key, ready);
      assert r'.log[|r.log|..] == o.sent;
      if Queues(ed, r.s, key) {
        var s := Enqueued(ed, r.s, key, ready);
        SettleStepKeepsInv(ed, answers, r, key);
        JoinAccounts(answers, Settle(ed, r, key), s.events[|s.events| - 1]);
        DrainPartitions(ed, s, answers);
      } else {
        assert o.sent[..0] == [];
      }
    case Finish(id, text) =>
      assert r'.log[|r.log|..] == Complete(ed, r.s, id, text).sent;
      SetTextKeeps(r.s.events, r.s.next, r.outstanding, id, text);
      DrainPartitions(ed, r.s.(events := SetText(r.s.events, id, text)), answers);
  }

  lemma {:induction false} StepKeepsInv<W>(ed: Editor<W>, answers: nat -> Option<string>, r: Run<W>, step: Step<W>)
    requires Inv(ed, answers, r) && Enabled(answers, r, step)
    ensures Inv(ed, answers, After(ed, answers, r, step))
    ensures r.dropped <= After(ed, answers, r, step).dropped
  {
    match step
    case Arrive(key, ready) => ArriveKeepsInv(ed, answers, r, key, ready);
    case Finish(id, text) => FinishKeepsInv(ed, answers, r, id);
    case Outside(world) =>
  }

  // ----- What holds of every run

  lemma {:induction false} RunKeepsInv<W>(ed: Editor<W>, answers: nat -> Option<string>, world: W,
                                          run: seq<Run<W>>, steps: seq<Step<W>>, i: nat)
    requires Steps(ed, answers, run, steps) && run[0] == Initial(world) && i < |run|
    ensures Inv(ed, answers, run[i])
    decreases i
  {
    if i == 0 {
      assert Resolved([], answers) == [];
    } else {
      hide Inv, After, Enabled;
      RunKeepsInv(ed, answers, world, run, steps, i - 1);
      StepKeepsInv(ed, answers, run[i - 1], steps[i - 1]);
    }
  }

  /** After every step of every run: the queue is empty exactly when it has no
      target; it is led by a paste whose read is outstanding, so it is empty once all
      reads have finished; ids strictly increase. */
  lemma {:induction false} QueueShape<W>(ed: Editor<W>, answers: nat -> Option<string>, world: W,
                                         run: seq<Run<W>>, steps: seq<Step<W>>, i: nat)
    requires Steps(ed, answers, run, steps) && run[0] == Initial(world) && i < |run|
    ensures var s := run[i].s;
      && (s.events == [] <==> s.target.None?)
      && (s.events != [] ==> s.events[0].text.None? && s.events[0].key.paste && s.events[0].id in run[i].outstanding)
      && (forall j, k | 0 <= j < k < |s.events| :: s.events[j].id < s.events[k].id)
    ensures run[i].outstanding == {} ==> run[i].s.events == []
  {
    RunKeepsInv(ed, answers, world, run, steps, i);
  }

  /** Whether others wait, and an arriving key does not send them away. */
  predicate Waiting<W>(ed: Editor<W>, s: State<W>, key: Key) {
    s.events != [] && s.target == ed.field(s.world) && key.name != "escape"
  }

  /** Draining a queue that one key has just joined. */
  lemma {:induction false} JoinDrains<W>(ed: Editor<W>, s: State<W>, before: State<W>)
    requires s.events != [] && s.events[..|s.events| - 1] == before.events && s.target == ed.field(s.world)
    requires before.events != [] ==> before.events[0].text.None?
    ensures var e := s.events[|s.events| - 1];
      if before.events != [] || e.text.None? then Drain(ed, s) == Outcome(s, [], [])
      else
        var o := Drain(ed, s);
        && o.sent == [Sent(Some(e.id), e.key, e.text.value)] && o.dropped == []
        && o.state.world == ed.dispatch(s.world, e.key, e.text.value)
        && o.state.events == [] && o.state.target.None?
  {
    if before.events != [] {
      assert s.events[0] == before.events[0];
    } else {
      var e := s.events[0];
      assert |s.events| == 1 && s.events[1..] == [];
      if e.text.Some? {
        var world := ed.dispatch(s.world, e.key, e.text.value);
        var left := State(world, s.next, ed.field(world), s.events[1..]);
        assert DrainReady(ed, left) == Outcome(left.(target := None), [], []);
      }
    }
  }

  /** What becomes of a key that arrives.  Behind others it waits.  A paste into an open
      field waits for its read or, if that is ready, is dispatched with its text.  Any
      other key is dispatched at once. */
  lemma {:induction false} KeyArrives<W>(ed: Editor<W>, answers: nat -> Option<string>, r: Run<W>, key: Key,
                                         ready: Option<Option<string>>)
    requires Inv(ed, answers, r)
    ensures var after, world, id := After(ed, answers, r, Arrive(key, ready)), r.s.world, r.s.next + 1;
      var direct := if key.paste && ready.Some? then ready.value else None;
      && id !in r.outstanding && (forall e | e in r.s.events :: e.id != id)
      && after.outstanding ==
           r.outstanding + (if key.paste && ready.None? && ed.field(world).Some? then {id} else {})
      && (if Waiting(ed, r.s, key) then
            && after.log == r.log
            && after.s == State(world, id, ed.field(world),
                                r.s.events + [Pending(id, key, if key.paste then ready else Some(None))])
          else if key.paste && ed.field(world).Some? && ready.None? then
            after.log == r.log && after.s == State(world, id, ed.field(world), [Pending(id, key, None)])
          else
            && after.s.events == [] && after.s.target.None? && after.s.world == ed.dispatch(world, key, direct)
            && after.log ==
                 r.log + [Sent(if key.paste && ed.field(world).Some? then Some(id) else None, key, direct)])
  {
    ShapeOf(ed, answers, r);
    assert forall x | x in r.outstanding :: x <= r.s.next;
    hide Inv;
    assert r.log + [] == r.log;
    QueuesMeans(ed, r.s, key);
    if Queues(ed, r.s, key) {
      Joins(ed, r.s, key, ready);
      hide Queues, KeyDown, Drain, Settled, Shaped;
    } else {
      Bypasses(ed, r.s, key, ready);
      hide Queues, KeyDown, Drain, Settled, Shaped;
    }
  }

  lemma {:induction false} QueuesMeans<W>(ed: Editor<W>, s: State<W>, key: Key)
    requires Shaped(s)
    ensures Queues(ed, s, key) <==> Waiting(ed, s, key) || (key.paste && ed.field(s.world).Some?)
    ensures Waiting(ed, s, key) ==> ed.field(s.world).Some?
  {
  }

  lemma {:induction false} Joins<W>(ed: Editor<W>, s: State<W>, key: Key, ready: Option<Option<string>>)
    requires Shaped(s) && Queues(ed, s, key)
    ensures var o, e := KeyDown(ed, s, key, ready), Pending(s.next + 1, key, if key.paste then ready else Some(None));
      if Waiting(ed, s, key) then
        o.sent == [] && o.state == State(s.world, e.id, ed.field(s.world), s.events + [e])
      else if e.text.None? then o.sent == [] && o.state == State(s.world, e.id, ed.field(s.world), [e])
      else
        && o.sent == [Sent(Some(e.id), key, e.text.value)] && o.state.events == [] && o.state.target.None?
        && o.state.world == ed.dispatch(s.world, key, e.text.value)
  {
    var e := Pending(s.next + 1, key, if key.paste then ready else Some(None));
    var before, after := Settled(ed, s, key), Enqueued(ed, s, key, ready);
    QueuesMeans(ed, s, key);
    assert before.events == if Waiting(ed, s, key) then s.events else [];
    assert after == State(s.world, e.id, ed.field(s.world), before.events + [e]);
    assert after.events[..|after.events| - 1] == before.events;
    hide Drain;
    JoinDrains(ed, after, before);
  }

  lemma {:induction false} Bypasses<W>(ed: Editor<W>, s: State<W>, key: Key, ready: Option<Option<string>>)
    requires Shaped(s) && !Queues(ed, s, key)
    ensures var o, text := KeyDown(ed, s, key, ready), if key.paste && ready.Some? then ready.value else None;
      && o.sent == [Sent(None, key, text)] && o.state.events == [] && o.state.target.None?
      && o.state.world == ed.dispatch(s.world, key, text)
  {
  }

  /** In every run a paste into an open field, whose read is not ready, waits at the end of
      the queue for it and dispatches nothing. */
  lemma {:induction false} PasteWaits<W>(ed: Editor<W>, answers: nat -> Option<string>, world: W,
                                         run: seq<Run<W>>, steps: seq<Step<W>>, i: nat)
    requires Steps(ed, answers, run, steps) && run[0] == Initial(world) && i < |steps|
    requires steps[i].Arrive? && steps[i].key.paste && steps[i].ready.None? && ed.field(run[i].s.world).Some?
    ensures var before, s, id := run[i], run[i + 1].s, run[i].s.next + 1;
      && s.events != [] && s.events[|s.events| - 1] == Pending(id, steps[i].key, None)
      && id in run[i + 1].outstanding && id !in before.outstanding
      && s.target == ed.field(s.world) && s.world == before.s.world && run[i + 1].log == before.log
  {
    RunKeepsInv(ed, answers, world, run, steps, i);
    hide Inv, After;
    KeyArrives(ed, answers, run[i], steps[i].key, steps[i].ready);
  }

  /** In every run a key goes past the queue only if nothing waits there, or it sends away
      what does, and it is no paste into an open field. */
  lemma {:induction false} BypassesExactly<W>(ed: Editor<W>, answers: nat -> Option<string>, world: W,
                                              run: seq<Run<W>>, steps: seq<Step<W>>, i: nat)
    requires Steps(ed, answers, run, steps) && run[0] == Initial(world) && i < |steps| && steps[i].Arrive?
    ensures var log := run[i + 1].log;
      (log != run[i].log && log[|log| - 1].id.None?) <==>
        !Waiting(ed, run[i].s, steps[i].key) && !(steps[i].key.paste && ed.field(run[i].s.world).Some?)
  {
    RunKeepsInv(ed, answers, world, run, steps, i);
    hide Inv, After;
    KeyArrives(ed, answers, run[i], steps[i].key, steps[i].ready);
  }

  /** At any point of any run, the keys dispatched so far are the arrivals that were
      not dropped, in order of arrival, up to the first unfinished paste, each once
      and each paste with the text of its own read. */
  lemma {:induction false} DispatchInOrder<W>(ed: Editor<W>, answers: nat -> Option<string>, world: W,
                                              run: seq<Run<W>>, steps: seq<Step<W>>, i: nat)
    requires Steps(ed, answers, run, steps) && run[0] == Initial(world) && i < |run|
    ensures run[i].log + Resolved(run[i].s.events, answers) == Without(run[i].arrivals, run[i].dropped)
  {
    RunKeepsInv(ed, answers, world, run, steps, i);
  }

  /** A key dropped at some point is never dispatched, before or after. */
  lemma {:induction false} DroppedIsNeverDispatched<W>(ed: Editor<W>, answers: nat -> Option<string>, world: W,
                                                       run: seq<Run<W>>, steps: seq<Step<W>>, i: nat, j: nat, id: nat)
    requires Steps(ed, answers, run, steps) && run[0] == Initial(world) && i <= j < |run|
    requires id in run[i].dropped
    ensures id in run[j].dropped
    ensures forall k | 0 <= k < |run[j].log| :: run[j].log[k].id != Some(id)
    ensures forall k | 0 <= k < |run[j].s.events| :: run[j].s.events[k].id != id
    decreases j
  {
    hide After, Shaped, Awaited, Accounted, Enabled;
    if i < j {
      DroppedIsNeverDispatched(ed, answers, world, run, steps, i, j - 1, id);
      RunKeepsInv(ed, answers, world, run, steps, j - 1);
      StepKeepsInv(ed, answers, run[j - 1], steps[j - 1]);
    }
    RunKeepsInv(ed, answers, world, run, steps, j);
  }

  /** What the next step of the queue finds when it is no longer in step with the open
      field, or when Escape arrives. */
  ghost predicate Invalidates<W>(ed: Editor<W>, r: Run<W>, step: Step<W>) {
    && r.s.events != [] && !step.Outside?
    && (r.s.target != ed.field(r.s.world) || (step.Arrive? && step.key.name == "escape"))
  }

  lemma {:induction false} IdsWithin(events: seq<Pending>, dropped: seq<Pending>)
    requires |events| <= |dropped| && forall i | 0 <= i < |events| :: dropped[i].id == events[i].id
    ensures Ids(events) <= Ids(dropped)
  {
    forall x | x in Ids(events)
      ensures x in Ids(dropped)
    {
      var i :| 0 <= i < |events| && events[i].id == x;
      assert dropped[i].id == x;
    }
  }

  /** Escape, and any change of the open field behind the queue's back, drop the
      whole queue at the next step, whatever the step then does. */
  lemma {:induction false} InvalidationDropsAll<W>(ed: Editor<W>, answers: nat -> Option<string>, r: Run<W>,
                                                   step: Step<W>)
    requires Invalidates(ed, r, step)
    ensures Ids(r.s.events) <= After(ed, answers, r, step).dropped
  {
    match step
    case Arrive(key, ready) =>
      assert r.s.events[0..] == r.s.events;
      IdsWithin(r.s.events, KeyDown(ed, r.s, key, ready).dropped);
    case Finish(id, text) =>
      SetTextIds(r.s.events, id, text);
      IdsWithin(r.s.events, Complete(ed, r.s, id, text).dropped);
  }

  /** A late read never edits another field: finishing while the open field is not the
      queue's target, it dispatches nothing, changes nothing else and drops the queue. */
  lemma {:induction false} LateReadEditsNoOtherField<W>(ed: Editor<W>, answers: nat -> Option<string>, r: Run<W>,
                                                        id: nat,
                                                        text: Option<string>)
    requires r.s.events != [] && r.s.target != ed.field(r.s.world)
    ensures var after := After(ed, answers, r, Finish(id, text));
      && after.log == r.log && after.s.world == r.s.world
      && after.s.events == [] && after.s.target.None? && Ids(r.s.events) <= after.dropped
  {
    InvalidationDropsAll(ed, answers, r, Finish(id, text));
    assert r.log + [] == r.log;
  }

  /** Over runs: nothing that was queued when the queue was invalidated is dispatched,
      at that step or ever after. */
  lemma {:induction false} InvalidatedIsNeverDispatched<W>(ed: Editor<W>, answers: nat -> Option<string>, world: W,
                                                           run: seq<Run<W>>, steps: seq<Step<W>>, i: nat, j: nat,
                                                           e: Pending)
    requires Steps(ed, answers, run, steps) && run[0] == Initial(world) && i < j < |run|
    requires Invalidates(ed, run[i], steps[i]) && e in run[i].s.events
    ensures forall k | 0 <= k < |run[j].log| :: run[j].log[k].id != Some(e.id)
    ensures forall k | 0 <= k < |run[j].s.events| :: run[j].s.events[k].id != e.id
  {
    InvalidationDropsAll(ed, answers, run[i], steps[i]);
    assert e.id in Ids(run[i].s.events);
    hide Invalidates, After;
    DroppedIsNeverDispatched(ed, answers, world, run, steps, i + 1, j, e.id);
  }

  /** A read that finishes after its paste was dropped dispatches nothing, and
      changes nothing while the queue is in step with the open field. */
  lemma {:induction false} LateReadChangesNothing<W>(ed: Editor<W>, s: State<W>, id: nat, text: Option<string>)
    requires Shaped(s) && forall e | e in s.events :: e.id != id
    ensures var o := Complete(ed, s, id, text);
      && o.sent == [] && o.state.world == s.world
      && (s.events == [] || s.target == ed.field(s.world) ==> o.state == s && o.dropped == [])
  {
    SetTextFirst(s.events, |s.events|, id, text);
  }

  predicate Inside<W>(steps: seq<Step<W>>) {
    forall i | 0 <= i < |steps| :: !steps[i].Outside?
  }

  /** Unless something else changes the application, its state is at every point the
      effect of the dispatched keys. */
  lemma {:induction false} RunReplaysLog<W>(ed: Editor<W>, answers: nat -> Option<string>, world: W,
                                            run: seq<Run<W>>, steps: seq<Step<W>>, i: nat)
    requires Steps(ed, answers, run, steps) && run[0] == Initial(world) && i < |run| && Inside(steps)
    ensures run[i].s.world == Replay(ed, world, run[i].log)
    ensures Synced(ed, run[i].s)
    decreases i
  {
    if i > 0 {
      hide After, Inv, Synced, Enabled;
      RunReplaysLog(ed, answers, world, run, steps, i - 1);
      RunKeepsInv(ed, answers, world, run, steps, i - 1);
      StepReplays(ed, answers, run[i - 1], steps[i - 1]);
      var before, after := run[i - 1].log, run[i].log;
      assert after == before + after[|before|..];
      ReplaySum(ed, world, before, after[|before|..]);
    }
  }

  /** Main result.  Once all reads have finished, in whatever order, a run in which
      no key was dropped has done exactly what dispatching every key on arrival,
      each paste with its text at hand, would have done. */
  lemma {:induction false} RefinesSynchronousEditor<W>(ed: Editor<W>, answers: nat -> Option<string>, world: W,
                                                       run: seq<Run<W>>, steps: seq<Step<W>>, i: nat)
    requires Steps(ed, answers, run, steps) && run[0] == Initial(world) && i < |run| && Inside(steps)
    requires run[i].outstanding == {} && run[i].dropped == {}
    ensures run[i].s.world == Replay(ed, world, run[i].arrivals)
  {
    QueueShape(ed, answers, world, run, steps, i);
    DispatchInOrder(ed, answers, world, run, steps, i);
    RunReplaysLog(ed, answers, world, run, steps, i);
    assert Resolved([], answers) == [];
    WithoutNone(run[i].arrivals, {});
    assert run[i].log + [] == run[i].log;
  }

  // ----- Runs without drops

  /** Key `j` closes the field when the keys are dispatched one after the other. */
  predicate Closes<W>(ed: Editor<W>, world: W, sent: seq<Sent>, j: nat)
    requires j < |sent|
  {
    ed.field(Replay(ed, world, sent[..j])).Some? && ed.field(Replay(ed, world, sent[..j + 1])).None?
  }

  /** No key closes the field in front of another. */
  ghost predicate KeepsOpen<W>(ed: Editor<W>, world: W, sent: seq<Sent>) {
    forall j | 0 <= j < |sent| - 1 :: !Closes(ed, world, sent, j)
  }

  /** Closing after `a` has been dispatched. */
  lemma {:induction false} ClosesAfter<W>(ed: Editor<W>, world: W, a: seq<Sent>, b: seq<Sent>, j: nat)
    requires j < |b|
    ensures Closes(ed, world, a + b, |a| + j) <==> Closes(ed, Replay(ed, world, a), b, j)
  {
    hide Replay;
    assert (a + b)[..|a| + j] == a + b[..j] && (a + b)[..|a| + j + 1] == a + b[..j + 1];
    ReplaySum(ed, world, a, b[..j]);
    ReplaySum(ed, world, a, b[..j + 1]);
  }

  lemma {:induction false} ReplayOne<W>(ed: Editor<W>, world: W, sent: Sent)
    ensures Replay(ed, world, [sent]) == ed.dispatch(world, sent.key, sent.text)
  {
    assert [sent][..0] == [];
  }

  /** Draining drops nothing if only the last of the queued keys closes the field. */
  lemma {:induction false} DrainReadyDropsNothing<W>(ed: Editor<W>, s: State<W>, answers: nat -> Option<string>)
    requires s.events != [] ==> ed.field(s.world).Some?
    requires KeepsOpen(ed, s.world, Resolved(s.events, answers))
    ensures DrainReady(ed, s).dropped == []
    decreases |s.events|
  {
    if s.events != [] && s.events[0].text.Some? {
      var e, rest := s.events[0], s.events[1..];
      var first := Resolve(e, answers);
      var world := ed.dispatch(s.world, e.key, e.text.value);
      var all, others := Resolved(s.events, answers), Resolved(rest, answers);
      ReplayOne(ed, s.world, first);
      assert all == [first] + others;
      if rest != [] {
        assert !Closes(ed, s.world, all, 0) && all[..0] == [] && all[..1] == [first];
        forall j | 0 <= j < |others| - 1
          ensures !Closes(ed, world, others, j)
        {
          ClosesAfter(ed, s.world, [first], others, j);
        }
        hide Closes;
        DrainReadyDropsNothing(ed, State(world, s.next, ed.field(world), rest), answers);
      }
    }
  }

  /** Without drops the arrivals are the log followed by the queue. */
  lemma {:induction false} ArrivalsAre<W>(ed: Editor<W>, answers: nat -> Option<string>, r: Run<W>)
    requires Inv(ed, answers, r) && r.dropped == {}
    ensures r.arrivals == r.log + Resolved(r.s.events, answers)
  {
    WithoutNone(r.arrivals, {});
  }

  /** A key that joins a queue in step with the open field drops nothing: it is alone,
      or it waits. */
  lemma {:induction false} JoinDropsNothing<W>(ed: Editor<W>, r: Run<W>, key: Key, ready: Option<Option<string>>)
    requires Shaped(r.s) && Synced(ed, r.s)
    requires Queues(ed, r.s, key) && (key.name == "escape" ==> r.s.events == [])
    ensures KeyDown(ed, r.s, key, ready).dropped == []
  {
    var s := Enqueued(ed, r.s, key, ready);
    assert Settled(ed, r.s, key).events == r.s.events;
    assert r.s.events[|r.s.events|..] == [] && s.events[..|s.events| - 1] == r.s.events;
    hide Drain;
    JoinDrains(ed, s, r.s);
    assert KeyDown(ed, r.s, key, ready).dropped == [] + [];
  }

  /** When the read of a queue in step with the open field finishes, what is queued is
      dispatched without drops if no key closes the field in front of another. */
  lemma {:induction false} FinishDropsNothing<W>(ed: Editor<W>, answers: nat -> Option<string>, r: Run<W>, id: nat)
    requires Inv(ed, answers, r) && Synced(ed, r.s) && id in r.outstanding
    requires KeepsOpen(ed, r.s.world, Resolved(r.s.events, answers))
    ensures Complete(ed, r.s, id, answers(id)).dropped == []
  {
    ShapeOf(ed, answers, r);
    SetTextResolves(r.s.events, r.s.next, r.outstanding, id, answers);
    SetTextIds(r.s.events, id, answers(id));
    hide Resolved, Inv, DrainReady, KeepsOpen, Replay, SetText;
    DrainReadyDropsNothing(ed, r.s.(events := SetText(r.s.events, id, answers(id))), answers);
  }

  /** A key that arrives while others wait is not dispatched at once, unless it is
      Escape. */
  lemma {:induction false} ArriveWaits<W>(ed: Editor<W>, r: Run<W>, key: Key, ready: Option<Option<string>>)
    requires Shaped(r.s) && Synced(ed, r.s) && r.s.events != [] && key.name != "escape"
    ensures KeyDown(ed, r.s, key, ready).sent == []
  {
    QueuesMeans(ed, r.s, key);
    Joins(ed, r.s, key, ready);
  }

  /** No key that waits in the queue with another behind it closes the field. */
  ghost predicate NoneClosesAhead<W>(ed: Editor<W>, world: W, r: Run<W>) {
    forall j | |r.log| <= j < |r.arrivals| - 1 :: !Closes(ed, world, r.arrivals, j)
  }

  /** A run up to `i` in which Escape arrives only while nothing is queued, and no key
      that waits closes the field in front of another. */
  ghost predicate Undisturbed<W>(ed: Editor<W>, world: W, run: seq<Run<W>>, steps: seq<Step<W>>, i: nat)
    requires |run| == |steps| + 1 && i < |run|
  {
    && (forall k | 0 <= k < i && steps[k].Arrive? && steps[k].key.name == "escape" :: run[k].s.events == [])
    && (forall k | 0 <= k < i :: NoneClosesAhead(ed, world, run[k]))
  }

  lemma {:induction false} QueueKeepsOpen<W>(ed: Editor<W>, answers: nat -> Option<string>, world: W, r: Run<W>)
    requires Inv(ed, answers, r) && r.dropped == {} && r.s.world == Replay(ed, world, r.log)
    requires NoneClosesAhead(ed, world, r)
    ensures KeepsOpen(ed, r.s.world, Resolved(r.s.events, answers))
  {
    ArrivalsAre(ed, answers, r);
    var all, queued := r.arrivals, Resolved(r.s.events, answers);
    hide Inv, Replay, Resolved;
    forall j | 0 <= j < |queued| - 1
      ensures !Closes(ed, r.s.world, queued, j)
    {
      ClosesAfter(ed, world, r.log, queued, j);
      assert !Closes(ed, world, all, |r.log| + j);
    }
  }

  lemma {:induction false} StepDropsNothing<W>(ed: Editor<W>, answers: nat -> Option<string>, world: W, r: Run<W>,
                                               step: Step<W>)
    requires Inv(ed, answers, r) && Synced(ed, r.s) && r.dropped == {} && r.s.world == Replay(ed, world, r.log)
    requires Enabled(answers, r, step) && !step.Outside?
    requires step.Arrive? && step.key.name == "escape" ==> r.s.events == []
    requires NoneClosesAhead(ed, world, r)
    ensures After(ed, answers, r, step).dropped == {}
  {
    IdsNone();
    ShapeOf(ed, answers, r);
    match step
    case Arrive(key, ready) =>
      hide Inv, Replay;
      if Queues(ed, r.s, key) {
        JoinDropsNothing(ed, r, key, ready);
      } else {
        assert r.s.events[|r.s.events|..] == [];
      }
    case Finish(id, text) =>
      QueueKeepsOpen(ed, answers, world, r);
      FinishDropsNothing(ed, answers, r, id);
  }

  /** Keys are dropped only by Escape, by a key that closes the field in front of others
      that wait, or by changes from outside: without these none ever is. */
  lemma {:induction false} NothingElseDrops<W>(ed: Editor<W>, answers: nat -> Option<string>, world: W,
                                               run: seq<Run<W>>, steps: seq<Step<W>>, i: nat)
    requires Steps(ed, answers, run, steps) && run[0] == Initial(world) && i < |run| && Inside(steps)
    requires Undisturbed(ed, world, run, steps, i)
    ensures run[i].dropped == {}
    decreases i
  {
    if i > 0 {
      hide NoneClosesAhead, After, Inv, Enabled, Synced;
      NothingElseDrops(ed, answers, world, run, steps, i - 1);
      RunReplaysLog(ed, answers, world, run, steps, i - 1);
      RunKeepsInv(ed, answers, world, run, steps, i - 1);
      StepDropsNothing(ed, answers, world, run[i - 1], steps[i - 1]);
    }
  }

  // ----- And only these

  /** Draining without drops, every key dispatched in front of another leaves the field
      open. */
  lemma {:induction false} DrainReadyStaysOpen<W>(ed: Editor<W>, s: State<W>, m: nat)
    requires DrainReady(ed, s).dropped == []
    ensures var sent := DrainReady(ed, s).sent;
      m < |sent| && m < |s.events| - 1 ==> ed.field(Replay(ed, s.world, sent[..m + 1])).Some?
    decreases |s.events|
  {
    var sent := DrainReady(ed, s).sent;
    if s.events != [] && s.events[0].text.Some? && m < |sent| && m < |s.events| - 1 {
      var e, rest := s.events[0], s.events[1..];
      var first := Sent(Some(e.id), e.key, e.text.value);
      var world := ed.dispatch(s.world, e.key, e.text.value);
      ReplayOne(ed, s.world, first);
      if m == 0 {
        assert sent[..1] == [first];
      } else {
        var next := State(world, s.next, ed.field(world), rest);
        DrainReadyStaysOpen(ed, next, m - 1);
        assert sent[..m + 1] == [first] + DrainReady(ed, next).sent[..m];
        ReplaySum(ed, s.world, [first], DrainReady(ed, next).sent[..m]);
      }
    }
  }

  lemma {:induction false} SentIsPrefix<W>(events: seq<Pending>, o: Outcome<W>, answers: nat -> Option<string>,
                                           log: seq<Sent>, m: nat)
    requires Partition(events, o, answers) && m < |o.sent|
    ensures (log + Resolved(events, answers))[..|log| + m + 1] == log + o.sent[..m + 1]
  {
    assert Resolved(events, answers)[..|o.sent|] == o.sent;
  }

  /** What a finished read dispatches is what arrived next. */
  lemma {:induction false} FinishSends<W>(ed: Editor<W>, answers: nat -> Option<string>, r: Run<W>, id: nat, m: nat)
    requires Inv(ed, answers, r) && r.dropped == {} && id in r.outstanding
    requires m < |Complete(ed, r.s, id, answers(id)).sent|
    ensures |r.log| + m < |r.arrivals|
    ensures r.arrivals[..|r.log| + m + 1] == r.log + Complete(ed, r.s, id, answers(id)).sent[..m + 1]
  {
    var s := r.s.(events := SetText(r.s.events, id, answers(id)));
    ArrivalsAre(ed, answers, r);
    SetTextIds(r.s.events, id, answers(id));
    SetTextKeeps(r.s.events, r.s.next, r.outstanding, id, answers(id));
    SetTextResolves(r.s.events, r.s.next, r.outstanding, id, answers);
    DrainPartitions(ed, s, answers);
    hide Inv, Resolved, SetText, Drain;
    SentIsPrefix(s.events, Drain(ed, s), answers, r.log, m);
  }

  lemma {:induction false} FinishStaysOpen<W>(ed: Editor<W>, answers: nat -> Option<string>, world: W, r: Run<W>,
                                              id: nat, j: nat)
    requires Inv(ed, answers, r) && Synced(ed, r.s) && r.dropped == {} && r.s.world == Replay(ed, world, r.log)
    requires id in r.outstanding && Complete(ed, r.s, id, answers(id)).dropped == []
    requires |r.log| <= j < |r.arrivals| - 1 && j < |r.log| + |Complete(ed, r.s, id, answers(id)).sent|
    ensures !Closes(ed, world, r.arrivals, j)
  {
    hide Inv, SetText, Replay, DrainReady;
    ArrivalsAre(ed, answers, r);
    var s := r.s.(events := SetText(r.s.events, id, answers(id)));
    var o, m := Complete(ed, r.s, id, answers(id)), j - |r.log|;
    SetTextIds(r.s.events, id, answers(id));
    FinishSends(ed, answers, r, id, m);
    assert o == DrainReady(ed, s);
    DrainReadyStaysOpen(ed, s, m);
    ReplaySum(ed, world, r.log, o.sent[..m + 1]);
  }

  /** A step that drops nothing and dispatches key `j`, while key `j + 1` waits behind
      it, finds the field open afterwards. */
  lemma {:induction false} DispatchStaysOpen<W>(ed: Editor<W>, answers: nat -> Option<string>, world: W, r: Run<W>,
                                                step: Step<W>, j: nat)
    requires Inv(ed, answers, r) && Synced(ed, r.s) && r.dropped == {} && r.s.world == Replay(ed, world, r.log)
    requires Enabled(answers, r, step) && !step.Outside? && After(ed, answers, r, step).dropped == {}
    requires |r.log| <= j < |r.arrivals| - 1 && j < |After(ed, answers, r, step).log|
    ensures !Closes(ed, world, r.arrivals, j)
  {
    ArrivalsAre(ed, answers, r);
    ShapeOf(ed, answers, r);
    assert r.s.events != [];
    IdsEmpty(r.s.events);
    hide Inv, KeyDown, Complete;
    assert step.Finish? by {
      if step.Arrive? && step.key.name == "escape" {
        InvalidationDropsAll(ed, answers, r, step);
      } else if step.Arrive? {
        ArriveWaits(ed, r, step.key, step.ready);
      }
    }
    IdsEmpty(Complete(ed, r.s, step.id, step.text).dropped);
    FinishStaysOpen(ed, answers, world, r, step.id, j);
  }

  /** The step that dispatches key `j`. */
  lemma {:induction false} DispatchStep<W>(run: seq<Run<W>>, k: nat, i: nat, j: nat) returns (t: nat)
    requires k <= i < |run| && |run[k].log| <= j < |run[i].log|
    ensures k <= t < i && |run[t].log| <= j < |run[t + 1].log|
    decreases i - k
  {
    if |run[k + 1].log| <= j {
      t := DispatchStep(run, k + 1, i, j);
    } else {
      t := k;
    }
  }

  lemma {:induction false} HistoryGrows<W>(ed: Editor<W>, answers: nat -> Option<string>, world: W,
                                           run: seq<Run<W>>, steps: seq<Step<W>>, k: nat, i: nat)
    requires Steps(ed, answers, run, steps) && run[0] == Initial(world) && k <= i < |run|
    ensures run[k].arrivals <= run[i].arrivals && run[k].dropped <= run[i].dropped
    decreases i
  {
    if k < i {
      HistoryGrows(ed, answers, world, run, steps, k, i - 1);
      RunKeepsInv(ed, answers, world, run, steps, i - 1);
      ArrivalsGrow(ed, answers, run[i - 1], steps[i - 1]);
      hide After, Inv, Enabled;
      StepKeepsInv(ed, answers, run[i - 1], steps[i - 1]);
    }
  }

  lemma {:induction false} ArrivalsGrow<W>(ed: Editor<W>, answers: nat -> Option<string>, r: Run<W>, step: Step<W>)
    ensures r.arrivals <= After(ed, answers, r, step).arrivals
  {
    hide KeyDown, Complete;
  }

  /** In a run that has finished without drops no key that waited closed the field in
      front of another. */
  lemma {:induction false} NoneClosed<W>(ed: Editor<W>, answers: nat -> Option<string>, world: W,
                                         run: seq<Run<W>>, steps: seq<Step<W>>, k: nat, i: nat, j: nat)
    requires Steps(ed, answers, run, steps) && run[0] == Initial(world) && k <= i < |run| && Inside(steps)
    requires run[i].outstanding == {} && run[i].dropped == {} && |run[k].log| <= j < |run[k].arrivals| - 1
    ensures !Closes(ed, world, run[k].arrivals, j)
  {
    HistoryGrows(ed, answers, world, run, steps, k, i);
    QueueShape(ed, answers, world, run, steps, i);
    RunKeepsInv(ed, answers, world, run, steps, i);
    ArrivalsAre(ed, answers, run[i]);
    var t := DispatchStep(run, k, i, j);
    HistoryGrows(ed, answers, world, run, steps, k, t);
    HistoryGrows(ed, answers, world, run, steps, t, i);
    HistoryGrows(ed, answers, world, run, steps, t + 1, i);
    RunKeepsInv(ed, answers, world, run, steps, t);
    RunReplaysLog(ed, answers, world, run, steps, t);
    hide Inv, After, Synced, Resolved, Replay;
    DispatchStaysOpen(ed, answers, world, run[t], steps[t], j);
    assert run[t].arrivals[..j] == run[k].arrivals[..j] && run[t].arrivals[..j + 1] == run[k].arrivals[..j + 1];
  }

  /** Escape on a queue drops it. */
  lemma {:induction false} EscapeDropped<W>(ed: Editor<W>, answers: nat -> Option<string>, world: W,
                                            run: seq<Run<W>>, steps: seq<Step<W>>, k: nat, i: nat)
    requires Steps(ed, answers, run, steps) && run[0] == Initial(world) && k < i < |run|
    requires steps[k].Arrive? && steps[k].key.name == "escape" && run[k].s.events != []
    ensures run[i].dropped != {}
  {
    HistoryGrows(ed, answers, world, run, steps, k + 1, i);
    InvalidationDropsAll(ed, answers, run[k], steps[k]);
    assert run[k].s.events[0].id in Ids(run[k].s.events);
  }

  /** Main result.  A run that only keys and reads have changed, and all of whose reads
      have finished, has dropped nothing if and only if Escape arrived only while nothing
      was queued and no key that waited closed the field in front of another. */
  lemma {:induction false} DropsNothingExactly<W>(ed: Editor<W>, answers: nat -> Option<string>, world: W,
                                                  run: seq<Run<W>>, steps: seq<Step<W>>, i: nat)
    requires Steps(ed, answers, run, steps) && run[0] == Initial(world) && i < |run| && Inside(steps)
    requires run[i].outstanding == {}
    ensures run[i].dropped == {} <==> Undisturbed(ed, world, run, steps, i)
  {
    hide After, Closes, Enabled;
    if Undisturbed(ed, world, run, steps, i) {
      NothingElseDrops(ed, answers, world, run, steps, i);
    } else if k :| 0 <= k < i && steps[k].Arrive? && steps[k].key.name == "escape" && run[k].s.events != [] {
      EscapeDropped(ed, answers, world, run, steps, k, i);
    } else {
      var k: nat :| k < i && !NoneClosesAhead(ed, world, run[k]);
      var j: nat :| |run[k].log| <= j < |run[k].arrivals| - 1 && Closes(ed, world, run[k].arrivals, j);
      if run[i].dropped == {} {
        NoneClosed(ed, answers, world, run, steps, k, i, j);
      }
    }
  }

  /** So once all reads have finished, every undisturbed run has done exactly what
      dispatching every key on arrival would have done. */
  lemma {:induction false} UndisturbedRefines<W>(ed: Editor<W>, answers: nat -> Option<string>, world: W,
                                                 run: seq<Run<W>>, steps: seq<Step<W>>, i: nat)
    requires Steps(ed, answers, run, steps) && run[0] == Initial(world) && i < |run| && Inside(steps)
    requires Undisturbed(ed, world, run, steps, i) && run[i].outstanding == {}
    ensures run[i].s.world == Replay(ed, world, run[i].arrivals)
  {
    NothingElseDrops(ed, answers, world, run, steps, i);
    RefinesSynchronousEditor(ed, answers, world, run, steps, i);
  }
}
