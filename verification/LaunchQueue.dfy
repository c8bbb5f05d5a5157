/** The queue that starts terminals a few at a time. */
module LaunchQueue {

  /** Launches that wait, and how many are in flight, of at most `limit`. */
  datatype Queue<T> = Queue(pending: seq<T>, inFlight: nat, limit: nat)

  /** What pumping the queue does: the new queue, and for each launch that left it, in
      order, whether it was started or its pane had vanished. */
  datatype Pumped<T> = Pumped(queue: Queue<T>, started: seq<bool>)

  function Pump<T>(q: Queue<T>, alive: T -> bool): Pumped<T>
    decreases |q.pending|
  {
    if q.inFlight >= q.limit || q.pending == [] then Pumped(q, [])
    else
      var starts := alive(q.pending[0]);
      var rest := Pump(Queue(q.pending[1..], if starts then q.inFlight + 1 else q.inFlight, q.limit), alive);
      Pumped(rest.queue, [starts] + rest.started)
  }

  /** One turn of a pump that has handled `before` already. */
  lemma {:induction false} PumpFirst<T>(q: Queue<T>, alive: T -> bool, before: seq<bool>)
    ensures if q.inFlight >= q.limit || q.pending == [] then Pump(q, alive) == Pumped(q, []) && before + [] == before
      else
        var starts := alive(q.pending[0]);
        var next := Queue(q.pending[1..], if starts then q.inFlight + 1 else q.inFlight, q.limit);
        && Pump(q, alive).queue == Pump(next, alive).queue
        && before + Pump(q, alive).started == (before + [starts]) + Pump(next, alive).started
  {
  }

  class BoundedLaunchQueue<T> {
    var pending: seq<T>
    var inFlight: nat
    const limit: nat

    constructor (limit: nat)
      requires limit > 0
      ensures Snapshot() == Queue([], 0, limit)
    {
      pending, inFlight := [], 0;
      this.limit := limit;
    }

    function Snapshot(): Queue<T>
      reads this
    {
      Queue(pending, inFlight, limit)
    }

    method Extend(launches: seq<T>)
      modifies this
      ensures Snapshot() == old(Snapshot()).(pending := old(pending) + launches)
    {
      pending := pending + launches;
    }

    method PopReady() returns (ready: seq<T>)
      modifies this
      ensures |ready| <= 1 && (ready == [] <==> old(inFlight) >= limit || old(pending) == [])
      ensures ready == [] ==> Snapshot() == old(Snapshot())
      ensures ready != [] ==>
        && ready[0] == old(pending)[0]
        && Snapshot() == Queue(old(pending)[1..], old(inFlight) + 1, limit)
    {
      if inFlight >= limit || pending == [] {
        return [];
      }
      ready := [pending[0]];
      pending := pending[1..];
      inFlight := inFlight + 1;
    }

    method Complete()
      requires inFlight > 0
      modifies this
      ensures Snapshot() == old(Snapshot()).(inFlight := old(inFlight) - 1)
    {
      inFlight := inFlight - 1;
    }

    /** Start launches while there is room; `alive` says whether a pane still exists. */
    method StartReady(alive: T -> bool) returns (started: seq<bool>)
      modifies this
      ensures Pumped(Snapshot(), started) == Pump(old(Snapshot()), alive)
    {
      started := [];
      while true
        invariant Pump(old(Snapshot()), alive) ==
          Pumped(Pump(Snapshot(), alive).queue, started + Pump(Snapshot(), alive).started)
        decreases |pending|
      {
        PumpFirst(Snapshot(), alive, started);
        hide Pump;
        var ready := PopReady();
        if ready == [] {
          break;
        }
        var present := alive(ready[0]);
        if !present {
          Complete();
        }
        started := started + [present];
      }
    }

    method Enqueue(launches: seq<T>, alive: T -> bool) returns (started: seq<bool>)
      modifies this
      ensures Pumped(Snapshot(), started) == Pump(old(Snapshot()).(pending := old(pending) + launches), alive)
    {
      Extend(launches);
      started := StartReady(alive);
    }

    method Finish(alive: T -> bool) returns (started: seq<bool>)
      requires inFlight > 0
      modifies this
      ensures Pumped(Snapshot(), started) == Pump(old(Snapshot()).(inFlight := old(inFlight) - 1), alive)
    {
      Complete();
      started := StartReady(alive);
    }
  }

  // ----- One pump

  /** How many launches were started. */
  function Count(started: seq<bool>): (n: nat)
    ensures n <= |started|
  {
    if started == [] then 0 else (if started[|started| - 1] then 1 else 0) + Count(started[..|started| - 1])
  }

  lemma {:induction false} CountSum(a: seq<bool>, b: seq<bool>)
    ensures Count(a + b) == Count(a) + Count(b)
    decreases |b|
  {
    if b == [] {
      assert a + b == a;
    } else {
      assert (a + b)[..|a + b| - 1] == a + b[..|b| - 1];
      CountSum(a, b[..|b| - 1]);
    }
  }

  /** The launches taken from the front, and for each whether its pane exists. */
  ghost predicate Taken<T>(pending: seq<T>, alive: T -> bool, started: seq<bool>, left: seq<T>) {
    && |started| <= |pending| && left == pending[|started|..]
    && (forall k | 0 <= k < |started| :: started[k] == alive(pending[k]))
  }

  lemma {:induction false} TakenFirst<T>(pending: seq<T>, alive: T -> bool, started: seq<bool>, left: seq<T>)
    requires pending != [] && Taken(pending[1..], alive, started, left)
    ensures Taken(pending, alive, [alive(pending[0])] + started, left)
    ensures Count([alive(pending[0])] + started) == (if alive(pending[0]) then 1 else 0) + Count(started)
  {
    var first := [alive(pending[0])];
    CountSum(first, started);
    assert first[..0] == [];
  }

  /** A pump takes launches from the front, starts exactly those whose pane exists, and
      goes on until the queue is empty or every slot is used. */
  lemma {:induction false} PumpIs<T>(q: Queue<T>, alive: T -> bool)
    requires q.inFlight <= q.limit
    ensures var p := Pump(q, alive);
      && Taken(q.pending, alive, p.started, p.queue.pending)
      && p.queue.limit == q.limit && p.queue.inFlight == q.inFlight + Count(p.started) <= q.limit
      && (p.queue.pending == [] || p.queue.inFlight == q.limit)
    decreases |q.pending|
  {
    if q.inFlight < q.limit && q.pending != [] {
      var starts := alive(q.pending[0]);
      var next := Queue(q.pending[1..], if starts then q.inFlight + 1 else q.inFlight, q.limit);
      PumpIs(next, alive);
      hide Taken, Count;
      TakenFirst(q.pending, alive, Pump(next, alive).started, Pump(next, alive).queue.pending);
    }
  }

  // ----- Runs

  /** The queue with its history: every launch ever queued, for those that left the
      queue whether they were started, and which have finished. */
  datatype System<T> = System(queue: Queue<T>, queued: seq<T>, started: seq<bool>, finished: set<nat>)

  /** Launches are queued, or launch number `n` finishes; `alive` says which panes exist
      at that time. */
  datatype Step<!T> =
    | Enqueue(launches: seq<T>, alive: T -> bool)
    | Finish(n: nat, alive: T -> bool)

  predicate Enabled<T>(s: System<T>, step: Step<T>) {
    step.Finish? ==> step.n < |s.started| && s.started[step.n] && step.n !in s.finished
  }

  /** What holds before the queue is pumped. */
  ghost predicate Tracked<T>(s: System<T>) {
    && s.queue.limit > 0 && s.queue.inFlight <= s.queue.limit
    && |s.started| <= |s.queued| && s.queue.pending == s.queued[|s.started|..]
    && (forall n | n in s.finished :: n < |s.started| && s.started[n])
    && s.queue.inFlight + |s.finished| == Count(s.started)
  }

  ghost predicate Inv<T>(s: System<T>) {
    Tracked(s) && (s.queue.pending == [] || s.queue.inFlight == s.queue.limit)
  }

  function Initial<T>(limit: nat): System<T> {
    System(Queue([], 0, limit), [], [], {})
  }

  /** The launches that were started, by number. */
  function StartedSet(started: seq<bool>): set<nat> {
    set n | 0 <= n < |started| && started[n]
  }

  lemma {:induction false} StartedSetSize(started: seq<bool>)
    ensures |StartedSet(started)| == Count(started)
    decreases |started|
  {
    if started != [] {
      var n := |started| - 1;
      StartedSetSize(started[..n]);
      assert StartedSet(started) == StartedSet(started[..n]) + if started[n] then {n} else {};
    }
  }

  lemma {:induction false} Included(a: set<nat>, b: set<nat>)
    requires a <= b
    ensures |a| <= |b|
    ensures a < b ==> |a| < |b|
  {
    assert b == a + (b - a);
    assert a < b ==> b - a != {};
  }

  /** A launch that may finish is in flight, so a slot is in use. */
  lemma {:induction false} NoUnderflow<T>(s: System<T>, n: nat)
    requires Inv(s) && n < |s.started| && s.started[n] && n !in s.finished
    ensures s.queue.inFlight > 0
  {
    StartedSetSize(s.started);
    assert n in StartedSet(s.started);
    Included(s.finished, StartedSet(s.started));
  }

  function After<T>(s: System<T>, step: Step<T>): System<T>
    requires Inv(s) && Enabled(s, step)
  {
    match step
    case Enqueue(launches, alive) =>
      var p := Pump(s.queue.(pending := s.queue.pending + launches), alive);
      System(p.queue, s.queued + launches, s.started + p.started, s.finished)
    case Finish(n, alive) =>
      NoUnderflow(s, n);
      var p := Pump(s.queue.(inFlight := s.queue.inFlight - 1), alive);
      System(p.queue, s.queued, s.started + p.started, s.finished + {n})
  }

  lemma {:induction false} LeftOf<T>(queued: seq<T>, n: nat, pending: seq<T>, alive: T -> bool, started: seq<bool>,
                                     left: seq<T>)
    requires n <= |queued| && pending == queued[n..] && Taken(pending, alive, started, left)
    ensures n + |started| <= |queued| && left == queued[n + |started|..]
  {
  }

  lemma {:induction false} FinishedStay(finished: set<nat>, a: seq<bool>, b: seq<bool>)
    requires forall n | n in finished :: n < |a| && a[n]
    ensures forall n | n in finished :: n < |a + b| && (a + b)[n]
  {
  }

  lemma {:induction false} PumpKeeps<T>(s: System<T>, alive: T -> bool)
    requires Tracked(s)
    ensures var p := Pump(s.queue, alive);
      Inv(System(p.queue, s.queued, s.started + p.started, s.finished)) && p.queue.limit == s.queue.limit
  {
    hide Pump, Taken, Count;
    PumpIs(s.queue, alive);
    var p := Pump(s.queue, alive);
    CountSum(s.started, p.started);
    LeftOf(s.queued, |s.started|, s.queue.pending, alive, p.started, p.queue.pending);
    FinishedStay(s.finished, s.started, p.started);
  }

  lemma {:induction false} QueuedIsTracked<T>(s: System<T>, launches: seq<T>)
    requires Tracked(s)
    ensures Tracked(s.(queue := s.queue.(pending := s.queue.pending + launches), queued := s.queued + launches))
  {
    hide Count;
    assert (s.queued + launches)[|s.started|..] == s.queue.pending + launches;
  }

  lemma {:induction false} FinishedIsTracked<T>(s: System<T>, n: nat)
    requires Tracked(s) && n < |s.started| && s.started[n] && n !in s.finished && s.queue.inFlight > 0
    ensures Tracked(s.(queue := s.queue.(inFlight := s.queue.inFlight - 1), finished := s.finished + {n}))
  {
    hide Count;
    assert |s.finished + {n}| == |s.finished| + 1;
  }

  lemma {:induction false} StepKeepsInv<T>(s: System<T>, step: Step<T>)
    requires Inv(s) && Enabled(s, step)
    ensures Inv(After(s, step)) && After(s, step).queue.limit == s.queue.limit
    ensures s.started <= After(s, step).started && s.queued <= After(s, step).queued
  {
    hide Pump, Tracked;
    match step
    case Enqueue(launches, alive) =>
      QueuedIsTracked(s, launches);
      PumpKeeps(s.(queue := s.queue.(pending := s.queue.pending + launches), queued := s.queued + launches), alive);
    case Finish(n, alive) =>
      NoUnderflow(s, n);
      FinishedIsTracked(s, n);
      PumpKeeps(s.(queue := s.queue.(inFlight := s.queue.inFlight - 1), finished := s.finished + {n}), alive);
  }

  /** `run` starts with an empty queue and takes `steps`; a step is defined on systems
      that keep the invariant, and `RunKeepsInv` shows that all of these do. */
  ghost predicate Steps<T>(run: seq<System<T>>, steps: seq<Step<T>>, limit: nat) {
    && |run| == |steps| + 1 && run[0] == Initial(limit)
    && forall k | 0 <= k < |steps| ::
         Enabled(run[k], steps[k]) && (Inv(run[k]) ==> run[k + 1] == After(run[k], steps[k]))
  }

  lemma {:induction false} RunKeepsInv<T>(run: seq<System<T>>, steps: seq<Step<T>>, limit: nat, k: nat)
    requires Steps(run, steps, limit) && limit > 0 && k < |run|
    ensures Inv(run[k]) && run[k].queue.limit == limit
    decreases k
  {
    if k > 0 {
      RunKeepsInv(run, steps, limit, k - 1);
      hide After, Inv, Enabled;
      StepKeepsInv(run[k - 1], steps[k - 1]);
    }
  }

  /** After every step of every run: no more than `limit` launches are in flight, every
      launch ever queued is pending, in flight, finished or dropped, launches leave the
      queue in the order they were queued, each once, and either none is pending or all
      slots are in use. */
  lemma {:induction false} NothingIsLost<T>(run: seq<System<T>>, steps: seq<Step<T>>, limit: nat, k: nat)
    requires Steps(run, steps, limit) && limit > 0 && k < |run|
    ensures var s := run[k];
      var dropped := |s.started| - Count(s.started);
      && s.queue.inFlight <= limit && |s.started| <= |s.queued|
      && |s.queued| == |s.queue.pending| + s.queue.inFlight + |s.finished| + dropped
      && s.queued == s.queued[..|s.started|] + s.queue.pending
      && (s.queue.pending == [] || s.queue.inFlight == limit)
  {
    RunKeepsInv(run, steps, limit, k);
  }

  /** A launch is started or dropped once and for all. */
  lemma {:induction false} StartsOnce<T>(run: seq<System<T>>, steps: seq<Step<T>>, limit: nat, i: nat, j: nat)
    requires Steps(run, steps, limit) && limit > 0 && i <= j < |run|
    ensures run[i].started <= run[j].started && run[i].queued <= run[j].queued
    decreases j
  {
    if i < j {
      hide After, Inv, Enabled;
      StartsOnce(run, steps, limit, i, j - 1);
      RunKeepsInv(run, steps, limit, j - 1);
      StepKeepsInv(run[j - 1], steps[j - 1]);
    }
  }
}
