/** Failed authentications of detached sessions, and the time that must pass between
    them. */
module AuthBackoff {
  import opened Text

  /** Times are counted in nanoseconds. */
  const SECOND: nat := 1_000_000_000

  const MAX_FAILURES: nat := 0xFFFF_FFFF

  function PowerOfTwo(n: nat): (p: nat)
    ensures p > 0
  {
    if n == 0 then 1 else 2 * PowerOfTwo(n - 1)
  }

  /** The seconds for which attempts are refused after so many failures. */
  function DelaySeconds(failures: nat): nat {
    var doublings := if failures == 0 then 0 else if failures - 1 < 31 then failures - 1 else 31;
    if PowerOfTwo(doublings) < 30 then PowerOfTwo(doublings) else 30
  }

  function SaturatingNext(failures: nat): nat {
    if failures < MAX_FAILURES then failures + 1 else MAX_FAILURES
  }

  datatype Session<T> = Session(value: T, protected: bool, failures: nat, refuseUntil: Option<nat>)

  predicate Refused<T>(s: Session<T>, now: nat) {
    s.refuseUntil.Some? && now < s.refuseUntil.value
  }

  function Failed<T>(s: Session<T>, now: nat): Session<T> {
    var failures := SaturatingNext(s.failures);
    s.(failures := failures, refuseUntil := Some(now + DelaySeconds(failures) * SECOND))
  }

  function Forgiven<T>(s: Session<T>): Session<T> {
    s.(failures := 0, refuseUntil := None)
  }

  // ----- The runner as the program keeps it

  class BackgroundSessionRunner<T> {
    var sessions: seq<Session<T>>

    constructor ()
      ensures sessions == []
    {
      sessions := [];
    }

    method Detach(value: T, protected: bool)
      modifies this
      ensures sessions == old(sessions) + [Session(value, protected, 0, None)]
    {
      sessions := sessions + [Session(value, protected, 0, None)];
    }

    function AuthenticationIsRefusedAt(index: nat, now: nat): bool
      reads this
    {
      index < |sessions| && Refused(sessions[index], now)
    }

    method RecordFailedAuthenticationAt(index: nat, now: nat)
      modifies this
      ensures sessions ==
        if index < |old(sessions)| then old(sessions)[index := Failed(old(sessions)[index], now)] else old(sessions)
    {
      if index < |sessions| {
        var failures := SaturatingNext(sessions[index].failures);
        var s := sessions[index].(failures := failures);
        s := s.(refuseUntil := Some(now + DelaySeconds(s.failures) * SECOND));
        sessions := sessions[index := s];
      }
    }

    method ClearFailedAuthenticationsAt(index: nat)
      modifies this
      ensures sessions ==
        if index < |old(sessions)| then old(sessions)[index := Forgiven(old(sessions)[index])] else old(sessions)
    {
      if index < |sessions| {
        sessions := sessions[index := sessions[index].(failures := 0, refuseUntil := None)];
      }
    }

    method ReconnectAt(index: nat) returns (value: Option<T>)
      modifies this
      ensures value.None? <==> index >= |old(sessions)|
      ensures value.None? ==> sessions == old(sessions)
      ensures value.Some? ==>
        && value.value == old(sessions)[index].value
        && sessions == old(sessions)[..index] + old(sessions)[index + 1..]
    {
      if index >= |sessions| {
        return None;
      }
      value := Some(sessions[index].value);
      sessions := sessions[..index] + sessions[index + 1..];
    }

    /** An attempt with a secret: refused inside the window, evaluated outside it. */
    method Attempt(index: nat, now: nat, right: bool) returns (evaluated: bool)
      requires index < |sessions|
      modifies this
      ensures evaluated <==> !Refused(old(sessions)[index], now)
      ensures sessions == old(sessions)[index := Attempted(old(sessions)[index], now, right)]
    {
      if AuthenticationIsRefusedAt(index, now) {
        return false;
      }
      if right {
        ClearFailedAuthenticationsAt(index);
      } else {
        RecordFailedAuthenticationAt(index, now);
      }
      evaluated := true;
    }
  }

  function Attempted<T>(s: Session<T>, now: nat, right: bool): Session<T> {
    if Refused(s, now) then s else if right then Forgiven(s) else Failed(s, now)
  }

  // ----- Runs

  /** A session with the times of the wrong attempts evaluated since it was detached or
      a right one was. */
  datatype Tracked<T> = Tracked(session: Session<T>, times: seq<nat>)

  datatype System<T> = System(sessions: seq<Tracked<T>>, clock: nat)

  datatype Step<T> =
    | Detach(value: T, protected: bool)
    | Attempt(index: nat, now: nat, right: bool)
    | Reconnect(index: nat)

  predicate Enabled<T>(s: System<T>, step: Step<T>) {
    match step
    case Detach(_, _) => true
    case Attempt(index, now, _) => index < |s.sessions| && s.clock <= now
    case Reconnect(index) => index < |s.sessions|
  }

  function AfterAttempt<T>(t: Tracked<T>, now: nat, right: bool): Tracked<T> {
    var times := if Refused(t.session, now) then t.times else if right then [] else t.times + [now];
    Tracked(Attempted(t.session, now, right), times)
  }

  function After<T>(s: System<T>, step: Step<T>): System<T>
    requires Enabled(s, step)
  {
    match step
    case Detach(value, protected) => s.(sessions := s.sessions + [Tracked(Session(value, protected, 0, None), [])])
    case Attempt(index, now, right) =>
      System(s.sessions[index := AfterAttempt(s.sessions[index], now, right)], now)
    case Reconnect(index) => s.(sessions := s.sessions[..index] + s.sessions[index + 1..])
  }

  /** The seconds that must pass over the first `n` failures. */
  function TotalDelay(n: nat): nat {
    if n <= 1 then 0 else TotalDelay(n - 1) + DelaySeconds(n - 1)
  }

  ghost predicate Spaced(times: seq<nat>) {
    forall i | 0 <= i < |times| - 1 :: times[i] + DelaySeconds(i + 1) * SECOND <= times[i + 1]
  }

  ghost predicate Kept<T>(t: Tracked<T>, clock: nat) {
    && Spaced(t.times) && (forall x | x in t.times :: x <= clock)
    && t.session.failures == (if |t.times| < MAX_FAILURES then |t.times| else MAX_FAILURES)
    && t.session.refuseUntil ==
         if t.times == [] then None
         else Some(t.times[|t.times| - 1] + DelaySeconds(t.session.failures) * SECOND)
  }

  ghost predicate Inv<T>(s: System<T>) {
    forall i | 0 <= i < |s.sessions| :: Kept(s.sessions[i], s.clock)
  }

  lemma {:induction false} PowersGrow(n: nat)
    ensures n >= 5 ==> PowerOfTwo(n) >= 32
    decreases n
  {
    if n > 5 {
      PowersGrow(n - 1);
    }
  }

  /** The delays are 1, 2, 4, 8 and 16 seconds, then 30. */
  lemma {:induction false} Delays(failures: nat)
    ensures DelaySeconds(failures) == if failures <= 1 then 1 else if failures == 2 then 2 else if failures == 3 then 4
      else if failures == 4 then 8 else if failures == 5 then 16 else 30
  {
    PowersGrow(if failures < 32 then if failures == 0 then 0 else failures - 1 else 31);
  }

  /** The counter saturates far beyond the point where the delay stops growing. */
  lemma {:induction false} SaturationKeepsDelay(n: nat)
    ensures DelaySeconds(if n < MAX_FAILURES then n else MAX_FAILURES) == DelaySeconds(n)
  {
    Delays(n);
    Delays(MAX_FAILURES);
  }

  lemma {:induction false} SpacedNext(times: seq<nat>, now: nat)
    requires Spaced(times)
    requires times != [] ==> times[|times| - 1] + DelaySeconds(|times|) * SECOND <= now
    ensures Spaced(times + [now])
  {
    hide DelaySeconds;
  }

  lemma {:induction false} AttemptKeeps<T>(t: Tracked<T>, clock: nat, now: nat, right: bool)
    requires Kept(t, clock) && clock <= now
    ensures Kept(AfterAttempt(t, now, right), now)
  {
    SaturationKeepsDelay(|t.times|);
    hide DelaySeconds;
    if !Refused(t.session, now) && !right {
      SpacedNext(t.times, now);
      hide Spaced;
    }
  }

  lemma {:induction false} StepKeepsInv<T>(s: System<T>, step: Step<T>)
    requires Inv(s) && Enabled(s, step)
    ensures Inv(After(s, step))
  {
    match step
    case Detach(_, _) =>
    case Attempt(index, now, right) =>
      AttemptKeeps(s.sessions[index], s.clock, now, right);
      forall i | 0 <= i < |s.sessions| && i != index
        ensures Kept(s.sessions[i], now)
      {
      }
      hide Kept;
    case Reconnect(index) =>
      hide Kept;
  }

  ghost predicate Steps<T>(run: seq<System<T>>, steps: seq<Step<T>>) {
    && |run| == |steps| + 1 && run[0] == System([], 0)
    && forall k | 0 <= k < |steps| :: Enabled(run[k], steps[k]) && run[k + 1] == After(run[k], steps[k])
  }

  lemma {:induction false} RunKeepsInv<T>(run: seq<System<T>>, steps: seq<Step<T>>, k: nat)
    requires Steps(run, steps) && k < |run|
    ensures Inv(run[k])
    decreases k
  {
    if k > 0 {
      RunKeepsInv(run, steps, k - 1);
      hide Inv, After, Enabled;
      StepKeepsInv(run[k - 1], steps[k - 1]);
    }
  }

  /** Spaced failures take at least the sum of their delays. */
  /** In every run an attempt is refused exactly in the window after the last wrong one,
      and then changes nothing; otherwise a right one forgets all wrong ones, and a wrong
      one is counted and opens a window from its own time. */
  lemma {:induction false} AttemptsAreJudged<T>(run: seq<System<T>>, steps: seq<Step<T>>, k: nat)
    requires Steps(run, steps) && k < |steps| && steps[k].Attempt?
    ensures var i, now := steps[k].index, steps[k].now;
      && i < |run[k].sessions| && |run[k + 1].sessions| == |run[k].sessions|
      && var before, after := run[k].sessions[i], run[k + 1].sessions[i];
         var n := |before.times|;
         if n > 0 && now < before.times[n - 1] + DelaySeconds(n) * SECOND then after == before
         else
           && after.times == (if steps[k].right then [] else before.times + [now])
           && after.session.value == before.session.value
           && (steps[k].right ==> after.session.failures == 0 && after.session.refuseUntil.None?)
           && (!steps[k].right ==> after.session.refuseUntil == Some(now + DelaySeconds(n + 1) * SECOND))
  {
    RunKeepsInv(run, steps, k);
    RunKeepsInv(run, steps, k + 1);
    var i := steps[k].index;
    var before := run[k].sessions[i];
    assert Kept(before, run[k].clock) && Kept(run[k + 1].sessions[i], run[k + 1].clock);
    SaturationKeepsDelay(|before.times|);
    SaturationKeepsDelay(|before.times| + 1);
    hide DelaySeconds, PowerOfTwo, Spaced;
  }

  lemma {:induction false} SpacedTakes(times: seq<nat>)
    requires Spaced(times) && times != []
    ensures times[0] + TotalDelay(|times|) * SECOND <= times[|times| - 1]
    decreases |times|
  {
    hide DelaySeconds;
    var n := |times|;
    if n > 1 {
      SpacedTakes(times[..n - 1]);
      assert times[n - 2] + DelaySeconds(n - 1) * SECOND <= times[n - 1];
    }
  }

  lemma {:induction false} TotalDelayIs(n: nat)
    ensures n >= 6 ==> TotalDelay(n) == 31 + 30 * (n - 6)
    decreases n
  {
    Delays(n - 1 + if n == 0 then 1 else 0);
    if n > 6 {
      TotalDelayIs(n - 1);
    } else if n == 6 {
      Delays(1);
      Delays(2);
      Delays(3);
      Delays(4);
      assert TotalDelay(2) == 1 && TotalDelay(3) == 3 && TotalDelay(4) == 7 && TotalDelay(5) == 15;
    }
  }

  /** In any run, the failures evaluated for one session take at least the sum of the
      delays between them, so in `t` seconds there are at most 6 + t / 30. */
  lemma {:induction false} FailuresAreBounded<T>(run: seq<System<T>>, steps: seq<Step<T>>, k: nat, i: nat)
    requires Steps(run, steps) && k < |run| && i < |run[k].sessions| && run[k].sessions[i].times != []
    ensures var times := run[k].sessions[i].times;
      var first, last := times[0], times[|times| - 1];
      && first <= last && TotalDelay(|times|) * SECOND <= last - first
      && |times| <= 6 + (last - first) / SECOND / 30
  {
    RunKeepsInv(run, steps, k);
    var times := run[k].sessions[i].times;
    assert Kept(run[k].sessions[i], run[k].clock);
    SpacedTakes(times);
    TotalDelayIs(|times|);
    hide TotalDelay;
    var t := times[|times| - 1] - times[0];
    if |times| >= 6 {
      assert (31 + 30 * (|times| - 6)) * SECOND <= t;
      assert t / SECOND >= 31 + 30 * (|times| - 6);
    }
  }

  // ----- Windows stand

  /** Where session `i` is after a step, unless the step reconnects it. */
  function MovedTo<T>(step: Step<T>, i: nat): Option<nat> {
    if !step.Reconnect? || i < step.index then Some(i)
    else if i == step.index then None
    else Some(i - 1)
  }

  /** Where session `i` is after the steps from `k` to `m`, unless it was reconnected. */
  function Where<T>(steps: seq<Step<T>>, k: nat, m: nat, i: nat): Option<nat>
    requires k <= m <= |steps|
    decreases m - k
  {
    if k == m then Some(i)
    else
      var before := Where(steps, k, m - 1, i);
      if before.None? then None else MovedTo(steps[m - 1], before.value)
  }

  /** No attempt between `k` and `m` is made on session `i`. */
  ghost predicate Untouched<T>(steps: seq<Step<T>>, k: nat, m: nat, i: nat)
    requires k <= m <= |steps|
  {
    forall x | k <= x < m && steps[x].Attempt? :: Where(steps, k, x, i) != Some(steps[x].index)
  }

  lemma {:induction false} StepLeavesSession<T>(s: System<T>, step: Step<T>, i: nat)
    requires Enabled(s, step) && i < |s.sessions| && MovedTo(step, i).Some?
    requires Refused(s.sessions[i].session, After(s, step).clock) || (step.Attempt? ==> step.index != i)
    ensures var j := MovedTo(step, i).value;
      j < |After(s, step).sessions| && After(s, step).sessions[j] == s.sessions[i]
  {
  }

  /** In any run a session stays exactly as it is while its window lasts: attempts on
      it, however many, do not extend the window.  And it stays as it is while no
      attempt is made on it, whatever is done with other sessions. */
  lemma {:induction false} WindowStands<T>(run: seq<System<T>>, steps: seq<Step<T>>, k: nat, m: nat, i: nat)
    requires Steps(run, steps) && k <= m < |run| && i < |run[k].sessions|
    requires Refused(run[k].sessions[i].session, run[m].clock) || Untouched(steps, k, m, i)
    ensures var j := Where(steps, k, m, i);
      j.Some? ==> j.value < |run[m].sessions| && run[m].sessions[j.value] == run[k].sessions[i]
    decreases m
  {
    if k < m {
      ClockGrows(run, steps, m - 1);
      WindowStands(run, steps, k, m - 1, i);
      hide After, Enabled;
      var before := Where(steps, k, m - 1, i);
      if before.Some? && MovedTo(steps[m - 1], before.value).Some? {
        StepLeavesSession(run[m - 1], steps[m - 1], before.value);
      }
    }
  }

  lemma {:induction false} ClockGrows<T>(run: seq<System<T>>, steps: seq<Step<T>>, k: nat)
    requires Steps(run, steps) && k < |steps|
    ensures run[k].clock <= run[k + 1].clock
  {
    assert Enabled(run[k], steps[k]);
  }
}
