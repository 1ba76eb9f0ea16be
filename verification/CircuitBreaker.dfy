/** The enforcement call as a protocol of atomic steps between awaits, with its Redis breaker. */
module CircuitBreaker {
  import opened Common
  import opened LocalRateLimiter
  import opened LimiterRuns

  datatype Verdict = Admit | TooMany(retryAfter: int) | Unavailable

  /** Where one enforcement call stands. A call decided `ByLocal` used the local window,
      `ByRedis` the shared counter, `ByFailure` neither. */
  datatype Phase =
    | Charged
    | OnRedis(probe: bool)
    | ByLocal(verdict: Verdict)
    | ByRedis(verdict: Verdict)
    | ByFailure(verdict: Verdict)
    | Cancelled

  /** One enforcement call: the request it charges, the local answer it holds and its phase. */
  datatype Task = Task(call: Call, local: Option<Outcome>, phase: Phase)

  datatype State = State(optional: bool, cap: nat, table: Table, retryAt: real, probing: bool, tasks: seq<Task>)

  /** Scheduler choices: a call arrives and charges its window, consults the breaker, is answered
      by Redis, fails on Redis, or is cancelled. */
  datatype Step =
    | Arrive(call: Call)
    | Decide(id: nat, now: real)
    | Answered(id: nat, count: nat, ttl: int)
    | Failed(id: nat, now: real)
    | Cancel(id: nat)

  function Judge(result: Outcome, policy: Policy): Verdict
  {
    if result.count > policy.limit then TooMany(Max(1, result.ttl)) else Admit
  }

  function Moved(s: State, id: nat, phase: Phase): State
    requires id < |s.tasks|
  {
    s.(tasks := s.tasks[id := s.tasks[id].(phase := phase)])
  }

  /** A finished or cancelled call gives the probe slot back when it held it. */
  function Released(s: State, id: nat): State
    requires id < |s.tasks| && s.tasks[id].phase.OnRedis?
  {
    s.(probing := if s.tasks[id].phase.probe then false else s.probing)
  }

  predicate Enabled(s: State, step: Step)
  {
    match step
    case Arrive(_) => s.cap > 0
    case Decide(id, _) => id < |s.tasks| && s.tasks[id].phase.Charged? && (s.optional ==> s.tasks[id].local.Some?)
    case Answered(id, _, _) => id < |s.tasks| && s.tasks[id].phase.OnRedis?
    case Failed(id, _) => id < |s.tasks| && s.tasks[id].phase.OnRedis? && (s.optional ==> s.tasks[id].local.Some?)
    case Cancel(id) => id < |s.tasks| && (s.tasks[id].phase.Charged? || s.tasks[id].phase.OnRedis?)
  }

  ghost function Next(s: State, step: Step): State
    requires Enabled(s, step)
  {
    match step
    case Arrive(c) =>
      if s.optional then
        var (table, answer) := Charge(s.table, s.cap, c.now, c.key, c.policy);
        s.(table := table, tasks := s.tasks + [Task(c, Some(answer), Charged)])
      else
        s.(tasks := s.tasks + [Task(c, None, Charged)])
    case Decide(id, now) =>
      var retrying := s.optional && s.retryAt > 0.0;
      if retrying && (now < s.retryAt || s.probing) then
        Moved(s, id, ByLocal(Judge(s.tasks[id].local.value, s.tasks[id].call.policy)))
      else
        Moved(s.(probing := s.probing || retrying), id, OnRedis(retrying))
    case Answered(id, count, ttl) =>
      Moved(Released(s, id).(retryAt := 0.0), id, ByRedis(Judge(Outcome(count, Max(1, ttl)), s.tasks[id].call.policy)))
    case Failed(id, now) =>
      if s.optional then
        Moved(Released(s, id).(retryAt := now + 5.0), id,
              ByLocal(Judge(s.tasks[id].local.value, s.tasks[id].call.policy)))
      else
        Moved(Released(s, id), id, ByFailure(if s.tasks[id].call.policy.failClosed then Unavailable else Admit))
    case Cancel(id) =>
      Moved(if s.tasks[id].phase.OnRedis? then Released(s, id) else s, id, Cancelled)
  }

  class DistributedRateLimiter {
    const optional: bool
    const local: LocalRateLimiter
    var retryAt: real
    var probing: bool
    var tasks: seq<Task>

    ghost function View(): State
      reads this, local
    {
      State(optional, local.maxEntries, local.entries, retryAt, probing, tasks)
    }

    ghost predicate Valid()
      reads this, local
    {
      local.Valid() && local.maxEntries > 0
    }

    constructor (redisRequired: bool)
      ensures Valid() && fresh(local)
      ensures View() == Start(!redisRequired, 10000)
    {
      optional := !redisRequired;
      local := new LocalRateLimiter(10000);
      retryAt, probing, tasks := 0.0, false, [];
    }

    /** The call up to its first await: charge the local window when Redis is optional. */
    method OnArrive(c: Call) returns (id: nat)
      requires Valid()
      modifies this, local
      ensures Valid() && View() == Next(old(View()), Arrive(c))
      ensures id == |old(tasks)|
    {
      id := |tasks|;
      if optional {
        var result := local.Consume(c.key, c.policy, c.now);
        tasks := tasks + [Task(c, Some(result), Charged)];
      } else {
        tasks := tasks + [Task(c, None, Charged)];
      }
    }

    /** Consult the breaker: answer from the local window, or start the Redis call. */
    method OnDecide(id: nat, now: real)
      requires Valid() && Enabled(View(), Decide(id, now))
      modifies this
      ensures Valid() && View() == Next(old(View()), Decide(id, now))
    {
      var task := tasks[id];
      var retrying := optional && retryAt > 0.0;
      if retrying && (now < retryAt || probing) {
        tasks := tasks[id := task.(phase := ByLocal(Judge(task.local.value, task.call.policy)))];
      } else {
        if retrying { probing := true; }
        tasks := tasks[id := task.(phase := OnRedis(retrying))];
      }
    }

    method OnAnswer(id: nat, count: nat, ttl: int)
      requires Valid() && Enabled(View(), Answered(id, count, ttl))
      modifies this
      ensures Valid() && View() == Next(old(View()), Answered(id, count, ttl))
    {
      var task := tasks[id];
      retryAt := 0.0;
      if task.phase.probe { probing := false; }
      tasks := tasks[id := task.(phase := ByRedis(Judge(Outcome(count, Max(1, ttl)), task.call.policy)))];
    }

    method OnError(id: nat, now: real)
      requires Valid() && Enabled(View(), Failed(id, now))
      modifies this
      ensures Valid() && View() == Next(old(View()), Failed(id, now))
    {
      var task := tasks[id];
      var phase: Phase;
      if optional {
        retryAt := now + 5.0;
        phase := ByLocal(Judge(task.local.value, task.call.policy));
      } else if task.call.policy.failClosed {
        phase := ByFailure(Unavailable);
      } else {
        phase := ByFailure(Admit);
      }
      if task.phase.probe { probing := false; }
      tasks := tasks[id := task.(phase := phase)];
    }

    method OnCancel(id: nat)
      requires Valid() && Enabled(View(), Cancel(id))
      modifies this
      ensures Valid() && View() == Next(old(View()), Cancel(id))
    {
      var task := tasks[id];
      if task.phase.OnRedis? && task.phase.probe { probing := false; }
      tasks := tasks[id := task.(phase := Cancelled)];
    }
  }

  // ---------------------------------------------------------------------------------------
  // Runs
  // ---------------------------------------------------------------------------------------

  function Start(optional: bool, cap: nat): State
  {
    State(optional, cap, map[], 0.0, false, [])
  }

  /** The state a schedule leads to from `s`; None when some step is not enabled. */
  ghost function Exec(s: State, steps: seq<Step>): Option<State>
  {
    if steps == [] then Some(s)
    else
      var before := Exec(s, steps[..|steps| - 1]);
      if before.Some? && Enabled(before.value, steps[|steps| - 1])
      then Some(Next(before.value, steps[|steps| - 1])) else None
  }

  ghost predicate IsProbe(s: State, i: nat)
  {
    i < |s.tasks| && s.tasks[i].phase == OnRedis(true)
  }

  /** The probe flag is up exactly while a probing call is in flight, and there is never a
      second one; with Redis required the breaker never engages. */
  ghost predicate ProbeInv(s: State)
  {
    && (s.probing <==> exists i: nat :: IsProbe(s, i))
    && (forall i: nat, j: nat :: IsProbe(s, i) && IsProbe(s, j) ==> i == j)
    && (!s.optional ==> s.retryAt == 0.0 && !s.probing && s.table == map[])
  }

  lemma ProbeStep(s: State, step: Step)
    requires ProbeInv(s) && Enabled(s, step)
    ensures ProbeInv(Next(s, step))
  {
    var t := Next(s, step);
    if step.Arrive? {
      assert forall i: nat :: IsProbe(t, i) <==> IsProbe(s, i);
    } else {
      var id := step.id;
      assert forall i: nat :: i != id ==> (IsProbe(t, i) <==> IsProbe(s, i));
      if t.probing {
        if IsProbe(t, id) {
        } else {
          var i: nat :| IsProbe(s, i);
          assert IsProbe(t, i);
        }
      }
      if s.tasks[id].phase.OnRedis? && s.tasks[id].phase.probe {
        assert IsProbe(s, id);
        assert forall i: nat :: !IsProbe(t, i);
      }
    }
  }

  /** Under every interleaving of arrivals, decisions, answers, errors and cancellations. */
  lemma {:induction false} AtMostOneProbe(optional: bool, cap: nat, steps: seq<Step>)
    requires Exec(Start(optional, cap), steps).Some?
    ensures ProbeInv(Exec(Start(optional, cap), steps).value)
  {
    if steps != [] {
      AtMostOneProbe(optional, cap, steps[..|steps| - 1]);
      ProbeStep(Exec(Start(optional, cap), steps[..|steps| - 1]).value, steps[|steps| - 1]);
    } else {
      assert forall i: nat :: !IsProbe(Start(optional, cap), i);
    }
  }

  // ---------------------------------------------------------------------------------------
  // The cool-down
  // ---------------------------------------------------------------------------------------

  function Clock(step: Step): Option<real>
  {
    match step
    case Arrive(c) => Some(c.now)
    case Decide(_, now) => Some(now)
    case Failed(_, now) => Some(now)
    case _ => None
  }

  /** Clock readings along the schedule are non-negative and never run back. */
  ghost predicate ClockRunsForward(steps: seq<Step>)
  {
    && (forall i :: 0 <= i < |steps| && Clock(steps[i]).Some? ==> Clock(steps[i]).value >= 0.0)
    && (forall i, j :: 0 <= i < j < |steps| && Clock(steps[i]).Some? && Clock(steps[j]).Some? ==>
          Clock(steps[i]).value <= Clock(steps[j]).value)
  }

  /** The latest answer or error of a schedule. */
  function LastOutcome(steps: seq<Step>): Option<Step>
  {
    if steps == [] then None
    else
      var last := steps[|steps| - 1];
      if last.Answered? || last.Failed? then Some(last) else LastOutcome(steps[..|steps| - 1])
  }

  /** The retry time is decided by the latest answer or error alone. */
  lemma {:induction false} RetryTimeIsLastOutcome(cap: nat, steps: seq<Step>)
    requires Exec(Start(true, cap), steps).Some?
    ensures var s, last := Exec(Start(true, cap), steps).value, LastOutcome(steps);
            s.optional && s.retryAt == if last.Some? && last.value.Failed? then last.value.now + 5.0 else 0.0
  {
    if steps != [] {
      var m := |steps| - 1;
      RetryTimeIsLastOutcome(cap, steps[..m]);
      RetryStep(Exec(Start(true, cap), steps[..m]).value, steps[m]);
    }
  }

  lemma RetryStep(s: State, step: Step)
    requires s.optional && Enabled(s, step)
    ensures Next(s, step).optional
    ensures Next(s, step).retryAt == if step.Answered? then 0.0 else if step.Failed? then step.now + 5.0 else s.retryAt
  {
  }

  lemma {:induction false} ErrorsAreOnTheClock(steps: seq<Step>)
    requires ClockRunsForward(steps)
    ensures LastOutcome(steps).Some? && LastOutcome(steps).value.Failed? ==> LastOutcome(steps).value.now >= 0.0
  {
    if steps != [] {
      var m := |steps| - 1;
      assert Clock(steps[m]).Some? ==> Clock(steps[m]).value >= 0.0;
      assert ClockRunsForward(steps[..m]);
      ErrorsAreOnTheClock(steps[..m]);
    }
  }

  /** Exactly when a call is sent to Redis: the latest Redis outcome is not an error, or that error
      is at least five seconds old and no probe is in flight. */
  lemma RedisStartsExactlyWhen(cap: nat, steps: seq<Step>, s: State, id: nat, now: real)
    requires Exec(Start(true, cap), steps) == Some(s) && ClockRunsForward(steps) && Enabled(s, Decide(id, now))
    ensures var last := LastOutcome(steps);
            Next(s, Decide(id, now)).tasks[id].phase.OnRedis? <==>
            (last.Some? && last.value.Failed? ==> now >= last.value.now + 5.0 && !exists i: nat :: IsProbe(s, i))
  {
    RetryTimeIsLastOutcome(cap, steps);
    AtMostOneProbe(true, cap, steps);
    ErrorsAreOnTheClock(steps);
  }

  /** The steps before the last outcome do not matter to it. */
  lemma {:induction false} OutcomeSince(steps: seq<Step>, j: nat)
    requires j < |steps| && (steps[j].Answered? || steps[j].Failed?)
    ensures LastOutcome(steps).Some?
    ensures LastOutcome(steps).value.Answered? || LastOutcome(steps).value.Failed?
    ensures exists i :: j <= i < |steps| && LastOutcome(steps) == Some(steps[i])
    ensures (forall i :: j < i < |steps| ==> !steps[i].Answered?) && steps[j].Failed? ==>
            LastOutcome(steps).value.Failed?
  {
    var m := |steps| - 1;
    if !(steps[m].Answered? || steps[m].Failed?) {
      OutcomeSince(steps[..m], j);
      var i :| j <= i < m && LastOutcome(steps[..m]) == Some(steps[..m][i]);
      assert steps[i] == steps[..m][i];
    }
  }

  /** A later error is no earlier on the clock. */
  lemma LastErrorIsNoEarlier(steps: seq<Step>, j: nat)
    requires ClockRunsForward(steps) && j < |steps| && steps[j].Failed?
    ensures LastOutcome(steps).Some? && (LastOutcome(steps).value.Answered? || LastOutcome(steps).value.Failed?)
    ensures LastOutcome(steps).value.Failed? ==> LastOutcome(steps).value.now >= steps[j].now
  {
    OutcomeSince(steps, j);
    var i :| j <= i < |steps| && LastOutcome(steps) == Some(steps[i]);
    if i > j && steps[i].Failed? {
      assert Clock(steps[j]).value <= Clock(steps[i]).value;
    }
  }

  /** Inside the five seconds after an error a call goes to Redis exactly when Redis has answered
      since: the latest outcome is an answer. */
  lemma CoolDownEndsEarlyExactlyWhen(cap: nat, steps: seq<Step>, s: State, j: nat, id: nat, now: real)
    requires Exec(Start(true, cap), steps) == Some(s) && Enabled(s, Decide(id, now))
    requires ClockRunsForward(steps + [Decide(id, now)])
    requires j < |steps| && steps[j].Failed? && now < steps[j].now + 5.0
    ensures LastOutcome(steps).Some?
    ensures Next(s, Decide(id, now)).tasks[id].phase.OnRedis? <==> LastOutcome(steps).value.Answered?
  {
    ForwardPrefix(steps, Decide(id, now));
    LastErrorIsNoEarlier(steps, j);
    RedisStartsExactlyWhen(cap, steps, s, id, now);
  }

  lemma ForwardPrefix(steps: seq<Step>, last: Step)
    requires ClockRunsForward(steps + [last])
    ensures ClockRunsForward(steps)
    ensures forall i :: 0 <= i < |steps| && Clock(steps[i]).Some? && Clock(last).Some? ==>
            Clock(steps[i]).value <= Clock(last).value
  {
    var all := steps + [last];
    assert forall i :: 0 <= i < |steps| ==> all[i] == steps[i];
    assert all[|steps|] == last;
  }

  lemma {:induction false} ExecPrefix(s: State, steps: seq<Step>, n: nat)
    requires Exec(s, steps).Some? && n < |steps|
    ensures Exec(s, steps[..n]).Some? && Enabled(Exec(s, steps[..n]).value, steps[n])
    ensures Exec(s, steps[..n + 1]) == Some(Next(Exec(s, steps[..n]).value, steps[n]))
    decreases |steps|
  {
    if n + 1 < |steps| {
      var m := |steps| - 1;
      ExecPrefix(s, steps[..m], n);
      assert steps[..m][..n] == steps[..n] && steps[..m][..n + 1] == steps[..n + 1];
    } else {
      assert steps[..n + 1] == steps && steps[..|steps| - 1] == steps[..n];
    }
  }

  ghost predicate InFlight(s: State, i: nat)
  {
    i < |s.tasks| && s.tasks[i].phase.OnRedis?
  }

  /** A call in flight after a step was in flight before it, unless the step is its own decision. */
  lemma FlightBegins(s: State, step: Step, i: nat)
    requires Enabled(s, step) && InFlight(Next(s, step), i)
    ensures InFlight(s, i) || (step.Decide? && step.id == i && Next(s, step).tasks[i].phase.OnRedis?)
  {
  }

  /** Whoever gives the first answer after an error was in flight right after the error. */
  lemma {:induction false} AnswerWasInFlight(cap: nat, steps: seq<Step>, j: nat, n: nat, i: nat)
    requires Exec(Start(true, cap), steps).Some? && ClockRunsForward(steps)
    requires j < n <= |steps| && steps[j].Failed?
    requires forall m :: j < m < n ==>
               !steps[m].Answered? && (Clock(steps[m]).Some? ==> Clock(steps[m]).value < steps[j].now + 5.0)
    requires Exec(Start(true, cap), steps[..n]).Some? && InFlight(Exec(Start(true, cap), steps[..n]).value, i)
    ensures Exec(Start(true, cap), steps[..j + 1]).Some? && InFlight(Exec(Start(true, cap), steps[..j + 1]).value, i)
    decreases n
  {
    var k := n - 1;
    if k > j {
      ExecPrefix(Start(true, cap), steps, k);
      var before := Exec(Start(true, cap), steps[..k]).value;
      FlightBegins(before, steps[k], i);
      if steps[k].Decide? && steps[k].id == i && !InFlight(before, i) {
        NoStartInCoolDown(cap, steps, j, k);
      }
      AnswerWasInFlight(cap, steps, j, k, i);
    }
  }

  lemma NoStartInCoolDown(cap: nat, steps: seq<Step>, j: nat, k: nat)
    requires Exec(Start(true, cap), steps).Some? && ClockRunsForward(steps)
    requires j < k < |steps| && steps[j].Failed? && steps[k].Decide? && steps[k].now < steps[j].now + 5.0
    requires forall m :: j < m < k ==> !steps[m].Answered?
    ensures Exec(Start(true, cap), steps[..k]).Some? && Enabled(Exec(Start(true, cap), steps[..k]).value, steps[k])
    ensures !InFlight(Next(Exec(Start(true, cap), steps[..k]).value, steps[k]), steps[k].id)
  {
    var head := steps[..k];
    ExecPrefix(Start(true, cap), steps, k);
    var s := Exec(Start(true, cap), head).value;
    assert forall m :: 0 <= m < k ==> head[m] == steps[m];
    ClockOfPrefix(steps, k);
    OutcomeSince(head, j);
    CoolDownEndsEarlyExactlyWhen(cap, head, s, j, steps[k].id, steps[k].now);
  }

  lemma ClockOfPrefix(steps: seq<Step>, k: nat)
    requires ClockRunsForward(steps) && k < |steps|
    ensures ClockRunsForward(steps[..k] + [steps[k]])
  {
    assert steps[..k] + [steps[k]] == steps[..k + 1];
  }

  /** The failing call is no longer in flight, the others are as before. */
  lemma ErrorLands(s: State, step: Step, i: nat)
    requires Enabled(s, step) && step.Failed?
    ensures InFlight(Next(s, step), i) <==> InFlight(s, i) && i != step.id
  {
  }

  /** An answer that ends the cool-down early comes from another call that was in flight when the error
      struck. */
  lemma EarlyAnswerIsAnOldCall(cap: nat, steps: seq<Step>, j: nat, n: nat)
    requires Exec(Start(true, cap), steps).Some? && ClockRunsForward(steps)
    requires j < n < |steps| && steps[j].Failed? && steps[n].Answered?
    requires forall m :: j < m < n ==>
               !steps[m].Answered? && (Clock(steps[m]).Some? ==> Clock(steps[m]).value < steps[j].now + 5.0)
    ensures var s := Exec(Start(true, cap), steps[..j]);
            s.Some? && steps[n].id != steps[j].id && InFlight(s.value, steps[n].id)
  {
    ExecPrefix(Start(true, cap), steps, n);
    ExecPrefix(Start(true, cap), steps, j);
    AnswerWasInFlight(cap, steps, j, n, steps[n].id);
    ErrorLands(Exec(Start(true, cap), steps[..j]).value, steps[j], steps[n].id);
  }

  /** The exception is real: with two ordinary calls in flight, one fails, the other is answered,
      and a third starts a Redis call at once although the error is not five seconds old. */
  lemma StaleAnswerEndsCoolDown(s: State, i: nat, j: nat, c: Call)
    requires s.optional && s.cap > 0 && i < |s.tasks| && j < |s.tasks| && i != j
    requires s.tasks[i].phase == s.tasks[j].phase == OnRedis(false) && s.tasks[i].local.Some?
    ensures var r := Exec(s, [Failed(i, c.now), Answered(j, 1, 60), Arrive(c), Decide(|s.tasks|, c.now)]);
            r.Some? && |r.value.tasks| == |s.tasks| + 1 && r.value.tasks[|s.tasks|].phase == OnRedis(false)
  {
    var s1 := Next(s, Failed(i, c.now));
    assert s1.tasks[j] == s.tasks[j] && s1.cap == s.cap && s1.optional;
    var s2 := Next(s1, Answered(j, 1, 60));
    assert s2.retryAt == 0.0 && s2.cap == s.cap && s2.optional;
    ArrivalStarts(s2, c);
    var s3 := Next(s2, Arrive(c));
    FourSteps(s, Failed(i, c.now), Answered(j, 1, 60), Arrive(c), Decide(|s.tasks|, c.now), s1, s2, s3);
  }

  /** With no retry time set, a call goes straight to Redis. */
  lemma ArrivalStarts(s: State, c: Call)
    requires s.optional && s.cap > 0 && s.retryAt == 0.0
    ensures var t, step := Next(s, Arrive(c)), Decide(|s.tasks|, c.now);
            Enabled(t, step) && |Next(t, step).tasks| == |s.tasks| + 1 &&
            Next(t, step).tasks[|s.tasks|].phase == OnRedis(false)
  {
  }

  lemma FourSteps(s: State, a: Step, b: Step, c: Step, d: Step, s1: State, s2: State, s3: State)
    requires Enabled(s, a) && s1 == Next(s, a) && Enabled(s1, b) && s2 == Next(s1, b)
    requires Enabled(s2, c) && s3 == Next(s2, c) && Enabled(s3, d)
    ensures Exec(s, [a, b, c, d]) == Some(Next(s3, d))
  {
    var steps := [a, b, c, d];
    assert steps[..0] == [];
    ExecSnoc(s, steps, 0, s);
    ExecSnoc(s, steps, 1, s1);
    ExecSnoc(s, steps, 2, s2);
    ExecSnoc(s, steps, 3, s3);
    assert steps[..4] == steps;
  }

  lemma ExecSnoc(s: State, steps: seq<Step>, n: nat, at: State)
    requires n < |steps| && Exec(s, steps[..n]) == Some(at) && Enabled(at, steps[n])
    ensures Exec(s, steps[..n + 1]) == Some(Next(at, steps[n]))
  {
    assert steps[..n + 1][..n] == steps[..n];
  }

  // ---------------------------------------------------------------------------------------
  // The local budget
  // ---------------------------------------------------------------------------------------

  function Calls(tasks: seq<Task>): seq<Call>
  {
    if tasks == [] then [] else Calls(tasks[..|tasks| - 1]) + [tasks[|tasks| - 1].call]
  }

  lemma {:induction false} CallsUnmoved(a: seq<Task>, b: seq<Task>)
    requires |a| == |b| && forall i :: 0 <= i < |a| ==> a[i].call == b[i].call
    ensures Calls(a) == Calls(b)
  {
    if a != [] {
      CallsUnmoved(a[..|a| - 1], b[..|b| - 1]);
    }
  }

  /** The latest call has charged the local window exactly once and holds that one answer; when
      decided locally it got the verdict of that answer. */
  ghost predicate HoldsItsAnswer(tasks: seq<Task>, cap: nat)
    requires cap > 0 && tasks != []
  {
    var t := tasks[|tasks| - 1];
    && Calls(tasks) != []
    && t.local == Some(Answer(Calls(tasks), cap))
    && (t.phase.ByLocal? ==> t.phase.verdict == Judge(t.local.value, t.call.policy))
  }

  ghost predicate AllHold(tasks: seq<Task>, cap: nat)
    requires cap > 0
  {
    tasks != [] ==> HoldsItsAnswer(tasks, cap) && AllHold(tasks[..|tasks| - 1], cap)
  }

  ghost predicate ChargedOnce(s: State)
  {
    s.cap > 0 && s.table == After(Calls(s.tasks), s.cap) && AllHold(s.tasks, s.cap)
  }

  lemma {:induction false} MovingKeepsAnswers(a: seq<Task>, b: seq<Task>, cap: nat)
    requires cap > 0 && AllHold(a, cap) && |a| == |b|
    requires forall i :: 0 <= i < |a| ==> a[i].call == b[i].call && a[i].local == b[i].local
    requires forall i :: 0 <= i < |a| && b[i].phase.ByLocal? && b[i].local.Some? ==>
      a[i] == b[i] || b[i].phase.verdict == Judge(b[i].local.value, b[i].call.policy)
    ensures AllHold(b, cap)
  {
    if a != [] {
      CallsUnmoved(a, b);
      MovingKeepsAnswers(a[..|a| - 1], b[..|b| - 1], cap);
    }
  }

  lemma ArrivalHolds(tasks: seq<Task>, cap: nat, c: Call)
    requires cap > 0 && AllHold(tasks, cap)
    ensures var charged := Charge(After(Calls(tasks), cap), cap, c.now, c.key, c.policy);
            var longer := tasks + [Task(c, Some(charged.1), Charged)];
            AllHold(longer, cap) && After(Calls(longer), cap) == charged.0
  {
    var charged := Charge(After(Calls(tasks), cap), cap, c.now, c.key, c.policy);
    var longer := tasks + [Task(c, Some(charged.1), Charged)];
    assert longer[..|longer| - 1] == tasks;
    assert Calls(longer) == Calls(tasks) + [c];
    assert Front(Calls(longer)) == Calls(tasks);
  }

  lemma ChargedOnceStep(s: State, step: Step)
    requires s.optional && ChargedOnce(s) && Enabled(s, step)
    ensures ChargedOnce(Next(s, step))
  {
    if step.Arrive? {
      ArrivalHolds(s.tasks, s.cap, step.call);
    } else {
      var t := Next(s, step);
      MovesOneTask(s, step, t);
      CallsUnmoved(s.tasks, t.tasks);
      MovingKeepsAnswers(s.tasks, t.tasks, s.cap);
    }
  }

  /** After its arrival a call only changes its phase; decided locally, it gets the verdict it holds. */
  lemma MovesOneTask(s: State, step: Step, t: State)
    requires s.optional && Enabled(s, step) && !step.Arrive? && t == Next(s, step)
    ensures t.cap == s.cap && t.table == s.table && |t.tasks| == |s.tasks|
    ensures forall i :: 0 <= i < |s.tasks| ==>
            s.tasks[i].call == t.tasks[i].call && s.tasks[i].local == t.tasks[i].local
    ensures forall i :: 0 <= i < |s.tasks| && t.tasks[i].phase.ByLocal? && t.tasks[i].local.Some? ==>
              s.tasks[i] == t.tasks[i] ||
                  t.tasks[i].phase.verdict == Judge(t.tasks[i].local.value, t.tasks[i].call.policy)
  {
  }

  /** `s` is the state a schedule leads to when Redis is optional. */
  ghost predicate Reaches(cap: nat, steps: seq<Step>, s: State)
  {
    cap > 0 && Exec(Start(true, cap), steps) == Some(s)
  }

  lemma {:induction false} EveryCallChargedOnce(cap: nat, steps: seq<Step>, s: State)
    requires Reaches(cap, steps, s)
    ensures ChargedOnce(s) && s.optional && s.cap == cap
  {
    if steps != [] {
      var m := |steps| - 1;
      var before := Exec(Start(true, cap), steps[..m]).value;
      EveryCallChargedOnce(cap, steps[..m], before);
      ChargedOnceStep(before, steps[m]);
    }
  }

  lemma TasksHold(cap: nat, steps: seq<Step>, s: State)
    requires Reaches(cap, steps, s)
    ensures AllHold(s.tasks, cap)
  {
    EveryCallChargedOnce(cap, steps, s);
  }

  /** Calls of `k` that arrived in `[a, b)` and were let through on the local window's word. */
  function LocalAdmits(tasks: seq<Task>, k: string, a: real, b: real): nat
  {
    if tasks == [] then 0
    else
      var t := tasks[|tasks| - 1];
      LocalAdmits(tasks[..|tasks| - 1], k, a, b) +
      if t.call.key == k && a <= t.call.now < b && t.phase == ByLocal(Admit) then 1 else 0
  }

  lemma {:induction false} LocalAdmitsAreAdmits(tasks: seq<Task>, cap: nat, k: string, a: real, b: real)
    requires cap > 0 && AllHold(tasks, cap)
    ensures LocalAdmits(tasks, k, a, b) <= Admits(Calls(tasks), cap, k, a, b)
  {
    if tasks != [] {
      var front := tasks[..|tasks| - 1];
      LocalAdmitsAreAdmits(front, cap, k, a, b);
      assert Front(Calls(tasks)) == Calls(front);
    }
  }

  /** Across any pattern of outages, recoveries, errors and cancellations, the calls let through on
      the local window's word stay below twice the limit in any interval of one window length. */
  lemma LocalBudgetHolds(cap: nat, steps: seq<Step>, s: State, k: string, p: Policy, t: real)
    requires Reaches(cap, steps, s) && Steady(Calls(s.tasks), k, p)
    ensures LocalAdmits(s.tasks, k, t, t + p.windowSeconds as real) <= Max(0, 2 * p.limit - 1)
  {
    TasksHold(cap, steps, s);
    BudgetOfTasks(s.tasks, cap, k, p, t);
  }

  lemma BudgetOfTasks(tasks: seq<Task>, cap: nat, k: string, p: Policy, t: real)
    requires cap > 0 && AllHold(tasks, cap) && Steady(Calls(tasks), k, p)
    ensures LocalAdmits(tasks, k, t, t + p.windowSeconds as real) <= Max(0, 2 * p.limit - 1)
  {
    LocalAdmitsAreAdmits(tasks, cap, k, t, t + p.windowSeconds as real);
    RateBound(Calls(tasks), cap, k, p, t);
  }

  /** ... and within the limit in each local window; `open` is the place of the call that opened it. */
  lemma LocalBudgetPerWindow(cap: nat, steps: seq<Step>, s: State, cs: seq<Call>, k: string, p: Policy, open: nat)
    requires Reaches(cap, steps, s) && cs == Calls(s.tasks) && Steady(cs, k, p) && OpensAt(cs, cap, k, open)
    ensures LocalAdmits(s.tasks, k, cs[open].now, cs[open].now + p.windowSeconds as real) <= p.limit
  {
    TasksHold(cap, steps, s);
    WindowBudget(s.tasks, cs, cap, k, p, open);
  }

  lemma WindowBudget(tasks: seq<Task>, cs: seq<Call>, cap: nat, k: string, p: Policy, open: nat)
    requires cs == Calls(tasks) && OpensAt(cs, cap, k, open) && AllHold(tasks, cap) && Steady(cs, k, p)
    ensures LocalAdmits(tasks, k, cs[open].now, cs[open].now + p.windowSeconds as real) <= p.limit
  {
    LocalAdmitsAreAdmits(tasks, cap, k, cs[open].now, cs[open].now + p.windowSeconds as real);
    WindowFrom(cs, cap, k, p, open);
  }

  /** The call at `open` has key `k` and opens a window. */
  ghost predicate OpensAt(cs: seq<Call>, cap: nat, k: string, open: nat)
  {
    cap > 0 && open < |cs| && cs[open].key == k && OpensWindow(cs[..open + 1], cap)
  }

  lemma WindowFrom(cs: seq<Call>, cap: nat, k: string, p: Policy, open: nat)
    requires OpensAt(cs, cap, k, open) && Steady(cs, k, p)
    ensures Admits(cs, cap, k, cs[open].now, cs[open].now + p.windowSeconds as real) <= p.limit
  {
    assert cs[..open + 1] + cs[open + 1..] == cs;
    WindowBound(cs[..open + 1], cs[open + 1..], cap, k, p);
  }
}
