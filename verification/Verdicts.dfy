/** What a finished enforcement call tells its caller, told from the steps of the schedule: the answer Redis
    gave, the local charge, or the policy of a limiter that requires Redis. */
module Verdicts {
  import opened Common
  import opened LocalRateLimiter
  import opened LimiterRuns
  import opened CircuitBreaker

  /** A count up to the limit passes; beyond it the caller waits the seconds announced, at least one. */
  predicate PassesUpTo(v: Verdict, count: nat, limit: nat, seconds: int)
  {
    && (v == Admit <==> count <= limit)
    && (v != Admit ==> v == TooMany(if seconds > 1 then seconds else 1))
  }

  predicate Settled(t: Task)
  {
    !t.phase.Charged? && !t.phase.OnRedis?
  }

  /** A step keeps the calls there are, and what they charged; a settled call stays as it is. */
  lemma StepKeepsTask(s: State, step: Step, id: nat)
    requires Enabled(s, step) && id < |s.tasks|
    ensures id < |Next(s, step).tasks|
    ensures Next(s, step).tasks[id].call == s.tasks[id].call && Next(s, step).tasks[id].local == s.tasks[id].local
    ensures Settled(s.tasks[id]) || step.Arrive? || step.id != id ==> Next(s, step).tasks[id] == s.tasks[id]
  {
  }

  lemma {:induction false} RunKeepsTask(s: State, steps: seq<Step>, n: nat, id: nat)
    requires Exec(s, steps).Some? && n <= |steps| && Exec(s, steps[..n]).Some? && id < |Exec(s, steps[..n]).value.tasks|
    ensures var a, b := Exec(s, steps[..n]).value.tasks, Exec(s, steps).value.tasks;
            id < |b| && b[id].call == a[id].call && b[id].local == a[id].local && (Settled(a[id]) ==> b[id] == a[id])
    decreases |steps|
  {
    if n < |steps| {
      var m := |steps| - 1;
      ExecPrefix(s, steps, m);
      assert steps[..m][..n] == steps[..n];
      assert steps[..m + 1] == steps;
      RunKeepsTask(s, steps[..m], n, id);
      StepKeepsTask(Exec(s, steps[..m]).value, steps[m], id);
    } else {
      assert steps[..n] == steps;
    }
  }

  // ---------------------------------------------------------------------------------------
  // Calls that Redis answers
  // ---------------------------------------------------------------------------------------

  /** Step `n` is Redis's answer to call `id`. */
  predicate AnswersCall(steps: seq<Step>, n: int, id: nat)
  {
    0 <= n < |steps| && steps[n].Answered? && steps[n].id == id
  }

  lemma AnswerSettles(s: State, step: Step)
    requires Enabled(s, step) && step.Answered?
    ensures step.id < |Next(s, step).tasks| && Next(s, step).tasks[step.id].phase.ByRedis?
    ensures PassesUpTo(Next(s, step).tasks[step.id].phase.verdict, step.count, s.tasks[step.id].call.policy.limit,
                       step.ttl)
  {
  }

  /** Whatever else happens, a call that Redis answers ends with the verdict of the answered count. */
  lemma AnsweredVerdict(start: State, steps: seq<Step>, s: State, n: int, id: nat)
    requires Exec(start, steps) == Some(s) && AnswersCall(steps, n, id)
    ensures id < |s.tasks| && s.tasks[id].phase.ByRedis?
    ensures PassesUpTo(s.tasks[id].phase.verdict, steps[n].count, s.tasks[id].call.policy.limit, steps[n].ttl)
  {
    ExecPrefix(start, steps, n);
    var before := Exec(start, steps[..n]).value;
    AnswerSettles(before, steps[n]);
    StepKeepsTask(before, steps[n], id);
    RunKeepsTask(start, steps, n + 1, id);
  }

  /** Only an answer gives a call a verdict of Redis. */
  lemma {:induction false} VerdictWasAnswered(optional: bool, cap: nat, steps: seq<Step>, s: State, id: nat)
    returns (n: int)
    requires Exec(Start(optional, cap), steps) == Some(s) && id < |s.tasks| && s.tasks[id].phase.ByRedis?
    ensures AnswersCall(steps, n, id)
  {
    var m := |steps| - 1;
    ExecPrefix(Start(optional, cap), steps, m);
    assert steps[..m + 1] == steps;
    var before := Exec(Start(optional, cap), steps[..m]).value;
    if AnswersCall(steps, m, id) {
      n := m;
    } else {
      VerdictIsOld(before, steps[m], id);
      n := VerdictWasAnswered(optional, cap, steps[..m], before, id);
    }
  }

  lemma VerdictIsOld(s: State, step: Step, id: nat)
    requires Enabled(s, step) && id < |Next(s, step).tasks| && Next(s, step).tasks[id].phase.ByRedis?
    requires !(step.Answered? && step.id == id)
    ensures id < |s.tasks| && s.tasks[id].phase.ByRedis?
  {
  }

  /** A call is let through on Redis's word exactly when Redis answered it with a count up to its limit. */
  lemma LetThroughByRedisExactlyWhen(optional: bool, cap: nat, steps: seq<Step>, s: State, id: nat)
    requires Exec(Start(optional, cap), steps) == Some(s) && id < |s.tasks|
    ensures s.tasks[id].phase == ByRedis(Admit) <==>
            exists n :: AnswersCall(steps, n, id) && steps[n].count <= s.tasks[id].call.policy.limit
  {
    if s.tasks[id].phase == ByRedis(Admit) {
      var n := VerdictWasAnswered(optional, cap, steps, s, id);
      AnsweredVerdict(Start(optional, cap), steps, s, n, id);
    }
    if n :| AnswersCall(steps, n, id) && steps[n].count <= s.tasks[id].call.policy.limit {
      AnsweredVerdict(Start(optional, cap), steps, s, n, id);
    }
  }

  predicate AnswersOneOf(steps: seq<Step>, n: int, ids: set<nat>)
  {
    0 <= n < |steps| && steps[n].Answered? && steps[n].id in ids
  }

  /** Redis counts the calls of one window from one on, so no two of them get the same count. */
  ghost predicate CountedApart(steps: seq<Step>, ids: set<nat>)
  {
    && (forall n :: AnswersOneOf(steps, n, ids) ==> steps[n].count > 0)
    && (forall m, n :: AnswersOneOf(steps, m, ids) && AnswersOneOf(steps, n, ids) && steps[m].id != steps[n].id ==>
          steps[m].count != steps[n].count)
  }

  /** Of the calls Redis counts in one window it lets through at most the limit. */
  lemma RedisBudget(optional: bool, cap: nat, steps: seq<Step>, s: State, ids: set<nat>, limit: nat)
    requires Exec(Start(optional, cap), steps) == Some(s) && CountedApart(steps, ids)
    requires forall id :: id in ids ==>
               id < |s.tasks| && s.tasks[id].call.policy.limit == limit && s.tasks[id].phase == ByRedis(Admit)
    ensures |ids| <= limit
  {
    var counts := CountsOf(optional, cap, steps, s, ids, limit);
    UpToLimit(counts, limit);
  }

  /** The counts that let the calls through, as many as there are calls. */
  lemma {:induction false} CountsOf(optional: bool, cap: nat, steps: seq<Step>, s: State, ids: set<nat>, limit: nat)
    returns (counts: set<nat>)
    requires Exec(Start(optional, cap), steps) == Some(s) && CountedApart(steps, ids)
    requires forall id :: id in ids ==>
               id < |s.tasks| && s.tasks[id].call.policy.limit == limit && s.tasks[id].phase == ByRedis(Admit)
    ensures |counts| == |ids| && forall c :: c in counts ==> 1 <= c <= limit
    ensures forall c :: c in counts ==>
              exists n :: AnswersOneOf(steps, n, ids) && steps[n].count == c
    decreases |ids|
  {
    counts := {};
    if id :| id in ids {
      var rest := ids - {id};
      assert forall i :: AnswersOneOf(steps, i, rest) ==> AnswersOneOf(steps, i, ids);
      var others := CountsOf(optional, cap, steps, s, rest, limit);
      var n := VerdictWasAnswered(optional, cap, steps, s, id);
      AnsweredVerdict(Start(optional, cap), steps, s, n, id);
      assert AnswersOneOf(steps, n, ids);
      counts := others + {steps[n].count};
    }
  }

  lemma {:induction false} UpToLimit(counts: set<nat>, limit: nat)
    requires forall c :: c in counts ==> 1 <= c <= limit
    ensures |counts| <= limit
    decreases limit
  {
    if limit > 0 {
      UpToLimit(counts - {limit}, limit - 1);
    } else {
      assert counts == {};
    }
  }

  // ---------------------------------------------------------------------------------------
  // Calls decided without Redis
  // ---------------------------------------------------------------------------------------

  lemma LatestHolds(tasks: seq<Task>, cap: nat)
    requires cap > 0 && AllHold(tasks, cap) && tasks != []
    ensures HoldsItsAnswer(tasks, cap) && AllHold(tasks[..|tasks| - 1], cap)
  {
  }

  lemma {:induction false} HeldAt(tasks: seq<Task>, cap: nat, first: seq<Task>)
    requires cap > 0 && AllHold(tasks, cap) && first != [] && first <= tasks
    ensures HoldsItsAnswer(first, cap)
  {
    LatestHolds(tasks, cap);
    if first != tasks { HeldAt(tasks[..|tasks| - 1], cap, first); }
  }

  lemma JudgeUpTo(result: Outcome, p: Policy)
    ensures PassesUpTo(Judge(result, p), result.count, p.limit, result.ttl)
  {
  }

  lemma LastVerdict(first: seq<Task>, cap: nat, t: Task)
    requires cap > 0 && first != [] && HoldsItsAnswer(first, cap) && t == first[|first| - 1] && t.phase.ByLocal?
    ensures Calls(first) != []
    ensures var charged := Answer(Calls(first), cap);
            PassesUpTo(t.phase.verdict, charged.count, t.call.policy.limit, charged.ttl)
  {
    JudgeUpTo(t.local.value, t.call.policy);
  }

  lemma HeldVerdict(tasks: seq<Task>, cap: nat, first: seq<Task>, t: Task)
    requires cap > 0 && AllHold(tasks, cap) && first != [] && first <= tasks
    requires t == first[|first| - 1] && t.phase.ByLocal?
    ensures Calls(first) != []
    ensures var charged := Answer(Calls(first), cap);
            PassesUpTo(t.phase.verdict, charged.count, t.call.policy.limit, charged.ttl)
  {
    HeldAt(tasks, cap, first);
    LastVerdict(first, cap, t);
  }

  /** A call decided locally is let through exactly when the count its arrival was charged, after the calls
      that arrived before it, is within its limit; a refusal announces the wait of that charge. `first` are the
      calls up to and with it. */
  lemma LocalVerdict(cap: nat, steps: seq<Step>, s: State, id: nat, first: seq<Task>)
    requires Reaches(cap, steps, s) && id < |s.tasks| && s.tasks[id].phase.ByLocal? && first == s.tasks[..id + 1]
    ensures Calls(first) != []
    ensures var charged := Answer(Calls(first), cap);
            PassesUpTo(s.tasks[id].phase.verdict, charged.count, s.tasks[id].call.policy.limit, charged.ttl)
  {
    TasksHold(cap, steps, s);
    HeldVerdict(s.tasks, cap, first, s.tasks[id]);
  }

  predicate FailsCall(steps: seq<Step>, n: int, id: nat)
  {
    0 <= n < |steps| && steps[n].Failed? && steps[n].id == id
  }

  /** When Redis is required a failure is an answer by the policy alone: refused as unavailable when the
      policy fails closed, let through when it fails open. */
  predicate ByPolicy(t: Task)
  {
    t.phase == ByFailure(if t.call.policy.failClosed then Unavailable else Admit)
  }

  lemma FailureSettles(s: State, step: Step)
    requires Enabled(s, step) && step.Failed?
    ensures step.id < |Next(s, step).tasks|
    ensures if s.optional then Next(s, step).tasks[step.id].phase.ByLocal? else ByPolicy(Next(s, step).tasks[step.id])
  {
  }

  lemma {:induction false} OptionalIsFixed(start: State, steps: seq<Step>)
    requires Exec(start, steps).Some?
    ensures Exec(start, steps).value.optional == start.optional
  {
    if steps != [] { OptionalIsFixed(start, steps[..|steps| - 1]); }
  }

  /** A call whose Redis call fails is decided by its local charge when Redis is optional, and by its policy
      when Redis is required. */
  lemma FailedVerdict(start: State, steps: seq<Step>, s: State, n: int, id: nat)
    requires Exec(start, steps) == Some(s) && FailsCall(steps, n, id)
    ensures id < |s.tasks|
    ensures if start.optional then s.tasks[id].phase.ByLocal? else ByPolicy(s.tasks[id])
  {
    ExecPrefix(start, steps, n);
    OptionalIsFixed(start, steps[..n]);
    var before := Exec(start, steps[..n]).value;
    FailureSettles(before, steps[n]);
    StepKeepsTask(before, steps[n], id);
    RunKeepsTask(start, steps, n + 1, id);
  }

  lemma FailureIsOld(s: State, step: Step, id: nat)
    requires Enabled(s, step) && id < |Next(s, step).tasks| && Next(s, step).tasks[id].phase.ByFailure?
    requires !(step.Failed? && step.id == id && !s.optional)
    ensures id < |s.tasks| && s.tasks[id].phase.ByFailure?
  {
  }

  /** Only a failure while Redis is required leaves the verdict to the policy. */
  lemma {:induction false} PolicyDecidesOnlyFailures(optional: bool, cap: nat, steps: seq<Step>, s: State, id: nat)
    returns (n: int)
    requires Exec(Start(optional, cap), steps) == Some(s) && id < |s.tasks| && s.tasks[id].phase.ByFailure?
    ensures FailsCall(steps, n, id) && !optional && ByPolicy(s.tasks[id])
  {
    var m := |steps| - 1;
    ExecPrefix(Start(optional, cap), steps, m);
    assert steps[..m + 1] == steps;
    var before := Exec(Start(optional, cap), steps[..m]).value;
    OptionalIsFixed(Start(optional, cap), steps[..m]);
    if FailsCall(steps, m, id) && !before.optional {
      n := m;
    } else {
      FailureIsOld(before, steps[m], id);
      n := PolicyDecidesOnlyFailures(optional, cap, steps[..m], before, id);
    }
    FailedVerdict(Start(optional, cap), steps, s, n, id);
  }

  lemma CancelIsOld(s: State, step: Step, id: nat)
    requires Enabled(s, step) && id < |Next(s, step).tasks| && Next(s, step).tasks[id].phase.Cancelled?
    requires step != Cancel(id)
    ensures id < |s.tasks| && s.tasks[id].phase.Cancelled?
  {
  }

  /** Only its own cancellation leaves a call without a verdict. */
  lemma {:induction false} OnlyCancelsCancel(optional: bool, cap: nat, steps: seq<Step>, s: State, id: nat)
    requires Exec(Start(optional, cap), steps) == Some(s) && id < |s.tasks| && s.tasks[id].phase.Cancelled?
    ensures Cancel(id) in steps
  {
    var m := |steps| - 1;
    ExecPrefix(Start(optional, cap), steps, m);
    assert steps[..m + 1] == steps;
    var before := Exec(Start(optional, cap), steps[..m]).value;
    if steps[m] != Cancel(id) {
      CancelIsOld(before, steps[m], id);
      OnlyCancelsCancel(optional, cap, steps[..m], before, id);
    }
  }
}
