/** What a learner's attempt comes to: its deadline, its marks and whether it passes, told from the fields of
    the quiz and the attempt, and what a completed lesson therefore proves. */
module LearnerOutcomes {
  import opened Common
  import opened LearnerModel
  import opened LearnerRuns
  import G = Grading
  import W = Watch

  // ---------------------------------------------------------------------------------------
  // Results
  // ---------------------------------------------------------------------------------------

  /** The score reaches the passing share of the points; an empty quiz only a share of nothing. */
  predicate Reaches(score: G.Score, passing: nat)
  {
    score.earned * 100 >= passing * score.maximum && (score.maximum == 0 ==> passing == 0)
  }

  predicate FairMark(q: G.Question, mark: G.Mark)
  {
    mark.question == q.id && mark.max == q.points && mark.earned == if mark.correct then q.points else 0
  }

  /** Every question is marked once, the points add up, and the attempt passed exactly when it reached the
      quiz's share; it was in time, and its seconds are whole server seconds since its start. */
  ghost predicate FairResult(q: Quiz, x: Attempt, p: Payload)
  {
    && p.passing == q.passing && |p.score.marks| == |q.questions|
    && (forall i :: 0 <= i < |q.questions| ==> FairMark(q.questions[i], p.score.marks[i]))
    && p.score.earned == G.Earned(p.score.marks) && p.score.maximum == G.MaxPoints(q.questions)
    && (p.passed <==> Reaches(p.score, q.passing))
    && (x.expiresAt.Some? ==> p.submittedAt <= x.expiresAt.value)
    && (if p.submittedAt < x.startedAt then p.seconds == 0
        else p.seconds as real <= p.submittedAt - x.startedAt < p.seconds as real + 1.0)
  }

  /** The deadline is the time limit after the start, if the quiz has a limit; only an attempt with a deadline
      ever expires. */
  ghost predicate Fair(c: Content, x: Attempt)
  {
    && x.assessment in c.quizzes
    && var q := c.quizzes[x.assessment];
       && (x.expiresAt.None? <==> q.limit.None? || q.limit.value == 0)
       && (x.expiresAt.Some? ==> x.expiresAt.value - x.startedAt == q.limit.value as real)
       && (x.status == AttemptExpired ==> x.expiresAt.Some?)
       && (x.result.Some? ==> FairResult(q, x, x.result.value))
  }

  ghost predicate AllFair(c: Content, attempts: map<Id, Attempt>)
  {
    forall i :: i in attempts ==> Fair(c, attempts[i])
  }

  lemma PassMark(earned: nat, maximum: nat, passing: nat)
    requires maximum > 0
    ensures (earned * 100) as real / maximum as real >= passing as real <==> earned * 100 >= passing * maximum
  {
    var p := (earned * 100) as real / maximum as real;
    assert p * maximum as real == (earned * 100) as real;
    assert p >= passing as real ==> p * maximum as real >= passing as real * maximum as real;
    assert p < passing as real ==> p * maximum as real < passing as real * maximum as real;
    assert passing as real * maximum as real == (passing * maximum) as real;
  }

  lemma PercentagePasses(score: G.Score, passing: nat)
    ensures G.Percentage(score) >= passing as real <==> Reaches(score, passing)
  {
    if score.maximum > 0 { PassMark(score.earned, score.maximum, passing); }
  }

  lemma ResultIsFair(q: Quiz, a: string, id: Id, x: Attempt, answers: seq<G.Answer>, now: real)
    requires x.expiresAt.Some? ==> now <= x.expiresAt.value
    ensures FairResult(q, x, PayloadOf(q, a, id, x, answers, now))
  {
    PercentagePasses(G.Scored(q.questions, answers), q.passing);
  }

  // ---------------------------------------------------------------------------------------
  // Every reachable state
  // ---------------------------------------------------------------------------------------

  lemma {:induction false} SyncKeepsAttempts(c: Content, course: string, st: State, ms: seq<Mutation>)
    ensures SyncAll(c, course, st, ms).Ok? ==> SyncAll(c, course, st, ms).value.attempts == st.attempts
  {
    if ms != [] { SyncKeepsAttempts(c, course, st, ms[..|ms| - 1]); }
  }

  lemma StartIsFair(c: Content, st: State, a: string, allowed: bool, now: real)
    requires AllFair(c, st.attempts)
    ensures AllFair(c, Committed(st, StartAttempt(c, st, a, allowed, now)).attempts)
  {
  }

  lemma ResumeIsFair(c: Content, st: State, a: string, x: Id, now: real)
    requires AllFair(c, st.attempts)
    ensures AllFair(c, Committed(st, ResumeAttempt(st, a, x, now)).attempts)
  {
  }

  lemma GradedIsFair(c: Content, st: State, a: string, x: Id, answers: seq<G.Answer>, now: real)
    requires AllFair(c, st.attempts) && x in st.attempts && st.attempts[x].assessment == a && a in c.quizzes
    requires st.attempts[x].status == InProgress
    requires st.attempts[x].expiresAt.Some? ==> now <= st.attempts[x].expiresAt.value
    ensures AllFair(c, GradeSubmission(c, st, a, x, answers, now).0.attempts)
  {
    ResultIsFair(c.quizzes[a], a, x, st.attempts[x], answers, now);
  }

  lemma SubmitIsFair(c: Content, st: State, a: string, x: Id, body: Submission, key: Option<string>, now: real)
    requires AllFair(c, st.attempts)
    ensures AllFair(c, Submit(c, st, a, x, body, key, now).0.attempts)
  {
    if x in st.attempts && a in c.quizzes && st.attempts[x].assessment == a && st.attempts[x].status == InProgress {
      assert Fair(c, st.attempts[x]);
      if st.attempts[x].expiresAt.Some? ==> now <= st.attempts[x].expiresAt.value {
        GradedIsFair(c, st, a, x, body.answers, now);
      }
    }
  }

  lemma StepIsFair(c: Content, st: State, op: Op)
    requires AllFair(c, st.attempts)
    ensures AllFair(c, Step(c, st, op).attempts)
  {
    match op {
      case DoSync(course, _, ms) => SyncKeepsAttempts(c, course, st, ms);
      case DoStart(a, allowed, now) => StartIsFair(c, st, a, allowed, now);
      case DoResume(a, x, now) => ResumeIsFair(c, st, a, x, now);
      case DoSubmit(a, x, body, key, now) => SubmitIsFair(c, st, a, x, body, key, now);
      case DoGetWatch(_, _, _) =>
      case DoSaveWatch(_, _, _, _) =>
    }
  }

  lemma {:induction false} RunIsFair(c: Content, ops: seq<Op>)
    ensures AllFair(c, Run(c, Empty(), ops).attempts)
  {
    if ops != [] {
      RunIsFair(c, ops[..|ops| - 1]);
      StepIsFair(c, Run(c, Empty(), ops[..|ops| - 1]), ops[|ops| - 1]);
    }
  }

  /** In every reachable state a submitted attempt has passed exactly when its points reach the quiz's passing
      share of the maximum; it was submitted by its deadline, which is the time limit after its start. */
  lemma PassedExactlyWhen(c: Content, ops: seq<Op>, x: Id)
    requires x in Run(c, Empty(), ops).attempts
    ensures var attempt := Run(c, Empty(), ops).attempts[x];
            && Fair(c, attempt)
            && (attempt.status == Submitted <==> attempt.result.Some?)
            && (attempt.status == Submitted ==>
                FairResult(c.quizzes[attempt.assessment], attempt, attempt.result.value))
  {
    RunIsFair(c, ops);
    EmptyIsSound(c);
    RunKeeps(c, Empty(), ops);
    assert Graded(x, Run(c, Empty(), ops).attempts[x]);
  }

  /** A completed lesson proves what its published items ask for: for a quiz a submitted attempt that reached
      its passing share. */
  lemma CompletedLessonsReachTheShare(c: Content, ops: seq<Op>, lesson: string, i: string) returns (x: Id)
    requires lesson in Run(c, Empty(), ops).progress && Run(c, Empty(), ops).progress[lesson].completed
    requires i in c.items && c.items[i].lesson == lesson && c.items[i].published && c.items[i].kind == QuizItem
    ensures var st := Run(c, Empty(), ops);
            && x in st.attempts && Some(st.attempts[x].assessment) == c.items[i].assessment
            && st.attempts[x].status == Submitted && st.attempts[x].result.Some?
            && st.attempts[x].assessment in c.quizzes
            && Reaches(st.attempts[x].result.value.score, c.quizzes[st.attempts[x].assessment].passing)
  {
    var st := Run(c, Empty(), ops);
    CompletedLessonsPassTheGate(c, ops, lesson);
    assert i in Published(c, lesson, QuizItem);
    x :| x in st.attempts && Passes(st.attempts[x], c.items[i].assessment);
    PassedExactlyWhen(c, ops, x);
  }

  /** ... for a video its own HLS asset, watched to 95 percent. */
  lemma CompletedLessonsAreWatched(c: Content, ops: seq<Op>, lesson: string, i: string) returns (asset: string)
    requires lesson in Run(c, Empty(), ops).progress && Run(c, Empty(), ops).progress[lesson].completed
    requires i in c.items && c.items[i].lesson == lesson && c.items[i].published && c.items[i].kind == VideoItem
    ensures asset in c.assets && c.assets[asset].item == Some(i) && c.items[i].reference == Some(asset)
    ensures c.assets[asset].hls && WatchDuration(c, asset, true).Ok?
    ensures var st := Run(c, Empty(), ops);
            asset in st.watched && st.watched[asset].completed &&
            st.watched[asset].furthest >= 0.95 * WatchDuration(c, asset, true).value
  {
    var st := Run(c, Empty(), ops);
    CompletedLessonsPassTheGate(c, ops, lesson);
    assert i in Published(c, lesson, VideoItem);
    asset :| asset in c.assets && Plays(c, i, asset) && HasWatched(st.watched, asset);
    EmptyIsSound(c);
    RunKeeps(c, Empty(), ops);
    assert WatchSound(c, asset, st.watched[asset]);
  }

  /** ... and without any item, its own video, if it is a video lesson that has one. */
  lemma CompletedLegacyLessonsAreWatched(c: Content, ops: seq<Op>, lesson: string)
    requires lesson in Run(c, Empty(), ops).progress && Run(c, Empty(), ops).progress[lesson].completed
    requires lesson in c.lessons && c.lessons[lesson].kind == VideoLesson
    requires forall i :: i in c.items ==> c.items[i].lesson != lesson
    requires var asset := c.lessons[lesson].ref;
             asset in c.assets && c.assets[asset].lesson == lesson && c.assets[asset].hls
    ensures var st, asset := Run(c, Empty(), ops), c.lessons[lesson].ref;
            asset in st.watched && st.watched[asset].completed
  {
    CompletedLessonsPassTheGate(c, ops, lesson);
    assert IsLegacyVideo(c, lesson, c.lessons[lesson].ref);
  }

  // ---------------------------------------------------------------------------------------
  // Deadlines
  // ---------------------------------------------------------------------------------------

  /** The attempt is in progress and its deadline has come. */
  predicate Overdue(x: Attempt, now: real)
  {
    x.status == InProgress && x.expiresAt.Some? && x.expiresAt.value <= now
  }

  /** Resuming expires the attempt exactly when it is overdue, and changes nothing else. */
  lemma ResumedExpiresExactlyWhen(c: Content, st: State, a: string, x: Id, now: real, i: Id)
    requires i in st.attempts
    ensures var after := Step(c, st, DoResume(a, x, now));
            && after.attempts.Keys == st.attempts.Keys
            && after.attempts[i] == (if i == x && st.attempts[x].assessment == a && Overdue(st.attempts[x], now)
                                     then st.attempts[i].(status := AttemptExpired) else st.attempts[i])
            && after == st.(attempts := after.attempts)
  {
  }
}
