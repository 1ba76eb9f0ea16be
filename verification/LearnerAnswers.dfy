/** When a learner's requests are accepted, with which code they are refused, and what they change, told from
    the fields of the request, the content and the learner's rows. */
module LearnerAnswers {
  import opened Common
  import opened LearnerModel
  import opened LearnerOutcomes
  import G = Grading
  import W = Watch

  // ---------------------------------------------------------------------------------------
  // Answers to a submission
  // ---------------------------------------------------------------------------------------

  /** The request carries a usable idempotency key and speaks of the attempt of the URL. */
  predicate Addressed(x: Id, body: Submission, key: Option<string>)
  {
    key.Some? && 1 <= |key.value| <= 120 && body.attempt == x
  }

  /** No earlier request under the key settles this one. */
  predicate Unsettled(st: State, x: Id, body: Submission, key: Option<string>)
  {
    Addressed(x, body, key) &&
    ((x, key.value) in st.records ==>
       st.records[(x, key.value)].request == body && st.records[(x, key.value)].response.None?)
  }

  predicate Known(c: Content, st: State, a: string, x: Id)
  {
    x in st.attempts && a in c.quizzes && st.attempts[x].assessment == a
  }

  /** An attempt that is in progress and, one instant later at most, past its deadline. */
  predicate Late(x: Attempt, now: real)
  {
    x.status == InProgress && x.expiresAt.Some? && x.expiresAt.value < now
  }

  predicate InTime(x: Attempt, now: real)
  {
    x.status == InProgress && (x.expiresAt.Some? ==> now <= x.expiresAt.value)
  }

  /** Why a submission gets the answer it gets. */
  predicate Deserves(c: Content, st: State, a: string, x: Id, body: Submission, key: Option<string>, now: real,
                     answer: Result<Payload, Code>)
  {
    match answer
    case Err(KeyRequired) => key.None? || |key.value| == 0 || |key.value| > 120
    case Err(InvalidAttempt) => key.Some? && 1 <= |key.value| <= 120 && body.attempt != x
    case Err(IdempotencyConflict) =>
      Addressed(x, body, key) && (x, key.value) in st.records && st.records[(x, key.value)].request != body
    case Err(NotFound) => Unsettled(st, x, body, key) && !Known(c, st, a, x)
    case Err(AttemptFinalized) =>
      Unsettled(st, x, body, key) && Known(c, st, a, x) && st.attempts[x].status != InProgress
    case Err(DeadlinePassed) => Unsettled(st, x, body, key) && Known(c, st, a, x) && Late(st.attempts[x], now)
    case Err(InvalidAnswer) =>
      Unsettled(st, x, body, key) && Known(c, st, a, x) && InTime(st.attempts[x], now) &&
      !G.Accepts(c.quizzes[a].questions, body.answers)
    case Err(_) => false
    case Ok(p) =>
      (Addressed(x, body, key) && (x, key.value) in st.records && st.records[(x, key.value)] == Record(body, Some(p)))
      || (Unsettled(st, x, body, key) && Known(c, st, a, x) && InTime(st.attempts[x], now)
          && G.Accepts(c.quizzes[a].questions, body.answers))
  }

  predicate SameAnswer(a: Result<Payload, Code>, b: Result<Payload, Code>)
  {
    a == b || (a.Ok? && b.Ok?)
  }

  lemma OneReason(c: Content, st: State, a: string, x: Id, body: Submission, key: Option<string>, now: real,
                  one: Result<Payload, Code>, two: Result<Payload, Code>)
    requires Deserves(c, st, a, x, body, key, now, one) && Deserves(c, st, a, x, body, key, now, two)
    ensures SameAnswer(one, two)
  {
  }

  lemma AnswerIsDeserved(c: Content, st: State, a: string, x: Id, body: Submission, key: Option<string>, now: real)
    ensures Deserves(c, st, a, x, body, key, now, Submit(c, st, a, x, body, key, now).1)
  {
  }

  /** Exactly when a submission succeeds, and exactly when it is refused with each code. */
  lemma AnsweredExactlyWhen(c: Content, st: State, a: string, x: Id, body: Submission, key: Option<string>, now: real,
                            answer: Result<Payload, Code>)
    ensures Deserves(c, st, a, x, body, key, now, Submit(c, st, a, x, body, key, now).1)
    ensures Deserves(c, st, a, x, body, key, now, answer) ==>
            SameAnswer(Submit(c, st, a, x, body, key, now).1, answer)
  {
    var given := Submit(c, st, a, x, body, key, now).1;
    AnswerIsDeserved(c, st, a, x, body, key, now);
    if Deserves(c, st, a, x, body, key, now, answer) { OneReason(c, st, a, x, body, key, now, given, answer); }
  }

  // ---------------------------------------------------------------------------------------
  // The gate
  // ---------------------------------------------------------------------------------------

  /** Some submitted attempt at the item's assessment has passed. */
  predicate QuizDone(st: State, item: Item)
  {
    exists x ::
      && x in st.attempts && item.assessment == Some(st.attempts[x].assessment) && st.attempts[x].status == Submitted
      && st.attempts[x].result.Some? && st.attempts[x].result.value.passed
  }

  /** The item's video is watched: the HLS asset that names the item and that the item names. */
  predicate VideoDone(c: Content, st: State, i: string)
    requires i in c.items
  {
    c.items[i].reference.Some? &&
    var v := c.items[i].reference.value;
    v in c.assets && c.assets[v].item == Some(i) && c.assets[v].hls && v in st.watched && st.watched[v].completed
  }

  predicate ItemDone(c: Content, st: State, i: string)
    requires i in c.items
  {
    match c.items[i].kind
    case QuizItem => QuizDone(st, c.items[i])
    case VideoItem => VideoDone(c, st, i)
    case _ => true
  }

  /** The lesson's own video, if it has one of its own, is watched. */
  predicate OwnVideoDone(c: Content, st: State, lesson: string)
  {
    lesson in c.lessons && c.lessons[lesson].kind == VideoLesson ==>
      var v := c.lessons[lesson].ref;
      v in c.assets && c.assets[v].lesson == lesson && c.assets[v].hls ==> v in st.watched && st.watched[v].completed
  }

  predicate Bare(c: Content, lesson: string)
  {
    forall i :: i in c.items ==> c.items[i].lesson != lesson
  }

  /** The gate is open exactly when every published item of the lesson is done, and for a lesson without items
      its own video. */
  lemma GateOpensExactlyWhen(c: Content, st: State, lesson: string)
    ensures GateOf(c, st, lesson) <==>
            && (forall i :: i in c.items && c.items[i].lesson == lesson && c.items[i].published ==> ItemDone(c, st, i))
            && (Bare(c, lesson) ==> OwnVideoDone(c, st, lesson))
  {
    assert Bare(c, lesson) <==> !HasItems(c, lesson);
    OwnVideo(c, st, lesson);
    if GateOf(c, st, lesson) {
      forall i | i in c.items && c.items[i].lesson == lesson && c.items[i].published ensures ItemDone(c, st, i) {
        assert c.items[i].kind == QuizItem ==> i in Published(c, lesson, QuizItem);
        assert c.items[i].kind == VideoItem ==> i in Published(c, lesson, VideoItem);
        QuizIsPassed(st, c.items[i]);
        VideoIsWatched(c, st, i);
      }
    }
    forall i | i in c.items && c.items[i].lesson == lesson && c.items[i].published && ItemDone(c, st, i)
      ensures i in Published(c, lesson, QuizItem) ==> HasPassed(st.attempts, c.items[i].assessment)
      ensures i in Published(c, lesson, VideoItem) ==>
              exists a :: a in c.assets && Plays(c, i, a) && HasWatched(st.watched, a)
    {
      QuizIsPassed(st, c.items[i]);
      VideoIsWatched(c, st, i);
    }
  }

  lemma QuizIsPassed(st: State, item: Item)
    ensures QuizDone(st, item) <==> HasPassed(st.attempts, item.assessment)
  {
    if x :| x in st.attempts && Passes(st.attempts[x], item.assessment) { assert QuizDone(st, item); }
    if QuizDone(st, item) {
      var x :|
        && x in st.attempts && item.assessment == Some(st.attempts[x].assessment) && st.attempts[x].status == Submitted
        && st.attempts[x].result.Some? && st.attempts[x].result.value.passed;
      assert Passes(st.attempts[x], item.assessment);
    }
  }

  lemma VideoIsWatched(c: Content, st: State, i: string)
    requires i in c.items
    ensures VideoDone(c, st, i) <==> exists a :: a in c.assets && Plays(c, i, a) && HasWatched(st.watched, a)
  {
    if VideoDone(c, st, i) { assert Plays(c, i, c.items[i].reference.value); }
  }

  lemma OwnVideo(c: Content, st: State, lesson: string)
    ensures OwnVideoDone(c, st, lesson) <==>
            forall a :: a in c.assets && IsLegacyVideo(c, lesson, a) ==> HasWatched(st.watched, a)
  {
    if lesson in c.lessons && c.lessons[lesson].ref in c.assets && IsLegacyVideo(c, lesson, c.lessons[lesson].ref) {}
  }

  // ---------------------------------------------------------------------------------------
  // Progress mutations
  // ---------------------------------------------------------------------------------------

  predicate InCourse(c: Content, course: string, lesson: string)
  {
    lesson in c.lessons && c.lessons[lesson].course == course
  }

  /** The mutation asks for a completion that only the server may give: of a quiz lesson without items, or of a
      lesson whose gate is closed. */
  predicate OnlyServerCompletes(c: Content, st: State, m: Mutation)
    requires m.lesson in c.lessons
  {
    m.kind == "completion" &&
    ((c.lessons[m.lesson].kind == QuizLesson && Bare(c, m.lesson)) || (m.completed && !GateOf(c, st, m.lesson)))
  }

  predicate MutationDeserves(c: Content, course: string, st: State, m: Mutation, answer: Result<State, Code>)
  {
    match answer
    case Err(InvalidResource) => !InCourse(c, course, m.lesson)
    case Err(ServerCompletionRequired) => InCourse(c, course, m.lesson) && OnlyServerCompletes(c, st, m)
    case Err(IdempotencyConflict) =>
      InCourse(c, course, m.lesson) && !OnlyServerCompletes(c, st, m) && m.id in st.mutations && st.mutations[m.id] != m
    case Err(_) => false
    case Ok(after) =>
      && InCourse(c, course, m.lesson) && !OnlyServerCompletes(c, st, m)
      && (m.id in st.mutations ==> st.mutations[m.id] == m && after == st)
      && (m.id !in st.mutations ==> Merged(st, m, after))
  }

  /** The mutation is on record and its lesson's row holds the larger duration, a position within it, and is
      completed if it was or the mutation completes it; nothing else changed. */
  predicate Merged(st: State, m: Mutation, after: State)
  {
    && after.mutations == st.mutations[m.id := m] && m.lesson in after.progress
    && after == st.(progress := st.progress[m.lesson := after.progress[m.lesson]], mutations := after.mutations)
    && var was := if m.lesson in st.progress then st.progress[m.lesson] else Row(0, 0, false, 0);
       var row := after.progress[m.lesson];
       && row.duration >= was.duration && row.duration >= m.duration
       && (row.duration == was.duration || row.duration == m.duration)
       && (row.position == row.duration || row.position == was.position || row.position == m.position)
       && row.position <= row.duration
       && (row.position == row.duration || (row.position >= was.position && row.position >= m.position))
       && (row.position == row.duration ==> was.position >= row.duration || m.position >= row.duration)
       && (row.completed <==> was.completed || (m.kind == "completion" && m.completed))
       && row.revision == was.revision + 1
  }

  /** Exactly when a mutation is merged, silently repeated, or refused with each code. */
  lemma MutationAnswer(c: Content, course: string, st: State, m: Mutation)
    ensures MutationDeserves(c, course, st, m, ApplyMutation(c, course, st, m))
  {
    assert Bare(c, m.lesson) <==> !HasItems(c, m.lesson);
  }

  // ---------------------------------------------------------------------------------------
  // Starting an attempt
  // ---------------------------------------------------------------------------------------

  /** An attempt starts exactly when its quiz is published, the learner has access and an attempt is left; it is
      numbered after the earlier ones and changes nothing else. */
  lemma StartAnswer(c: Content, st: State, a: string, allowed: bool, now: real)
    ensures match StartAttempt(c, st, a, allowed, now)
            case Err(code) =>
              && (code == NotFound <==> !(a in c.quizzes && c.quizzes[a].published))
              && (code == AccessDenied <==> a in c.quizzes && c.quizzes[a].published && !allowed)
              && (code == AttemptLimitReached <==>
                  a in c.quizzes && c.quizzes[a].published && allowed &&
                  |set i | i in st.attempts && st.attempts[i].assessment == a| >= c.quizzes[a].maxAttempts)
              && (code == NotFound || code == AccessDenied || code == AttemptLimitReached)
            case Ok(after) =>
              && a in c.quizzes && c.quizzes[a].published && allowed
              && var taken := |set i | i in st.attempts && st.attempts[i].assessment == a|;
                 && taken < c.quizzes[a].maxAttempts && st.next in after.attempts
                 && after == st.(attempts := st.attempts[st.next := after.attempts[st.next]], next := st.next + 1)
                 && var x := after.attempts[st.next];
                    x.assessment == a && x.number == taken + 1 && x.status == InProgress && x.startedAt == now &&
                    x.result.None?
  {
    assert AttemptsAt(st, a) == set i | i in st.attempts && st.attempts[i].assessment == a;
  }

  // ---------------------------------------------------------------------------------------
  // What a pass completes
  // ---------------------------------------------------------------------------------------

  /** A lesson of the quiz's course that refers to it, by itself or by a published item. */
  predicate RefersTo(c: Content, l: string, a: string)
    requires a in c.quizzes
  {
    && InCourse(c, c.quizzes[a].course, l)
    && ((c.lessons[l].kind == QuizLesson && c.lessons[l].ref == a)
        || exists i :: i in c.items && c.items[i].lesson == l && c.items[i].published &&
            c.items[i].assessment == Some(a))
  }

  /** Every published item of the lesson is a quiz, and passed. */
  predicate QuizzesAllDone(c: Content, st: State, l: string)
  {
    forall i :: i in c.items && c.items[i].lesson == l && c.items[i].published ==>
      c.items[i].kind == QuizItem && QuizDone(st, c.items[i])
  }

  /** A graded submission completes a lesson exactly when it passed, the lesson refers to the quiz and all that
      is published in it are passed quizzes; the other lessons stay as they are. */
  lemma PassCompletesExactly(c: Content, st: State, a: string, x: Id, body: Submission, key: Option<string>, now: real,
                             l: string)
    requires Unsettled(st, x, body, key) && Known(c, st, a, x) && InTime(st.attempts[x], now)
    requires G.Accepts(c.quizzes[a].questions, body.answers)
    ensures var (after, answer) := Submit(c, st, a, x, body, key, now);
            && answer.Ok? && x in after.attempts && after.attempts[x].result == Some(answer.value)
            && if answer.value.passed && RefersTo(c, l, a) && QuizzesAllDone(c, after, l) then
                 && l in after.progress && after.progress[l].completed
                 && after.progress[l].position == after.progress[l].duration == c.lessons[l].duration
                 && after.progress[l].revision == (if l in st.progress then st.progress[l].revision else 0) + 1
               else
                 (l in after.progress <==> l in st.progress) &&
                     (l in st.progress ==> after.progress[l] == st.progress[l])
  {
    var p := PayloadOf(c.quizzes[a], a, x, st.attempts[x], body.answers, now);
    var after := Submit(c, st, a, x, body, key, now).0;
    UnlockedExactly(c, after, a, l);
  }

  lemma UnlockedExactly(c: Content, st: State, a: string, l: string)
    requires a in c.quizzes
    ensures l in Unlocked(c, st.attempts, st.watched, a) <==> RefersTo(c, l, a) && QuizzesAllDone(c, st, l)
  {
    assert l in LinkedLessons(c, a) <==> RefersTo(c, l, a);
    GateOpensExactlyWhen(c, st, l);
    OnlyQuizzesMeans(c, l);
    if RefersTo(c, l, a) && Bare(c, l) { assert c.lessons[l].kind == QuizLesson; }
  }

  lemma OnlyQuizzesMeans(c: Content, l: string)
    ensures OnlyQuizzes(c, l) <==>
            forall i :: i in c.items && c.items[i].lesson == l && c.items[i].published ==> c.items[i].kind == QuizItem
  {
    if !OnlyQuizzes(c, l) {
      var i :| i in Published(c, l, VideoItem) + Published(c, l, NoteItem) + Published(c, l, ResourceItem);
    }
    forall i | i in c.items && c.items[i].lesson == l && c.items[i].published && c.items[i].kind != QuizItem
      ensures !OnlyQuizzes(c, l)
    {
      assert i in Published(c, l, VideoItem) + Published(c, l, NoteItem) + Published(c, l, ResourceItem);
    }
  }

  // ---------------------------------------------------------------------------------------
  // Reporting a position
  // ---------------------------------------------------------------------------------------

  /** The asset is an active HLS video, shown by a published item of its lesson or the lesson's own. */
  predicate Watchable(c: Content, v: string)
  {
    && v in c.assets && c.assets[v].active && c.assets[v].hls && c.assets[v].lesson in c.lessons
    && match c.assets[v].item
       case None => c.lessons[c.assets[v].lesson].ref == v
       case Some(i) =>
         && i in c.items && c.items[i].published && c.items[i].kind == VideoItem
         && c.items[i].lesson == c.assets[v].lesson && c.items[i].reference == Some(v)
  }

  function Seconds(c: Content, v: string): real
    requires Watchable(c, v)
  {
    match c.assets[v].duration
    case Some(d) => d
    case None => c.lessons[c.assets[v].lesson].duration as real
  }

  /** More than two seconds beyond twice the server time since the last request, of which half a minute
      counts. */
  predicate TooFar(st: State, v: string, position: real, now: real)
  {
    var furthest := if v in st.watched then st.watched[v].furthest else 0.0;
    var since := if v in st.watched then now - st.watched[v].checkpoint else 0.0;
    var counted := if since < 0.0 then 0.0 else if since > 30.0 then 30.0 else since;
    position - furthest > 2.0 * counted + 2.0
  }

  predicate WatchDeserves(c: Content, v: string, allowed: bool, r: Result<real, Code>)
  {
    match r
    case Err(NotFound) => !Watchable(c, v)
    case Err(EntitlementRequired) => Watchable(c, v) && !allowed
    case Err(DurationUnavailable) => Watchable(c, v) && allowed && Seconds(c, v) <= 0.0
    case Err(_) => false
    case Ok(d) => Watchable(c, v) && allowed && d == Seconds(c, v) && d > 0.0
  }

  /** When a video can be watched, and for how long it runs. */
  lemma WatchAnswer(c: Content, v: string, allowed: bool)
    ensures WatchDeserves(c, v, allowed, WatchDuration(c, v, allowed))
  {
  }

  predicate ReportDeserves(c: Content, st: State, v: string, position: real, allowed: bool, now: real,
                           r: Result<State, Code>)
  {
    match r
    case Err(InvalidPosition) => position < 0.0
    case Err(ForwardSeek) =>
      position >= 0.0 && Watchable(c, v) && allowed && Seconds(c, v) > 0.0 && TooFar(st, v, position, now)
    case Err(code) => position >= 0.0 && WatchDeserves(c, v, allowed, Err(code))
    case Ok(after) =>
      && position >= 0.0 && Watchable(c, v) && allowed && Seconds(c, v) > 0.0 && !TooFar(st, v, position, now)
      && after.watched.Keys == st.watched.Keys + {v} && after.watched[v].checkpoint == now
      && forall other :: other in st.watched && other != v ==> after.watched[other] == st.watched[other]
  }

  lemma TooFarMeans(st: State, v: string, position: real, duration: real, now: real)
    ensures W.Advance(WatchRowOf(st, v, now), position, duration, now).None? <==> TooFar(st, v, position, now)
    ensures W.Advance(WatchRowOf(st, v, now), position, duration, now).Some? ==>
              W.Advance(WatchRowOf(st, v, now), position, duration, now).value.checkpoint == now
  {
  }

  /** Exactly when a reported position is credited, and exactly when it is refused with each code. */
  lemma ReportAnswer(c: Content, st: State, v: string, position: real, allowed: bool, now: real)
    ensures ReportDeserves(c, st, v, position, allowed, now, SaveWatch(c, st, v, position, allowed, now))
  {
    WatchAnswer(c, v, allowed);
    var duration := WatchDuration(c, v, allowed);
    if duration.Ok? { TooFarMeans(st, v, position, duration.value, now); }
  }

  /** Reading the progress of a video is refused like watching it; otherwise it starts a new count of server time
      and keeps what was credited. */
  lemma ReadAnswer(c: Content, st: State, v: string, allowed: bool, now: real)
    ensures match GetWatch(c, st, v, allowed, now)
            case Err(code) => WatchDeserves(c, v, allowed, Err(code))
            case Ok(after) =>
              && Watchable(c, v) && allowed && Seconds(c, v) > 0.0 && v in after.watched
              && after == st.(watched := st.watched[v := after.watched[v]]) && after.watched[v].checkpoint == now
              && (v !in st.watched ==> Uncredited(after.watched[v]))
              && (v in st.watched ==> SameCredit(st.watched[v], after.watched[v]))
  {
    WatchAnswer(c, v, allowed);
  }

  predicate Uncredited(row: W.Progress)
  {
    row.position == 0.0 && row.furthest == 0.0 && !row.completed
  }

  predicate SameCredit(a: W.Progress, b: W.Progress)
  {
    a.position == b.position && a.furthest == b.furthest && (a.completed <==> b.completed)
  }

  /** The largest position that is neither beyond the report, nor beyond the video, nor beyond what the server
      time has paid for. */
  predicate IsCredit(credit: real, position: real, duration: real, reach: real)
  {
    && credit <= position && credit <= duration && credit <= reach
    && (credit == position || credit == duration || credit == reach)
  }

  /** What an accepted report credits: the reported position within the video and within the counted server
      time; the furthest point only grows and completes the video from 95 percent on. */
  lemma ReportCredits(row: W.Progress, position: real, duration: real, now: real)
    requires W.Advance(row, position, duration, now).Some?
    ensures var after := W.Advance(row, position, duration, now).value;
            var since := now - row.checkpoint;
            var counted := if since < 0.0 then 0.0 else if since > 30.0 then 30.0 else since;
            && IsCredit(after.position, position, duration, row.furthest + 2.0 * counted)
            && after.furthest == (if after.position > row.furthest then after.position else row.furthest)
            && (after.completed <==> row.completed || after.furthest >= 0.95 * duration)
  {
  }

  lemma ReportKeepsCredit(c: Content, st: State, v: string, position: real, allowed: bool, now: real)
    requires SaveWatch(c, st, v, position, allowed, now).Ok? && Watchable(c, v)
    ensures var after := SaveWatch(c, st, v, position, allowed, now).value;
            v in after.watched &&
            W.Advance(WatchRowOf(st, v, now), position, Seconds(c, v), now) == Some(after.watched[v])
  {
    WatchAnswer(c, v, allowed);
  }

  /** Nothing is left to read in the lesson. */
  predicate NothingToRead(c: Content, lesson: string)
  {
    forall i :: i in c.items && c.items[i].lesson == lesson && c.items[i].published ==>
      c.items[i].kind == VideoItem || c.items[i].kind == QuizItem
  }

  lemma NothingElseMeans(c: Content, l: string)
    ensures NothingElse(c, l) <==> NothingToRead(c, l)
  {
    if !NothingElse(c, l) {
      var i :| i in Published(c, l, NoteItem) + Published(c, l, ResourceItem);
    }
    forall i | i in c.items && c.items[i].lesson == l && c.items[i].published && c.items[i].kind != VideoItem &&
      c.items[i].kind != QuizItem
      ensures !NothingElse(c, l)
    {
      assert i in Published(c, l, NoteItem) + Published(c, l, ResourceItem);
    }
  }

  /** A credited report completes the video's lesson exactly when the video is completed, the lesson's gate is
      open and nothing is left to read; every other lesson stays as it is. */
  lemma ReportCompletesExactly(c: Content, st: State, v: string, position: real, allowed: bool, now: real, l: string)
    requires SaveWatch(c, st, v, position, allowed, now).Ok?
    ensures var after := SaveWatch(c, st, v, position, allowed, now).value;
            && Watchable(c, v) && v in after.watched && after.attempts == st.attempts && after.records == st.records
            && if l == c.assets[v].lesson && after.watched[v].completed && GateOf(c, after, l) &&
               NothingToRead(c, l) then
                 && l in after.progress && after.progress[l].completed
                 && (l in st.progress ==>
                     after.progress[l] == st.progress[l].(completed := true, revision := st.progress[l].revision + 1))
                 && (l !in st.progress ==>
                     after.progress[l] == Row(after.watched[v].position.Floor, Seconds(c, v).Floor, true, 1))
               else
                 (l in after.progress <==> l in st.progress) &&
                     (l in st.progress ==> after.progress[l] == st.progress[l])
  {
    WatchAnswer(c, v, allowed);
    NothingElseMeans(c, c.assets[v].lesson);
  }
}
