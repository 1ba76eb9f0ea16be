/** One learner's progress: synced mutations, quiz attempts and watched videos, over content that does
    not change. Each request commits as one step or leaves the tables as they were. */
module LearnerModel {
  import opened Common
  import G = Grading
  import W = Watch

  type Id = nat

  // ---------------------------------------------------------------------------------------
  // Content
  // ---------------------------------------------------------------------------------------

  datatype LessonKind = VideoLesson | QuizLesson | OtherLesson

  datatype Lesson = Lesson(course: string, kind: LessonKind, ref: string, duration: nat)

  datatype ItemKind = VideoItem | NoteItem | QuizItem | ResourceItem

  datatype Item = Item(lesson: string, kind: ItemKind, reference: Option<string>, assessment: Option<string>,
                       published: bool)

  datatype Asset = Asset(lesson: string, item: Option<string>, hls: bool, active: bool, duration: Option<real>)

  datatype Quiz = Quiz(course: string, published: bool, passing: nat, limit: Option<nat>, maxAttempts: nat,
                       questions: seq<G.Question>)

  /** Assets are keyed by their unique asset id. */
  datatype Content = Content(lessons: map<string, Lesson>, items: map<string, Item>, assets: map<string, Asset>,
                             quizzes: map<string, Quiz>)

  // ---------------------------------------------------------------------------------------
  // The learner's rows
  // ---------------------------------------------------------------------------------------

  datatype Row = Row(position: int, duration: int, completed: bool, revision: int)

  datatype Mutation = Mutation(
    id: string, lesson: string, kind: string, position: nat, duration: nat, completed: bool, occurredAt: int,
    baseRevision: nat)

  datatype AttemptStatus = InProgress | Submitted | AttemptExpired

  /** What the learner is told about a graded attempt. */
  datatype Payload = Payload(
    assessment: string, attempt: Id, score: G.Score, percentage: real, passed: bool, passing: nat, seconds: int,
    submittedAt: real)

  datatype Attempt = Attempt(
    assessment: string, number: nat, status: AttemptStatus, startedAt: real, expiresAt: Option<real>,
    result: Option<Payload>)

  datatype Submission = Submission(attempt: Id, answers: seq<G.Answer>)

  /** An idempotency record; its response is missing while no submission under it succeeded. */
  datatype Record = Record(request: Submission, response: Option<Payload>)

  datatype State = State(
    progress: map<string, Row>, mutations: map<string, Mutation>, attempts: map<Id, Attempt>,
    watched: map<string, W.Progress>, records: map<(Id, string), Record>, next: Id)

  datatype Code =
    | AccessDenied | InvalidResource | ServerCompletionRequired | IdempotencyConflict | NotFound | AttemptLimitReached
    | KeyRequired | InvalidAttempt | AttemptFinalized | DeadlinePassed | InvalidAnswer
    | EntitlementRequired | DurationUnavailable | ForwardSeek | InvalidPosition

  function Empty(): State { State(map[], map[], map[], map[], map[], 0) }

  // ---------------------------------------------------------------------------------------
  // The completion gate
  // ---------------------------------------------------------------------------------------

  predicate Passes(x: Attempt, a: Option<string>)
  {
    Some(x.assessment) == a && x.status == Submitted && x.result.Some? && x.result.value.passed
  }

  predicate HasPassed(attempts: map<Id, Attempt>, a: Option<string>)
  {
    exists i :: i in attempts && Passes(attempts[i], a)
  }

  predicate HasWatched(watched: map<string, W.Progress>, asset: string)
  {
    asset in watched && watched[asset].completed
  }

  predicate HasItems(c: Content, lesson: string)
  {
    exists i :: i in c.items && c.items[i].lesson == lesson
  }

  function Published(c: Content, lesson: string, kind: ItemKind): set<string>
  {
    set i | i in c.items && c.items[i].lesson == lesson && c.items[i].published && c.items[i].kind == kind
  }

  /** Asset `a` is the video of item `i`. */
  predicate Plays(c: Content, i: string, a: string)
  {
    && i in c.items && a in c.assets
    && c.assets[a].item == Some(i) && c.items[i].reference == Some(a) && c.assets[a].hls
  }

  /** The video of a lesson that has no content items. */
  predicate IsLegacyVideo(c: Content, lesson: string, a: string)
  {
    && lesson in c.lessons && c.lessons[lesson].kind == VideoLesson && c.lessons[lesson].ref == a
    && a in c.assets && c.assets[a].lesson == lesson && c.assets[a].hls
  }

  /** Every published quiz is passed and every published video has its asset and is watched; a lesson
      without items needs its own video watched, if it has one. */
  predicate Gate(c: Content, attempts: map<Id, Attempt>, watched: map<string, W.Progress>, lesson: string)
  {
    && (forall i :: i in Published(c, lesson, QuizItem) ==> HasPassed(attempts, c.items[i].assessment))
    && (forall i :: i in Published(c, lesson, VideoItem) ==>
        exists a :: a in c.assets && Plays(c, i, a) && HasWatched(watched, a))
    && (!HasItems(c, lesson) ==> forall a :: a in c.assets && IsLegacyVideo(c, lesson, a) ==> HasWatched(watched, a))
  }

  predicate GateOf(c: Content, st: State, lesson: string)
  {
    Gate(c, st.attempts, st.watched, lesson)
  }

  // ---------------------------------------------------------------------------------------
  // Progress synchronisation
  // ---------------------------------------------------------------------------------------

  function OldRow(progress: map<string, Row>, lesson: string): Row
  {
    if lesson in progress then progress[lesson] else Row(0, 0, false, 0)
  }

  predicate Completes(m: Mutation) { m.kind == "completion" && m.completed }

  function Synced(row: Row, m: Mutation): Row
  {
    var duration := Max(row.duration, m.duration);
    Row(Min(duration, Max(row.position, m.position)), duration, row.completed || Completes(m), row.revision + 1)
  }

  /** Why a mutation is refused, before its id is looked up. */
  function Refusal(c: Content, course: string, st: State, m: Mutation): Option<Code>
  {
    if m.lesson !in c.lessons || c.lessons[m.lesson].course != course then Some(InvalidResource)
    else if c.lessons[m.lesson].kind == QuizLesson && m.kind == "completion" && !HasItems(c, m.lesson) then
      Some(ServerCompletionRequired)
    else if Completes(m) && !GateOf(c, st, m.lesson) then Some(ServerCompletionRequired)
    else None
  }

  function ApplyMutation(c: Content, course: string, st: State, m: Mutation): Result<State, Code>
  {
    var refusal := Refusal(c, course, st, m);
    if refusal.Some? then Err(refusal.value)
    else if m.id in st.mutations then
      if st.mutations[m.id] == m then Ok(st) else Err(IdempotencyConflict)
    else Ok(st.(progress := st.progress[m.lesson := Synced(OldRow(st.progress, m.lesson), m)],
                mutations := st.mutations[m.id := m]))
  }

  function SyncAll(c: Content, course: string, st: State, ms: seq<Mutation>): Result<State, Code>
  {
    if ms == [] then Ok(st)
    else
      match SyncAll(c, course, st, ms[..|ms| - 1])
      case Err(code) => Err(code)
      case Ok(mid) => ApplyMutation(c, course, mid, ms[|ms| - 1])
  }

  function Sync(c: Content, st: State, course: string, enrolled: bool, ms: seq<Mutation>): Result<State, Code>
  {
    if !enrolled then Err(AccessDenied) else SyncAll(c, course, st, ms)
  }

  // ---------------------------------------------------------------------------------------
  // Attempts
  // ---------------------------------------------------------------------------------------

  function AttemptsAt(st: State, a: string): set<Id>
  {
    set i | i in st.attempts && st.attempts[i].assessment == a
  }

  function Deadline(q: Quiz, now: real): Option<real>
  {
    if q.limit.None? || q.limit.value == 0 then None else Some(now + q.limit.value as real)
  }

  function StartAttempt(c: Content, st: State, a: string, allowed: bool, now: real): Result<State, Code>
  {
    if a !in c.quizzes || !c.quizzes[a].published then Err(NotFound)
    else if !allowed then Err(AccessDenied)
    else if |AttemptsAt(st, a)| >= c.quizzes[a].maxAttempts then Err(AttemptLimitReached)
    else
      var x := Attempt(a, |AttemptsAt(st, a)| + 1, InProgress, now, Deadline(c.quizzes[a], now), None);
      Ok(st.(attempts := st.attempts[st.next := x], next := st.next + 1))
  }

  function WithStatus(st: State, x: Id, status: AttemptStatus): State
    requires x in st.attempts
  {
    st.(attempts := st.attempts[x := st.attempts[x].(status := status)])
  }

  function ResumeAttempt(st: State, a: string, x: Id, now: real): Result<State, Code>
  {
    if x !in st.attempts || st.attempts[x].assessment != a then Err(NotFound)
    else
      var attempt := st.attempts[x];
      Ok(if attempt.expiresAt.Some? && attempt.expiresAt.value <= now && attempt.status == InProgress
         then WithStatus(st, x, AttemptExpired) else st)
  }

  /** Lessons that refer to an assessment of their course. */
  function LinkedLessons(c: Content, a: string): set<string>
    requires a in c.quizzes
  {
    set l | l in c.lessons && c.lessons[l].course == c.quizzes[a].course &&
            ((c.lessons[l].kind == QuizLesson && c.lessons[l].ref == a) ||
             exists i :: i in c.items && c.items[i].lesson == l && c.items[i].assessment == Some(a) &&
                 c.items[i].published)
  }

  predicate OnlyQuizzes(c: Content, lesson: string)
  {
    Published(c, lesson, VideoItem) + Published(c, lesson, NoteItem) + Published(c, lesson, ResourceItem) == {}
  }

  function Unlocked(c: Content, attempts: map<Id, Attempt>, watched: map<string, W.Progress>, a: string): set<string>
    requires a in c.quizzes
  {
    set l | l in LinkedLessons(c, a) && Gate(c, attempts, watched, l) && OnlyQuizzes(c, l)
  }

  function Finished(row: Row, lesson: Lesson): Row
  {
    Row(lesson.duration, lesson.duration, true, row.revision + 1)
  }

  function FinishAll(c: Content, progress: map<string, Row>, lessons: set<string>): map<string, Row>
    requires lessons <= c.lessons.Keys
  {
    map l | l in progress.Keys + lessons ::
        if l in lessons then Finished(OldRow(progress, l), c.lessons[l]) else progress[l]
  }

  function PayloadOf(q: Quiz, a: string, x: Id, attempt: Attempt, answers: seq<G.Answer>, now: real): Payload
  {
    var score := G.Scored(q.questions, answers);
    Payload(a, x, score, G.Percentage(score), G.Percentage(score) >= q.passing as real, q.passing,
            Max(0, (now - attempt.startedAt).Floor), now)
  }

  /** Grading on its own: the new attempts and progress, and the payload. */
  function GradeSubmission(c: Content, st: State, a: string, x: Id, answers: seq<G.Answer>, now: real): (State, Payload)
    requires a in c.quizzes && x in st.attempts
  {
    var p := PayloadOf(c.quizzes[a], a, x, st.attempts[x], answers, now);
    var attempts := st.attempts[x := st.attempts[x].(status := Submitted, result := Some(p))];
    var lessons := if p.passed then Unlocked(c, attempts, st.watched, a) else {};
    (st.(attempts := attempts, progress := FinishAll(c, st.progress, lessons)), p)
  }

  function Submit(c: Content, st: State, a: string, x: Id, body: Submission, key: Option<string>,
                  now: real): (State, Result<Payload, Code>)
  {
    if key.None? || key.value == "" || |key.value| > 120 then (st, Err(KeyRequired))
    else if body.attempt != x then (st, Err(InvalidAttempt))
    else
      var k := (x, key.value);
      if k in st.records && st.records[k].request != body then (st, Err(IdempotencyConflict))
      else if k in st.records && st.records[k].response.Some? then (st, Ok(st.records[k].response.value))
      else if x !in st.attempts || a !in c.quizzes || st.attempts[x].assessment != a then (st, Err(NotFound))
      else if st.attempts[x].status != InProgress then (st, Err(AttemptFinalized))
      else if st.attempts[x].expiresAt.Some? && now > st.attempts[x].expiresAt.value then
        (WithStatus(st, x, AttemptExpired).(records := st.records[k := Record(body, None)]), Err(DeadlinePassed))
      else if !G.Accepts(c.quizzes[a].questions, body.answers) then (st, Err(InvalidAnswer))
      else
        var (graded, p) := GradeSubmission(c, st, a, x, body.answers, now);
        (graded.(records := st.records[k := Record(body, Some(p))]), Ok(p))
  }

  // ---------------------------------------------------------------------------------------
  // Watching
  // ---------------------------------------------------------------------------------------

  /** The asset's content item is published in its lesson and is this video. */
  predicate ShowsVideo(c: Content, asset: string, v: Asset)
    requires v.item.Some?
  {
    v.item.value in c.items &&
    var item := c.items[v.item.value];
    item.lesson == v.lesson && item.published && item.kind == VideoItem && item.reference == Some(asset)
  }

  /** The duration of a video the learner may watch. */
  function WatchDuration(c: Content, asset: string, allowed: bool): Result<real, Code>
  {
    if asset !in c.assets || !c.assets[asset].active || !c.assets[asset].hls then Err(NotFound)
    else
      var v := c.assets[asset];
      if v.item.Some? && !ShowsVideo(c, asset, v) then Err(NotFound)
      else if v.lesson !in c.lessons || (v.item.None? && c.lessons[v.lesson].ref != asset) then Err(NotFound)
      else if !allowed then Err(EntitlementRequired)
      else
        var d := if v.duration.Some? then v.duration.value else c.lessons[v.lesson].duration as real;
        if d <= 0.0 then Err(DurationUnavailable) else Ok(d)
  }

  function WatchRowOf(st: State, asset: string, now: real): W.Progress
  {
    if asset in st.watched then st.watched[asset] else W.NewRow(now)
  }

  function GetWatch(c: Content, st: State, asset: string, allowed: bool, now: real): Result<State, Code>
  {
    match WatchDuration(c, asset, allowed)
    case Err(code) => Err(code)
    case Ok(_) => Ok(st.(watched := st.watched[asset := WatchRowOf(st, asset, now).(checkpoint := now)]))
  }

  function WatchedThrough(progress: map<string, Row>, lesson: string, duration: real, position: real): Row
  {
    if lesson in progress then progress[lesson].(completed := true, revision := progress[lesson].revision + 1)
    else Row(position.Floor, duration.Floor, true, 1)
  }

  /** No published note or resource is left to study. */
  predicate NothingElse(c: Content, lesson: string)
  {
    Published(c, lesson, NoteItem) + Published(c, lesson, ResourceItem) == {}
  }

  function SaveWatch(c: Content, st: State, asset: string, position: real, allowed: bool,
                     now: real): Result<State, Code>
  {
    if position < 0.0 then Err(InvalidPosition)
    else
      match WatchDuration(c, asset, allowed)
      case Err(code) => Err(code)
      case Ok(duration) =>
        match W.Advance(WatchRowOf(st, asset, now), position, duration, now)
        case None => Err(ForwardSeek)
        case Some(row) =>
          var saved := st.(watched := st.watched[asset := row]);
          var lesson := c.assets[asset].lesson;
          Ok(if row.completed && GateOf(c, saved, lesson) && NothingElse(c, lesson)
             then saved.(progress := st.progress[lesson := WatchedThrough(st.progress, lesson, duration, row.position)])
             else saved)
  }

  // ---------------------------------------------------------------------------------------
  // Runs
  // ---------------------------------------------------------------------------------------

  datatype Op =
    | DoSync(course: string, enrolled: bool, mutations: seq<Mutation>)
    | DoStart(assessment: string, allowed: bool, now: real)
    | DoResume(assessment: string, attempt: Id, now: real)
    | DoSubmit(assessment: string, attempt: Id, body: Submission, key: Option<string>, now: real)
    | DoGetWatch(asset: string, allowed: bool, now: real)
    | DoSaveWatch(asset: string, position: real, allowed: bool, now: real)

  function Committed(st: State, r: Result<State, Code>): State
  {
    match r
    case Ok(after) => after
    case Err(_) => st
  }

  function Step(c: Content, st: State, op: Op): State
  {
    match op
    case DoSync(course, enrolled, ms) => Committed(st, Sync(c, st, course, enrolled, ms))
    case DoStart(a, allowed, now) => Committed(st, StartAttempt(c, st, a, allowed, now))
    case DoResume(a, x, now) => Committed(st, ResumeAttempt(st, a, x, now))
    case DoSubmit(a, x, body, key, now) => Submit(c, st, a, x, body, key, now).0
    case DoGetWatch(asset, allowed, now) => Committed(st, GetWatch(c, st, asset, allowed, now))
    case DoSaveWatch(asset, position, allowed, now) => Committed(st, SaveWatch(c, st, asset, position, allowed, now))
  }

  function Run(c: Content, st: State, ops: seq<Op>): State
  {
    if ops == [] then st else Step(c, Run(c, st, ops[..|ops| - 1]), ops[|ops| - 1])
  }
}
