/** The learner's requests as they run: rows are assigned in place and a refused request rolls back.
    Each is proved to make exactly the step of the model. */
module LearnerStore {
  import opened Common
  import opened LearnerModel
  import G = Grading
  import W = Watch

  /** The videos found for the published video items of a lesson. */
  function VideosOf(c: Content, lesson: string): set<string>
  {
    set a | a in c.assets && c.assets[a].item.Some? && c.assets[a].item.value in Published(c, lesson, VideoItem) &&
            Plays(c, c.assets[a].item.value, a)
  }

  /** Counting suffices: every video item has its asset exactly when there are as many videos as items. */
  lemma VideosMatchItems(c: Content, lesson: string)
    ensures |VideosOf(c, lesson)| == |Published(c, lesson, VideoItem)| <==>
            forall i :: i in Published(c, lesson, VideoItem) ==> exists a :: a in c.assets && Plays(c, i, a)
  {
    var videos, items := VideosOf(c, lesson), Published(c, lesson, VideoItem);
    var itemOf := (a: string) => if a in c.assets && c.assets[a].item.Some? then c.assets[a].item.value else "";
    var image := set a | a in videos :: itemOf(a);
    InjectiveImageSize(videos, itemOf, image);
    assert image <= items;
    if |videos| == |items| {
      EqualSizes(image, items);
      forall i | i in items ensures exists a :: a in c.assets && Plays(c, i, a) {
        var a :| a in videos && itemOf(a) == i;
        assert Plays(c, i, a);
      }
    }
    if forall i :: i in items ==> exists a :: a in c.assets && Plays(c, i, a) {
      forall i | i in items ensures i in image {
        var a :| a in c.assets && Plays(c, i, a);
        assert a in videos && itemOf(a) == i;
      }
      assert image == items;
    }
  }

  lemma EqualSizes<T>(a: set<T>, b: set<T>)
    requires a <= b && |a| == |b|
    ensures a == b
  {
    assert b == a + (b - a);
    assert |b| == |a| + |b - a|;
  }

  /** The gate in the terms it is checked in. */
  lemma GateByVideos(c: Content, attempts: map<Id, Attempt>, watched: map<string, W.Progress>, lesson: string)
    ensures Gate(c, attempts, watched, lesson) <==>
            && |VideosOf(c, lesson)| == |Published(c, lesson, VideoItem)|
            && (forall a :: a in VideosOf(c, lesson) ==> HasWatched(watched, a))
            && (!HasItems(c, lesson) ==> forall a :: a in c.assets && IsLegacyVideo(c, lesson, a) ==>
                HasWatched(watched, a))
            && (forall i :: i in Published(c, lesson, QuizItem) ==> HasPassed(attempts, c.items[i].assessment))
  {
    VideosMatchItems(c, lesson);
    forall a | a in VideosOf(c, lesson) ensures Plays(c, c.assets[a].item.value, a) {}
    forall i, a | i in Published(c, lesson, VideoItem) && a in c.assets && Plays(c, i, a)
      ensures a in VideosOf(c, lesson) {}
    if Gate(c, attempts, watched, lesson) {
      forall a | a in VideosOf(c, lesson) ensures HasWatched(watched, a) {
        var i := c.assets[a].item.value;
        var b :| b in c.assets && Plays(c, i, b) && HasWatched(watched, b);
      }
    }
  }

  lemma FinishOne(c: Content, progress: map<string, Row>, done: set<string>, l: string)
    requires done <= c.lessons.Keys && l in c.lessons && l !in done
    ensures FinishAll(c, progress, done + {l}) ==
            FinishAll(c, progress, done)[l := Finished(OldRow(progress, l), c.lessons[l])]
    ensures OldRow(FinishAll(c, progress, done), l) == OldRow(progress, l)
  {
  }

  class Store {
    const content: Content
    var progress: map<string, Row>
    var mutations: map<string, Mutation>
    var attempts: map<Id, Attempt>
    var watched: map<string, W.Progress>
    var records: map<(Id, string), Record>
    var next: Id

    constructor (c: Content)
      ensures content == c && View() == Empty()
    {
      content := c;
      progress, mutations, attempts, watched, records, next := map[], map[], map[], map[], map[], 0;
    }

    function View(): State
      reads this
    {
      State(progress, mutations, attempts, watched, records, next)
    }

    // -------------------------------------------------------------------------------------
    // The completion gate
    // -------------------------------------------------------------------------------------

    method RequiredQuizzesPassed(lesson: string) returns (ok: bool)
      ensures ok <==> GateOf(content, View(), lesson)
    {
      GateByVideos(content, attempts, watched, lesson);
      var required := set i | i in Published(content, lesson, QuizItem) :: content.items[i].assessment;
      var passed := set x | x in attempts && Passes(attempts[x], Some(attempts[x].assessment)) ::
          Some(attempts[x].assessment);
      var videos := VideosOf(content, lesson);
      if |videos| != |Published(content, lesson, VideoItem)| {
        return false;
      }
      var seen := EachWatched(videos);
      if !seen {
        return false;
      }
      if videos == {} && !HasItems(content, lesson) {
        var legacy := set a | a in content.assets && IsLegacyVideo(content, lesson, a);
        seen := EachWatched(legacy);
        if !seen {
          return false;
        }
      }
      assert !HasItems(content, lesson) ==> videos == {};
      RequiredWithin(lesson, required, passed);
      ok := required <= passed;
    }

    lemma RequiredWithin(lesson: string, required: set<Option<string>>, passed: set<Option<string>>)
      requires required == set i | i in Published(content, lesson, QuizItem) :: content.items[i].assessment
      requires passed == set x | x in attempts && Passes(attempts[x], Some(attempts[x].assessment)) ::
               Some(attempts[x].assessment)
      ensures required <= passed <==> forall i :: i in Published(content, lesson, QuizItem) ==>
              HasPassed(attempts, content.items[i].assessment)
    {
      forall a ensures a in passed <==> HasPassed(attempts, a) {
        if x :| x in attempts && Passes(attempts[x], a) { assert Some(attempts[x].assessment) == a; }
      }
    }

    method EachWatched(videos: set<string>) returns (ok: bool)
      ensures ok <==> forall a :: a in videos ==> HasWatched(watched, a)
    {
      var todo := videos;
      while todo != {}
        invariant todo <= videos && forall a :: a in videos && a !in todo ==> HasWatched(watched, a)
        decreases todo
      {
        var a :| a in todo;
        todo := todo - {a};
        if !HasWatched(watched, a) {
          return false;
        }
      }
      ok := true;
    }

    // -------------------------------------------------------------------------------------
    // Progress synchronisation
    // -------------------------------------------------------------------------------------

    /** All or nothing; on success every mutation is acknowledged, in the order of the batch. */
    method SyncProgress(course: string, enrolled: bool, ms: seq<Mutation>) returns (r: Result<seq<string>, Code>)
      modifies `progress, `mutations
      ensures match Sync(content, old(View()), course, enrolled, ms)
              case Ok(after) => View() == after && r == Ok(seq(|ms|, i requires 0 <= i < |ms| => ms[i].id))
              case Err(code) => View() == old(View()) && r == Err(code)
    {
      if !enrolled {
        return Err(AccessDenied);
      }
      var savedProgress, savedMutations := progress, mutations;
      var acked: seq<string> := [];
      for i := 0 to |ms|
        invariant SyncAll(content, course, old(View()), ms[..i]) == Ok(View())
        invariant acked == seq(i, j requires 0 <= j < i => ms[j].id)
      {
        assert ms[..i + 1][..i] == ms[..i];
        var refused := ApplyOne(course, ms[i]);
        if refused.Some? {
          progress, mutations := savedProgress, savedMutations;
          RefusedBatch(course, old(View()), ms, i, refused.value);
          return Err(refused.value);
        }
        acked := acked + [ms[i].id];
      }
      assert ms[..|ms|] == ms;
      r := Ok(acked);
    }

    lemma {:induction false} RefusedBatch(course: string, st: State, ms: seq<Mutation>, i: nat, code: Code)
      requires i < |ms| && SyncAll(content, course, st, ms[..i + 1]) == Err(code)
      ensures SyncAll(content, course, st, ms) == Err(code)
      decreases |ms|
    {
      if i + 1 == |ms| {
        assert ms[..i + 1] == ms;
      } else {
        assert ms[..|ms| - 1][..i + 1] == ms[..i + 1];
        RefusedBatch(course, st, ms[..|ms| - 1], i, code);
      }
    }

    method ApplyOne(course: string, m: Mutation) returns (refused: Option<Code>)
      modifies `progress, `mutations
      ensures match ApplyMutation(content, course, old(View()), m)
              case Ok(after) => View() == after && refused.None?
              case Err(code) => View() == old(View()) && refused == Some(code)
    {
      if m.lesson !in content.lessons || content.lessons[m.lesson].course != course {
        return Some(InvalidResource);
      }
      if content.lessons[m.lesson].kind == QuizLesson && m.kind == "completion" && !HasItems(content, m.lesson) {
        return Some(ServerCompletionRequired);
      }
      if Completes(m) {
        var open := RequiredQuizzesPassed(m.lesson);
        if !open {
          return Some(ServerCompletionRequired);
        }
      }
      if m.id in mutations {
        return if mutations[m.id] != m then Some(IdempotencyConflict) else None;
      }
      var row := OldRow(progress, m.lesson);
      row := row.(duration := Max(row.duration, m.duration));
      row := row.(position := Min(row.duration, Max(row.position, m.position)));
      row := row.(completed := row.completed || Completes(m), revision := row.revision + 1);
      progress := progress[m.lesson := row];
      mutations := mutations[m.id := m];
      refused := None;
    }

    // -------------------------------------------------------------------------------------
    // Attempts
    // -------------------------------------------------------------------------------------

    method NewAttempt(a: string, allowed: bool, now: real) returns (r: Result<Id, Code>)
      modifies `attempts, `next
      ensures match StartAttempt(content, old(View()), a, allowed, now)
              case Ok(after) => View() == after && r == Ok(old(next))
              case Err(code) => View() == old(View()) && r == Err(code)
    {
      if a !in content.quizzes || !content.quizzes[a].published {
        return Err(NotFound);
      }
      if !allowed {
        return Err(AccessDenied);
      }
      var total := |AttemptsAt(View(), a)|;
      if total >= content.quizzes[a].maxAttempts {
        return Err(AttemptLimitReached);
      }
      var x := next;
      next := next + 1;
      attempts := attempts[x := Attempt(a, total + 1, InProgress, now, Deadline(content.quizzes[a], now), None)];
      r := Ok(x);
    }

    method Resume(a: string, x: Id, now: real) returns (r: Result<Attempt, Code>)
      modifies `attempts
      ensures match ResumeAttempt(old(View()), a, x, now)
              case Ok(after) => View() == after && x in after.attempts && r == Ok(after.attempts[x])
              case Err(code) => View() == old(View()) && r == Err(code)
    {
      if x !in attempts || attempts[x].assessment != a {
        return Err(NotFound);
      }
      if attempts[x].expiresAt.Some? && attempts[x].expiresAt.value <= now && attempts[x].status == InProgress {
        attempts := attempts[x := attempts[x].(status := AttemptExpired)];
      }
      r := Ok(attempts[x]);
    }

    method SubmitAttempt(a: string, x: Id, body: Submission, key: Option<string>, now: real)
      returns (r: Result<Payload, Code>)
      modifies `attempts, `progress, `records
      ensures (View(), r) == Submit(content, old(View()), a, x, body, key, now)
    {
      if key.None? || key.value == "" || |key.value| > 120 {
        return Err(KeyRequired);
      }
      if body.attempt != x {
        return Err(InvalidAttempt);
      }
      var k := (x, key.value);
      var saved := records;
      if k in records {
        if records[k].request != body {
          return Err(IdempotencyConflict);
        }
        if records[k].response.Some? {
          return Ok(records[k].response.value);
        }
      } else {
        records := records[k := Record(body, None)];
      }
      if x !in attempts || a !in content.quizzes || attempts[x].assessment != a {
        records := saved;
        return Err(NotFound);
      }
      if attempts[x].status != InProgress {
        records := saved;
        return Err(AttemptFinalized);
      }
      if attempts[x].expiresAt.Some? && now > attempts[x].expiresAt.value {
        attempts := attempts[x := attempts[x].(status := AttemptExpired)];
        assert records == saved[k := Record(body, None)];
        return Err(DeadlinePassed);
      }
      var score := G.Grade(content.quizzes[a].questions, body.answers);
      if score.None? {
        records := saved;
        return Err(InvalidAnswer);
      }
      var p := FinishAttempt(a, x, score.value, now);
      records := records[k := Record(body, Some(p))];
      assert records == saved[k := Record(body, Some(p))];
      r := Ok(p);
    }

    /** Record the score and, when it passes, complete the lessons it unlocks. */
    method FinishAttempt(a: string, x: Id, score: G.Score, now: real) returns (p: Payload)
      requires a in content.quizzes && x in attempts
      modifies `attempts, `progress
      ensures forall answers :: score == G.Scored(content.quizzes[a].questions, answers) ==>
                (View(), p) == GradeSubmission(content, old(View()), a, x, answers, now)
    {
      var quiz := content.quizzes[a];
      var percentage := G.Percentage(score);
      p := Payload(a, x, score, percentage, percentage >= quiz.passing as real, quiz.passing,
                   Max(0, (now - attempts[x].startedAt).Floor), now);
      attempts := attempts[x := attempts[x].(status := Submitted, result := Some(p))];
      if p.passed {
        CompleteLinked(a);
      } else {
        assert progress == FinishAll(content, progress, {});
      }
    }

    method MayComplete(a: string, l: string) returns (ok: bool)
      requires a in content.quizzes && l in LinkedLessons(content, a)
      ensures ok <==> l in Unlocked(content, attempts, watched, a)
    {
      ok := RequiredQuizzesPassed(l);
      ok := ok && OnlyQuizzes(content, l);
    }

    method CompleteLinked(a: string)
      requires a in content.quizzes
      modifies `progress
      ensures progress == FinishAll(content, old(progress), Unlocked(content, attempts, watched, a))
    {
      ghost var unlocked := Unlocked(content, attempts, watched, a);
      CompleteEach(a, LinkedLessons(content, a), unlocked);
    }

    method CompleteEach(a: string, linked: set<string>, ghost unlocked: set<string>)
      requires a in content.quizzes && linked == LinkedLessons(content, a) &&
               unlocked == Unlocked(content, attempts, watched, a)
      modifies `progress
      ensures progress == FinishAll(content, old(progress), unlocked)
    {
      ghost var before := progress;
      ghost var done: set<string> := {};
      var todo := linked;
      assert progress == FinishAll(content, progress, {});
      while todo != {}
        invariant todo <= linked && done <= linked && done == unlocked - todo
        invariant progress == FinishAll(content, before, done)
        decreases todo
      {
        var l :| l in todo;
        todo := todo - {l};
        var open := MayComplete(a, l);
        if open {
          CompleteLesson(l, before, done);
          done := done + {l};
        }
      }
      assert done == unlocked;
    }

    method CompleteLesson(l: string, ghost before: map<string, Row>, ghost done: set<string>)
      requires l in content.lessons && done <= content.lessons.Keys && l !in done &&
               progress == FinishAll(content, before, done)
      modifies `progress
      ensures progress == FinishAll(content, before, done + {l})
    {
      FinishOne(content, before, done, l);
      var row := OldRow(progress, l);
      var duration := content.lessons[l].duration;
      progress := progress[l :=
                           row.(completed := true, duration := duration, position := duration,
                                revision := row.revision + 1)];
    }

    // -------------------------------------------------------------------------------------
    // Watching
    // -------------------------------------------------------------------------------------

    method ReadWatch(asset: string, allowed: bool, now: real) returns (r: Result<W.Progress, Code>)
      modifies `watched
      ensures match LearnerModel.GetWatch(content, old(View()), asset, allowed, now)
              case Ok(after) => View() == after && asset in after.watched && r == Ok(after.watched[asset])
              case Err(code) => View() == old(View()) && r == Err(code)
    {
      var duration := WatchDuration(content, asset, allowed);
      if duration.Err? {
        return Err(duration.error);
      }
      var row := WatchRowOf(View(), asset, now).(checkpoint := now);
      watched := watched[asset := row];
      r := Ok(row);
    }

    method ReportWatch(asset: string, position: real, allowed: bool, now: real) returns (r: Result<W.Progress, Code>)
      modifies `watched, `progress
      ensures match LearnerModel.SaveWatch(content, old(View()), asset, position, allowed, now)
              case Ok(after) => View() == after && asset in after.watched && r == Ok(after.watched[asset])
              case Err(code) => View() == old(View()) && r == Err(code)
    {
      if position < 0.0 {
        return Err(InvalidPosition);
      }
      var duration := WatchDuration(content, asset, allowed);
      if duration.Err? {
        return Err(duration.error);
      }
      var advanced := W.Advance(WatchRowOf(View(), asset, now), position, duration.value, now);
      if advanced.None? {
        return Err(ForwardSeek);
      }
      var row := advanced.value;
      watched := watched[asset := row];
      var lesson := content.assets[asset].lesson;
      if row.completed {
        var open := RequiredQuizzesPassed(lesson);
        if open && NothingElse(content, lesson) {
          if lesson in progress {
            progress := progress[lesson :=
                                 progress[lesson].(completed := true, revision := progress[lesson].revision + 1)];
          } else {
            progress := progress[lesson := Row(row.position.Floor, duration.value.Floor, true, 1)];
          }
        }
      }
      r := Ok(row);
    }
  }
}
