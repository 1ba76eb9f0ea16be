/** What every run of a learner's requests keeps: the completion gate, the numbering and single grading
    of attempts, and progress that never goes back. */
module LearnerRuns {
  import opened Common
  import opened LearnerModel
  import opened ProgressSync
  import G = Grading
  import W = Watch

  // ---------------------------------------------------------------------------------------
  // What never goes back
  // ---------------------------------------------------------------------------------------

  predicate AttemptGrows(x: Attempt, y: Attempt)
  {
    && x.assessment == y.assessment && x.number == y.number && x.startedAt == y.startedAt && x.expiresAt == y.expiresAt
    && (x.status != InProgress ==> y == x)
  }

  predicate RowGrows(x: Row, y: Row)
  {
    y == x || (y.revision > x.revision && (x.completed ==> y.completed))
  }

  predicate WatchGrows(x: W.Progress, y: W.Progress)
  {
    x.furthest <= y.furthest && (x.completed ==> y.completed)
  }

  ghost predicate AttemptsGrow(a: map<Id, Attempt>, b: map<Id, Attempt>)
  {
    forall i :: i in a ==> i in b && AttemptGrows(a[i], b[i])
  }

  ghost predicate RowsGrow(a: map<string, Row>, b: map<string, Row>)
  {
    forall l :: l in a ==> l in b && RowGrows(a[l], b[l])
  }

  ghost predicate WatchedGrows(a: map<string, W.Progress>, b: map<string, W.Progress>)
  {
    forall v :: v in a ==> v in b && WatchGrows(a[v], b[v])
  }

  ghost predicate MutationsGrow(a: map<string, Mutation>, b: map<string, Mutation>)
  {
    forall k :: k in a ==> k in b && b[k] == a[k]
  }

  /** Attempts finish at most once, watched videos stay watched, and a progress row that changes gets
      a higher revision and keeps its completion. */
  ghost predicate Grows(a: State, b: State)
  {
    && AttemptsGrow(a.attempts, b.attempts) && RowsGrow(a.progress, b.progress)
    && WatchedGrows(a.watched, b.watched) && MutationsGrow(a.mutations, b.mutations)
  }

  lemma RowsGrowTrans(a: map<string, Row>, b: map<string, Row>, c: map<string, Row>)
    requires RowsGrow(a, b) && RowsGrow(b, c)
    ensures RowsGrow(a, c)
  {
    forall l | l in a ensures l in c && RowGrows(a[l], c[l]) {
      assert RowGrows(a[l], b[l]) && RowGrows(b[l], c[l]);
    }
  }

  lemma GrowsTrans(a: State, b: State, c: State)
    requires Grows(a, b) && Grows(b, c)
    ensures Grows(a, c)
  {
    RowsGrowTrans(a.progress, b.progress, c.progress);
    forall v | v in a.watched ensures v in c.watched && WatchGrows(a.watched[v], c.watched[v]) {
      assert WatchGrows(a.watched[v], b.watched[v]) && WatchGrows(b.watched[v], c.watched[v]);
    }
    forall i | i in a.attempts ensures i in c.attempts && AttemptGrows(a.attempts[i], c.attempts[i]) {
      assert AttemptGrows(a.attempts[i], b.attempts[i]) && AttemptGrows(b.attempts[i], c.attempts[i]);
    }
  }

  lemma PassedStays(a: map<Id, Attempt>, b: map<Id, Attempt>, quiz: Option<string>)
    requires AttemptsGrow(a, b) && HasPassed(a, quiz)
    ensures HasPassed(b, quiz)
  {
    var i :| i in a && Passes(a[i], quiz);
    assert AttemptGrows(a[i], b[i]) && Passes(b[i], quiz);
  }

  lemma WatchedStays(a: map<string, W.Progress>, b: map<string, W.Progress>, v: string)
    requires WatchedGrows(a, b) && HasWatched(a, v)
    ensures HasWatched(b, v)
  {
    assert WatchGrows(a[v], b[v]);
  }

  /** An open gate stays open. */
  lemma GateStays(c: Content, a: State, b: State, lesson: string)
    requires AttemptsGrow(a.attempts, b.attempts) && WatchedGrows(a.watched, b.watched) && GateOf(c, a, lesson)
    ensures GateOf(c, b, lesson)
  {
    forall i | i in Published(c, lesson, QuizItem) ensures HasPassed(b.attempts, c.items[i].assessment) {
      PassedStays(a.attempts, b.attempts, c.items[i].assessment);
    }
    forall i | i in Published(c, lesson, VideoItem)
      ensures exists v :: v in c.assets && Plays(c, i, v) && HasWatched(b.watched, v) {
      var v :| v in c.assets && Plays(c, i, v) && HasWatched(a.watched, v);
      WatchedStays(a.watched, b.watched, v);
    }
    if !HasItems(c, lesson) {
      forall v | v in c.assets && IsLegacyVideo(c, lesson, v) ensures HasWatched(b.watched, v) {
        WatchedStays(a.watched, b.watched, v);
      }
    }
  }

  // ---------------------------------------------------------------------------------------
  // The invariants
  // ---------------------------------------------------------------------------------------

  /** A progress row is in range, was written at least once, and is complete only behind an open gate. */
  ghost predicate RowSound(c: Content, st: State, lesson: string, row: Row)
  {
    InRange(row) && row.revision > 0 && (row.completed ==> GateOf(c, st, lesson))
  }

  ghost predicate RowsSound(c: Content, st: State)
  {
    forall l :: l in st.progress ==> RowSound(c, st, l, st.progress[l])
  }

  /** A watch row stays within its video and is complete exactly from 95 percent on. */
  predicate WatchSound(c: Content, asset: string, row: W.Progress)
  {
    var d := WatchDuration(c, asset, true);
    d.Ok? && W.InRange(row, d.value) && (row.completed <==> row.furthest >= d.value * 0.95)
  }

  ghost predicate WatchesSound(c: Content, st: State)
  {
    forall v :: v in st.watched ==> WatchSound(c, v, st.watched[v])
  }

  predicate Bears(st: State, i: Id, a: string, n: int)
  {
    i in st.attempts && st.attempts[i].assessment == a && st.attempts[i].number == n
  }

  /** Some attempt at the assessment has number `k`. */
  ghost predicate Taken(st: State, a: string, k: int)
  {
    exists i :: Bears(st, i, a, k)
  }

  /** The attempts at an assessment are numbered 1 to n, each number once, with n within the limit. */
  ghost predicate Numbered(c: Content, st: State, a: string)
  {
    var n := |AttemptsAt(st, a)|;
    && (forall k :: Taken(st, a, k) <==> 1 <= k <= n)
    && (forall i, j, k :: Bears(st, i, a, k) && Bears(st, j, a, k) ==> i == j)
    && (n > 0 ==> a in c.quizzes && n <= c.quizzes[a].maxAttempts)
  }

  ghost predicate AllNumbered(c: Content, st: State)
  {
    (forall i :: i in st.attempts ==> i < st.next) && forall a :: Numbered(c, st, a)
  }

  /** An attempt has a result exactly when it was submitted, and it is its own. */
  predicate Graded(i: Id, x: Attempt)
  {
    (x.status == Submitted <==> x.result.Some?) &&
        (x.result.Some? ==> x.result.value.attempt == i && x.result.value.assessment == x.assessment)
  }

  /** Every answer on record is the result of its attempt. */
  ghost predicate RecordSound(st: State, k: (Id, string))
    requires k in st.records
  {
    st.records[k].response.Some? ==> k.0 in st.attempts && st.attempts[k.0].result == st.records[k].response
  }

  ghost predicate Results(st: State)
  {
    && (forall i :: i in st.attempts ==> Graded(i, st.attempts[i]))
    && (forall k :: k in st.records ==> RecordSound(st, k))
  }

  ghost predicate Sound(c: Content, st: State)
  {
    RowsSound(c, st) && WatchesSound(c, st) && AllNumbered(c, st) && Results(st)
  }

  // ---------------------------------------------------------------------------------------
  // Synchronisation
  // ---------------------------------------------------------------------------------------

  lemma MutationKeeps(c: Content, course: string, st: State, m: Mutation)
    requires RowsSound(c, st) && ApplyMutation(c, course, st, m).Ok?
    ensures var after := ApplyMutation(c, course, st, m).value;
            RowsSound(c, after) && RowsGrow(st.progress, after.progress)
  {
    var after := ApplyMutation(c, course, st, m).value;
    if m.id !in st.mutations {
      var row := Synced(OldRow(st.progress, m.lesson), m);
      assert RowSound(c, after, m.lesson, row);
      forall l | l in after.progress && l != m.lesson ensures RowSound(c, after, l, after.progress[l]) {
        assert RowSound(c, st, l, st.progress[l]);
      }
    }
  }

  lemma {:induction false} SyncKeeps(c: Content, course: string, st: State, ms: seq<Mutation>)
    requires RowsSound(c, st) && SyncAll(c, course, st, ms).Ok?
    ensures var after := SyncAll(c, course, st, ms).value; RowsSound(c, after) && RowsGrow(st.progress, after.progress)
  {
    if ms != [] {
      var n := |ms| - 1;
      SyncKeeps(c, course, st, ms[..n]);
      var mid := SyncAll(c, course, st, ms[..n]).value;
      MutationKeeps(c, course, mid, ms[n]);
      RowsGrowTrans(st.progress, mid.progress, SyncAll(c, course, st, ms).value.progress);
    }
  }

  // ---------------------------------------------------------------------------------------
  // Attempts
  // ---------------------------------------------------------------------------------------

  lemma StartKeepsNumbers(c: Content, st: State, a: string, allowed: bool, now: real)
    requires AllNumbered(c, st) && StartAttempt(c, st, a, allowed, now).Ok?
    ensures AllNumbered(c, StartAttempt(c, st, a, allowed, now).value)
  {
    var after := StartAttempt(c, st, a, allowed, now).value;
    forall b ensures Numbered(c, after, b) {
      assert Numbered(c, st, b);
      if b == a {
        OneMoreNumbered(c, st, after, a);
      } else {
        assert AttemptsAt(after, b) == AttemptsAt(st, b);
        SameBearers(c, st, after, b);
      }
    }
  }

  lemma OneMoreNumbered(c: Content, st: State, after: State, a: string)
    requires Numbered(c, st, a) && st.next !in st.attempts
    requires a in c.quizzes && |AttemptsAt(st, a)| < c.quizzes[a].maxAttempts
    requires st.next in after.attempts && after.attempts == st.attempts[st.next := after.attempts[st.next]]
    requires after.attempts[st.next].assessment == a && after.attempts[st.next].number == |AttemptsAt(st, a)| + 1
    ensures Numbered(c, after, a)
  {
    var n := |AttemptsAt(st, a)|;
    assert AttemptsAt(after, a) == AttemptsAt(st, a) + {st.next};
    forall i, k ensures Bears(after, i, a, k) <==> (i == st.next && k == n + 1) || Bears(st, i, a, k) {}
    forall k ensures Taken(after, a, k) <==> k == n + 1 || Taken(st, a, k) {
      assert Bears(after, st.next, a, n + 1);
      if i :| Bears(st, i, a, k) { assert Bears(after, i, a, k); }
      if i :| Bears(after, i, a, k) { assert k == n + 1 || Bears(st, i, a, k); }
    }
    forall i, j, k | Bears(after, i, a, k) && Bears(after, j, a, k) ensures i == j {
      assert k == n + 1 ==> !Taken(st, a, k);
    }
  }

  /** Numbering only looks at assessments and numbers. */
  lemma SameBearers(c: Content, st: State, after: State, b: string)
    requires Numbered(c, st, b) && AttemptsAt(after, b) == AttemptsAt(st, b)
    requires forall i :: i in AttemptsAt(st, b) ==> after.attempts[i].number == st.attempts[i].number
    ensures Numbered(c, after, b)
  {
    forall i, k ensures Bears(after, i, b, k) <==> Bears(st, i, b, k) {
      assert i in AttemptsAt(after, b) <==> i in AttemptsAt(st, b);
    }
    forall k ensures Taken(after, b, k) <==> Taken(st, b, k) {
      if i :| Bears(st, i, b, k) { assert Bears(after, i, b, k); }
    }
  }

  /** Changes of status and result keep the numbering. */
  lemma SameNumbers(c: Content, st: State, after: State)
    requires AllNumbered(c, st) && AttemptsGrow(st.attempts, after.attempts) &&
             after.attempts.Keys == st.attempts.Keys && after.next == st.next
    ensures AllNumbered(c, after)
  {
    forall b ensures Numbered(c, after, b) {
      assert Numbered(c, st, b);
      assert AttemptsAt(after, b) == AttemptsAt(st, b) by {
        forall i | i in st.attempts ensures i in AttemptsAt(after, b) <==> i in AttemptsAt(st, b) {
          assert AttemptGrows(st.attempts[i], after.attempts[i]);
        }
      }
      forall i | i in AttemptsAt(st, b) ensures after.attempts[i].number == st.attempts[i].number {
        assert AttemptGrows(st.attempts[i], after.attempts[i]);
      }
      SameBearers(c, st, after, b);
    }
  }

  /** One attempt leaves the state of being in progress. */
  lemma CloseGrows(attempts: map<Id, Attempt>, x: Id, y: Attempt)
    requires x in attempts && attempts[x].status == InProgress && AttemptGrows(attempts[x], y)
    ensures AttemptsGrow(attempts, attempts[x := y])
  {
  }

  lemma CloseKeepsResults(st: State, after: State, x: Id, y: Attempt)
    requires Results(st) && x in st.attempts && st.attempts[x].status == InProgress && Graded(x, y)
    requires after.attempts == st.attempts[x := y]
    requires forall k :: k in after.records ==>
             (k in st.records && after.records[k] == st.records[k]) || after.records[k].response.None? ||
                 (k.0 == x && after.records[k].response == y.result)
    ensures Results(after)
  {
    forall k | k in after.records ensures RecordSound(after, k) {
      if k in st.records && after.records[k] == st.records[k] && st.records[k].response.Some? {
        assert RecordSound(st, k);
        assert Graded(k.0, st.attempts[k.0]);
      }
    }
  }

  // ---------------------------------------------------------------------------------------
  // Completion by grading
  // ---------------------------------------------------------------------------------------

  lemma GradingKeepsRows(c: Content, st: State, a: string, x: Id, answers: seq<G.Answer>, now: real)
    requires RowsSound(c, st) && a in c.quizzes && x in st.attempts && st.attempts[x].status == InProgress
    ensures var after := GradeSubmission(c, st, a, x, answers, now).0;
            RowsSound(c, after) && RowsGrow(st.progress, after.progress) && AttemptsGrow(st.attempts, after.attempts)
  {
    var after := GradeSubmission(c, st, a, x, answers, now).0;
    CloseGrows(st.attempts, x, after.attempts[x]);
    forall l | l in after.progress ensures RowSound(c, after, l, after.progress[l]) {
      if l in st.progress {
        assert RowSound(c, st, l, st.progress[l]);
        if st.progress[l].completed { GateStays(c, st, after, l); }
      }
    }
  }

  // ---------------------------------------------------------------------------------------
  // Completion by watching
  // ---------------------------------------------------------------------------------------

  lemma DurationIsFixed(c: Content, asset: string, allowed: bool)
    requires WatchDuration(c, asset, allowed).Ok?
    ensures WatchDuration(c, asset, true) == WatchDuration(c, asset, allowed) &&
            WatchDuration(c, asset, true).value > 0.0
  {
  }

  lemma OpeningKeeps(c: Content, st: State, asset: string, allowed: bool, now: real)
    requires WatchesSound(c, st) && WatchDuration(c, asset, allowed).Ok?
    ensures WatchSound(c, asset, WatchRowOf(st, asset, now))
  {
    DurationIsFixed(c, asset, allowed);
    if asset in st.watched { assert WatchSound(c, asset, st.watched[asset]); }
  }

  lemma ReportKeeps(row: W.Progress, position: real, duration: real, now: real)
    requires 0.0 <= position && duration > 0.0 && W.InRange(row, duration) &&
             W.Advance(row, position, duration, now).Some?
    requires row.completed <==> row.furthest >= duration * 0.95
    ensures var r := W.Advance(row, position, duration, now).value;
            W.InRange(r, duration) && (r.completed <==> r.furthest >= duration * 0.95) && WatchGrows(row, r)
  {
  }

  lemma GetKeeps(c: Content, st: State, asset: string, allowed: bool, now: real)
    requires WatchesSound(c, st) && GetWatch(c, st, asset, allowed, now).Ok?
    ensures var after := GetWatch(c, st, asset, allowed, now).value;
            WatchesSound(c, after) && WatchedGrows(st.watched, after.watched)
  {
    OpeningKeeps(c, st, asset, allowed, now);
  }

  lemma SavedRow(c: Content, st: State, asset: string, position: real, allowed: bool, now: real)
    returns (duration: real, row: W.Progress)
    requires SaveWatch(c, st, asset, position, allowed, now).Ok?
    ensures WatchDuration(c, asset, allowed) == Ok(duration) && position >= 0.0
    ensures W.Advance(WatchRowOf(st, asset, now), position, duration, now) == Some(row)
    ensures SaveWatch(c, st, asset, position, allowed, now).value.watched == st.watched[asset := row]
  {
    duration := WatchDuration(c, asset, allowed).value;
    row := W.Advance(WatchRowOf(st, asset, now), position, duration, now).value;
  }

  lemma RowsKeptSound(c: Content, watched: map<string, W.Progress>, asset: string, row: W.Progress,
                      after: map<string, W.Progress>)
    requires after == watched[asset := row] && (forall v :: v in watched ==> WatchSound(c, v, watched[v])) &&
             WatchSound(c, asset, row)
    requires asset in watched ==> WatchGrows(watched[asset], row)
    ensures forall v :: v in after ==> WatchSound(c, v, after[v])
    ensures WatchedGrows(watched, after)
  {
  }

  lemma SaveKeepsWatches(c: Content, st: State, asset: string, position: real, allowed: bool, now: real)
    requires WatchesSound(c, st) && SaveWatch(c, st, asset, position, allowed, now).Ok?
    ensures var after := SaveWatch(c, st, asset, position, allowed, now).value;
            WatchesSound(c, after) && WatchedGrows(st.watched, after.watched)
  {
    var duration, row := SavedRow(c, st, asset, position, allowed, now);
    OpeningKeeps(c, st, asset, allowed, now);
    DurationIsFixed(c, asset, allowed);
    ReportKeeps(WatchRowOf(st, asset, now), position, duration, now);
    RowsKeptSound(c, st.watched, asset, row, st.watched[asset := row]);
  }

  lemma FloorsInRange(position: real, duration: real)
    requires 0.0 <= position <= duration
    ensures 0 <= position.Floor <= duration.Floor
  {
    assert position.Floor as real <= position && duration < duration.Floor as real + 1.0;
  }

  lemma SaveKeepsRows(c: Content, st: State, asset: string, position: real, allowed: bool, now: real)
    requires RowsSound(c, st) && WatchesSound(c, st) && SaveWatch(c, st, asset, position, allowed, now).Ok?
    ensures var after := SaveWatch(c, st, asset, position, allowed, now).value;
            RowsSound(c, after) && RowsGrow(st.progress, after.progress)
  {
    var after := SaveWatch(c, st, asset, position, allowed, now).value;
    var duration := WatchDuration(c, asset, allowed).value;
    SaveKeepsWatches(c, st, asset, position, allowed, now);
    OpeningKeeps(c, st, asset, allowed, now);
    DurationIsFixed(c, asset, allowed);
    ReportKeeps(WatchRowOf(st, asset, now), position, duration, now);
    FloorsInRange(after.watched[asset].position, duration);
    forall l | l in after.progress ensures RowSound(c, after, l, after.progress[l]) {
      if l in st.progress {
        assert RowSound(c, st, l, st.progress[l]);
        if st.progress[l].completed { GateStays(c, st, after, l); }
      }
    }
  }

  // ---------------------------------------------------------------------------------------
  // Every step and every run
  // ---------------------------------------------------------------------------------------

  lemma RowsFrame(c: Content, st: State, after: State)
    requires RowsSound(c, st) && after.progress == st.progress
    requires AttemptsGrow(st.attempts, after.attempts) && WatchedGrows(st.watched, after.watched)
    ensures RowsSound(c, after)
  {
    forall l | l in after.progress ensures RowSound(c, after, l, after.progress[l]) {
      assert RowSound(c, st, l, st.progress[l]);
      if st.progress[l].completed { GateStays(c, st, after, l); }
    }
  }

  lemma SyncStep(c: Content, st: State, op: Op)
    requires Sound(c, st) && op.DoSync?
    ensures Sound(c, Step(c, st, op)) && Grows(st, Step(c, st, op))
  {
    var r := Sync(c, st, op.course, op.enrolled, op.mutations);
    if r.Ok? {
      SyncKeeps(c, op.course, st, op.mutations);
      AcceptedIsKnown(c, op.course, st, op.mutations);
      SameNumbers(c, st, r.value);
      assert forall k :: k in st.records ==> RecordSound(st, k) && RecordSound(r.value, k);
    }
  }

  lemma StartStep(c: Content, st: State, op: Op)
    requires Sound(c, st) && op.DoStart?
    ensures Sound(c, Step(c, st, op)) && Grows(st, Step(c, st, op))
  {
    var r := StartAttempt(c, st, op.assessment, op.allowed, op.now);
    if r.Ok? {
      StartKeepsNumbers(c, st, op.assessment, op.allowed, op.now);
      RowsFrame(c, st, r.value);
      forall k | k in r.value.records ensures RecordSound(r.value, k) {
        assert RecordSound(st, k);
      }
    }
  }

  /** A deadline closes an attempt without a result. */
  lemma ExpiryKeeps(c: Content, st: State, x: Id, after: State)
    requires Sound(c, st) && x in st.attempts && st.attempts[x].status == InProgress
    requires after == WithStatus(st, x, AttemptExpired).(records := after.records)
    requires forall k :: k in after.records ==>
             (k in st.records && after.records[k] == st.records[k]) || after.records[k].response.None?
    ensures Sound(c, after) && Grows(st, after)
  {
    var y := st.attempts[x].(status := AttemptExpired);
    assert Graded(x, st.attempts[x]);
    CloseGrows(st.attempts, x, y);
    CloseKeepsResults(st, after, x, y);
    SameNumbers(c, st, after);
    RowsFrame(c, st, after);
  }

  lemma ResumeStep(c: Content, st: State, op: Op)
    requires Sound(c, st) && op.DoResume?
    ensures Sound(c, Step(c, st, op)) && Grows(st, Step(c, st, op))
  {
    var after := Step(c, st, op);
    if after != st { ExpiryKeeps(c, st, op.attempt, after); }
  }

  lemma GradedStep(c: Content, st: State, a: string, x: Id, body: Submission, key: string, now: real)
    requires Sound(c, st) && a in c.quizzes && x in st.attempts && st.attempts[x].status == InProgress &&
             st.attempts[x].assessment == a
    ensures var (graded, p) := GradeSubmission(c, st, a, x, body.answers, now);
            var after := graded.(records := st.records[(x, key) := Record(body, Some(p))]);
            Sound(c, after) && Grows(st, after)
  {
    var (graded, p) := GradeSubmission(c, st, a, x, body.answers, now);
    var after := graded.(records := st.records[(x, key) := Record(body, Some(p))]);
    GradingKeepsRows(c, st, a, x, body.answers, now);
    CloseKeepsResults(st, after, x, after.attempts[x]);
    SameNumbers(c, st, after);
    forall l | l in after.progress ensures RowSound(c, after, l, after.progress[l]) {
      assert RowSound(c, graded, l, graded.progress[l]);
    }
  }

  lemma SubmitStep(c: Content, st: State, op: Op)
    requires Sound(c, st) && op.DoSubmit?
    ensures Sound(c, Step(c, st, op)) && Grows(st, Step(c, st, op))
  {
    var after, r := Submit(c, st, op.assessment, op.attempt, op.body, op.key, op.now).0,
        Submit(c, st, op.assessment, op.attempt, op.body, op.key, op.now).1;
    if r == Err(DeadlinePassed) {
      ExpiryKeeps(c, st, op.attempt, after);
    } else if after != st {
      GradedStep(c, st, op.assessment, op.attempt, op.body, op.key.value, op.now);
    }
  }

  /** Reading and reporting leave attempts, records and mutations alone. */
  lemma WatchFrame(c: Content, st: State, after: State)
    requires Sound(c, st) && after == st.(watched := after.watched, progress := after.progress)
    ensures AllNumbered(c, after) && Results(after) && AttemptsGrow(st.attempts, after.attempts) &&
            MutationsGrow(st.mutations, after.mutations)
  {
    SameNumbers(c, st, after);
    forall k | k in after.records ensures RecordSound(after, k) {
      assert RecordSound(st, k);
    }
  }

  lemma GetStep(c: Content, st: State, op: Op)
    requires Sound(c, st) && op.DoGetWatch?
    ensures Sound(c, Step(c, st, op)) && Grows(st, Step(c, st, op))
  {
    if GetWatch(c, st, op.asset, op.allowed, op.now).Ok? {
      var after := GetWatch(c, st, op.asset, op.allowed, op.now).value;
      GetKeeps(c, st, op.asset, op.allowed, op.now);
      RowsFrame(c, st, after);
      WatchFrame(c, st, after);
    }
  }

  lemma SaveStep(c: Content, st: State, op: Op)
    requires Sound(c, st) && op.DoSaveWatch?
    ensures Sound(c, Step(c, st, op)) && Grows(st, Step(c, st, op))
  {
    var r := SaveWatch(c, st, op.asset, op.position, op.allowed, op.now);
    if r.Ok? {
      SaveKeepsWatches(c, st, op.asset, op.position, op.allowed, op.now);
      SaveKeepsRows(c, st, op.asset, op.position, op.allowed, op.now);
      WatchFrame(c, st, r.value);
    }
  }

  lemma StepKeeps(c: Content, st: State, op: Op)
    requires Sound(c, st)
    ensures Sound(c, Step(c, st, op)) && Grows(st, Step(c, st, op))
  {
    match op {
      case DoSync(_, _, _) => SyncStep(c, st, op);
      case DoStart(_, _, _) => StartStep(c, st, op);
      case DoResume(_, _, _) => ResumeStep(c, st, op);
      case DoSubmit(_, _, _, _, _) => SubmitStep(c, st, op);
      case DoGetWatch(_, _, _) => GetStep(c, st, op);
      case DoSaveWatch(_, _, _, _) => SaveStep(c, st, op);
    }
  }

  lemma {:induction false} RunKeeps(c: Content, st: State, ops: seq<Op>)
    requires Sound(c, st)
    ensures Sound(c, Run(c, st, ops)) && Grows(st, Run(c, st, ops))
  {
    if ops != [] {
      var n := |ops| - 1;
      RunKeeps(c, st, ops[..n]);
      StepKeeps(c, Run(c, st, ops[..n]), ops[n]);
      GrowsTrans(st, Run(c, st, ops[..n]), Run(c, st, ops));
    }
  }

  lemma EmptyIsSound(c: Content)
    ensures Sound(c, Empty())
  {
    forall a ensures Numbered(c, Empty(), a) {
      assert AttemptsAt(Empty(), a) == {};
    }
  }

  // ---------------------------------------------------------------------------------------
  // Main results
  // ---------------------------------------------------------------------------------------

  /** Whichever of the three writers completed a lesson, in every reachable state its gate is open and
      its position lies within its duration. */
  lemma CompletedLessonsPassTheGate(c: Content, ops: seq<Op>, lesson: string)
    requires lesson in Run(c, Empty(), ops).progress
    ensures var st := Run(c, Empty(), ops); var row := st.progress[lesson];
            0 <= row.position <= row.duration && row.revision > 0 && (row.completed ==> GateOf(c, st, lesson))
  {
    EmptyIsSound(c);
    RunKeeps(c, Empty(), ops);
    assert RowSound(c, Run(c, Empty(), ops), lesson, Run(c, Empty(), ops).progress[lesson]);
  }

  lemma {:induction false} RunSplits(c: Content, st: State, a: seq<Op>, b: seq<Op>)
    ensures Run(c, st, a + b) == Run(c, Run(c, st, a), b)
    decreases |b|
  {
    if b == [] {
      assert a + b == a;
    } else {
      var n := |b| - 1;
      assert (a + b)[..|a + b| - 1] == a + b[..n];
      RunSplits(c, st, a, b[..n]);
    }
  }

  /** Completion never reverts and a changed row has a higher revision, whatever happens in between. */
  lemma CompletionNeverReverts(c: Content, before: seq<Op>, between: seq<Op>, lesson: string)
    requires lesson in Run(c, Empty(), before).progress
    ensures var x, st := Run(c, Empty(), before).progress[lesson], Run(c, Empty(), before + between);
            lesson in st.progress && (x.completed ==> st.progress[lesson].completed) &&
            (st.progress[lesson] == x || st.progress[lesson].revision > x.revision)
  {
    EmptyIsSound(c);
    RunKeeps(c, Empty(), before);
    RunKeeps(c, Run(c, Empty(), before), between);
    RunSplits(c, Empty(), before, between);
    assert RowGrows(Run(c, Empty(), before).progress[lesson], Run(c, Empty(), before + between).progress[lesson]);
  }

  /** In every reachable state the attempts at an assessment are numbered exactly 1 to n, each number
      once, with n within the limit. */
  lemma AttemptsAreNumbered(c: Content, ops: seq<Op>, a: string)
    ensures var st := Run(c, Empty(), ops); var n := |AttemptsAt(st, a)|;
            && (forall k :: Taken(st, a, k) <==> 1 <= k <= n)
            && (forall i, j, k :: Bears(st, i, a, k) && Bears(st, j, a, k) ==> i == j)
            && (n > 0 ==> a in c.quizzes && n <= c.quizzes[a].maxAttempts)
  {
    EmptyIsSound(c);
    RunKeeps(c, Empty(), ops);
    assert Numbered(c, Run(c, Empty(), ops), a);
  }

  /** An attempt that is no longer in progress never changes again: one terminal status, graded at
      most once. */
  lemma FinishedAttemptsAreFinal(c: Content, before: seq<Op>, between: seq<Op>, x: Id)
    requires x in Run(c, Empty(), before).attempts && Run(c, Empty(), before).attempts[x].status != InProgress
    ensures var st := Run(c, Empty(), before + between);
            x in st.attempts && st.attempts[x] == Run(c, Empty(), before).attempts[x]
  {
    EmptyIsSound(c);
    RunKeeps(c, Empty(), before);
    RunKeeps(c, Run(c, Empty(), before), between);
    RunSplits(c, Empty(), before, between);
    assert AttemptGrows(Run(c, Empty(), before).attempts[x], Run(c, Empty(), before + between).attempts[x]);
  }

  /** A successful answer is the result the attempt has from then on. */
  lemma AnswerIsTheResult(c: Content, st: State, a: string, x: Id, body: Submission, key: Option<string>, now: real)
    requires Sound(c, st) && Submit(c, st, a, x, body, key, now).1.Ok?
    ensures var (after, r) := Submit(c, st, a, x, body, key, now);
            x in after.attempts && after.attempts[x].status == Submitted && after.attempts[x].result == Some(r.value)
  {
    var k := (x, key.value);
    if k in st.records && st.records[k].response.Some? {
      assert RecordSound(st, k);
      assert Graded(x, st.attempts[x]);
    }
  }

  /** Any two successful answers to submissions of one attempt are the same, under whatever keys and
      bodies, and whatever happens before, between and after. */
  lemma EverySuccessfulAnswerIsTheSame(c: Content, before: seq<Op>, first: Op, between: seq<Op>, second: Op)
    requires first.DoSubmit? && second.DoSubmit? && first.attempt == second.attempt
    requires var st := Run(c, Empty(), before);
             Submit(c, st, first.assessment, first.attempt, first.body, first.key, first.now).1.Ok?
    requires var st := Run(c, Empty(), before + [first] + between);
             Submit(c, st, second.assessment, second.attempt, second.body, second.key, second.now).1.Ok?
    ensures var p := Submit(c, Run(c, Empty(), before), first.assessment, first.attempt, first.body, first.key,
                            first.now).1;
            var q := Submit(c, Run(c, Empty(), before + [first] + between), second.assessment, second.attempt,
                            second.body, second.key, second.now).1;
            p == q
  {
    var st := Run(c, Empty(), before);
    var after := Run(c, Empty(), before + [first]);
    var later := Run(c, Empty(), before + [first] + between);
    EmptyIsSound(c);
    RunKeeps(c, Empty(), before);
    assert (before + [first])[..|before|] == before;
    StepKeeps(c, st, first);
    RunKeeps(c, after, between);
    RunSplits(c, Empty(), before + [first], between);
    AnswerIsTheResult(c, st, first.assessment, first.attempt, first.body, first.key, first.now);
    assert AttemptGrows(after.attempts[first.attempt], later.attempts[first.attempt]);
    AnswerIsTheResult(c, later, second.assessment, second.attempt, second.body, second.key, second.now);
    StepKeeps(c, later, second);
    assert AttemptGrows(later.attempts[first.attempt], Step(c, later, second).attempts[first.attempt]);
  }

  /** A batch accepted at some point of a run can be replayed at any later point without effect. */
  lemma BatchReplaysLater(c: Content, before: seq<Op>, course: string, ms: seq<Mutation>, between: seq<Op>)
    requires Sync(c, Run(c, Empty(), before), course, true, ms).Ok?
    ensures var later := Run(c, Empty(), before + [DoSync(course, true, ms)] + between);
            Sync(c, later, course, true, ms) == Ok(later)
  {
    var op := DoSync(course, true, ms);
    var st := Run(c, Empty(), before);
    var after := Run(c, Empty(), before + [op]);
    var later := Run(c, Empty(), before + [op] + between);
    EmptyIsSound(c);
    RunKeeps(c, Empty(), before);
    assert (before + [op])[..|before|] == before;
    StepKeeps(c, st, op);
    RunKeeps(c, after, between);
    RunSplits(c, Empty(), before + [op], between);
    forall l ensures GateOf(c, after, l) ==> GateOf(c, later, l) {
      if GateOf(c, after, l) { GateStays(c, after, later, l); }
    }
    ReplayIsSilent(c, course, st, ms, later);
  }

  // ---------------------------------------------------------------------------------------
  // Completion takes server time
  // ---------------------------------------------------------------------------------------

  function TimeOf(op: Op): Option<real>
  {
    match op
    case DoSync(_, _, _) => None
    case DoStart(_, _, now) => Some(now)
    case DoResume(_, _, now) => Some(now)
    case DoSubmit(_, _, _, _, now) => Some(now)
    case DoGetWatch(_, _, now) => Some(now)
    case DoSaveWatch(_, _, _, now) => Some(now)
  }

  /** The latest clock reading of a run that starts at `from`. */
  function Latest(from: real, ops: seq<Op>): real
  {
    if ops == [] then from
    else if TimeOf(ops[|ops| - 1]).Some? then TimeOf(ops[|ops| - 1]).value
    else Latest(from, ops[..|ops| - 1])
  }

  /** The clock never runs back. */
  predicate Forward(from: real, ops: seq<Op>)
  {
    ops != [] ==>
      Forward(from, ops[..|ops| - 1]) &&
      (TimeOf(ops[|ops| - 1]).Some? ==> Latest(from, ops[..|ops| - 1]) <= TimeOf(ops[|ops| - 1]).value)
  }

  /** The credit of a video is paid for by the time since `from`. */
  predicate Paid(row: W.Progress, from: real, latest: real)
  {
    0.0 <= row.furthest <= 2.0 * (row.checkpoint - from) && row.checkpoint <= latest
  }

  ghost predicate AllPaid(st: State, from: real, latest: real)
  {
    forall v :: v in st.watched ==> Paid(st.watched[v], from, latest)
  }

  lemma RowStaysPaid(row: W.Progress, position: real, duration: real, from: real, latest: real, now: real)
    requires Paid(row, from, latest) && from <= latest <= now && position >= 0.0 && duration > 0.0
    requires W.Advance(row, position, duration, now).Some?
    ensures Paid(W.Advance(row, position, duration, now).value, from, now)
  {
  }

  lemma WatchingStaysPaid(st: State, asset: string, from: real, latest: real, now: real)
    requires AllPaid(st, from, latest) && from <= latest <= now
    ensures Paid(WatchRowOf(st, asset, now), from, now)
  {
    if asset in st.watched { assert Paid(st.watched[asset], from, latest); }
  }

  lemma StepStaysPaid(c: Content, st: State, op: Op, from: real, latest: real)
    requires AllPaid(st, from, latest) && from <= latest && (TimeOf(op).Some? ==> latest <= TimeOf(op).value)
    ensures AllPaid(Step(c, st, op), from, if TimeOf(op).Some? then TimeOf(op).value else latest)
  {
    var after, next := Step(c, st, op), if TimeOf(op).Some? then TimeOf(op).value else latest;
    forall v | v in st.watched ensures Paid(st.watched[v], from, next) {
      assert Paid(st.watched[v], from, latest);
    }
    match op {
      case DoGetWatch(asset, allowed, now) =>
        WatchingStaysPaid(st, asset, from, latest, now);
      case DoSaveWatch(asset, position, allowed, now) =>
        WatchingStaysPaid(st, asset, from, latest, now);
        if SaveWatch(c, st, asset, position, allowed, now).Ok? {
          var duration, row := SavedRow(c, st, asset, position, allowed, now);
          RowStaysPaid(WatchRowOf(st, asset, now), position, duration, from, now, now);
        }
      case DoSync(course, _, ms) =>
        if Sync(c, st, op.course, op.enrolled, op.mutations).Ok? { AcceptedIsKnown(c, course, st, ms); }
      case _ => assert after.watched == st.watched;
    }
  }

  lemma {:induction false} RunStaysPaid(c: Content, ops: seq<Op>, from: real)
    requires Forward(from, ops)
    ensures AllPaid(Run(c, Empty(), ops), from, Latest(from, ops)) && from <= Latest(from, ops)
  {
    if ops != [] {
      var n := |ops| - 1;
      RunStaysPaid(c, ops[..n], from);
      StepStaysPaid(c, Run(c, Empty(), ops[..n]), ops[n], from, Latest(from, ops[..n]));
    }
  }

  /** No writer completes a lesson early: when a completed lesson has a published video, that video has
      its asset, and at least 0.475 of the duration has passed on the server since the run began. */
  lemma CompletionTakesServerTime(c: Content, ops: seq<Op>, from: real, lesson: string, item: string)
    returns (asset: string)
    requires Forward(from, ops) && lesson in Run(c, Empty(), ops).progress &&
             Run(c, Empty(), ops).progress[lesson].completed
    requires item in Published(c, lesson, VideoItem)
    ensures Plays(c, item, asset) && WatchDuration(c, asset, true).Ok?
    ensures Latest(from, ops) - from >= 0.475 * WatchDuration(c, asset, true).value
  {
    var st := Run(c, Empty(), ops);
    CompletedLessonsPassTheGate(c, ops, lesson);
    asset :| asset in c.assets && Plays(c, item, asset) && HasWatched(st.watched, asset);
    EmptyIsSound(c);
    RunKeeps(c, Empty(), ops);
    RunStaysPaid(c, ops, from);
    assert WatchSound(c, asset, st.watched[asset]) && Paid(st.watched[asset], from, Latest(from, ops));
  }
}
