/** Marking a submission: every question gets an answer, given or blank, and scores all or nothing. */
module Grading {
  import opened Common

  datatype QuestionType = SingleChoice | MultipleChoice | TrueFalse | TextResponse

  /** The parts of a grading key; each may be missing. */
  datatype Key = Key(option: Option<string>, options: Option<seq<string>>, value: Option<bool>)

  datatype Question = Question(id: string, kind: QuestionType, points: nat, key: Key)

  datatype Answer = Answer(
    question: string, kind: string, option: Option<string>, options: Option<seq<string>>, value: Option<bool>,
    text: Option<string>)

  datatype Mark = Mark(question: string, correct: bool, earned: nat, max: nat)

  datatype Score = Score(earned: nat, maximum: nat, marks: seq<Mark>)

  function TypeName(t: QuestionType): string
  {
    match t
    case SingleChoice => "singleChoice"
    case MultipleChoice => "multipleChoice"
    case TrueFalse => "trueFalse"
    case TextResponse => "textResponse"
  }

  /** Question ids are primary keys and points are positive. */
  ghost predicate WellFormed(qs: seq<Question>)
  {
    (forall i, j :: 0 <= i < j < |qs| ==> qs[i].id != qs[j].id) && forall i :: 0 <= i < |qs| ==> qs[i].points > 0
  }

  function Blank(q: Question): Answer
  {
    Answer(q.id, TypeName(q.kind), None, None, None, None)
  }

  function Chosen(options: Option<seq<string>>): set<string>
  {
    if options.None? then {} else Elements(options.value)
  }

  predicate Correct(q: Question, a: Answer)
  {
    match q.kind
    case SingleChoice => a.option == q.key.option
    case MultipleChoice => Chosen(a.options) == Chosen(q.key.options)
    case TrueFalse => a.value == q.key.value
    case TextResponse => false
  }

  function Marked(q: Question, a: Answer): Mark
  {
    Mark(q.id, Correct(q, a), if Correct(q, a) then q.points else 0, q.points)
  }

  function Ids(answers: seq<Answer>): seq<string>
  {
    seq(|answers|, i requires 0 <= i < |answers| => answers[i].question)
  }

  /** The answers by question; a later answer to the same question replaces an earlier one. */
  function ByQuestion(answers: seq<Answer>): (m: map<string, Answer>)
    ensures m.Keys == Elements(Ids(answers))
    ensures forall id :: id in m ==> m[id] in answers && m[id].question == id
  {
    if answers == [] then map[]
    else
      var n := |answers| - 1;
      assert Ids(answers) == Ids(answers[..n]) + [answers[n].question];
      assert answers[n] in answers;
      ByQuestion(answers[..n])[answers[n].question := answers[n]]
  }

  function Given(q: Question, answers: seq<Answer>): Answer
  {
    if q.id in ByQuestion(answers) then ByQuestion(answers)[q.id] else Blank(q)
  }

  function QuestionIds(qs: seq<Question>): set<string>
  {
    set i | 0 <= i < |qs| :: qs[i].id
  }

  /** No question answered twice, no foreign question, and every answer of the question's type. */
  predicate Accepts(qs: seq<Question>, answers: seq<Answer>)
  {
    NoRepeats(Ids(answers)) && Elements(Ids(answers)) <= QuestionIds(qs) && TypesMatch(qs, answers)
  }

  predicate TypesMatch(qs: seq<Question>, answers: seq<Answer>)
  {
    forall i :: 0 <= i < |qs| ==> Fits(answers, qs[i])
  }

  predicate Fits(answers: seq<Answer>, q: Question)
  {
    Given(q, answers).kind == TypeName(q.kind)
  }

  function Marks(qs: seq<Question>, answers: seq<Answer>): seq<Mark>
  {
    seq(|qs|, i requires 0 <= i < |qs| => Marked(qs[i], Given(qs[i], answers)))
  }

  function Earned(ms: seq<Mark>): nat
  {
    if ms == [] then 0 else Earned(ms[..|ms| - 1]) + ms[|ms| - 1].earned
  }

  function MaxPoints(qs: seq<Question>): nat
  {
    if qs == [] then 0 else MaxPoints(qs[..|qs| - 1]) + qs[|qs| - 1].points
  }

  function Scored(qs: seq<Question>, answers: seq<Answer>): Score
  {
    Score(Earned(Marks(qs, answers)), MaxPoints(qs), Marks(qs, answers))
  }

  method CollectAnswers(answers: seq<Answer>) returns (m: map<string, Answer>)
    ensures m == ByQuestion(answers)
  {
    m := map[];
    for i := 0 to |answers|
      invariant m == ByQuestion(answers[..i])
    {
      assert answers[..i + 1][..i] == answers[..i];
      m := m[answers[i].question := answers[i]];
    }
    assert answers[..|answers|] == answers;
  }

  method MarkAnswer(q: Question, a: Answer) returns (mark: Mark)
    ensures mark == Marked(q, a)
  {
    var correct := false;
    if q.kind == SingleChoice {
      correct := a.option == q.key.option;
    } else if q.kind == MultipleChoice {
      correct := Chosen(a.options) == Chosen(q.key.options);
    } else if q.kind == TrueFalse {
      correct := a.value == q.key.value;
    }
    mark := Mark(q.id, correct, if correct then q.points else 0, q.points);
  }

  lemma MarksGrow(qs: seq<Question>, i: nat, answers: seq<Answer>)
    requires i < |qs|
    ensures Marks(qs[..i + 1], answers) == Marks(qs[..i], answers) + [Marked(qs[i], Given(qs[i], answers))]
    ensures Earned(Marks(qs[..i + 1], answers)) ==
            Earned(Marks(qs[..i], answers)) + Marked(qs[i], Given(qs[i], answers)).earned
  {
    var before, mark := Marks(qs[..i], answers), Marked(qs[i], Given(qs[i], answers));
    assert Marks(qs[..i + 1], answers) == before + [mark];
    assert (before + [mark])[..i] == before;
  }

  /** None is the refusal of the whole submission. */
  method Grade(qs: seq<Question>, answers: seq<Answer>) returns (r: Option<Score>)
    ensures r.Some? <==> Accepts(qs, answers)
    ensures r.Some? ==> r.value == Scored(qs, answers)
  {
    var answerBy := CollectAnswers(answers);
    RepeatsShrink(Ids(answers));
    if |answerBy.Keys| != |answers| || !(answerBy.Keys <= QuestionIds(qs)) {
      return None;
    }
    var maximum := TotalPoints(qs);
    var earned, marks, ok := MarkAll(qs, answers, answerBy);
    if !ok {
      return None;
    }
    r := Some(Score(earned, maximum, marks));
  }

  method Pick(q: Question, answers: seq<Answer>, answerBy: map<string, Answer>) returns (a: Answer)
    requires answerBy == ByQuestion(answers)
    ensures a == Given(q, answers)
  {
    a := if q.id in answerBy then answerBy[q.id] else Blank(q);
  }

  ghost predicate All<T>(s: seq<T>, f: T -> bool)
  {
    forall i :: 0 <= i < |s| ==> f(s[i])
  }

  lemma AllGrow<T>(s: seq<T>, i: nat, f: T -> bool)
    requires i < |s|
    ensures All(s[..i + 1], f) <==> All(s[..i], f) && f(s[i])
    ensures All(s, f) ==> f(s[i])
  {
    var more := s[..i + 1];
    assert more == s[..i] + [s[i]];
    if All(more, f) {
      assert f(more[i]);
      forall j | 0 <= j < i ensures f(s[..i][j]) { assert f(more[j]); }
    }
  }

  lemma TypesGrow(qs: seq<Question>, i: nat, answers: seq<Answer>)
    requires i < |qs|
    ensures TypesMatch(qs[..i + 1], answers) <==> TypesMatch(qs[..i], answers) && Fits(answers, qs[i])
    ensures TypesMatch(qs, answers) ==> Fits(answers, qs[i])
  {
    var f := (q: Question) => Fits(answers, q);
    AllGrow(qs, i, f);
    assert All(qs[..i + 1], f) <==> TypesMatch(qs[..i + 1], answers);
    assert All(qs[..i], f) <==> TypesMatch(qs[..i], answers);
  }

  method MarkAll(qs: seq<Question>, answers: seq<Answer>, answerBy: map<string, Answer>)
    returns (earned: nat, marks: seq<Mark>, ok: bool)
    requires answerBy == ByQuestion(answers)
    ensures ok <==> TypesMatch(qs, answers)
    ensures ok ==> marks == Marks(qs, answers) && earned == Earned(marks)
  {
    earned, marks, ok := 0, [], true;
    for i := 0 to |qs|
      invariant marks == Marks(qs[..i], answers) && earned == Earned(Marks(qs[..i], answers))
      invariant TypesMatch(qs[..i], answers)
    {
      var a := Pick(qs[i], answers, answerBy);
      TypesGrow(qs, i, answers);
      if a.kind != TypeName(qs[i].kind) {
        ok := false;
        return;
      }
      var mark := MarkAnswer(qs[i], a);
      MarksGrow(qs, i, answers);
      earned := earned + mark.earned;
      marks := marks + [mark];
    }
    assert qs[..|qs|] == qs;
  }

  method TotalPoints(qs: seq<Question>) returns (total: nat)
    ensures total == MaxPoints(qs)
  {
    total := 0;
    for i := 0 to |qs|
      invariant total == MaxPoints(qs[..i])
    {
      assert qs[..i + 1][..i] == qs[..i];
      total := total + qs[i].points;
    }
    assert qs[..|qs|] == qs;
  }

  function Percentage(s: Score): real
  {
    if s.maximum == 0 then 0.0 else (s.earned * 100) as real / s.maximum as real
  }

  // ---------------------------------------------------------------------------------------
  // What a score means
  // ---------------------------------------------------------------------------------------

  lemma MarksFront(qs: seq<Question>, answers: seq<Answer>)
    requires qs != []
    ensures var n := |qs| - 1;
            Marks(qs, answers)[..n] == Marks(qs[..n], answers) &&
                Marks(qs, answers)[n] == Marked(qs[n], Given(qs[n], answers))
  {
  }

  /** All points are earned exactly when every answer is correct. */
  lemma {:induction false} EarnedWithinMaximum(qs: seq<Question>, answers: seq<Answer>)
    requires WellFormed(qs)
    ensures Earned(Marks(qs, answers)) <= MaxPoints(qs)
    ensures Earned(Marks(qs, answers)) == MaxPoints(qs) <==> forall i :: 0 <= i < |qs| ==>
            Correct(qs[i], Given(qs[i], answers))
  {
    if qs != [] {
      var n := |qs| - 1;
      MarksFront(qs, answers);
      EarnedWithinMaximum(qs[..n], answers);
      assert forall i :: 0 <= i < n ==> qs[..n][i] == qs[i];
    }
  }

  lemma PercentageInRange(qs: seq<Question>, answers: seq<Answer>)
    requires WellFormed(qs)
    ensures 0.0 <= Percentage(Scored(qs, answers)) <= 100.0
    ensures Percentage(Scored(qs, answers)) == 100.0 <==> qs != [] && forall i :: 0 <= i < |qs| ==>
            Correct(qs[i], Given(qs[i], answers))
  {
    EarnedWithinMaximum(qs, answers);
    var s := Scored(qs, answers);
    if s.maximum > 0 {
      ShareOf(s.earned, s.maximum);
    }
    PointsArePositive(qs);
  }

  lemma {:induction false} PointsArePositive(qs: seq<Question>)
    requires WellFormed(qs)
    ensures MaxPoints(qs) == 0 <==> qs == []
  {
  }

  lemma ShareOf(part: nat, whole: nat)
    requires part <= whole && whole > 0
    ensures var p := (part * 100) as real / whole as real; 0.0 <= p <= 100.0 && (p == 100.0 <==> part == whole)
  {
    var p := (part * 100) as real / whole as real;
    assert p * whole as real == (part * 100) as real;
    assert p > 100.0 ==> p * whole as real > 100.0 * whole as real;
    assert part < whole ==> (part * 100) as real < 100.0 * whole as real;
  }

  // ---------------------------------------------------------------------------------------
  // What is accepted and what is right
  // ---------------------------------------------------------------------------------------

  /** The answer is to this question, in this question's type. */
  predicate Asks(q: Question, a: Answer)
  {
    && a.question == q.id
    && match q.kind
       case SingleChoice => a.kind == "singleChoice"
       case MultipleChoice => a.kind == "multipleChoice"
       case TrueFalse => a.kind == "trueFalse"
       case TextResponse => a.kind == "textResponse"
  }

  predicate Asked(qs: seq<Question>, a: Answer)
  {
    exists i :: 0 <= i < |qs| && Asks(qs[i], a)
  }

  /** No two answers are to one question, and each answers a question of the assessment in its type. */
  predicate ToThePoint(qs: seq<Question>, answers: seq<Answer>)
  {
    && (forall j, k :: 0 <= j < k < |answers| ==> answers[j].question != answers[k].question)
    && (forall j :: 0 <= j < |answers| ==> Asked(qs, answers[j]))
  }

  /** The only answer to a question is the one that is marked. */
  lemma TheAnswerIsGiven(q: Question, answers: seq<Answer>, j: nat)
    requires NoRepeats(Ids(answers)) && j < |answers| && answers[j].question == q.id
    ensures Given(q, answers) == answers[j]
  {
    assert Ids(answers)[j] == q.id;
    OnlyAnswer(answers, Given(q, answers), answers[j]);
  }

  lemma AcceptedIsToThePoint(qs: seq<Question>, answers: seq<Answer>)
    requires Accepts(qs, answers)
    ensures ToThePoint(qs, answers)
  {
    var ids := Ids(answers);
    forall j, k | 0 <= j < k < |answers| ensures answers[j].question != answers[k].question {
      assert ids[j] != ids[k];
    }
    forall j | 0 <= j < |answers| ensures Asked(qs, answers[j]) {
      assert ids[j] in Elements(ids);
      var i :| 0 <= i < |qs| && qs[i].id == answers[j].question;
      TheAnswerIsGiven(qs[i], answers, j);
      assert Fits(answers, qs[i]) && Asks(qs[i], answers[j]);
    }
  }

  lemma ToThePointFits(qs: seq<Question>, answers: seq<Answer>, q: Question)
    requires WellFormed(qs) && ToThePoint(qs, answers) && NoRepeats(Ids(answers)) && q in qs
    ensures Fits(answers, q)
  {
    if q.id in ByQuestion(answers) {
      var a := Given(q, answers);
      var j :| 0 <= j < |answers| && answers[j] == a;
      assert Asked(qs, answers[j]);
      var i :| 0 <= i < |qs| && Asks(qs[i], a);
      assert qs[i] == q;
    }
  }

  /** A submission is accepted exactly when it is to the point. */
  lemma AcceptedExactlyWhen(qs: seq<Question>, answers: seq<Answer>)
    requires WellFormed(qs)
    ensures Accepts(qs, answers) <==> ToThePoint(qs, answers)
  {
    if Accepts(qs, answers) {
      AcceptedIsToThePoint(qs, answers);
    }
    if ToThePoint(qs, answers) {
      assert NoRepeats(Ids(answers));
      KnownQuestions(qs, answers);
      forall i | 0 <= i < |qs| ensures Fits(answers, qs[i]) { ToThePointFits(qs, answers, qs[i]); }
    }
  }

  lemma KnownQuestions(qs: seq<Question>, answers: seq<Answer>)
    requires ToThePoint(qs, answers)
    ensures Elements(Ids(answers)) <= QuestionIds(qs)
  {
    forall id | id in Elements(Ids(answers)) ensures id in QuestionIds(qs) {
      var j :| 0 <= j < |answers| && Ids(answers)[j] == id;
      assert Asked(qs, answers[j]);
    }
  }

  /** The right choice is the key's, the right set of choices has the key's options and no other, and a text
      is never right on its own. */
  predicate Right(q: Question, a: Answer)
  {
    match q.kind
    case SingleChoice => a.option == q.key.option
    case TrueFalse => a.value == q.key.value
    case TextResponse => false
    case MultipleChoice =>
      (a.options.Some? ==> forall o :: o in a.options.value ==> q.key.options.Some? && o in q.key.options.value) &&
      (q.key.options.Some? ==> forall o :: o in q.key.options.value ==> a.options.Some? && o in a.options.value)
  }

  lemma RightIsCorrect(q: Question, a: Answer)
    ensures Correct(q, a) <==> Right(q, a)
  {
    if q.kind == MultipleChoice {
      forall o ensures o in Chosen(a.options) <==> a.options.Some? && o in a.options.value {}
      forall o ensures o in Chosen(q.key.options) <==> q.key.options.Some? && o in q.key.options.value {}
      if Right(q, a) { assert Chosen(a.options) == Chosen(q.key.options); }
    }
  }

  /** In an accepted submission the mark of an answered question is right exactly when its answer is, and then
      earns all of the question's points. */
  lemma MarkedExactlyWhen(qs: seq<Question>, answers: seq<Answer>, j: nat, i: nat)
    requires Accepts(qs, answers) && j < |answers| && i < |qs| && answers[j].question == qs[i].id
    ensures |Scored(qs, answers).marks| == |qs|
    ensures var mark := Scored(qs, answers).marks[i];
            && mark.question == qs[i].id && mark.max == qs[i].points && (mark.correct <==> Right(qs[i], answers[j]))
            && mark.earned == if Right(qs[i], answers[j]) then qs[i].points else 0
  {
    TheAnswerIsGiven(qs[i], answers, j);
    RightIsCorrect(qs[i], answers[j]);
  }

  // ---------------------------------------------------------------------------------------
  // The order of the answers
  // ---------------------------------------------------------------------------------------

  lemma IdsWithin(a: seq<Answer>, b: seq<Answer>)
    requires forall x :: x in a ==> x in b
    ensures Elements(Ids(a)) <= Elements(Ids(b))
  {
    forall id | id in Elements(Ids(a)) ensures id in Elements(Ids(b)) {
      var i :| 0 <= i < |a| && Ids(a)[i] == id;
      assert a[i] in b;
      var j :| 0 <= j < |b| && b[j] == a[i];
      assert Ids(b)[j] == id;
    }
  }

  lemma SameAnswers(a: seq<Answer>, b: seq<Answer>)
    requires multiset(a) == multiset(b) && NoRepeats(Ids(a))
    ensures NoRepeats(Ids(b)) && Elements(Ids(b)) == Elements(Ids(a)) && ByQuestion(a) == ByQuestion(b)
  {
    assert |a| == |multiset(a)| == |multiset(b)| == |b|;
    forall x ensures x in a <==> x in b {
      assert x in a <==> x in multiset(a);
      assert x in b <==> x in multiset(b);
    }
    IdsWithin(a, b);
    IdsWithin(b, a);
    RepeatsShrink(Ids(a));
    RepeatsShrink(Ids(b));
    assert |Ids(a)| == |Ids(b)| && Elements(Ids(a)) == Elements(Ids(b));
    forall id | id in ByQuestion(a) ensures ByQuestion(a)[id] == ByQuestion(b)[id] {
      OnlyAnswer(a, ByQuestion(a)[id], ByQuestion(b)[id]);
    }
  }

  lemma OnlyAnswer(answers: seq<Answer>, x: Answer, y: Answer)
    requires NoRepeats(Ids(answers)) && x in answers && y in answers && x.question == y.question
    ensures x == y
  {
    var i :| 0 <= i < |answers| && answers[i] == x;
    var j :| 0 <= j < |answers| && answers[j] == y;
    assert Ids(answers)[i] == Ids(answers)[j];
  }

  /** The order of the answers never matters: neither to acceptance nor to a single mark. */
  lemma OrderOfAnswersIrrelevant(qs: seq<Question>, a: seq<Answer>, b: seq<Answer>)
    requires multiset(a) == multiset(b)
    ensures Accepts(qs, a) <==> Accepts(qs, b)
    ensures Accepts(qs, a) ==> Scored(qs, a) == Scored(qs, b)
  {
    if NoRepeats(Ids(a)) { SameAnswers(a, b); }
    if NoRepeats(Ids(b)) { SameAnswers(b, a); }
    if Accepts(qs, a) {
      assert Marks(qs, a) == Marks(qs, b);
    }
  }

  // ---------------------------------------------------------------------------------------
  // Omitted questions
  // ---------------------------------------------------------------------------------------

  /** The key has the part its question type is marked against. */
  predicate HasKey(q: Question)
  {
    match q.kind
    case SingleChoice => q.key.option.Some?
    case MultipleChoice => Chosen(q.key.options) != {}
    case TrueFalse => q.key.value.Some?
    case TextResponse => true
  }

  predicate Omitted(q: Question, answers: seq<Answer>)
  {
    q.id !in Elements(Ids(answers))
  }

  /** The points a submission earns on questions it does not answer. */
  function EarnedOnOmitted(qs: seq<Question>, answers: seq<Answer>): nat
  {
    if qs == [] then 0
    else
      var q := qs[|qs| - 1];
      EarnedOnOmitted(qs[..|qs| - 1], answers) + if Omitted(q, answers) then Marked(q, Given(q, answers)).earned else 0
  }

  /** An omitted question earns its points exactly when its key is missing, so nothing is earned on
      omitted questions if and only if each of them has a key. */
  lemma {:induction false} OmittedEarnNothing(qs: seq<Question>, answers: seq<Answer>)
    requires WellFormed(qs)
    ensures EarnedOnOmitted(qs, answers) == 0 <==> forall i :: 0 <= i < |qs| && Omitted(qs[i], answers) ==>
            HasKey(qs[i])
  {
    if qs != [] {
      var n := |qs| - 1;
      OmittedEarnNothing(qs[..n], answers);
      assert forall i :: 0 <= i < n ==> qs[..n][i] == qs[i];
      assert Omitted(qs[n], answers) ==> (Marked(qs[n], Given(qs[n], answers)).earned == 0 <==> HasKey(qs[n]));
    }
  }

  /** A single-choice question without a key pays full marks to an empty submission. */
  lemma MissingKeyPaysOut()
    ensures var q := Question("q", SingleChoice, 5, Key(None, None, None));
            WellFormed([q]) && Accepts([q], []) && Scored([q], []).earned == 5
  {
    var q := Question("q", SingleChoice, 5, Key(None, None, None));
    assert Marks([q], []) == [Mark("q", true, 5, 5)];
    assert [Mark("q", true, 5, 5)][..0] == [];
  }
}
