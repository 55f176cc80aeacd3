/** Scoring a submitted assessment: points per question, and three floored integer percentages. */
module Scoring {
  import opened Common

  // The question type is a free string in the source; everything but the two known values is Other.
  datatype QuestionType = Mcq | Practical | Other

  datatype Question = Question(id: nat, kind: QuestionType, maxPoints: int, correctOption: Option<int>)

  datatype Answer = Answer(questionId: nat, selectedOption: Option<int>, practicalResponse: string)

  // The evaluator is called once per practical question, so its verdict may depend on the position
  // of the call as well as on the question and the response. None is an evaluator error.
  type Evaluator = (nat, Question, string) -> Option<int>

  const FALLBACK_SCORE := 75

  const SECTIONS: set<QuestionType> := {Mcq, Practical, Other}

  datatype Result = Result(score: int, mcqScore: int, practicalScore: int, passed: bool)

  // Go's division truncates toward zero.
  function Quotient(a: int, b: int): int
    requires b > 0
  {
    if a >= 0 then a / b else -((-a) / b)
  }

  function Percentage(earned: int, max: int): int {
    if max > 0 then Quotient(earned * 100, max) else 0
  }

  // The answer that counts for a question is the last one submitted for it.
  function AnswerFor(answers: seq<Answer>, id: nat): Option<Answer> {
    if |answers| == 0 then None
    else if answers[|answers| - 1].questionId == id then Some(answers[|answers| - 1])
    else AnswerFor(answers[..|answers| - 1], id)
  }

  datatype Grade = Grade(kind: QuestionType, max: int, earned: int)

  function Mark(position: nat, q: Question, answer: Option<Answer>, evaluate: Evaluator): (g: Grade)
    ensures g.kind == q.kind && g.max == q.maxPoints
  {
    var earned :=
      match q.kind
      case Mcq =>
        if answer.Some? && answer.value.selectedOption.Some? && answer.value.selectedOption == q.correctOption
        then q.maxPoints else 0
      case Practical =>
        var response := if answer.Some? then answer.value.practicalResponse else "";
        var verdict := evaluate(position, q, response);
        Quotient((if verdict.Some? then verdict.value else FALLBACK_SCORE) * q.maxPoints, 100)
      case Other => 0;
    Grade(q.kind, q.maxPoints, earned)
  }

  function Grades(questions: seq<Question>, answers: seq<Answer>, evaluate: Evaluator): (gs: seq<Grade>)
    ensures |gs| == |questions|
    ensures forall i :: 0 <= i < |gs| ==>
      gs[i] == Mark(i, questions[i], AnswerFor(answers, questions[i].id), evaluate)
  {
    if |questions| == 0 then []
    else
      var last := |questions| - 1;
      Grades(questions[..last], answers, evaluate)
        + [Mark(last, questions[last], AnswerFor(answers, questions[last].id), evaluate)]
  }

  function Max(gs: seq<Grade>, kinds: set<QuestionType>): int {
    if |gs| == 0 then 0
    else
      var last := gs[|gs| - 1];
      Max(gs[..|gs| - 1], kinds) + if last.kind in kinds then last.max else 0
  }

  function Earned(gs: seq<Grade>, kinds: set<QuestionType>): int {
    if |gs| == 0 then 0
    else
      var last := gs[|gs| - 1];
      Earned(gs[..|gs| - 1], kinds) + if last.kind in kinds then last.earned else 0
  }

  function SectionScore(gs: seq<Grade>, kinds: set<QuestionType>): int {
    Percentage(Earned(gs, kinds), Max(gs, kinds))
  }

  function Submitted(passingScore: int, gs: seq<Grade>): Result {
    Result(SectionScore(gs, SECTIONS), SectionScore(gs, {Mcq}), SectionScore(gs, {Practical}),
           SectionScore(gs, SECTIONS) >= passingScore)
  }

  /** The lookup map filled in submission order holds exactly the last answer to each question. */
  method IndexAnswers(answers: seq<Answer>) returns (byQuestion: map<nat, Answer>)
    ensures forall id: nat ::
      AnswerFor(answers, id) == if id in byQuestion then Some(byQuestion[id]) else None
  {
    byQuestion := map[];
    for i := 0 to |answers|
      invariant forall id: nat ::
        AnswerFor(answers[..i], id) == if id in byQuestion then Some(byQuestion[id]) else None
    {
      assert answers[..i + 1][..i] == answers[..i];
      byQuestion := byQuestion[answers[i].questionId := answers[i]];
    }
    assert answers[..|answers|] == answers;
  }

  /** The scoring loop: six running sums over the questions, then three divisions. */
  method SubmitAssessment(passingScore: int, questions: seq<Question>, answers: seq<Answer>, evaluate: Evaluator)
    returns (result: Result)
    ensures result == Submitted(passingScore, Grades(questions, answers, evaluate))
  {
    var byQuestion := IndexAnswers(answers);
    var totalMax, earned, mcqEarned, mcqMax, practicalEarned, practicalMax := 0, 0, 0, 0, 0, 0;
    ghost var gs := Grades(questions, answers, evaluate);
    for i := 0 to |questions|
      invariant totalMax == Max(gs[..i], SECTIONS) && earned == Earned(gs[..i], SECTIONS)
      invariant mcqMax == Max(gs[..i], {Mcq}) && mcqEarned == Earned(gs[..i], {Mcq})
      invariant practicalMax == Max(gs[..i], {Practical}) && practicalEarned == Earned(gs[..i], {Practical})
    {
      assert gs[..i + 1][..i] == gs[..i];
      var q := questions[i];
      totalMax := totalMax + q.maxPoints;
      var responded := q.id in byQuestion;
      if q.kind == Mcq {
        mcqMax := mcqMax + q.maxPoints;
        if responded && byQuestion[q.id].selectedOption.Some? && q.correctOption.Some? {
          if byQuestion[q.id].selectedOption.value == q.correctOption.value {
            earned := earned + q.maxPoints;
            mcqEarned := mcqEarned + q.maxPoints;
          }
        }
      } else if q.kind == Practical {
        practicalMax := practicalMax + q.maxPoints;
        var response := "";
        if responded {
          response := byQuestion[q.id].practicalResponse;
        }
        var verdict := evaluate(i, q, response);
        var practicalScore := FALLBACK_SCORE;
        if verdict.Some? {
          practicalScore := verdict.value;
        }
        var points := Quotient(practicalScore * q.maxPoints, 100);
        earned := earned + points;
        practicalEarned := practicalEarned + points;
      }
    }
    assert gs[..|questions|] == gs;
    var score, mcqScore, practicalPct := 0, 0, 0;
    if totalMax > 0 {
      score := Quotient(earned * 100, totalMax);
    }
    if mcqMax > 0 {
      mcqScore := Quotient(mcqEarned * 100, mcqMax);
    }
    if practicalMax > 0 {
      practicalPct := Quotient(practicalEarned * 100, practicalMax);
    }
    result := Result(score, mcqScore, practicalPct, score >= passingScore);
  }
}

/** What the percentages mean, for non-negative points and evaluator scores from 0 to 100. */
module ScoringTheorems {
  import opened Common
  import opened Scoring

  ghost predicate FairEvaluator(evaluate: Evaluator) {
    forall position: nat, q, response :: evaluate(position, q, response).Some? ==>
      0 <= evaluate(position, q, response).value <= 100
  }

  ghost predicate Scorable(questions: seq<Question>, evaluate: Evaluator) {
    && (forall i :: 0 <= i < |questions| ==> questions[i].maxPoints >= 0)
    && FairEvaluator(evaluate)
  }

  predicate Sound(gs: seq<Grade>) {
    forall i :: 0 <= i < |gs| ==> 0 <= gs[i].earned <= gs[i].max && (gs[i].kind == Other ==> gs[i].earned == 0)
  }

  lemma ScaledPointsStayWithin(score: int, points: int)
    requires 0 <= score <= 100 && 0 <= points
    ensures 0 <= Quotient(score * points, 100) <= points
  {
    assert 0 <= score * points <= 100 * points;
  }

  lemma GradesAreSound(questions: seq<Question>, answers: seq<Answer>, evaluate: Evaluator)
    requires Scorable(questions, evaluate)
    ensures Sound(Grades(questions, answers, evaluate))
  {
    forall i | 0 <= i < |questions|
      ensures 0 <= Grades(questions, answers, evaluate)[i].earned <= questions[i].maxPoints
    {
      var q := questions[i];
      var answer := AnswerFor(answers, q.id);
      var response := if answer.Some? then answer.value.practicalResponse else "";
      var verdict := evaluate(i, q, response);
      ScaledPointsStayWithin(if verdict.Some? then verdict.value else FALLBACK_SCORE, q.maxPoints);
      assert Grades(questions, answers, evaluate)[i] == Mark(i, q, answer, evaluate);
    }
  }

  lemma {:induction false} SumsAreOrdered(gs: seq<Grade>, kinds: set<QuestionType>)
    requires Sound(gs)
    ensures 0 <= Earned(gs, kinds) <= Max(gs, kinds)
  {
    if |gs| > 0 {
      SumsAreOrdered(gs[..|gs| - 1], kinds);
    }
  }

  lemma {:induction false} SectionsAddUp(gs: seq<Grade>)
    requires Sound(gs)
    ensures Max(gs, SECTIONS) == Max(gs, {Mcq}) + Max(gs, {Practical}) + Max(gs, {Other})
    ensures Earned(gs, SECTIONS) == Earned(gs, {Mcq}) + Earned(gs, {Practical})
  {
    if |gs| > 0 {
      SectionsAddUp(gs[..|gs| - 1]);
    }
  }

  // p percent of max is earned and p + 1 percent is not.
  predicate Reaches(p: int, earned: int, max: int) {
    p * max <= earned * 100 < (p + 1) * max
  }

  lemma TimesMonotone(a: int, b: int, k: int)
    requires a <= b && 0 <= k
    ensures a * k <= b * k
  {
  }

  lemma TimesSum(a: int, k: int, l: int)
    ensures a * (k + l) == a * k + a * l
  {
  }

  lemma ReachedOnce(p: int, q: int, earned: int, max: int)
    requires 0 < max && Reaches(p, earned, max) && Reaches(q, earned, max)
    ensures p == q
  {
    if p < q {
      TimesMonotone(p + 1, q, max);
    } else if q < p {
      TimesMonotone(q + 1, p, max);
    }
  }

  lemma PercentageReaches(earned: int, max: int)
    requires 0 <= earned && 0 < max
    ensures Reaches(Percentage(earned, max), earned, max)
  {
    var e := earned * 100;
    assert e == max * (e / max) + e % max;
  }

  /** The floored percentage is the one whole p such that p% of the points are earned and (p + 1)% are not. */
  lemma FlooredPercentage(earned: int, max: int, p: int)
    requires 0 <= earned && 0 < max
    ensures p == Percentage(earned, max) <==> Reaches(p, earned, max)
  {
    PercentageReaches(earned, max);
    if Reaches(p, earned, max) {
      ReachedOnce(p, Percentage(earned, max), earned, max);
    }
  }

  lemma ReachesIsBounded(p: int, earned: int, max: int)
    requires 0 <= earned <= max && 0 < max && Reaches(p, earned, max)
    ensures 0 <= p <= 100
  {
    if p < 0 {
      TimesMonotone(p + 1, 0, max);
    } else if p > 100 {
      TimesMonotone(101, p, max);
    }
  }

  lemma PercentageIsBounded(earned: int, max: int)
    requires 0 <= earned <= max
    ensures 0 <= Percentage(earned, max) <= 100
  {
    if max > 0 {
      PercentageReaches(earned, max);
      ReachesIsBounded(Percentage(earned, max), earned, max);
    }
  }

  lemma ReachesWider(p: int, w: int, earned: int, max: int, extra: int)
    requires 0 <= earned <= max && 0 < max && 0 <= extra
    requires Reaches(p, earned, max) && Reaches(w, earned, max + extra)
    ensures w <= p
  {
    ReachesIsBounded(w, earned, max + extra);
    if w > p {
      TimesMonotone(p + 1, w, max);
      TimesMonotone(max, max + extra, w);
    }
  }

  // A larger whole can only lower the percentage of the same points.
  lemma WiderTotalNeverHelps(earned: int, max: int, extra: int)
    requires 0 <= earned <= max && 0 <= extra
    ensures Percentage(earned, max + extra) <= Percentage(earned, max)
  {
    if max > 0 {
      PercentageReaches(earned, max);
      PercentageReaches(earned, max + extra);
      ReachesWider(Percentage(earned, max), Percentage(earned, max + extra), earned, max, extra);
    }
  }

  lemma MediantReached(low: int, high: int, mid: int, a: int, m: int, b: int, n: int)
    requires 0 < m && 0 < n && low <= high
    requires Reaches(low, a, m) && Reaches(high, b, n) && Reaches(mid, a + b, m + n)
    ensures low <= mid <= high
  {
    TimesMonotone(low, high, n);
    TimesMonotone(low + 1, high + 1, m);
    TimesSum(low, m, n);
    TimesSum(high + 1, m, n);
    if mid < low {
      TimesMonotone(mid + 1, low, m + n);
    } else if mid > high {
      TimesMonotone(high + 1, mid, m + n);
    }
  }

  // The mediant inequality for floored percentages.
  lemma MediantLiesBetween(a: int, m: int, b: int, n: int)
    requires 0 <= a <= m && 0 <= b <= n && 0 < m && 0 < n
    requires Percentage(a, m) <= Percentage(b, n)
    ensures Percentage(a, m) <= Percentage(a + b, m + n) <= Percentage(b, n)
  {
    PercentageReaches(a, m);
    PercentageReaches(b, n);
    PercentageReaches(a + b, m + n);
    MediantReached(Percentage(a, m), Percentage(b, n), Percentage(a + b, m + n), a, m, b, n);
  }

  ghost predicate Between(x: int, a: int, b: int) {
    a <= x <= b || b <= x <= a
  }

  // A section worth nothing scores 0; then the overall percentage is that of the other section.
  lemma TwoSectionScore(a: int, m: int, b: int, n: int)
    requires 0 <= a <= m && 0 <= b <= n
    ensures Between(Percentage(a + b, m + n), Percentage(a, m), Percentage(b, n))
  {
    PercentageIsBounded(a, m);
    PercentageIsBounded(b, n);
    if m > 0 && n > 0 {
      if Percentage(a, m) <= Percentage(b, n) {
        MediantLiesBetween(a, m, b, n);
      } else {
        MediantLiesBetween(b, n, a, m);
      }
    }
  }

  /** All three percentages lie in 0..100, whatever the question types. */
  lemma ScoresArePercentages(passingScore: int, questions: seq<Question>, answers: seq<Answer>, evaluate: Evaluator)
    requires Scorable(questions, evaluate)
    ensures var r := Submitted(passingScore, Grades(questions, answers, evaluate));
      0 <= r.score <= 100 && 0 <= r.mcqScore <= 100 && 0 <= r.practicalScore <= 100
  {
    var gs := Grades(questions, answers, evaluate);
    GradesAreSound(questions, answers, evaluate);
    forall kinds | kinds in {SECTIONS, {Mcq}, {Practical}}
      ensures 0 <= SectionScore(gs, kinds) <= 100
    {
      SumsAreOrdered(gs, kinds);
      PercentageIsBounded(Earned(gs, kinds), Max(gs, kinds));
    }
    assert SECTIONS in {SECTIONS, {Mcq}, {Practical}};
    assert {Mcq} in {SECTIONS, {Mcq}, {Practical}};
    assert {Practical} in {SECTIONS, {Mcq}, {Practical}};
  }

  lemma ScoreFromParts(a: int, m: int, b: int, n: int, extra: int)
    requires 0 <= a <= m && 0 <= b <= n && 0 <= extra
    ensures var score := Percentage(a + b, m + n + extra);
            && (score <= Percentage(a, m) || score <= Percentage(b, n))
            && (extra == 0 ==> Between(score, Percentage(a, m), Percentage(b, n)))
  {
    TwoSectionScore(a, m, b, n);
    WiderTotalNeverHelps(a + b, m + n, extra);
  }

  lemma Parts(questions: seq<Question>, answers: seq<Answer>, evaluate: Evaluator)
    requires Scorable(questions, evaluate)
    ensures var gs := Grades(questions, answers, evaluate);
            && 0 <= Earned(gs, {Mcq}) <= Max(gs, {Mcq}) && 0 <= Earned(gs, {Practical}) <= Max(gs, {Practical})
            && 0 <= Max(gs, {Other})
            && Max(gs, SECTIONS) == Max(gs, {Mcq}) + Max(gs, {Practical}) + Max(gs, {Other})
            && Earned(gs, SECTIONS) == Earned(gs, {Mcq}) + Earned(gs, {Practical})
  {
    var gs := Grades(questions, answers, evaluate);
    GradesAreSound(questions, answers, evaluate);
    SectionsAddUp(gs);
    SumsAreOrdered(gs, {Mcq});
    SumsAreOrdered(gs, {Practical});
    SumsAreOrdered(gs, {Other});
  }

  /** The overall score never exceeds the better section, whatever the question types. When the
      questions of unknown type are worth nothing it is also at least the worse section. */
  lemma ScoreLiesBetweenSections(
    passingScore: int, questions: seq<Question>, answers: seq<Answer>, evaluate: Evaluator)
    requires Scorable(questions, evaluate)
    ensures var r := Submitted(passingScore, Grades(questions, answers, evaluate));
      && (r.score <= r.mcqScore || r.score <= r.practicalScore)
      && (Max(Grades(questions, answers, evaluate), {Other}) == 0 ==>
            Between(r.score, r.mcqScore, r.practicalScore))
  {
    var gs := Grades(questions, answers, evaluate);
    Parts(questions, answers, evaluate);
    ScoreFromParts(Earned(gs, {Mcq}), Max(gs, {Mcq}), Earned(gs, {Practical}), Max(gs, {Practical}), Max(gs, {Other}));
  }

  // ----- unknown question types -----

  /** What the questions of some kinds are worth, whoever answers them. */
  function Worth(questions: seq<Question>, kinds: set<QuestionType>): int {
    if |questions| == 0 then 0
    else
      var last := questions[|questions| - 1];
      Worth(questions[..|questions| - 1], kinds) + if last.kind in kinds then last.maxPoints else 0
  }

  lemma {:induction false} WorthIsMax(
    questions: seq<Question>, answers: seq<Answer>, evaluate: Evaluator, kinds: set<QuestionType>)
    ensures Max(Grades(questions, answers, evaluate), kinds) == Worth(questions, kinds)
    decreases |questions|
  {
    if |questions| > 0 {
      var front := questions[..|questions| - 1];
      WorthIsMax(front, answers, evaluate, kinds);
      assert Grades(questions, answers, evaluate)[..|front|] == Grades(front, answers, evaluate);
    }
  }

  /** Ids tell questions apart, and every multiple-choice question can be answered right. */
  ghost predicate Answerable(questions: seq<Question>) {
    && (forall i, j :: 0 <= i < j < |questions| ==> questions[i].id != questions[j].id)
    && (forall i :: 0 <= i < |questions| && questions[i].kind == Mcq ==> questions[i].correctOption.Some?)
  }

  ghost predicate AtLeastWorseSection(questions: seq<Question>, answers: seq<Answer>, evaluate: Evaluator) {
    var r := Submitted(0, Grades(questions, answers, evaluate));
    r.score >= r.mcqScore || r.score >= r.practicalScore
  }

  function RightAnswers(questions: seq<Question>): (answers: seq<Answer>)
    ensures |answers| == |questions|
    ensures forall i :: 0 <= i < |answers| ==> answers[i] == Answer(questions[i].id, questions[i].correctOption, "")
  {
    seq(|questions|, i requires 0 <= i < |questions| => Answer(questions[i].id, questions[i].correctOption, ""))
  }

  lemma {:induction false} FoundAmongFirst(answers: seq<Answer>, i: nat, n: nat)
    requires i < n <= |answers|
    requires forall j :: i < j < n ==> answers[j].questionId != answers[i].questionId
    ensures AnswerFor(answers[..n], answers[i].questionId) == Some(answers[i])
    decreases n
  {
    assert answers[..n][..n - 1] == answers[..n - 1];
    if i < n - 1 {
      FoundAmongFirst(answers, i, n - 1);
    }
  }

  lemma FullMark(questions: seq<Question>, evaluate: Evaluator, i: nat)
    requires Answerable(questions) && i < |questions| && questions[i].kind != Other
    requires forall j: nat, q, response :: evaluate(j, q, response) == Some(100)
    ensures Grades(questions, RightAnswers(questions), evaluate)[i].earned == questions[i].maxPoints
  {
    var answers := RightAnswers(questions);
    FoundAmongFirst(answers, i, |answers|);
    assert answers[..|answers|] == answers;
    assert AnswerFor(answers, questions[i].id) == Some(answers[i]);
    assert Grades(questions, answers, evaluate)[i] == Mark(i, questions[i], Some(answers[i]), evaluate);
    HundredPercent(questions[i].maxPoints);
  }

  lemma HundredPercent(points: int)
    ensures Quotient(100 * points, 100) == points
  {
  }

  lemma {:induction false} NothingLostIn(gs: seq<Grade>, kinds: set<QuestionType>)
    requires forall i :: 0 <= i < |gs| && gs[i].kind in kinds ==> gs[i].earned == gs[i].max
    ensures Earned(gs, kinds) == Max(gs, kinds)
  {
    if |gs| > 0 {
      NothingLostIn(gs[..|gs| - 1], kinds);
    }
  }

  lemma {:induction false} NothingLostWithRightAnswers(
    questions: seq<Question>, evaluate: Evaluator, kinds: set<QuestionType>)
    requires Answerable(questions) && Scorable(questions, evaluate) && Other !in kinds
    requires forall i: nat, q, response :: evaluate(i, q, response) == Some(100)
    ensures var gs := Grades(questions, RightAnswers(questions), evaluate);
            Earned(gs, kinds) == Max(gs, kinds) == Worth(questions, kinds)
  {
    var gs := Grades(questions, RightAnswers(questions), evaluate);
    forall i | 0 <= i < |gs| && gs[i].kind in kinds ensures gs[i].earned == gs[i].max {
      FullMark(questions, evaluate, i);
    }
    NothingLostIn(gs, kinds);
    WorthIsMax(questions, RightAnswers(questions), evaluate, kinds);
  }

  lemma LostPointsShow(earned: int, max: int)
    requires 0 <= earned < max
    ensures Percentage(earned, max) < 100 && Percentage(max, max) == 100
  {
    FlooredPercentage(max, max, 100);
    PercentageReaches(earned, max);
    if Percentage(earned, max) >= 100 {
      TimesMonotone(100, Percentage(earned, max), max);
    }
  }

  /** Full marks in both sections, while the questions of unknown type, which nobody can earn, are
      worth something. */
  lemma {:induction false} UnknownTypesBreakTheLowerBound(questions: seq<Question>, evaluate: Evaluator)
    requires Answerable(questions) && Scorable(questions, evaluate)
    requires forall i: nat, q, response :: evaluate(i, q, response) == Some(100)
    requires Worth(questions, {Mcq}) > 0 && Worth(questions, {Practical}) > 0 && Worth(questions, {Other}) > 0
    ensures var r := Submitted(0, Grades(questions, RightAnswers(questions), evaluate));
            r.score < 100 && r.mcqScore == 100 && r.practicalScore == 100
  {
    var answers := RightAnswers(questions);
    var gs := Grades(questions, answers, evaluate);
    NothingLostWithRightAnswers(questions, evaluate, {Mcq});
    NothingLostWithRightAnswers(questions, evaluate, {Practical});
    WorthIsMax(questions, answers, evaluate, {Other});
    Parts(questions, answers, evaluate);
    LostPointsShow(Earned(gs, SECTIONS), Max(gs, SECTIONS));
    LostPointsShow(0, Max(gs, {Mcq}));
    LostPointsShow(0, Max(gs, {Practical}));
  }

  ghost predicate AlwaysAtLeastWorseSection(questions: seq<Question>) {
    forall answers, evaluate :: FairEvaluator(evaluate) ==> AtLeastWorseSection(questions, answers, evaluate)
  }

  predicate Harmless(questions: seq<Question>) {
    Worth(questions, {Other}) == 0 || Worth(questions, {Mcq}) == 0 || Worth(questions, {Practical}) == 0
  }

  /** The overall score is at least the worse section's, for all answers and all fair evaluators, if
      and only if the questions of unknown type, or one of the two sections, are worth nothing. */
  lemma {:induction false} LowerBoundIff(questions: seq<Question>)
    requires Answerable(questions) && forall i :: 0 <= i < |questions| ==> questions[i].maxPoints >= 0
    ensures AlwaysAtLeastWorseSection(questions) <==>
            Worth(questions, {Other}) == 0 || Worth(questions, {Mcq}) == 0 || Worth(questions, {Practical}) == 0
  {
    if Harmless(questions) {
      forall answers, evaluate | FairEvaluator(evaluate) ensures AtLeastWorseSection(questions, answers, evaluate) {
        HarmlessTypes(questions, answers, evaluate);
      }
    } else {
      var generous: Evaluator := (i, q, response) => Some(100);
      HarmfulTypes(questions, generous);
    }
  }

  lemma {:induction false} HarmfulTypes(questions: seq<Question>, evaluate: Evaluator)
    requires Answerable(questions) && Scorable(questions, evaluate) && !Harmless(questions)
    requires forall i: nat, q, response :: evaluate(i, q, response) == Some(100)
    ensures !AtLeastWorseSection(questions, RightAnswers(questions), evaluate)
  {
    Parts(questions, [], evaluate);
    WorthIsMax(questions, [], evaluate, {Mcq});
    WorthIsMax(questions, [], evaluate, {Practical});
    WorthIsMax(questions, [], evaluate, {Other});
    UnknownTypesBreakTheLowerBound(questions, evaluate);
  }

  lemma {:induction false} HarmlessTypes(questions: seq<Question>, answers: seq<Answer>, evaluate: Evaluator)
    requires Scorable(questions, evaluate) && Harmless(questions)
    ensures AtLeastWorseSection(questions, answers, evaluate)
  {
    WorthIsMax(questions, answers, evaluate, {Mcq});
    WorthIsMax(questions, answers, evaluate, {Practical});
    WorthIsMax(questions, answers, evaluate, {Other});
    ScoresArePercentages(0, questions, answers, evaluate);
    ScoreLiesBetweenSections(0, questions, answers, evaluate);
  }

  lemma PassingReached(passingScore: int, p: int, earned: int, max: int)
    requires 0 < max && Reaches(p, earned, max)
    ensures p >= passingScore <==> earned * 100 >= passingScore * max
  {
    if p >= passingScore {
      TimesMonotone(passingScore, p, max);
    } else {
      TimesMonotone(p + 1, passingScore, max);
    }
  }

  /** Rounding down never costs a pass: the exact fraction decides. */
  lemma FlooringNeverCostsAPass(
    passingScore: nat, questions: seq<Question>, answers: seq<Answer>, evaluate: Evaluator)
    requires Scorable(questions, evaluate)
    requires Max(Grades(questions, answers, evaluate), SECTIONS) > 0
    ensures var gs := Grades(questions, answers, evaluate);
      Submitted(passingScore, gs).passed <==> Earned(gs, SECTIONS) * 100 >= passingScore * Max(gs, SECTIONS)
  {
    var gs := Grades(questions, answers, evaluate);
    GradesAreSound(questions, answers, evaluate);
    SumsAreOrdered(gs, SECTIONS);
    PercentageReaches(Earned(gs, SECTIONS), Max(gs, SECTIONS));
    PassingReached(passingScore, SectionScore(gs, SECTIONS), Earned(gs, SECTIONS), Max(gs, SECTIONS));
  }

  lemma {:induction false} NothingLost(gs: seq<Grade>)
    requires Sound(gs)
    ensures Earned(gs, SECTIONS) == Max(gs, SECTIONS) <==> forall i :: 0 <= i < |gs| ==> gs[i].earned == gs[i].max
  {
    if |gs| > 0 {
      var front := gs[..|gs| - 1];
      NothingLost(front);
      SumsAreOrdered(front, SECTIONS);
      assert gs == front + [gs[|gs| - 1]];
    }
  }

  /** 100 means full points on every single question: no rounding can reach it. */
  lemma HundredMeansEveryPoint(passingScore: int, questions: seq<Question>, answers: seq<Answer>, evaluate: Evaluator)
    requires Scorable(questions, evaluate)
    requires Max(Grades(questions, answers, evaluate), SECTIONS) > 0
    ensures var gs := Grades(questions, answers, evaluate);
      Submitted(passingScore, gs).score == 100 <==> forall i :: 0 <= i < |gs| ==> gs[i].earned == questions[i].maxPoints
  {
    var gs := Grades(questions, answers, evaluate);
    GradesAreSound(questions, answers, evaluate);
    SumsAreOrdered(gs, SECTIONS);
    NothingLost(gs);
    FlooredPercentage(Earned(gs, SECTIONS), Max(gs, SECTIONS), 100);
  }

  /** Only the last answer to each question asked matters. */
  lemma OnlyLastAnswersMatter(
    questions: seq<Question>, answers: seq<Answer>, others: seq<Answer>, evaluate: Evaluator)
    requires forall i :: 0 <= i < |questions| ==>
      AnswerFor(answers, questions[i].id) == AnswerFor(others, questions[i].id)
    ensures Grades(questions, answers, evaluate) == Grades(questions, others, evaluate)
  {
    var gs, hs := Grades(questions, answers, evaluate), Grades(questions, others, evaluate);
    assert forall i :: 0 <= i < |questions| ==> gs[i] == hs[i];
  }

  function Known(questions: seq<Question>, answers: seq<Answer>): seq<Answer> {
    if |answers| == 0 then []
    else
      var last := answers[|answers| - 1];
      Known(questions, answers[..|answers| - 1])
        + if exists i :: 0 <= i < |questions| && questions[i].id == last.questionId then [last] else []
  }

  lemma {:induction false} KnownKeepsLastAnswers(questions: seq<Question>, answers: seq<Answer>, i: nat)
    requires i < |questions|
    ensures AnswerFor(Known(questions, answers), questions[i].id) == AnswerFor(answers, questions[i].id)
  {
    if |answers| > 0 {
      var front := Known(questions, answers[..|answers| - 1]);
      var kept := Known(questions, answers);
      KnownKeepsLastAnswers(questions, answers[..|answers| - 1], i);
      if kept != front {
        assert kept[..|kept| - 1] == front;
      }
    }
  }

  /** Answers to questions the assessment does not ask change nothing. */
  lemma StrayAnswersAreIgnored(questions: seq<Question>, answers: seq<Answer>, evaluate: Evaluator)
    ensures Grades(questions, Known(questions, answers), evaluate) == Grades(questions, answers, evaluate)
  {
    forall i | 0 <= i < |questions|
      ensures AnswerFor(Known(questions, answers), questions[i].id) == AnswerFor(answers, questions[i].id)
    {
      KnownKeepsLastAnswers(questions, answers, i);
    }
    OnlyLastAnswersMatter(questions, Known(questions, answers), answers, evaluate);
  }
}
