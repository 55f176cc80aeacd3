/** What a submission scores, stated on the questions and the answers as they were handed in. */
module ScoringCalls {
  import opened Common
  import opened Scoring
  import opened ScoringTheorems

  /** The i-th submitted answer is the last one to this question. */
  predicate IsLast(answers: seq<Answer>, id: nat, i: int) {
    && 0 <= i < |answers| && answers[i].questionId == id
    && forall j :: i < j < |answers| ==> answers[j].questionId != id
  }

  /** The last answer to the question selects its correct option. */
  ghost predicate Right(q: Question, answers: seq<Answer>) {
    q.correctOption.Some? && exists i :: IsLast(answers, q.id, i) && answers[i].selectedOption == q.correctOption
  }

  /** The evaluator is shown the last answer's text, and an empty text when there is no answer. */
  ghost predicate Shown(q: Question, answers: seq<Answer>, response: string) {
    || (exists i :: IsLast(answers, q.id, i) && answers[i].practicalResponse == response)
    || (response == "" && forall i :: 0 <= i < |answers| ==> answers[i].questionId != q.id)
  }

  /** The evaluator's percentage of the question's points, 75 percent when the evaluator fails. */
  function Share(percent: Option<int>, maxPoints: int): int {
    match percent
    case Some(p) => Quotient(p * maxPoints, 100)
    case None => Quotient(75 * maxPoints, 100)
  }

  /** What a question brings: all its points for the right option, the evaluator's share of them for a
    practical response, and nothing when its type is unknown. */
  ghost predicate Brings(i: nat, q: Question, answers: seq<Answer>, evaluate: Evaluator, points: int) {
    match q.kind
    case Mcq => points == (if Right(q, answers) then q.maxPoints else 0)
    case Practical =>
      exists response :: Shown(q, answers, response) && points == Share(evaluate(i, q, response), q.maxPoints)
    case Other => points == 0
  }

  ghost predicate Points(questions: seq<Question>, answers: seq<Answer>, evaluate: Evaluator, earned: seq<int>) {
    && |earned| == |questions|
    && forall i :: 0 <= i < |questions| ==> Brings(i, questions[i], answers, evaluate, earned[i])
  }

  /** The points brought by the questions of some kinds. */
  function Total(questions: seq<Question>, earned: seq<int>, kinds: set<QuestionType>): int
    requires |earned| == |questions|
  {
    if |questions| == 0 then 0
    else
      var last := |questions| - 1;
      Total(questions[..last], earned[..last], kinds) + if questions[last].kind in kinds then earned[last] else 0
  }

  lemma {:induction false} AnswerForIsLast(answers: seq<Answer>, id: nat) returns (i: int)
    ensures AnswerFor(answers, id).Some? ==> IsLast(answers, id, i) && AnswerFor(answers, id) == Some(answers[i])
    ensures AnswerFor(answers, id).None? ==> forall j :: 0 <= j < |answers| ==> answers[j].questionId != id
  {
    i := 0;
    if |answers| > 0 {
      var last := |answers| - 1;
      if answers[last].questionId == id {
        i := last;
      } else {
        i := AnswerForIsLast(answers[..last], id);
      }
    }
  }

  lemma LastIsUnique(answers: seq<Answer>, id: nat, i: int, j: int)
    requires IsLast(answers, id, i) && IsLast(answers, id, j)
    ensures i == j
  {
  }

  lemma MarkBrings(position: nat, q: Question, answers: seq<Answer>, evaluate: Evaluator)
    ensures Brings(position, q, answers, evaluate, Mark(position, q, AnswerFor(answers, q.id), evaluate).earned)
  {
    var answer := AnswerFor(answers, q.id);
    var i := AnswerForIsLast(answers, q.id);
    if q.kind == Mcq && Right(q, answers) {
      var j :| IsLast(answers, q.id, j) && answers[j].selectedOption == q.correctOption;
      LastIsUnique(answers, q.id, i, j);
    } else if q.kind == Practical {
      assert Shown(q, answers, if answer.Some? then answer.value.practicalResponse else "");
    }
  }

  /** The points of each question, as they were graded. */
  function PointsOf(gs: seq<Grade>): (earned: seq<int>)
    ensures |earned| == |gs| && forall i :: 0 <= i < |gs| ==> earned[i] == gs[i].earned
  {
    seq(|gs|, i requires 0 <= i < |gs| => gs[i].earned)
  }

  lemma GradesArePoints(questions: seq<Question>, answers: seq<Answer>, evaluate: Evaluator)
    ensures Points(questions, answers, evaluate, PointsOf(Grades(questions, answers, evaluate)))
  {
    var earned := PointsOf(Grades(questions, answers, evaluate));
    forall i | 0 <= i < |questions| ensures Brings(i, questions[i], answers, evaluate, earned[i]) {
      MarkBrings(i, questions[i], answers, evaluate);
    }
  }

  lemma {:induction false} SumsAreTotals(questions: seq<Question>, gs: seq<Grade>, kinds: set<QuestionType>)
    requires |gs| == |questions|
    requires forall i :: 0 <= i < |gs| ==> gs[i].kind == questions[i].kind && gs[i].max == questions[i].maxPoints
    ensures Earned(gs, kinds) == Total(questions, PointsOf(gs), kinds) && Max(gs, kinds) == Worth(questions, kinds)
    decreases |gs|
  {
    if |gs| > 0 {
      var last := |gs| - 1;
      SumsAreTotals(questions[..last], gs[..last], kinds);
      assert PointsOf(gs)[..last] == PointsOf(gs[..last]);
    }
  }

  /** Any questions, answers and evaluator: each percentage is the points earned in its section, as a
    whole percentage of what the section is worth, and 0 of a section worth nothing; the overall one
    is taken over all questions and decides passing. */
  lemma SubmissionScores(
    passingScore: int, questions: seq<Question>, answers: seq<Answer>, evaluate: Evaluator)
    returns (earned: seq<int>)
    ensures Points(questions, answers, evaluate, earned)
    ensures var r := Submitted(passingScore, Grades(questions, answers, evaluate));
            && IsPercentage(r.mcqScore, Total(questions, earned, {Mcq}), Worth(questions, {Mcq}))
            && IsPercentage(r.practicalScore, Total(questions, earned, {Practical}), Worth(questions, {Practical}))
            && IsPercentage(r.score, Total(questions, earned, {Mcq, Practical}), Worth(questions, {Mcq, Practical, Other}))
            && (r.passed <==> r.score >= passingScore)
  {
    var gs := Grades(questions, answers, evaluate);
    earned := PointsOf(gs);
    GradesArePoints(questions, answers, evaluate);
    SumsAreTotals(questions, gs, {Mcq});
    SumsAreTotals(questions, gs, {Practical});
    SumsAreTotals(questions, gs, {Mcq, Practical, Other});
    OtherBringsNothing(questions, answers, evaluate, earned);
    PercentageIs(Total(questions, earned, {Mcq}), Worth(questions, {Mcq}));
    PercentageIs(Total(questions, earned, {Practical}), Worth(questions, {Practical}));
    PercentageIs(Total(questions, earned, {Mcq, Practical}), Worth(questions, {Mcq, Practical, Other}));
  }

  lemma {:induction false} OtherBringsNothing(
    questions: seq<Question>, answers: seq<Answer>, evaluate: Evaluator, earned: seq<int>)
    requires Points(questions, answers, evaluate, earned)
    ensures Total(questions, earned, {Mcq, Practical, Other}) == Total(questions, earned, {Mcq, Practical})
    decreases |questions|
  {
    if |questions| > 0 {
      var last := |questions| - 1;
      var qs, es := questions[..last], earned[..last];
      forall i | 0 <= i < last ensures Brings(i, qs[i], answers, evaluate, es[i]) {
        assert Brings(i, questions[i], answers, evaluate, earned[i]);
      }
      assert Brings(last, questions[last], answers, evaluate, earned[last]);
      OtherBringsNothing(qs, answers, evaluate, es);
    }
  }

  /** p is 100 * earned / max, truncated toward zero; 0 when max is not positive. */
  predicate IsPercentage(p: int, earned: int, max: int) {
    if max <= 0 then p == 0
    else if earned >= 0 then p >= 0 && p * max <= earned * 100 < (p + 1) * max
    else p <= 0 && (p - 1) * max < earned * 100 <= p * max
  }

  lemma PercentageIs(earned: int, max: int)
    ensures IsPercentage(Percentage(earned, max), earned, max)
  {
    if max > 0 {
      QuotientTruncates(earned * 100, max);
    }
  }

  lemma QuotientTruncates(a: int, b: int)
    requires b > 0
    ensures var q := Quotient(a, b);
            if a >= 0 then q >= 0 && q * b <= a < (q + 1) * b else q <= 0 && (q - 1) * b < a <= q * b
  {
    var m := if a >= 0 then a else -a;
    assert m == b * (m / b) + m % b;
    assert m / b >= 0;
  }

  /** Without a right option nothing is earned in multiple choice, whatever was answered. */
  lemma NoRightOptionScoresNothing(
    passingScore: int, questions: seq<Question>, answers: seq<Answer>, evaluate: Evaluator)
    requires forall i :: 0 <= i < |questions| && questions[i].kind == Mcq ==> !Right(questions[i], answers)
    ensures Submitted(passingScore, Grades(questions, answers, evaluate)).mcqScore == 0
  {
    var earned := SubmissionScores(passingScore, questions, answers, evaluate);
    forall i | 0 <= i < |questions| && questions[i].kind == Mcq ensures earned[i] == 0 {
      assert Brings(i, questions[i], answers, evaluate, earned[i]);
    }
    ZeroesAddUp(questions, earned, {Mcq});
    var max := Worth(questions, {Mcq});
    var p := Submitted(passingScore, Grades(questions, answers, evaluate)).mcqScore;
    if max > 0 && p > 0 {
      TimesMonotone(1, p, max);
    }
  }

  lemma {:induction false} ZeroesAddUp(questions: seq<Question>, earned: seq<int>, kinds: set<QuestionType>)
    requires |earned| == |questions|
    requires forall i :: 0 <= i < |questions| && questions[i].kind in kinds ==> earned[i] == 0
    ensures Total(questions, earned, kinds) == 0
    decreases |questions|
  {
    if |questions| > 0 {
      var last := |questions| - 1;
      var qs, es := questions[..last], earned[..last];
      assert forall i :: 0 <= i < |qs| ==> qs[i] == questions[i] && es[i] == earned[i];
      ZeroesAddUp(qs, es, kinds);
    }
  }
}
