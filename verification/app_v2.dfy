/**
 * The second variant of the wizard (app_v2.py): questions come from a
 * language model as text, are parsed per technology, answered, and scored
 * with a four-level grade and a fixed feedback message per answer.
 */
module AppV2 {
  import opened Text
  import opened OrderedMap
  import opened Completeness
  import opened QuestionParser

  // ---------------------------------------------------------------------
  // Grade

  const Excellent := "Excellent"
  const Good := "Good"
  const Average := "Average"
  const Poor := "Poor"

  /** Position of a grade among the four, 0 the best. */
  function GradeOrder(g: string): nat
  {
    if g == Excellent then 0 else if g == Good then 1 else if g == Average then 2 else 3
  }

  /** The grade expression of `evaluate`: inclusive lower bounds 80, 60
      and 40. */
  function Grade(score: real): (g: string)
    ensures g == Excellent <==> score >= 80.0
    ensures g == Good <==> 60.0 <= score < 80.0
    ensures g == Average <==> 40.0 <= score < 60.0
    ensures g == Poor <==> score < 40.0
  {
    if score >= 80.0 then Excellent
    else if score >= 60.0 then Good
    else if score >= 40.0 then Average
    else Poor
  }

  /** A higher score never earns a worse grade. */
  lemma GradeMonotone(s1: real, s2: real)
    requires s1 <= s2
    ensures GradeOrder(Grade(s2)) <= GradeOrder(Grade(s1))
  {
  }

  /** The bounds are inclusive: a score exactly on one earns that grade. */
  lemma GradeBoundaries()
    ensures Grade(80.0) == Excellent && Grade(60.0) == Good && Grade(40.0) == Average
    ensures Grade(39.0) == Poor && Grade(0.0) == Poor
  {
  }

  // ---------------------------------------------------------------------
  // Feedback

  const NoAnswer := "\U{270D} No answer provided."
  const LooksGood := "\U{2705} Looks good! Add examples or code if possible."

  /** `give_feedback`: one of two fixed messages, the first exactly for a
      blank answer. */
  function GiveFeedback(answer: string): (f: string)
    ensures f == NoAnswer || f == LooksGood
    ensures f == NoAnswer <==> IsBlank(answer)
  {
    if Strip(answer) == "" then NoAnswer else LooksGood
  }

  // ---------------------------------------------------------------------
  // Scoring, as written: a nested loop with two counters

  /** `evaluate`: the completeness score and its grade. */
  method Evaluate(answers: Sheet) returns (score: real, grade: string)
    ensures score == Score(answers)
    ensures grade == Grade(score)
  {
    var total, filled := 0, 0;
    var i := 0;
    while i < |answers|
      invariant 0 <= i <= |answers|
      invariant total == TotalPairs(answers[..i])
      invariant filled == AnsweredPairs(answers[..i])
    {
      var qlist := answers[i].1;
      var j := 0;
      while j < |qlist|
        invariant 0 <= j <= |qlist|
        invariant total == TotalPairs(answers[..i]) + j
        invariant filled == AnsweredPairs(answers[..i]) + CountAnswered(qlist[..j])
      {
        CountStep(qlist, j);
        total := total + 1;
        if Strip(qlist[j].answer) != "" {
          filled := filled + 1;
        }
        j := j + 1;
      }
      assert qlist[..j] == qlist;
      PairsStep(answers, i);
      i := i + 1;
    }
    assert answers[..i] == answers;
    score := if total != 0 then (filled as real / total as real) * 100.0 else 0.0;
    grade := if score >= 80.0 then Excellent
             else if score >= 60.0 then Good
             else if score >= 40.0 then Average
             else Poor;
  }

  /** One more pair adds one to the count exactly when it is answered. */
  lemma CountStep(qas: seq<QA>, j: nat)
    requires j < |qas|
    ensures CountAnswered(qas[..j + 1]) == CountAnswered(qas[..j]) + if IsAnswered(qas[j]) then 1 else 0
  {
    assert qas[..j + 1] == qas[..j] + [qas[j]];
    CountAnsweredAppend(qas[..j], qas[j]);
  }

  /** With no pair at all the score is 0 and the grade is Poor; with every
      pair answered it is 100 and Excellent. */
  lemma EvaluateExtremes(answers: Sheet)
    ensures TotalPairs(answers) == 0 ==> Score(answers) == 0.0 && Grade(Score(answers)) == Poor
    ensures TotalPairs(answers) > 0 && AnsweredPairs(answers) == TotalPairs(answers) ==>
              Score(answers) == 100.0 && Grade(Score(answers)) == Excellent
  {
    ScoreBounds(answers);
  }

  // ---------------------------------------------------------------------
  // The answer sheet built from the parsed questions, and the feedback

  /** `[{"question": q, "answer": ""} for q in qs]`. */
  function BlankPairs(qs: seq<string>): (qas: seq<QA>)
    ensures |qas| == |qs|
  {
    seq(|qs|, k requires 0 <= k < |qs| => QA(qs[k], ""))
  }

  /** The dict comprehension over `parsed.items()`: one list of blank pairs
      per technology, in the parsed order. */
  function AnswersFrom(parsed: seq<(string, seq<string>)>): Sheet
  {
    if parsed == [] then [] else [(parsed[0].0, BlankPairs(parsed[0].1))] + AnswersFrom(parsed[1..])
  }

  /** The sheet has the parsed map's technologies in its order, one pair per
      question carrying that question, and every answer empty. */
  lemma {:induction false} AnswersFromShape(parsed: seq<(string, seq<string>)>)
    ensures |AnswersFrom(parsed)| == |parsed| && Keys(AnswersFrom(parsed)) == Keys(parsed)
    ensures forall i :: 0 <= i < |parsed| ==> |AnswersFrom(parsed)[i].1| == |parsed[i].1|
    ensures forall i, k :: 0 <= i < |parsed| && 0 <= k < |parsed[i].1| ==>
              AnswersFrom(parsed)[i].1[k] == QA(parsed[i].1[k], "")
  {
    if parsed != [] {
      AnswersFromShape(parsed[1..]);
      var a := AnswersFrom(parsed);
      assert a[1..] == AnswersFrom(parsed[1..]);
      forall i | 1 <= i < |parsed| ensures a[i] == AnswersFrom(parsed[1..])[i - 1] && parsed[i] == parsed[1..][i - 1] {
      }
    }
  }

  /** A freshly built sheet has one pair per parsed question, none of them
      answered, so it scores 0; when the text held at least one question,
      it has pairs to score. */
  lemma {:induction false} AnswersFromScore(parsed: seq<(string, seq<string>)>)
    ensures TotalPairs(AnswersFrom(parsed)) == QuestionCount(parsed)
    ensures AnsweredPairs(AnswersFrom(parsed)) == 0
  {
    if parsed != [] {
      AnswersFromScore(parsed[1..]);
      var qas := BlankPairs(parsed[0].1);
      assert CountAnswered(qas) == 0 by {
        forall k | 0 <= k < |qas| ensures !IsAnswered(qas[k]) {
        }
      }
      assert AnswersFrom(parsed)[1..] == AnswersFrom(parsed[1..]);
    }
  }

  /** The number of questions in a parsed map. */
  function QuestionCount(parsed: seq<(string, seq<string>)>): nat
  {
    if parsed == [] then 0 else |parsed[0].1| + QuestionCount(parsed[1..])
  }

  /** Whatever the model returned, the sheet built from its parse scores 0,
      and it has questions exactly when the parse has a technology (the
      parser drops technologies without questions). */
  lemma FreshSheetScoresZero(text: string)
    ensures Score(AnswersFrom(Parse(text))) == 0.0
    ensures TotalPairs(AnswersFrom(Parse(text))) > 0 <==> Parse(text) != []
  {
    AnswersFromScore(Parse(text));
    ZeroAnsweredScoresZero(AnswersFrom(Parse(text)));
    ParseWellShaped(text);
    if Parse(text) != [] {
      assert |Parse(text)[0].1| > 0;
    }
  }

  /** `[give_feedback(qa["answer"]) for qa in qlist]`. */
  function FeedbackList(qas: seq<QA>): (fs: seq<string>)
    ensures |fs| == |qas|
  {
    seq(|qas|, k requires 0 <= k < |qas| => GiveFeedback(qas[k].answer))
  }

  /** The feedback dict comprehension over the answers. */
  function FeedbackFor(answers: Sheet): seq<(string, seq<string>)>
  {
    if answers == [] then [] else [(answers[0].0, FeedbackList(answers[0].1))] + FeedbackFor(answers[1..])
  }

  /** The feedback has the answers' shape, each line is the feedback for
      its own answer, and it says "No answer provided" exactly where the
      answer is blank. */
  lemma {:induction false} FeedbackShape(answers: Sheet)
    ensures |FeedbackFor(answers)| == |answers| && Keys(FeedbackFor(answers)) == Keys(answers)
    ensures forall i :: 0 <= i < |answers| ==> |FeedbackFor(answers)[i].1| == |answers[i].1|
    ensures forall i, k :: 0 <= i < |answers| && 0 <= k < |answers[i].1| ==>
              FeedbackFor(answers)[i].1[k] == GiveFeedback(answers[i].1[k].answer)
    ensures forall i, k :: 0 <= i < |answers| && 0 <= k < |answers[i].1| ==>
              (FeedbackFor(answers)[i].1[k] == NoAnswer <==> !IsAnswered(answers[i].1[k]))
  {
    if answers != [] {
      FeedbackShape(answers[1..]);
      var f := FeedbackFor(answers);
      assert f[1..] == FeedbackFor(answers[1..]);
      forall i | 1 <= i < |answers| ensures f[i] == FeedbackFor(answers[1..])[i - 1] && answers[i] == answers[1..][i - 1] {
      }
    }
  }

  /** The number of "No answer provided" messages in one list. */
  function NoAnswerCount(fs: seq<string>): nat
  {
    if fs == [] then 0 else (if fs[0] == NoAnswer then 1 else 0) + NoAnswerCount(fs[1..])
  }

  /** Feedback and score agree: the "No answer provided" messages of a list
      are exactly its unanswered pairs. */
  lemma {:induction false} FeedbackAgreesWithCount(qas: seq<QA>)
    ensures NoAnswerCount(FeedbackList(qas)) + CountAnswered(qas) == |qas|
  {
    if qas != [] {
      FeedbackAgreesWithCount(qas[1..]);
      assert FeedbackList(qas)[1..] == FeedbackList(qas[1..]);
    }
  }

  // ---------------------------------------------------------------------
  // The session state

  /** The candidate record of step 1, stored as typed. */
  datatype Candidate = Candidate(name: string, email: string, techStack: string)

  /** `st.session_state` of this variant (app_v2.py:31-42); `None` stands
      for Python's None. */
  class Session {
    var step: int
    var candidate: Option<Candidate>
    var rawQuestions: string
    var questions: seq<(string, seq<string>)>
    var answers: Sheet
    var score: Option<real>
    var grade: Option<string>
    var feedback: seq<(string, seq<string>)>

    predicate IsDefault()
      reads this
    {
      && step == 1 && candidate == None && rawQuestions == "" && questions == []
      && answers == [] && score == None && grade == None && feedback == []
    }

    constructor ()
      ensures IsDefault()
    {
      step := 1;
      candidate := None;
      rawQuestions := "";
      questions := [];
      answers := [];
      score := None;
      grade := None;
      feedback := [];
    }

    /** The sidebar's stage selector. */
    method ChooseStage(n: int)
      requires 1 <= n <= 3
      modifies this
      ensures step == n
      ensures candidate == old(candidate) && rawQuestions == old(rawQuestions) && questions == old(questions)
      ensures answers == old(answers) && score == old(score) && grade == old(grade) && feedback == old(feedback)
    {
      step := n;
    }

    /** Submitting step 1. `generated` is what the language model returned
      for the stack (the empty string when the call failed). */
    method SubmitInfo(name: string, email: string, techStack: string, generated: string)
      modifies this
      ensures candidate == Some(Candidate(name, email, techStack))
      ensures rawQuestions == generated
      ensures questions == Parse(generated)
      ensures answers == AnswersFrom(questions)
      ensures step == old(step) && score == old(score) && grade == old(grade) && feedback == old(feedback)
    {
      var parsed := ParseQuestions(generated);
      var sheet := AnswersFrom(parsed);
      candidate := Some(Candidate(name, email, techStack));
      rawQuestions := generated;
      questions := parsed;
      answers := sheet;
    }

    /** `answers[tech][i]['answer'] = text`, as the step-2 form does for each
      text area; ok is false where Python's lookup would raise. */
    method RecordAnswer(tech: string, i: nat, text: string) returns (ok: bool)
      modifies this
      ensures ok <==> Get(old(answers), tech).Some? && i < |Get(old(answers), tech).value|
      ensures ok ==> answers == WithAnswer(old(answers), tech, i, text)
      ensures !ok ==> answers == old(answers)
      ensures step == old(step) && candidate == old(candidate) && rawQuestions == old(rawQuestions)
      ensures questions == old(questions) && score == old(score) && grade == old(grade) && feedback == old(feedback)
    {
      var entry := Get(answers, tech);
      if entry.Some? && i < |entry.value| {
        answers := WithAnswer(answers, tech, i, text);
        ok := true;
      } else {
        ok := false;
      }
    }

    /** Submitting step 2: the score, the grade and the feedback. */
    method Submit()
      modifies this
      ensures score == Some(Score(answers)) && grade == Some(Grade(Score(answers)))
      ensures feedback == FeedbackFor(answers)
      ensures step == old(step) && candidate == old(candidate) && rawQuestions == old(rawQuestions)
      ensures questions == old(questions) && answers == old(answers)
    {
      var s, g := Evaluate(answers);
      var f := FeedbackFor(answers);
      score, grade := Some(s), Some(g);
      feedback := f;
    }

    /** Restart: every key is deleted, and the next run of the script puts
      the defaults back. */
    method Restart()
      modifies this
      ensures IsDefault()
    {
      step := 1;
      candidate := None;
      rawQuestions := "";
      questions := [];
      answers := [];
      score := None;
      grade := None;
      feedback := [];
    }
  }
}
