/**
 * The answer sheet both variants of the wizard keep, and the completeness
 * score they compute from it: the share of question-answer pairs whose
 * answer is not blank, as a percentage, and 0 when there are no pairs.
 */
module Completeness {
  import opened Text
  import opened OrderedMap

  /** One `{"question": ..., "answer": ...}` record. */
  datatype QA = QA(question: string, answer: string)

  /** The answer sheet: technology name to its ordered question-answer pairs. */
  type Sheet = seq<(string, seq<QA>)>

  /** The test both evaluators apply to one answer: `qa["answer"].strip()`
      is truthy. */
  predicate IsAnswered(qa: QA)
    ensures IsAnswered(qa) <==> !IsBlank(qa.answer)
  {
    Strip(qa.answer) != ""
  }

  /** `sum(1 for qa in qas if qa["answer"].strip())`. */
  function CountAnswered(qas: seq<QA>): (n: nat)
    ensures n <= |qas|
    ensures n == 0 <==> forall i :: 0 <= i < |qas| ==> !IsAnswered(qas[i])
  {
    if qas == [] then 0
    else (if IsAnswered(qas[0]) then 1 else 0) + CountAnswered(qas[1..])
  }

  /** Appending one pair adds one to the count exactly when it is answered. */
  lemma {:induction false} CountAnsweredAppend(qas: seq<QA>, qa: QA)
    ensures CountAnswered(qas + [qa]) == CountAnswered(qas) + if IsAnswered(qa) then 1 else 0
  {
    if qas != [] {
      assert (qas + [qa])[1..] == qas[1..] + [qa];
      CountAnsweredAppend(qas[1..], qa);
    } else {
      assert [] + [qa] == [qa];
    }
  }

  /** Replacing the pair at position i changes the count by the difference
      of the two pairs' contributions. */
  lemma {:induction false} CountAnsweredUpdate(qas: seq<QA>, i: nat, qa: QA)
    requires i < |qas|
    ensures CountAnswered(qas[i := qa]) + (if IsAnswered(qas[i]) then 1 else 0)
         == CountAnswered(qas) + (if IsAnswered(qa) then 1 else 0)
  {
    if i > 0 {
      assert qas[i := qa][1..] == qas[1..][i - 1 := qa];
      CountAnsweredUpdate(qas[1..], i - 1, qa);
    } else {
      assert qas[i := qa][1..] == qas[1..];
    }
  }

  /** Number of pairs in one technology's list. */
  function Size(qas: seq<QA>): nat
  {
    |qas|
  }

  /** The sum of `f` over the technologies' lists, in sheet order. */
  function SumOver(sheet: Sheet, f: seq<QA> -> nat): nat
  {
    if sheet == [] then 0 else f(sheet[0].1) + SumOver(sheet[1..], f)
  }

  /** The total number of pairs: the source's `total`. */
  function TotalPairs(sheet: Sheet): nat
  {
    SumOver(sheet, Size)
  }

  /** The number of answered pairs: app.py's `answered`, app_v2.py's `filled`. */
  function AnsweredPairs(sheet: Sheet): nat
  {
    SumOver(sheet, CountAnswered)
  }

  lemma {:induction false} SumOverAppend(sheet: Sheet, entry: (string, seq<QA>), f: seq<QA> -> nat)
    ensures SumOver(sheet + [entry], f) == SumOver(sheet, f) + f(entry.1)
  {
    if sheet != [] {
      assert (sheet + [entry])[1..] == sheet[1..] + [entry];
      SumOverAppend(sheet[1..], entry, f);
    } else {
      assert [] + [entry] == [entry];
    }
  }

  /** Replacing the list of a technology already on the sheet changes the sum
      by the difference of the old and the new list's values. */
  lemma {:induction false} SumOverPut(sheet: Sheet, tech: string, qas: seq<QA>, f: seq<QA> -> nat)
    requires Get(sheet, tech).Some?
    ensures SumOver(Put(sheet, tech, qas), f) + f(Get(sheet, tech).value) == SumOver(sheet, f) + f(qas)
  {
    if sheet[0].0 == tech {
      assert Put(sheet, tech, qas)[1..] == sheet[1..];
    } else {
      assert Put(sheet, tech, qas)[1..] == Put(sheet[1..], tech, qas);
      SumOverPut(sheet[1..], tech, qas, f);
    }
  }

  /** No more pairs are answered than there are pairs. */
  lemma {:induction false} AnsweredAtMostTotal(sheet: Sheet)
    ensures AnsweredPairs(sheet) <= TotalPairs(sheet)
  {
    if sheet != [] {
      AnsweredAtMostTotal(sheet[1..]);
    }
  }

  /** `(answered / total) * 100 if total > 0 else 0`, in exact arithmetic. */
  function Percent(answered: nat, total: nat): real
  {
    if total > 0 then (answered as real / total as real) * 100.0 else 0.0
  }

  /** The completeness score of a sheet. */
  function Score(sheet: Sheet): real
  {
    Percent(AnsweredPairs(sheet), TotalPairs(sheet))
  }

  /** A share of at most the whole is a percentage between 0 and 100, and
      it is 100 exactly when everything is counted. */
  lemma PercentBounds(answered: nat, total: nat)
    requires answered <= total
    ensures 0.0 <= Percent(answered, total) <= 100.0
    ensures Percent(answered, total) == 100.0 <==> total > 0 && answered == total
  {
    if total > 0 {
      ShareBounds(answered as real, total as real);
    }
  }

  /** The share a / t of a whole t > 0 lies in [0, 1] and is 1 exactly
      for the whole. */
  lemma ShareBounds(a: real, t: real)
    requires 0.0 <= a <= t && t > 0.0
    ensures 0.0 <= a / t <= 1.0
    ensures a / t == 1.0 <==> a == t
  {
    assert a / t * t == a;
  }

  /** One more counted item is a strictly larger percentage. */
  lemma PercentStep(answered: nat, total: nat)
    requires answered < total
    ensures Percent(answered, total) < Percent(answered + 1, total)
  {
    var a, t := answered as real, total as real;
    assert (a + 1.0) / t == a / t + 1.0 / t;
    assert 1.0 / t > 0.0;
  }

  /** The score is a percentage: it lies between 0 and 100, it is 0 when the
      sheet holds no pair (no division by zero), and it is 100 exactly when
      there are pairs and all of them are answered. */
  lemma ScoreBounds(sheet: Sheet)
    ensures 0.0 <= Score(sheet) <= 100.0
    ensures TotalPairs(sheet) == 0 ==> Score(sheet) == 0.0
    ensures Score(sheet) == 100.0 <==> TotalPairs(sheet) > 0 && AnsweredPairs(sheet) == TotalPairs(sheet)
  {
    AnsweredAtMostTotal(sheet);
    PercentBounds(AnsweredPairs(sheet), TotalPairs(sheet));
  }

  /** Nothing answered is a score of 0. */
  lemma ZeroAnsweredScoresZero(sheet: Sheet)
    requires AnsweredPairs(sheet) == 0
    ensures Score(sheet) == 0.0
  {
  }

  /** A sheet with no answered pair scores 0, whatever its size. */
  lemma NothingAnsweredScoresZero(sheet: Sheet)
    requires forall i :: 0 <= i < |sheet| ==> CountAnswered(sheet[i].1) == 0
    ensures AnsweredPairs(sheet) == 0
    ensures Score(sheet) == 0.0
  {
    NothingAnswered(sheet);
    ZeroAnsweredScoresZero(sheet);
  }

  lemma {:induction false} NothingAnswered(sheet: Sheet)
    requires forall i :: 0 <= i < |sheet| ==> CountAnswered(sheet[i].1) == 0
    ensures AnsweredPairs(sheet) == 0
  {
    if sheet != [] {
      assert CountAnswered(sheet[0].1) == 0;
      NothingAnswered(sheet[1..]);
    }
  }

  /** The sheet after `answers[tech][i]["answer"] = text`. */
  function WithAnswer(sheet: Sheet, tech: string, i: nat, text: string): (r: Sheet)
    requires Get(sheet, tech).Some? && i < |Get(sheet, tech).value|
    ensures Keys(r) == Keys(sheet)
  {
    var qas := Get(sheet, tech).value;
    Put(sheet, tech, qas[i := QA(qas[i].question, text)])
  }

  lemma FillingCounts(sheet: Sheet, tech: string, i: nat, text: string)
    requires Get(sheet, tech).Some? && i < |Get(sheet, tech).value|
    requires !IsAnswered(Get(sheet, tech).value[i])
    requires Strip(text) != ""
    ensures TotalPairs(WithAnswer(sheet, tech, i, text)) == TotalPairs(sheet)
    ensures AnsweredPairs(WithAnswer(sheet, tech, i, text)) == AnsweredPairs(sheet) + 1
  {
    var qas := Get(sheet, tech).value;
    var qas' := qas[i := QA(qas[i].question, text)];
    SumOverPut(sheet, tech, qas', Size);
    SumOverPut(sheet, tech, qas', CountAnswered);
    CountAnsweredUpdate(qas, i, QA(qas[i].question, text));
  }

  /** Filling in one blank answer adds one answered pair and leaves the number
      of pairs alone, so the score never goes down, and it goes strictly up
      (the sheet has at least that one pair). Clearing an answer is the same
      step backwards (ClearingLowersScore). */
  lemma FillingRaisesScore(sheet: Sheet, tech: string, i: nat, text: string)
    requires Get(sheet, tech).Some? && i < |Get(sheet, tech).value|
    requires !IsAnswered(Get(sheet, tech).value[i])
    requires Strip(text) != ""
    ensures TotalPairs(WithAnswer(sheet, tech, i, text)) == TotalPairs(sheet)
    ensures AnsweredPairs(WithAnswer(sheet, tech, i, text)) == AnsweredPairs(sheet) + 1
    ensures Score(WithAnswer(sheet, tech, i, text)) > Score(sheet)
  {
    FillingCounts(sheet, tech, i, text);
    OneMoreAnswered(sheet, WithAnswer(sheet, tech, i, text));
  }

  /** Two sheets with as many pairs, the second with one more answered:
      the second scores strictly higher. */
  lemma OneMoreAnswered(before: Sheet, after: Sheet)
    requires TotalPairs(after) == TotalPairs(before)
    requires AnsweredPairs(after) == AnsweredPairs(before) + 1
    ensures Score(after) > Score(before)
  {
    AnsweredAtMostTotal(after);
    PercentStep(AnsweredPairs(before), TotalPairs(before));
  }

  /** Clearing one answered pair keeps the total and removes one answered
      pair. */
  lemma ClearingCounts(sheet: Sheet, tech: string, i: nat, text: string)
    requires Get(sheet, tech).Some? && i < |Get(sheet, tech).value|
    requires IsAnswered(Get(sheet, tech).value[i])
    requires Strip(text) == ""
    ensures TotalPairs(WithAnswer(sheet, tech, i, text)) == TotalPairs(sheet)
    ensures AnsweredPairs(WithAnswer(sheet, tech, i, text)) + 1 == AnsweredPairs(sheet)
  {
    var qas := Get(sheet, tech).value;
    var qas' := qas[i := QA(qas[i].question, text)];
    SumOverPut(sheet, tech, qas', Size);
    SumOverPut(sheet, tech, qas', CountAnswered);
    CountAnsweredUpdate(qas, i, QA(qas[i].question, text));
  }

  /** Clearing an answer (overwriting it with blank text) strictly lowers the
      score: unanswering can never raise it. */
  lemma ClearingLowersScore(sheet: Sheet, tech: string, i: nat, text: string)
    requires Get(sheet, tech).Some? && i < |Get(sheet, tech).value|
    requires IsAnswered(Get(sheet, tech).value[i])
    requires Strip(text) == ""
    ensures Score(WithAnswer(sheet, tech, i, text)) < Score(sheet)
  {
    ClearingCounts(sheet, tech, i, text);
    OneMoreAnswered(WithAnswer(sheet, tech, i, text), sheet);
  }

  /** One more list on the sheet adds its length to the total and its
      answered pairs to the count: one round of the evaluators' loop. */
  lemma PairsStep(sheet: Sheet, i: nat)
    requires i < |sheet|
    ensures TotalPairs(sheet[..i + 1]) == TotalPairs(sheet[..i]) + |sheet[i].1|
    ensures AnsweredPairs(sheet[..i + 1]) == AnsweredPairs(sheet[..i]) + CountAnswered(sheet[i].1)
  {
    assert sheet[..i + 1] == sheet[..i] + [sheet[i]];
    SumOverAppend(sheet[..i], sheet[i], Size);
    SumOverAppend(sheet[..i], sheet[i], CountAnswered);
  }
}
