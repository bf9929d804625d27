/**
 * The first variant of the wizard (app.py): a candidate profile, three
 * fixed questions per technology of the candidate's stack, a completeness
 * score, a five-level grade, a role and upskilling recommendation, and a
 * sentiment band per answer.
 */
module App {
  import opened Text
  import opened OrderedMap
  import opened Completeness

  // ---------------------------------------------------------------------
  // Grade

  const APlus := "A+ (Excellent)"
  const A := "A (Very Good)"
  const B := "B (Good)"
  const C := "C (Average)"
  const D := "D (Needs Improvement)"

  /** The five labels, best first. */
  const GradeLabels: seq<string> := [APlus, A, B, C, D]

  /** Position of a grade in GradeLabels: 0 is best, 4 is worst. */
  function GradeOrder(g: string): nat
  {
    if g == APlus then 0
    else if g == A then 1
    else if g == B then 2
    else if g == C then 3
    else 4
  }

  /** `grade_candidate`: strict lower bounds 90, 75, 50 and 30. */
  function GradeCandidate(score: real): (g: string)
    ensures g in GradeLabels
    ensures g == APlus <==> score > 90.0
    ensures g == A <==> 75.0 < score <= 90.0
    ensures g == B <==> 50.0 < score <= 75.0
    ensures g == C <==> 30.0 < score <= 50.0
    ensures g == D <==> score <= 30.0
  {
    if score > 90.0 then APlus
    else if score > 75.0 then A
    else if score > 50.0 then B
    else if score > 30.0 then C
    else D
  }

  /** A higher score never earns a worse grade. */
  lemma GradeMonotone(s1: real, s2: real)
    requires s1 <= s2
    ensures GradeOrder(GradeCandidate(s2)) <= GradeOrder(GradeCandidate(s1))
  {
  }

  /** The thresholds are strict: a score exactly on one earns the grade
      below it. */
  lemma GradeBoundaries()
    ensures GradeCandidate(90.0) == A
    ensures GradeCandidate(75.0) == B
    ensures GradeCandidate(50.0) == C
    ensures GradeCandidate(30.0) == D
    ensures GradeCandidate(0.0) == D && GradeCandidate(100.0) == APlus
  {
  }

  // ---------------------------------------------------------------------
  // Recommendation

  const Senior := ("Senior Developer", "Advanced Algorithms, System Design")
  const MidLevel := ("Mid-Level Developer", "Data Structures, Coding Practice")
  const Junior := ("Junior Developer", "Basic Programming Skills")

  /** `recommend_jobs_and_upskill`: a role and the skills to work on, with
      strict lower bounds 85 and 60. The technologies are passed in but do
      not take part. */
  function Recommend(score: real, techs: seq<string>): (r: (string, string))
    ensures r == Senior <==> score > 85.0
    ensures r == MidLevel <==> 60.0 < score <= 85.0
    ensures r == Junior <==> score <= 60.0
  {
    if score > 85.0 then Senior
    else if score > 60.0 then MidLevel
    else Junior
  }

  /** The role follows the grade: a Senior recommendation comes with an A or
      A+ grade, and a Junior one with a grade of B or lower. */
  lemma RoleAgreesWithGrade(score: real, techs: seq<string>)
    ensures Recommend(score, techs) == Senior ==> GradeOrder(GradeCandidate(score)) <= 1
    ensures Recommend(score, techs) == Junior ==> GradeOrder(GradeCandidate(score)) >= 2
  {
  }

  // ---------------------------------------------------------------------
  // Sentiment band of the summary page

  const Positive := ("\U{1F60A}", "Positive")
  const Negative := ("\U{1F61F}", "Negative")
  const Neutral := ("\U{1F610}", "Neutral")

  /** The emoji and word shown for one answer's sentiment polarity: strict
      bounds at 0.3 and -0.3. */
  function SentimentBand(polarity: real): (band: (string, string))
    ensures band == Positive <==> polarity > 0.3
    ensures band == Negative <==> polarity < -0.3
    ensures band == Neutral <==> -0.3 <= polarity <= 0.3
  {
    if polarity > 0.3 then Positive
    else if polarity < -0.3 then Negative
    else Neutral
  }

  // ---------------------------------------------------------------------
  // Technology stack

  /** `[t.strip() for t in pieces if t.strip()]`. */
  function Cleaned(pieces: seq<string>): (names: seq<string>)
    ensures |names| <= |pieces|
    ensures forall k :: 0 <= k < |names| ==> names[k] != [] && IsTrimmed(names[k])
    ensures forall k :: 0 <= k < |names| ==> exists j :: 0 <= j < |pieces| && names[k] == Strip(pieces[j])
  {
    if pieces == [] then []
    else if Strip(pieces[0]) != "" then [Strip(pieces[0])] + Cleaned(pieces[1..])
    else Cleaned(pieces[1..])
  }

  /** Cleaning keeps the pieces' order: it distributes over concatenation. */
  lemma {:induction false} CleanedAppend(a: seq<string>, b: seq<string>)
    ensures Cleaned(a + b) == Cleaned(a) + Cleaned(b)
  {
    if a != [] {
      var ab := a + b;
      assert ab[1..] == a[1..] + b;
      assert ab[0] == a[0];
      CleanedAppend(a[1..], b);
      if Strip(a[0]) != "" {
        assert Cleaned(ab) == [Strip(a[0])] + Cleaned(a[1..] + b);
        assert Cleaned(a) == [Strip(a[0])] + Cleaned(a[1..]);
      } else {
        assert Cleaned(ab) == Cleaned(a[1..] + b);
      }
    } else {
      assert a + b == b;
    }
  }

  /** One piece is kept, stripped, exactly when it is not blank. */
  lemma CleanedOne(p: string)
    ensures Cleaned([p]) == if Strip(p) != "" then [Strip(p)] else []
  {
    assert [p][1..] == [];
  }

  /** A stripped piece without the separator is a stripped substring. */
  lemma {:induction false} CleanedNoSep(pieces: seq<string>, sep: char)
    requires forall j :: 0 <= j < |pieces| ==> sep !in pieces[j]
    ensures forall k :: 0 <= k < |Cleaned(pieces)| ==> sep !in Cleaned(pieces)[k]
  {
    if pieces != [] {
      CleanedNoSep(pieces[1..], sep);
      var i := StripParts(pieces[0]);
      assert forall c :: c in Strip(pieces[0]) ==> c in pieces[0];
    }
  }

  /** The technologies named by a comma-separated stack, as read at app.py
      line 249: split at every comma, strip each piece, drop blank pieces. */
  function TechList(stack: string): (techs: seq<string>)
    ensures forall k :: 0 <= k < |techs| ==> techs[k] != [] && IsTrimmed(techs[k])
  {
    Cleaned(SplitOn(stack, ','))
  }

  /** Every listed technology is non-empty, stripped, and free of commas. */
  lemma TechListNames(stack: string)
    ensures forall k :: 0 <= k < |TechList(stack)| ==>
              TechList(stack)[k] != [] && IsTrimmed(TechList(stack)[k]) && ',' !in TechList(stack)[k]
  {
    CleanedNoSep(SplitOn(stack, ','), ',');
  }

  /** Names that are clean already pass through Cleaned unchanged. */
  lemma {:induction false} CleanedClean(names: seq<string>)
    requires forall k :: 0 <= k < |names| ==> names[k] != [] && IsTrimmed(names[k])
    ensures Cleaned(names) == names
  {
    if names != [] {
      StripTrimmed(names[0]);
      CleanedClean(names[1..]);
    }
  }

  /** Listing the names of a stack written as `", ".join(names)` gives them
      back in order: nothing is lost, added or reordered. */
  lemma TechListJoin(names: seq<string>)
    requires |names| >= 1
    requires forall k :: 0 <= k < |names| ==> names[k] != [] && IsTrimmed(names[k]) && ',' !in names[k]
    ensures TechList(Join(names, ',')) == names
  {
    SplitJoin(names, ',');
    CleanedClean(names);
  }

  /** The split keeps the stack's order: the technologies of `a + "," + b`
      are those of `a` followed by those of `b`, whatever either holds. */
  lemma TechListAppend(a: string, b: string)
    ensures TechList(a + "," + b) == TechList(a) + TechList(b)
  {
    assert a + "," + b == a + [','] + b;
    SplitAppend(a, ',', b);
    CleanedAppend(SplitOn(a, ','), SplitOn(b, ','));
  }

  /** A stack without a comma names its stripped text, unless it is blank.
      With TechListAppend this determines the list for every stack: every
      non-blank piece is kept, stripped, in the order of the stack. */
  lemma TechListPiece(p: string)
    requires ',' !in p
    ensures TechList(p) == if Strip(p) != "" then [Strip(p)] else []
  {
    SplitNone(p, ',');
    CleanedOne(p);
  }

  /** An empty or all-blank stack lists no technology. */
  lemma {:induction false} CleanedBlank(pieces: seq<string>)
    requires forall j :: 0 <= j < |pieces| ==> IsBlank(pieces[j])
    ensures Cleaned(pieces) == []
  {
    if pieces != [] {
      CleanedBlank(pieces[1..]);
    }
  }

  lemma EmptyStackNoTechs()
    ensures TechList("") == []
  {
    CleanedBlank([""]);
  }

  /** Whitespace after a comma does not reach the name that follows. */
  lemma TechListPair(x: string, w: string, y: string)
    requires x != [] && IsTrimmed(x) && ',' !in x
    requires y != [] && IsTrimmed(y) && ',' !in y
    requires IsBlank(w) && ',' !in w
    ensures TechList(x + "," + w + y) == [x, y]
  {
    var rest := w + y;
    assert x + "," + w + y == x + [','] + rest;
    assert ',' !in rest by {
      assert forall k :: 0 <= k < |rest| ==> rest[k] == if k < |w| then w[k] else y[k - |w|];
    }
    SplitNone(rest, ',');
    SplitCons(x, ',', rest);
    StripSpacePrefix(w, y);
    StripTrimmed(y);
    StripTrimmed(x);
    assert Cleaned([rest]) == [y];
  }

  lemma GoRust()
    ensures TechList("Go, Rust") == ["Go", "Rust"]
  {
    TechListPair("Go", " ", "Rust");
    assert "Go" + "," + " " + "Rust" == "Go, Rust";
  }

  // ---------------------------------------------------------------------
  // The initial answer sheet

  /** The three fixed questions for one technology, all unanswered. */
  function QuestionsFor(tech: string): (qas: seq<QA>)
    ensures |qas| == 3
    ensures forall k :: 0 <= k < 3 ==> qas[k].answer == ""
  {
    [ QA("What is " + tech + " and why is it important?", ""),
      QA("Explain a key challenge you faced with " + tech + ".", ""),
      QA("How do you optimize performance in " + tech + "?", "") ]
  }

  /** `{tech: QuestionsFor(tech) for tech in techs}`: the comprehension
      assigns the keys from left to right, so a repeated name keeps its
      first position. */
  function InitialAnswers(techs: seq<string>): (sheet: Sheet)
    ensures Keys(sheet) == Dedup(techs)
  {
    if techs == [] then []
    else
      var init := techs[..|techs| - 1];
      var last := techs[|techs| - 1];
      Put(InitialAnswers(init), last, QuestionsFor(last))
  }

  /** The names in order of first occurrence. */
  function Dedup(names: seq<string>): (d: seq<string>)
    ensures Distinct(d)
    ensures forall x :: x in d <==> x in names
  {
    if names == [] then []
    else
      var init := Dedup(names[..|names| - 1]);
      var last := names[|names| - 1];
      assert forall x :: x in names <==> x in names[..|names| - 1] || x == last;
      if last in init then init else init + [last]
  }

  /** Names without repetition are their own Dedup. */
  lemma {:induction false} DedupDistinct(names: seq<string>)
    requires Distinct(names)
    ensures Dedup(names) == names
  {
    if names != [] {
      var init := names[..|names| - 1];
      DedupDistinct(init);
      assert names == init + [names[|names| - 1]];
    }
  }

  /** Every technology of the list gets exactly its three fixed questions. */
  lemma {:induction false} InitialAnswersGet(techs: seq<string>, t: string)
    requires t in techs
    ensures Get(InitialAnswers(techs), t) == Some(QuestionsFor(t))
  {
    var init := techs[..|techs| - 1];
    var last := techs[|techs| - 1];
    GetPut(InitialAnswers(init), last, QuestionsFor(last), t);
    if t != last {
      assert t in init;
      InitialAnswersGet(init, t);
    }
  }

  /** Every list of the initial sheet holds three unanswered pairs. */
  lemma {:induction false} InitialAnswersEntries(techs: seq<string>)
    ensures forall i :: 0 <= i < |InitialAnswers(techs)| ==>
              InitialAnswers(techs)[i].1 == QuestionsFor(InitialAnswers(techs)[i].0)
  {
    var sheet := InitialAnswers(techs);
    forall i | 0 <= i < |sheet| ensures sheet[i].1 == QuestionsFor(sheet[i].0) {
      assert Keys(sheet)[i] == sheet[i].0;
      InitialAnswersGet(techs, sheet[i].0);
      GetAt(sheet, i);
    }
  }

  /** Three pairs per list, none of them answered. */
  lemma {:induction false} ThreeBlankPerEntry(sheet: Sheet)
    requires forall i :: 0 <= i < |sheet| ==> sheet[i].1 == QuestionsFor(sheet[i].0)
    ensures TotalPairs(sheet) == 3 * |sheet|
    ensures AnsweredPairs(sheet) == 0
  {
    if sheet != [] {
      var qas := sheet[0].1;
      assert !IsAnswered(qas[0]) && !IsAnswered(qas[1]) && !IsAnswered(qas[2]);
      assert CountAnswered(qas) == 0;
      ThreeBlankPerEntry(sheet[1..]);
    }
  }

  /** The initial sheet has one list per distinct technology, three
      questions in each, no answer, and so a score of 0. */
  lemma InitialAnswersScoreZero(techs: seq<string>)
    ensures TotalPairs(InitialAnswers(techs)) == 3 * |Dedup(techs)|
    ensures AnsweredPairs(InitialAnswers(techs)) == 0
    ensures Score(InitialAnswers(techs)) == 0.0
  {
    var sheet := InitialAnswers(techs);
    InitialAnswersEntries(techs);
    ThreeBlankPerEntry(sheet);
    assert |sheet| == |Keys(sheet)| == |Dedup(techs)|;
    ZeroAnsweredScoresZero(sheet);
  }

  // ---------------------------------------------------------------------
  // Scoring, as written: a loop with two accumulators

  /** `evaluate_answers`. */
  method EvaluateAnswers(answers: Sheet) returns (score: real)
    ensures score == Score(answers)
  {
    var total, answered := 0, 0;
    var i := 0;
    while i < |answers|
      invariant 0 <= i <= |answers|
      invariant total == TotalPairs(answers[..i])
      invariant answered == AnsweredPairs(answers[..i])
    {
      PairsStep(answers, i);
      total := total + |answers[i].1|;
      answered := answered + CountAnswered(answers[i].1);
      i := i + 1;
    }
    assert answers[..i] == answers;
    assert total == TotalPairs(answers) && answered == AnsweredPairs(answers);
    score := if total > 0 then (answered as real / total as real) * 100.0 else 0.0;
  }

  // ---------------------------------------------------------------------
  // Translation and sentiment of the answers

  /** What is translated for each pair: the stripped answer when it is not
      blank (the translation is the identity), and "" otherwise. */
  function Translated(qas: seq<QA>): (ts: seq<string>)
    ensures |ts| == |qas|
  {
    seq(|qas|, k requires 0 <= k < |qas| => Strip(qas[k].answer))
  }

  /** The translations of every list, keyed as the sheet is. */
  function Translations(sheet: Sheet): seq<(string, seq<string>)>
  {
    if sheet == [] then [] else [(sheet[0].0, Translated(sheet[0].1))] + Translations(sheet[1..])
  }

  /** The polarity of each translation. */
  function Sentiments(sheet: Sheet, polarity: string -> real): seq<(string, seq<real>)>
  {
    if sheet == [] then []
    else
      var ts := Translated(sheet[0].1);
      [(sheet[0].0, seq(|ts|, k requires 0 <= k < |ts| => polarity(ts[k])))] + Sentiments(sheet[1..], polarity)
  }

  /** The translations and the sentiments have the sheet's shape: the same
      technologies in the same order, one entry per pair; a translation is
      blank exactly for an unanswered pair, and each sentiment is the
      polarity of its translation. */
  lemma {:induction false} SameShape(sheet: Sheet, polarity: string -> real)
    ensures |Translations(sheet)| == |sheet| && |Sentiments(sheet, polarity)| == |sheet|
    ensures Keys(Translations(sheet)) == Keys(sheet) && Keys(Sentiments(sheet, polarity)) == Keys(sheet)
    ensures forall i :: 0 <= i < |sheet| ==>
              Translations(sheet)[i].1 == Translated(sheet[i].1) && |Sentiments(sheet, polarity)[i].1| == |sheet[i].1|
    ensures forall i, k :: 0 <= i < |sheet| && 0 <= k < |sheet[i].1| ==>
              (Translated(sheet[i].1)[k] == "" <==> !IsAnswered(sheet[i].1[k]))
    ensures forall i, k :: 0 <= i < |sheet| && 0 <= k < |sheet[i].1| ==>
              Sentiments(sheet, polarity)[i].1[k] == polarity(Translated(sheet[i].1)[k])
  {
    if sheet != [] {
      SameShape(sheet[1..], polarity);
      var t, s := Translations(sheet), Sentiments(sheet, polarity);
      assert t[1..] == Translations(sheet[1..]) && s[1..] == Sentiments(sheet[1..], polarity);
      forall i | 1 <= i < |sheet| ensures t[i] == Translations(sheet[1..])[i - 1] && s[i] == Sentiments(sheet[1..], polarity)[i - 1] {
      }
    }
  }

  // ---------------------------------------------------------------------
  // The candidate profile and the wizard's session state

  /** The profile saved by the step-1 form; `{}` before it is submitted. */
  datatype Profile = Profile(
    fullName: string, email: string, phone: string, years: int,
    position: string, location: string, techStack: string)

  /** The technologies the form needs an answer list for, from the stored
      stack; none before the profile is submitted. */
  function StackOf(info: Option<Profile>): (stack: string)
    ensures info.None? ==> stack == ""
  {
    match info
    case None => ""
    case Some(p) => p.techStack
  }

  /** The form looks up `answers[tech]` for every listed technology: this
      says none of those lookups fails. */
  ghost predicate CoversTechs(answers: Sheet, techs: seq<string>)
  {
    forall k :: 0 <= k < |techs| ==> Get(answers, techs[k]).Some?
  }

  /** Step 2 as written: the sheet is built only when it is empty, so a sheet
      built for an earlier stack is kept whatever the stack is now. */
  function LoadedAsWritten(answers: Sheet, techs: seq<string>): (r: Sheet)
    ensures answers != [] ==> r == answers
  {
    if techs != [] && answers == [] then InitialAnswers(techs) else answers
  }

  /** Going back to step 1 and adding a technology leaves a sheet without a
      list for it, and the form's `answers[tech]` for it fails. */
  lemma AsWrittenMissesNewTech()
    ensures !CoversTechs(LoadedAsWritten(InitialAnswers(["Go"]), ["Go", "Rust"]), ["Go", "Rust"])
  {
    var sheet := InitialAnswers(["Go"]);
    assert ["Go"][..0] == [];
    assert sheet == [("Go", QuestionsFor("Go"))];
    assert Get(sheet, "Rust").None?;
    assert ["Go", "Rust"][1] == "Rust";
  }

  /** Step 2 corrected: every listed technology without a list gets its
      three fresh questions; the lists already there, answers and all, are
      kept. */
  function Loaded(answers: Sheet, techs: seq<string>): (r: Sheet)
    ensures |answers| <= |r| && Keys(r)[..|answers|] == Keys(answers)
  {
    if techs == [] then answers
    else
      var init := Loaded(answers, techs[..|techs| - 1]);
      var last := techs[|techs| - 1];
      if Get(init, last).Some? then init else Put(init, last, QuestionsFor(last))
  }

  /** After the corrected load, the form finds a list for every listed
      technology, and a list that was there is untouched. */
  lemma {:induction false} LoadedCovers(answers: Sheet, techs: seq<string>)
    ensures CoversTechs(Loaded(answers, techs), techs)
    ensures forall t :: Get(answers, t).Some? ==> Get(Loaded(answers, techs), t) == Get(answers, t)
  {
    if techs != [] {
      var init := techs[..|techs| - 1];
      var last := techs[|techs| - 1];
      var before := Loaded(answers, init);
      LoadedCovers(answers, init);
      if Get(before, last).None? {
        forall t ensures Get(Put(before, last, QuestionsFor(last)), t) == if t == last then Some(QuestionsFor(last)) else Get(before, t) {
          GetPut(before, last, QuestionsFor(last), t);
        }
      }
      forall k | 0 <= k < |techs| ensures Get(Loaded(answers, techs), techs[k]).Some? {
        if k < |techs| - 1 {
          assert techs[k] == init[k];
        }
      }
    }
  }

  /** On an empty sheet the corrected load is the fresh sheet of the
      as-written one. */
  lemma {:induction false} LoadedFromEmpty(techs: seq<string>)
    ensures Loaded([], techs) == InitialAnswers(techs)
  {
    if techs != [] {
      var init := techs[..|techs| - 1];
      var last := techs[|techs| - 1];
      LoadedFromEmpty(init);
      if Get(InitialAnswers(init), last).Some? {
        assert last in Keys(InitialAnswers(init));
        assert last in init;
        InitialAnswersGet(init, last);
        GetPut(InitialAnswers(init), last, QuestionsFor(last), last);
        PutSame(InitialAnswers(init), last, QuestionsFor(last));
      }
    }
  }

  /** The corrected load never lists a technology twice. */
  lemma {:induction false} LoadedDistinct(answers: Sheet, techs: seq<string>)
    requires Distinct(Keys(answers))
    ensures Distinct(Keys(Loaded(answers, techs)))
  {
    if techs != [] {
      var before := Loaded(answers, techs[..|techs| - 1]);
      LoadedDistinct(answers, techs[..|techs| - 1]);
      PutDistinct(before, techs[|techs| - 1], QuestionsFor(techs[|techs| - 1]));
    }
  }

  /** Putting the value a key already has changes nothing. */
  lemma {:induction false} PutSame<V>(m: seq<(string, V)>, k: string, v: V)
    requires Get(m, k) == Some(v)
    ensures Put(m, k, v) == m
  {
    if m[0].0 != k {
      PutSame(m[1..], k, v);
      assert m == [m[0]] + m[1..];
    } else {
      assert m == [m[0]] + m[1..];
    }
  }

  /** A sheet that a Python dict can hold: no technology twice. */
  predicate IsDict(sheet: Sheet)
  {
    Distinct(Keys(sheet))
  }

  /** The wizard's `st.session_state` (app.py:39-57). */
  class Session {
    var step: int
    var candidateInfo: Option<Profile>
    var answers: Sheet
    var translatedAnswers: seq<(string, seq<string>)>
    var sentimentScores: seq<(string, seq<real>)>
    var score: real
    var grade: string
    var jobRecommendation: string
    var upskillRecommendation: string

    /** The defaults the initialisation block gives. */
    predicate IsDefault()
      reads this
    {
      && step == 1 && candidateInfo == None && answers == []
      && translatedAnswers == [] && sentimentScores == []
      && score == 0.0 && grade == "" && jobRecommendation == "" && upskillRecommendation == ""
    }

    /** The answer sheet is a dict: no technology twice. Every method keeps
      this. */
    predicate Valid()
      reads this
    {
      IsDict(answers)
    }

    constructor ()
      ensures IsDefault() && Valid()
    {
      step := 1;
      candidateInfo := None;
      answers := [];
      translatedAnswers := [];
      sentimentScores := [];
      score := 0.0;
      grade := "";
      jobRecommendation := "";
      upskillRecommendation := "";
    }

    /** `reset_all`: every field back to its default. */
    method ResetAll()
      modifies this
      ensures IsDefault() && Valid()
    {
      step := 1;
      candidateInfo := None;
      answers := [];
      translatedAnswers := [];
      sentimentScores := [];
      score := 0.0;
      grade := "";
      jobRecommendation := "";
      upskillRecommendation := "";
    }

    /** One of the three navigation buttons. */
    method GoToStep(n: int)
      requires 1 <= n <= 3
      requires Valid()
      modifies this
      ensures Valid()
      ensures step == n
      ensures candidateInfo == old(candidateInfo) && answers == old(answers)
      ensures translatedAnswers == old(translatedAnswers) && sentimentScores == old(sentimentScores)
      ensures score == old(score) && grade == old(grade)
      ensures jobRecommendation == old(jobRecommendation) && upskillRecommendation == old(upskillRecommendation)
    {
      step := n;
    }

    /** Submitting the step-1 form: the text fields are stored stripped, the
      years as given (the widget keeps them within 0..50), and the wizard
      moves to step 2. */
    method SubmitInfo(fullName: string, email: string, phone: string, years: int,
                      position: string, location: string, techStack: string)
      requires 0 <= years <= 50
      requires Valid()
      modifies this
      ensures Valid()
      ensures candidateInfo == Some(Profile(Strip(fullName), Strip(email), Strip(phone), years,
                                            Strip(position), Strip(location), Strip(techStack)))
      ensures step == 2
      ensures answers == old(answers)
      ensures translatedAnswers == old(translatedAnswers) && sentimentScores == old(sentimentScores)
      ensures score == old(score) && grade == old(grade)
      ensures jobRecommendation == old(jobRecommendation) && upskillRecommendation == old(upskillRecommendation)
    {
      candidateInfo := Some(Profile(Strip(fullName), Strip(email), Strip(phone), years,
                                    Strip(position), Strip(location), Strip(techStack)));
      step := 2;
    }

    /** The technologies of the stored stack. */
    function Techs(): (techs: seq<string>)
      reads this`candidateInfo
      ensures candidateInfo.None? ==> techs == []
    {
      assert TechList("") == [] by { EmptyStackNoTechs(); }
      TechList(StackOf(candidateInfo))
    }

    /** Entering step 2 as written (line 256): the sheet is built for the
      listed technologies only when it is empty; a sheet that is already
      there is kept as it is, whatever the stack is now. */
    method LoadQuestions()
      requires Valid()
      modifies this
      ensures Valid()
      ensures answers == LoadedAsWritten(old(answers), old(Techs()))
      ensures old(answers) == [] ==> answers == InitialAnswers(Techs())
      ensures old(answers) != [] ==> answers == old(answers)
      ensures step == old(step) && candidateInfo == old(candidateInfo)
      ensures translatedAnswers == old(translatedAnswers) && sentimentScores == old(sentimentScores)
      ensures score == old(score) && grade == old(grade)
      ensures jobRecommendation == old(jobRecommendation) && upskillRecommendation == old(upskillRecommendation)
    {
      var techs := Techs();
      if techs != [] && answers == [] {
        var init := InitialAnswers(techs);
        assert Keys(init) == Dedup(techs);
        assert IsDict(init);
        answers := init;
      }
    }

    /** Entering step 2, corrected (see Loaded): every listed technology ends
      up with a list of questions, the lists already there are kept, and
      nothing else changes. */
    method LoadQuestionsCorrected()
      requires Valid()
      modifies this
      ensures Valid()
      ensures answers == Loaded(old(answers), old(Techs()))
      ensures CoversTechs(answers, Techs())
      ensures forall t :: Get(old(answers), t).Some? ==> Get(answers, t) == Get(old(answers), t)
      ensures old(answers) == [] ==> answers == InitialAnswers(Techs())
      ensures step == old(step) && candidateInfo == old(candidateInfo)
      ensures translatedAnswers == old(translatedAnswers) && sentimentScores == old(sentimentScores)
      ensures score == old(score) && grade == old(grade)
      ensures jobRecommendation == old(jobRecommendation) && upskillRecommendation == old(upskillRecommendation)
    {
      var techs := Techs();
      LoadedCovers(answers, techs);
      LoadedFromEmpty(techs);
      LoadedDistinct(answers, techs);
      answers := Loaded(answers, techs);
    }

    /** `answers[tech][i]["answer"] = text`, as the step-2 form does for each
      text area; ok is false where Python's lookup would raise. */
    method RecordAnswer(tech: string, i: nat, text: string) returns (ok: bool)
      requires Valid()
      modifies this
      ensures Valid()
      ensures ok <==> Get(old(answers), tech).Some? && i < |Get(old(answers), tech).value|
      ensures ok ==> answers == WithAnswer(old(answers), tech, i, text)
      ensures !ok ==> answers == old(answers)
      ensures Keys(answers) == Keys(old(answers))
      ensures step == old(step) && candidateInfo == old(candidateInfo)
      ensures translatedAnswers == old(translatedAnswers) && sentimentScores == old(sentimentScores)
      ensures score == old(score) && grade == old(grade)
      ensures jobRecommendation == old(jobRecommendation) && upskillRecommendation == old(upskillRecommendation)
    {
      var entry := Get(answers, tech);
      if entry.Some? && i < |entry.value| {
        answers := WithAnswer(answers, tech, i, text);
        ok := true;
      } else {
        ok := false;
      }
    }

    /** Submitting the step-2 form: translations and sentiments per pair,
      then the score, the grade, the recommendation, and step 3. The
      sentiment library is the parameter `polarity`. */
    method SubmitAnswers(polarity: string -> real)
      requires Valid()
      modifies this
      ensures Valid()
      ensures translatedAnswers == Translations(old(answers))
      ensures sentimentScores == Sentiments(old(answers), polarity)
      ensures score == Score(old(answers)) && 0.0 <= score <= 100.0
      ensures grade == GradeCandidate(score)
      ensures (jobRecommendation, upskillRecommendation) == Recommend(score, Techs())
      ensures step == 3
      ensures answers == old(answers) && candidateInfo == old(candidateInfo)
    {
      var translated, sentiments := TranslateAll(answers, polarity);
      var s := EvaluateAnswers(answers);
      ScoreBounds(answers);
      var techs := Techs();
      var recommendation := Recommend(s, techs);
      translatedAnswers := translated;
      sentimentScores := sentiments;
      score := s;
      grade := GradeCandidate(s);
      jobRecommendation := recommendation.0;
      upskillRecommendation := recommendation.1;
      step := 3;
    }
  }

  /** The inner loop of the step-2 handler for one technology: each answer
      stripped, "translated" when it is not blank, and its polarity taken. */
  method TranslateList(qas: seq<QA>, polarity: string -> real) returns (ts: seq<string>, ss: seq<real>)
    ensures ts == Translated(qas)
    ensures |ss| == |qas| && forall k :: 0 <= k < |qas| ==> ss[k] == polarity(ts[k])
  {
    ts, ss := [], [];
    var j := 0;
    while j < |qas|
      invariant 0 <= j <= |qas|
      invariant ts == Translated(qas[..j])
      invariant |ss| == j && forall k :: 0 <= k < j ==> ss[k] == polarity(ts[k])
    {
      var text := Strip(qas[j].answer);
      var t := if text != "" then text else "";
      ts := ts + [t];
      ss := ss + [polarity(t)];
      j := j + 1;
    }
    assert qas[..j] == qas;
  }

  /** The outer loop: one translated list and one sentiment list per
      technology, in the sheet's order. */
  method TranslateAll(answers: Sheet, polarity: string -> real)
    returns (translated: seq<(string, seq<string>)>, sentiments: seq<(string, seq<real>)>)
    ensures translated == Translations(answers)
    ensures sentiments == Sentiments(answers, polarity)
  {
    translated, sentiments := [], [];
    var i := 0;
    while i < |answers|
      invariant 0 <= i <= |answers|
      invariant translated == Translations(answers[..i])
      invariant sentiments == Sentiments(answers[..i], polarity)
    {
      var ts, ss := TranslateList(answers[i].1, polarity);
      TranslationsAppend(answers[..i], answers[i]);
      SentimentsAppend(answers[..i], answers[i], polarity);
      assert Sentiments([answers[i]], polarity) == [(answers[i].0, ss)] by {
        var t := Translated(answers[i].1);
        assert seq(|t|, k requires 0 <= k < |t| => polarity(t[k])) == ss;
        assert [answers[i]][1..] == [];
      }
      assert answers[..i + 1] == answers[..i] + [answers[i]];
      // the sheet's keys come once each (Session.Valid), so
      // `translated[tech] = []` adds a key at the end
      translated := translated + [(answers[i].0, ts)];
      sentiments := sentiments + [(answers[i].0, ss)];
      i := i + 1;
    }
    assert answers[..i] == answers;
  }

  lemma {:induction false} TranslationsAppend(sheet: Sheet, entry: (string, seq<QA>))
    ensures Translations(sheet + [entry]) == Translations(sheet) + [(entry.0, Translated(entry.1))]
  {
    if sheet != [] {
      assert (sheet + [entry])[1..] == sheet[1..] + [entry];
      TranslationsAppend(sheet[1..], entry);
    } else {
      assert [] + [entry] == [entry];
    }
  }

  lemma {:induction false} SentimentsAppend(sheet: Sheet, entry: (string, seq<QA>), polarity: string -> real)
    ensures Sentiments(sheet + [entry], polarity)
         == Sentiments(sheet, polarity) + Sentiments([entry], polarity)
  {
    if sheet != [] {
      assert (sheet + [entry])[1..] == sheet[1..] + [entry];
      SentimentsAppend(sheet[1..], entry, polarity);
    } else {
      assert [] + [entry] == [entry];
    }
  }
}
