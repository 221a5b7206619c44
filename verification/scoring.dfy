/**
 * The scorer (src/utils/scoring.ts): answer letters are worth A=3, B=2, C=1,
 * D=0 points; a dimension's score is the mean over its ANSWERED bank questions
 * (0 when none is answered); the score maps to a priority with inclusive lower
 * bounds 2.0 (high) and 1.0 (medium).
 */
module Scoring {
  import opened Seqs
  import opened AssessmentBank

  /** The user's computed priority for a dimension. */
  datatype Priority = High | Medium | Flexible

  /** Assessment answers keyed by question id; questions may be left unanswered. */
  type Answers = map<string, Answer>

  /** The five dimensions the profile covers; intimacy is scored on request but never profiled. */
  type ScoredDimension = d: Dimension | d != Intimacy witness Family

  /** The dimension order used by the profile and the selector. */
  const ScoredDimensions: seq<ScoredDimension> := [Family, Career, Finances, Lifestyle, Values]

  /** The points of an answer letter (`ANSWER_POINTS`). */
  function AnswerPoints(a: Answer): (p: int)
    ensures 0 <= p <= 3
    ensures p == 3 <==> a == A
    ensures p == 0 <==> a == D
  {
    match a
    case A => 3
    case B => 2
    case C => 1
    case D => 0
  }

  /** The points of the answered questions among `qs`. */
  function AnsweredPoints(qs: seq<AssessmentQuestion>, answers: Answers): int
    decreases |qs|
  {
    if |qs| == 0 then 0
    else (if qs[0].id in answers then AnswerPoints(answers[qs[0].id]) else 0) + AnsweredPoints(qs[1..], answers)
  }

  /** The number of answered questions among `qs`. */
  function AnsweredCount(qs: seq<AssessmentQuestion>, answers: Answers): nat
    decreases |qs|
  {
    if |qs| == 0 then 0
    else (if qs[0].id in answers then 1 else 0) + AnsweredCount(qs[1..], answers)
  }

  /** Every answered question contributes between 0 and 3 points, and at most |qs| questions are answered. */
  lemma {:induction false} TallyBounds(qs: seq<AssessmentQuestion>, answers: Answers)
    ensures 0 <= AnsweredCount(qs, answers) <= |qs|
    ensures 0 <= AnsweredPoints(qs, answers) <= 3 * AnsweredCount(qs, answers)
    decreases |qs|
  {
    if |qs| > 0 {
      TallyBounds(qs[1..], answers);
    }
  }

  /** The tally only reads the answers of the questions in `qs`. */
  lemma {:induction false} TallyLocal(qs: seq<AssessmentQuestion>, a1: Answers, a2: Answers)
    requires forall i :: 0 <= i < |qs| ==> (qs[i].id in a1 <==> qs[i].id in a2)
    requires forall i :: 0 <= i < |qs| && qs[i].id in a1 ==> a1[qs[i].id] == a2[qs[i].id]
    ensures AnsweredPoints(qs, a1) == AnsweredPoints(qs, a2)
    ensures AnsweredCount(qs, a1) == AnsweredCount(qs, a2)
    decreases |qs|
  {
    if |qs| > 0 {
      TallyLocal(qs[1..], a1, a2);
    }
  }

  /** When every question of `qs` is answered with `letter`, all of them count and each is worth its points. */
  lemma {:induction false} TallyUniform(qs: seq<AssessmentQuestion>, answers: Answers, letter: Answer)
    requires forall i :: 0 <= i < |qs| ==> qs[i].id in answers && answers[qs[i].id] == letter
    ensures AnsweredCount(qs, answers) == |qs|
    ensures AnsweredPoints(qs, answers) == AnswerPoints(letter) * |qs|
    decreases |qs|
  {
    if |qs| > 0 {
      assert forall i :: 0 <= i < |qs[1..]| ==> qs[1..][i] == qs[i + 1];
      TallyUniform(qs[1..], answers, letter);
      assert qs[0].id in answers && answers[qs[0].id] == letter;
      var p := AnswerPoints(letter);
      assert p * |qs| == p + p * (|qs| - 1);
    }
  }

  /** The mean of `count` values summing to `total`, and 0 for no values. */
  function Mean(total: int, count: nat): (m: real)
    ensures count == 0 ==> m == 0.0
  {
    if count == 0 then 0.0 else total as real / count as real
  }

  /** A mean times its count gives back the total. */
  lemma MeanTimesCount(total: int, count: nat)
    requires count > 0
    ensures Mean(total, count) * count as real == total as real
  {
  }

  /** The mean of values in [0, 3] lies in [0, 3], and its thresholds can be decided on integers. */
  lemma MeanFacts(total: int, count: nat)
    requires 0 <= total <= 3 * count
    ensures 0.0 <= Mean(total, count) <= 3.0
    ensures Mean(total, count) >= 2.0 <==> count > 0 && total >= 2 * count
    ensures Mean(total, count) >= 1.0 <==> count > 0 && total >= count
  {
    if count > 0 {
      MeanTimesCount(total, count);
      var m, c, t := Mean(total, count), count as real, total as real;
      ScaleCompare(m, c, t, 0.0);
      ScaleCompare(m, c, t, 1.0);
      ScaleCompare(m, c, t, 2.0);
      ScaleCompare(m, c, t, 3.0);
    }
  }

  /** For a positive `c` with `m * c == t`, `m` compares with `k` as `t` compares with `k * c`. */
  lemma ScaleCompare(m: real, c: real, t: real, k: real)
    requires c > 0.0 && m * c == t
    ensures m >= k <==> t >= k * c
    ensures m <= k <==> t <= k * c
  {
    if m >= k { assert m * c >= k * c; }
    if m < k { assert m * c < k * c; }
    if m <= k { assert m * c <= k * c; }
    if m > k { assert m * c > k * c; }
  }

  /**
   * The score of dimension `d` (`calculateDimensionScore`): 0 when the dimension has
   * no question or none of its questions is answered, otherwise the mean points of
   * its answered questions, so that unanswered questions are left out of the denominator.
   */
  function DimensionScore(d: Dimension, answers: Answers): (score: real)
    ensures 0.0 <= score <= 3.0
    ensures AnsweredCount(QuestionsByDimension(d), answers) == 0 ==> score == 0.0
    ensures score == Mean(AnsweredPoints(QuestionsByDimension(d), answers), AnsweredCount(QuestionsByDimension(d), answers))
  {
    var qs := QuestionsByDimension(d);
    TallyBounds(qs, answers);
    MeanFacts(AnsweredPoints(qs, answers), AnsweredCount(qs, answers));
    if |qs| == 0 then 0.0
    else Mean(AnsweredPoints(qs, answers), AnsweredCount(qs, answers))
  }

  /** The priority of a score: inclusive lower bounds at 2.0 (high) and 1.0 (medium) (`scoreToPriority`). */
  function ScoreToPriority(score: real): (p: Priority)
    ensures p == High <==> score >= 2.0
    ensures p == Medium <==> 1.0 <= score < 2.0
    ensures p == Flexible <==> score < 1.0
  {
    if score >= 2.0 then High
    else if score >= 1.0 then Medium
    else Flexible
  }

  /** The sort key of a priority: high before medium before flexible. */
  function Rank(p: Priority): nat {
    match p
    case High => 0
    case Medium => 1
    case Flexible => 2
  }

  /** A higher score never yields a lower priority. */
  lemma ScoreToPriorityMonotone(s1: real, s2: real)
    requires s1 <= s2
    ensures Rank(ScoreToPriority(s2)) <= Rank(ScoreToPriority(s1))
  {
  }

  /**
   * The priority decision needs no division: a dimension is high iff something is
   * answered and its answered points are at least twice the answered count, and
   * flexible iff nothing is answered or the points are below the count.
   */
  lemma PriorityByIntegers(d: Dimension, answers: Answers)
    ensures var total, count := AnsweredPoints(QuestionsByDimension(d), answers), AnsweredCount(QuestionsByDimension(d), answers);
      && (ScoreToPriority(DimensionScore(d, answers)) == High <==> count > 0 && total >= 2 * count)
      && (ScoreToPriority(DimensionScore(d, answers)) == Flexible <==> count == 0 || total < count)
  {
    var qs := QuestionsByDimension(d);
    TallyBounds(qs, answers);
    MeanFacts(AnsweredPoints(qs, answers), AnsweredCount(qs, answers));
  }

  /** A user's priority for each of the five profiled dimensions. */
  datatype Profile = Profile(family: Priority, career: Priority, finances: Priority, lifestyle: Priority, values: Priority) {

    /** The priority of dimension `d` (`profile[d]`). */
    function Get(d: ScoredDimension): Priority {
      match d
      case Family => family
      case Career => career
      case Finances => finances
      case Lifestyle => lifestyle
      case Values => values
    }

    /** The profile with dimension `d` set to `p`. */
    function Set(d: ScoredDimension, p: Priority): (r: Profile)
      ensures r.Get(d) == p
      ensures forall e: ScoredDimension :: e != d ==> r.Get(e) == Get(e)
    {
      match d
      case Family => this.(family := p)
      case Career => this.(career := p)
      case Finances => this.(finances := p)
      case Lifestyle => this.(lifestyle := p)
      case Values => this.(values := p)
    }
  }

  /** The profile every dimension of which is `p`. */
  function Uniform(p: Priority): Profile {
    Profile(p, p, p, p, p)
  }

  /**
   * The profile of `answers` (`calculatePriorityProfile`): it starts all flexible
   * and overwrites each of the five dimensions, in order, with the priority of its score.
   */
  method CalculatePriorityProfile(answers: Answers) returns (profile: Profile)
    ensures forall d: ScoredDimension :: profile.Get(d) == ScoreToPriority(DimensionScore(d, answers))
  {
    profile := Uniform(Flexible);
    var k := 0;
    while k < |ScoredDimensions|
      invariant 0 <= k <= |ScoredDimensions|
      invariant forall j :: 0 <= j < k ==> profile.Get(ScoredDimensions[j]) == ScoreToPriority(DimensionScore(ScoredDimensions[j], answers))
    {
      var d := ScoredDimensions[k];
      profile := profile.Set(d, ScoreToPriority(DimensionScore(d, answers)));
      k := k + 1;
    }
    forall d: ScoredDimension
      ensures profile.Get(d) == ScoreToPriority(DimensionScore(d, answers))
    {
      assert d in ScoredDimensions;
      var j :| 0 <= j < |ScoredDimensions| && ScoredDimensions[j] == d;
    }
  }

  /** The profile of `answers` as a value, for stating properties across calls. */
  function ProfileOf(answers: Answers): Profile {
    Profile(
      ScoreToPriority(DimensionScore(Family, answers)),
      ScoreToPriority(DimensionScore(Career, answers)),
      ScoreToPriority(DimensionScore(Finances, answers)),
      ScoreToPriority(DimensionScore(Lifestyle, answers)),
      ScoreToPriority(DimensionScore(Values, answers)))
  }

  /**
   * The raw scores of the five profiled dimensions (`getDimensionScores`); there is
   * no intimacy entry.
   */
  function DimensionScores(answers: Answers): (r: map<Dimension, real>)
    ensures forall d :: d in r <==> d != Intimacy
    ensures forall d :: d in r ==> r[d] == DimensionScore(d, answers)
  {
    map d: Dimension | d != Intimacy :: DimensionScore(d, answers)
  }

  /** The computed profile and the displayed scores agree on every profiled dimension. */
  lemma ProfileMatchesScores(answers: Answers)
    ensures forall d: ScoredDimension :: d in DimensionScores(answers) && ProfileOf(answers).Get(d) == ScoreToPriority(DimensionScores(answers)[d])
  {
  }

  /** The method that follows the source's loop computes `ProfileOf`. */
  method ProfileMethodAgrees(answers: Answers) returns (profile: Profile)
    ensures profile == ProfileOf(answers)
  {
    profile := CalculatePriorityProfile(answers);
    assert profile.Get(Family) == ProfileOf(answers).family;
    assert profile.Get(Career) == ProfileOf(answers).career;
    assert profile.Get(Finances) == ProfileOf(answers).finances;
    assert profile.Get(Lifestyle) == ProfileOf(answers).lifestyle;
    assert profile.Get(Values) == ProfileOf(answers).values;
  }

  /** With no answers every dimension scores 0 and the profile is all flexible. */
  lemma {:induction false} EmptyAnswers(d: Dimension)
    ensures DimensionScore(d, map[]) == 0.0
    ensures ProfileOf(map[]) == Uniform(Flexible)
  {
    forall e: Dimension
      ensures AnsweredCount(QuestionsByDimension(e), map[]) == 0
    {
      NothingAnswered(QuestionsByDimension(e));
    }
  }

  lemma {:induction false} NothingAnswered(qs: seq<AssessmentQuestion>)
    ensures AnsweredCount(qs, map[]) == 0
    decreases |qs|
  {
    if |qs| > 0 {
      NothingAnswered(qs[1..]);
    }
  }

  /** The ids of the assessment bank. */
  function BankIds(): set<string> {
    set q | q in Questions :: q.id
  }

  /** The answers that give every bank question the same `letter`. */
  function AnswerAll(letter: Answer): Answers {
    map id | id in BankIds() :: letter
  }

  /** Answering every question with `letter` answers every question of each dimension, each worth the letter's points. */
  lemma AnswerAllTally(letter: Answer, d: Dimension)
    ensures AnsweredCount(QuestionsByDimension(d), AnswerAll(letter)) == |QuestionsByDimension(d)| > 0
    ensures AnsweredPoints(QuestionsByDimension(d), AnswerAll(letter)) == AnswerPoints(letter) * |QuestionsByDimension(d)|
  {
    var qs := QuestionsByDimension(d);
    BankCounts();
    QuestionsByDimensionInBank(d);
    forall i | 0 <= i < |qs|
      ensures qs[i].id in AnswerAll(letter) && AnswerAll(letter)[qs[i].id] == letter
    {
      assert qs[i] in Questions;
      assert qs[i].id in BankIds();
    }
    TallyUniform(qs, AnswerAll(letter), letter);
  }

  /** The mean of `n` equal values is that value. */
  lemma MeanOfEqualValues(p: int, n: nat)
    requires n > 0
    ensures Mean(p * n, n) == p as real
  {
    MeanTimesCount(p * n, n);
    var m, c := Mean(p * n, n), n as real;
    assert m * c == p as real * c;
  }

  /** Answering every question with `letter` scores each dimension at exactly that letter's points. */
  lemma AnswerAllScore(letter: Answer, d: Dimension)
    ensures DimensionScore(d, AnswerAll(letter)) == AnswerPoints(letter) as real
  {
    AnswerAllTally(letter, d);
    MeanOfEqualValues(AnswerPoints(letter), |QuestionsByDimension(d)|);
  }

  /** Answering everything A gives an all-high profile; answering everything D gives an all-flexible one. */
  lemma AllAIsHighAllDIsFlexible()
    ensures ProfileOf(AnswerAll(A)) == Uniform(High)
    ensures ProfileOf(AnswerAll(D)) == Uniform(Flexible)
  {
    AnswerAllScore(A, Family);
    AnswerAllScore(A, Career);
    AnswerAllScore(A, Finances);
    AnswerAllScore(A, Lifestyle);
    AnswerAllScore(A, Values);
    AnswerAllScore(D, Family);
    AnswerAllScore(D, Career);
    AnswerAllScore(D, Finances);
    AnswerAllScore(D, Lifestyle);
    AnswerAllScore(D, Values);
  }

  /** A dimension's score reads only the answers to that dimension's questions. */
  lemma ScoreDependsOnOwnAnswers(d: Dimension, a1: Answers, a2: Answers)
    requires forall q :: q in QuestionsByDimension(d) ==> (q.id in a1 <==> q.id in a2)
    requires forall q :: q in QuestionsByDimension(d) && q.id in a1 ==> a1[q.id] == a2[q.id]
    ensures DimensionScore(d, a1) == DimensionScore(d, a2)
  {
    var qs := QuestionsByDimension(d);
    assert forall i :: 0 <= i < |qs| ==> qs[i] in qs;
    TallyLocal(qs, a1, a2);
  }

  /** Answers under keys that are not question ids of the bank change no score. */
  lemma UnknownIdsIgnored(d: Dimension, answers: Answers, junk: string, letter: Answer)
    requires junk !in BankIds()
    ensures DimensionScore(d, answers[junk := letter]) == DimensionScore(d, answers)
  {
    QuestionsByDimensionInBank(d);
    forall q | q in QuestionsByDimension(d)
      ensures q.id != junk
    {
      assert q.id in BankIds();
    }
    ScoreDependsOnOwnAnswers(d, answers[junk := letter], answers);
  }

  /** Answering or changing a question of another dimension leaves dimension `d`'s score unchanged. */
  lemma OtherDimensionsIndependent(d: Dimension, answers: Answers, i: nat, letter: Answer)
    requires i < |Questions| && Questions[i].dimension != d
    ensures DimensionScore(d, answers[Questions[i].id := letter]) == DimensionScore(d, answers)
  {
    BankIdsDistinct();
    QuestionsByDimensionInBank(d);
    forall q | q in QuestionsByDimension(d)
      ensures q.id != Questions[i].id
    {
      var j :| 0 <= j < |Questions| && Questions[j] == q;
      assert j != i;
    }
    ScoreDependsOnOwnAnswers(d, answers[Questions[i].id := letter], answers);
  }

  /** Two family answers, A and B, out of three questions score (3 + 2) / 2 = 2.5: the mean is over answered questions only. */
  lemma PartialAnswersAverageOverAnswered()
    ensures DimensionScore(Family, map["family_01" := A, "family_02" := B]) == 2.5
  {
    var answers := map["family_01" := A, "family_02" := B];
    QuestionsByDimensionIsSlice(Family);
    var qs := FamilyQuestions;
    assert qs[2..][1..] == [];
    assert qs[1..][1..] == qs[2..];
    assert AnsweredCount(qs[2..], answers) == 0 && AnsweredPoints(qs[2..], answers) == 0;
    assert AnsweredCount(qs[1..], answers) == 1 && AnsweredPoints(qs[1..], answers) == 2;
    assert AnsweredCount(qs, answers) == 2 && AnsweredPoints(qs, answers) == 5;
  }

  /** The options every bank question offers: A, B, C, D, worth 3, 2, 1 and 0 points. */
  const StandardOptions: seq<AnswerOption> := [Opt(A, 3), Opt(B, 2), Opt(C, 1), Opt(D, 0)]

  /** Every question of a slice offers the standard options. */
  lemma SliceOptions(d: Dimension)
    ensures forall q :: q in Slice(d) ==> q.options == StandardOptions
  {
    match d
    case Family =>
    case Career =>
    case Finances =>
    case Lifestyle =>
    case Values =>
    case Intimacy =>
  }

  /** Every option of every bank question is A, B, C, D in that order, worth exactly `AnswerPoints` of its letter. */
  lemma OptionsAgreeWithAnswerPoints()
    ensures forall i :: 0 <= i < |Questions| ==>
      |Questions[i].options| == 4 &&
      Questions[i].options[0].letter == A && Questions[i].options[1].letter == B &&
      Questions[i].options[2].letter == C && Questions[i].options[3].letter == D
    ensures forall i, j :: 0 <= i < |Questions| && 0 <= j < |Questions[i].options| ==>
      Questions[i].options[j].points == AnswerPoints(Questions[i].options[j].letter)
  {
    forall i | 0 <= i < |Questions|
      ensures Questions[i].options == StandardOptions
    {
      InOwnSlice(Questions[i]);
      SliceOptions(Questions[i].dimension);
    }
  }
}
