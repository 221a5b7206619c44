/**
 * The assessment question bank: the six dimensions, the four answer letters and
 * the twenty multiple-choice questions (src/data/assessmentQuestions.ts).
 * Question and option texts (English and Hindi) are dropped; ids, dimensions
 * and option points are kept exactly.
 */
module AssessmentBank {
  import opened Options
  import opened Seqs

  /** A category of compatibility concern. */
  datatype Dimension = Family | Career | Finances | Lifestyle | Values | Intimacy

  /** One of the four answer letters of every question. */
  datatype Answer = A | B | C | D

  /** An answer option: its letter and the points the bank lists for it. */
  datatype AnswerOption = Opt(letter: Answer, points: int)

  datatype AssessmentQuestion = Question(id: string, dimension: Dimension, options: seq<AnswerOption>)

  /** Display metadata of a dimension; only the id and icon name are kept. */
  datatype DimensionInfo = DimensionInfo(id: Dimension, icon: string)

  /** The dimension metadata table, in bank order. */
  const Dimensions: seq<DimensionInfo> := [
    DimensionInfo(Family, "home"),
    DimensionInfo(Career, "briefcase"),
    DimensionInfo(Finances, "wallet"),
    DimensionInfo(Lifestyle, "sun"),
    DimensionInfo(Values, "heart"),
    DimensionInfo(Intimacy, "users")
  ]

  /** The family questions (assessmentQuestions.ts lines 58-149). */
  const FamilyQuestions: seq<AssessmentQuestion> := [
    Question("family_01", Family, [Opt(A, 3), Opt(B, 2), Opt(C, 1), Opt(D, 0)]),
    Question("family_02", Family, [Opt(A, 3), Opt(B, 2), Opt(C, 1), Opt(D, 0)]),
    Question("family_03", Family, [Opt(A, 3), Opt(B, 2), Opt(C, 1), Opt(D, 0)])
  ]

  /** The career questions (assessmentQuestions.ts lines 153-244). */
  const CareerQuestions: seq<AssessmentQuestion> := [
    Question("career_01", Career, [Opt(A, 3), Opt(B, 2), Opt(C, 1), Opt(D, 0)]),
    Question("career_02", Career, [Opt(A, 3), Opt(B, 2), Opt(C, 1), Opt(D, 0)]),
    Question("career_03", Career, [Opt(A, 3), Opt(B, 2), Opt(C, 1), Opt(D, 0)])
  ]

  /** The finances questions (assessmentQuestions.ts lines 248-334). */
  const FinancesQuestions: seq<AssessmentQuestion> := [
    Question("finances_01", Finances, [Opt(A, 3), Opt(B, 2), Opt(C, 1), Opt(D, 0)]),
    Question("finances_02", Finances, [Opt(A, 3), Opt(B, 2), Opt(C, 1), Opt(D, 0)]),
    Question("finances_03", Finances, [Opt(A, 3), Opt(B, 2), Opt(C, 1), Opt(D, 0)])
  ]

  /** The lifestyle questions (assessmentQuestions.ts lines 338-451). */
  const LifestyleQuestions: seq<AssessmentQuestion> := [
    Question("lifestyle_01", Lifestyle, [Opt(A, 3), Opt(B, 2), Opt(C, 1), Opt(D, 0)]),
    Question("lifestyle_02", Lifestyle, [Opt(A, 3), Opt(B, 2), Opt(C, 1), Opt(D, 0)]),
    Question("lifestyle_03", Lifestyle, [Opt(A, 3), Opt(B, 2), Opt(C, 1), Opt(D, 0)]),
    Question("lifestyle_04", Lifestyle, [Opt(A, 3), Opt(B, 2), Opt(C, 1), Opt(D, 0)])
  ]

  /** The values questions (assessmentQuestions.ts lines 455-578). */
  const ValuesQuestions: seq<AssessmentQuestion> := [
    Question("values_01", Values, [Opt(A, 3), Opt(B, 2), Opt(C, 1), Opt(D, 0)]),
    Question("values_02", Values, [Opt(A, 3), Opt(B, 2), Opt(C, 1), Opt(D, 0)]),
    Question("values_03", Values, [Opt(A, 3), Opt(B, 2), Opt(C, 1), Opt(D, 0)]),
    Question("values_04", Values, [Opt(A, 3), Opt(B, 2), Opt(C, 1), Opt(D, 0)])
  ]

  /** The intimacy questions (assessmentQuestions.ts lines 582-680). */
  const IntimacyQuestions: seq<AssessmentQuestion> := [
    Question("intimacy_01", Intimacy, [Opt(A, 3), Opt(B, 2), Opt(C, 1), Opt(D, 0)]),
    Question("intimacy_02", Intimacy, [Opt(A, 3), Opt(B, 2), Opt(C, 1), Opt(D, 0)]),
    Question("intimacy_03", Intimacy, [Opt(A, 3), Opt(B, 2), Opt(C, 1), Opt(D, 0)])
  ]

  /** The bank's dimension sections, in bank order. */
  const Slices: seq<seq<AssessmentQuestion>> :=
    [FamilyQuestions, CareerQuestions, FinancesQuestions, LifestyleQuestions, ValuesQuestions, IntimacyQuestions]

  /** All twenty questions, in bank order. */
  const Questions: seq<AssessmentQuestion> := Flatten(Slices)

  /** The bank's slice for one dimension. */
  function Slice(d: Dimension): seq<AssessmentQuestion> {
    match d
    case Family => FamilyQuestions
    case Career => CareerQuestions
    case Finances => FinancesQuestions
    case Lifestyle => LifestyleQuestions
    case Values => ValuesQuestions
    case Intimacy => IntimacyQuestions
  }

  /** The predicate "belongs to dimension d", as one term so that filters by it can be compared. */
  function InDimension(d: Dimension): AssessmentQuestion -> bool {
    (q: AssessmentQuestion) => q.dimension == d
  }

  /** The questions of dimension `d`, in bank order. */
  function QuestionsByDimension(d: Dimension): (r: seq<AssessmentQuestion>)
    ensures forall i :: 0 <= i < |r| ==> r[i].dimension == d
  {
    FilterMembers(Questions, InDimension(d));
    Filter(Questions, InDimension(d))
  }

  /** Every question selected for a dimension is a question of the bank. */
  lemma QuestionsByDimensionInBank(d: Dimension)
    ensures forall i :: 0 <= i < |QuestionsByDimension(d)| ==> QuestionsByDimension(d)[i] in Questions
    ensures forall q :: q in QuestionsByDimension(d) ==> q in Questions
  {
    FilterMembers(Questions, InDimension(d));
  }

  /** The first entry of `infos` whose id is `d`, if any. */
  function FindInfo(infos: seq<DimensionInfo>, d: Dimension): (r: Option<DimensionInfo>)
    ensures r.Some? <==> exists i :: 0 <= i < |infos| && infos[i].id == d
    ensures r.Some? ==> r.value.id == d && r.value in infos
    ensures r.Some? ==> exists i :: 0 <= i < |infos| && infos[i] == r.value && forall j :: 0 <= j < i ==> infos[j].id != d
  {
    if |infos| == 0 then None
    else if infos[0].id == d then Some(infos[0])
    else
      var r := FindInfo(infos[1..], d);
      assert forall i :: 1 <= i < |infos| ==> infos[i] == infos[1..][i - 1];
      r
  }

  /** The metadata entry of dimension `d` (`getDimensionInfo`). */
  function DimensionInfoOf(d: Dimension): Option<DimensionInfo> {
    FindInfo(Dimensions, d)
  }

  /** Every dimension, including intimacy, has a metadata entry, and it is the one whose id is `d`. */
  lemma DimensionInfoTotal(d: Dimension)
    ensures DimensionInfoOf(d).Some? && DimensionInfoOf(d).value.id == d
  {
    var i := match d
      case Family => 0 case Career => 1 case Finances => 2
      case Lifestyle => 3 case Values => 4 case Intimacy => 5;
    assert Dimensions[i].id == d;
  }

  /** The index of dimension `d`'s slice in `Slices`. */
  function SliceIndex(d: Dimension): nat {
    match d
    case Family => 0 case Career => 1 case Finances => 2
    case Lifestyle => 3 case Values => 4 case Intimacy => 5
  }

  /** The bank's filter by dimension is exactly that dimension's slice, in order. */
  lemma QuestionsByDimensionIsSlice(d: Dimension)
    ensures QuestionsByDimension(d) == Slice(d)
  {
    SlicesAreHomogeneous();
    FilterSelectsBlock(Slices, SliceIndex(d), InDimension(d));
  }

  /** Every question of a slice belongs to that slice's dimension. */
  lemma SlicesAreHomogeneous()
    ensures forall d :: SliceIndex(d) < |Slices| && Slices[SliceIndex(d)] == Slice(d)
    ensures forall j, i :: 0 <= j < |Slices| && 0 <= i < |Slices[j]| ==> SliceIndex(Slices[j][i].dimension) == j
  {
  }

  /** The bank is its six sections laid end to end. */
  lemma QuestionsUnfold()
    ensures Questions == FamilyQuestions + CareerQuestions + FinancesQuestions + LifestyleQuestions + ValuesQuestions + IntimacyQuestions
  {
    assert Flatten(Slices[6..]) == [];
    assert Flatten(Slices[5..]) == IntimacyQuestions + Flatten(Slices[6..]);
    assert Flatten(Slices[4..]) == ValuesQuestions + Flatten(Slices[5..]);
    assert Flatten(Slices[3..]) == LifestyleQuestions + Flatten(Slices[4..]);
    assert Flatten(Slices[2..]) == FinancesQuestions + Flatten(Slices[3..]);
    assert Flatten(Slices[1..]) == CareerQuestions + Flatten(Slices[2..]);
    assert Flatten(Slices) == FamilyQuestions + Flatten(Slices[1..]);
  }

  /** The bank is its six slices, in list order. */
  lemma QuestionsAreSlices()
    ensures Questions == Slice(Family) + Slice(Career) + Slice(Finances) + Slice(Lifestyle) + Slice(Values) + Slice(Intimacy)
  {
    QuestionsUnfold();
  }

  /** Every question of a slice belongs to the slice's dimension. */
  lemma SliceDimension(d: Dimension)
    ensures forall q :: q in Slice(d) ==> q.dimension == d
  {
    match d
    case Family =>
    case Career =>
    case Finances =>
    case Lifestyle =>
    case Values =>
    case Intimacy =>
  }

  /** Every bank question sits in the slice of its own dimension. */
  lemma InOwnSlice(q: AssessmentQuestion)
    requires q in Questions
    ensures q in Slice(q.dimension)
  {
    QuestionsAreSlices();
    SliceDimension(Family);
    SliceDimension(Career);
    SliceDimension(Finances);
    SliceDimension(Lifestyle);
    SliceDimension(Values);
    SliceDimension(Intimacy);
  }

  /** The bank has twenty questions: 3 family, 3 career, 3 finances, 4 lifestyle, 4 values and 3 intimacy. */
  lemma BankCounts()
    ensures |Questions| == 20
    ensures |QuestionsByDimension(Family)| == 3 && |QuestionsByDimension(Career)| == 3
    ensures |QuestionsByDimension(Finances)| == 3 && |QuestionsByDimension(Lifestyle)| == 4
    ensures |QuestionsByDimension(Values)| == 4 && |QuestionsByDimension(Intimacy)| == 3
  {
    QuestionsUnfold();
    QuestionsByDimensionIsSlice(Family);
    QuestionsByDimensionIsSlice(Career);
    QuestionsByDimensionIsSlice(Finances);
    QuestionsByDimensionIsSlice(Lifestyle);
    QuestionsByDimensionIsSlice(Values);
    QuestionsByDimensionIsSlice(Intimacy);
  }

  /** No two questions of the bank share an id. */
  lemma BankIdsDistinct()
    ensures forall i, j :: 0 <= i < j < |Questions| ==> Questions[i].id != Questions[j].id
  {
    QuestionsUnfold();
  }
}
