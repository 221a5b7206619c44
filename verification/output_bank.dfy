/**
 * The output question bank: the twenty-eight curated questions shown in the
 * guide (src/data/outputQuestions.ts). Each entry keeps its id, dimension and
 * importance tag; the bilingual question, rationale and listening texts are
 * dropped. There are no intimacy entries.
 */
module OutputBank {
  import opened Seqs
  import opened AssessmentBank

  /** An entry's own importance classification (`priorityLevel` in the source). */
  datatype Tag = EssentialTag | HighTag

  datatype OutputQuestion = OutputQuestion(id: string, dimension: Dimension, tag: Tag)

  /** The family entries (outputQuestions.ts lines 25-113). */
  const FamilyEntries: seq<OutputQuestion> := [
    OutputQuestion("family_out_01", Family, EssentialTag),
    OutputQuestion("family_out_02", Family, HighTag),
    OutputQuestion("family_out_03", Family, EssentialTag),
    OutputQuestion("family_out_04", Family, HighTag),
    OutputQuestion("family_out_05", Family, HighTag),
    OutputQuestion("family_out_06", Family, HighTag)
  ]

  /** The career entries (outputQuestions.ts lines 118-188). */
  const CareerEntries: seq<OutputQuestion> := [
    OutputQuestion("career_out_01", Career, EssentialTag),
    OutputQuestion("career_out_02", Career, HighTag),
    OutputQuestion("career_out_03", Career, EssentialTag),
    OutputQuestion("career_out_04", Career, HighTag),
    OutputQuestion("career_out_05", Career, HighTag)
  ]

  /** The finances entries (outputQuestions.ts lines 193-264). */
  const FinancesEntries: seq<OutputQuestion> := [
    OutputQuestion("finance_out_01", Finances, EssentialTag),
    OutputQuestion("finance_out_02", Finances, HighTag),
    OutputQuestion("finance_out_03", Finances, EssentialTag),
    OutputQuestion("finance_out_04", Finances, HighTag),
    OutputQuestion("finance_out_05", Finances, HighTag)
  ]

  /** The lifestyle entries (outputQuestions.ts lines 269-348). */
  const LifestyleEntries: seq<OutputQuestion> := [
    OutputQuestion("lifestyle_out_01", Lifestyle, EssentialTag),
    OutputQuestion("lifestyle_out_02", Lifestyle, HighTag),
    OutputQuestion("lifestyle_out_03", Lifestyle, EssentialTag),
    OutputQuestion("lifestyle_out_04", Lifestyle, HighTag),
    OutputQuestion("lifestyle_out_05", Lifestyle, HighTag),
    OutputQuestion("lifestyle_out_06", Lifestyle, HighTag)
  ]

  /** The values entries (outputQuestions.ts lines 353-437). */
  const ValuesEntries: seq<OutputQuestion> := [
    OutputQuestion("values_out_01", Values, EssentialTag),
    OutputQuestion("values_out_02", Values, HighTag),
    OutputQuestion("values_out_03", Values, EssentialTag),
    OutputQuestion("values_out_04", Values, HighTag),
    OutputQuestion("values_out_05", Values, EssentialTag),
    OutputQuestion("values_out_06", Values, HighTag)
  ]

  /** The bank's dimension sections, in bank order. */
  const Sections: seq<seq<OutputQuestion>> :=
    [FamilyEntries, CareerEntries, FinancesEntries, LifestyleEntries, ValuesEntries]

  /** All output questions, in bank order. */
  const Questions: seq<OutputQuestion> := Flatten(Sections)

  /** The number of output questions (`TOTAL_OUTPUT_QUESTIONS`). */
  function TotalOutputQuestions(): (n: nat)
    ensures n == 28
  {
    QuestionsUnfold();
    |Questions|
  }

  /** The bank's section for one dimension; intimacy has none. */
  function Section(d: Dimension): seq<OutputQuestion> {
    match d
    case Family => FamilyEntries
    case Career => CareerEntries
    case Finances => FinancesEntries
    case Lifestyle => LifestyleEntries
    case Values => ValuesEntries
    case Intimacy => []
  }

  /** "Belongs to dimension d", as one term so that filters by it can be compared. */
  function OfDimension(d: Dimension): OutputQuestion -> bool {
    (q: OutputQuestion) => q.dimension == d
  }

  /** "Is tagged essential". */
  function IsEssential(): OutputQuestion -> bool {
    (q: OutputQuestion) => q.tag == EssentialTag
  }

  /** "Is tagged high". */
  function IsHigh(): OutputQuestion -> bool {
    (q: OutputQuestion) => q.tag == HighTag
  }

  /** "Belongs to dimension d and is tagged essential". */
  function EssentialOf(d: Dimension): OutputQuestion -> bool {
    (q: OutputQuestion) => q.dimension == d && q.tag == EssentialTag
  }

  /** The entries of dimension `d`, in bank order (`getOutputQuestionsByDimension`). */
  function QuestionsByDimension(d: Dimension): (r: seq<OutputQuestion>)
    ensures forall i :: 0 <= i < |r| ==> r[i].dimension == d
  {
    FilterMembers(Questions, OfDimension(d));
    Filter(Questions, OfDimension(d))
  }

  /** The entries of a dimension are entries of the bank. */
  lemma QuestionsByDimensionInBank(d: Dimension)
    ensures forall q :: q in QuestionsByDimension(d) ==> q in Questions
  {
    FilterMembers(Questions, OfDimension(d));
  }

  /** Ids of the bank are unique, so an id names at most one entry. */
  lemma IdDeterminesEntry(x: OutputQuestion, y: OutputQuestion)
    requires x in Questions && y in Questions && x.id == y.id
    ensures x == y
  {
    BankIdsDistinct();
    var i :| 0 <= i < |Questions| && Questions[i] == x;
    var j :| 0 <= j < |Questions| && Questions[j] == y;
  }

  /** The essential entries of dimension `d`, in bank order (`getEssentialQuestions`). */
  function EssentialQuestions(d: Dimension): (r: seq<OutputQuestion>)
    ensures forall i :: 0 <= i < |r| ==> r[i].dimension == d && r[i].tag == EssentialTag && r[i] in Questions
    ensures forall i :: 0 <= i < |Questions| && Questions[i].dimension == d && Questions[i].tag == EssentialTag ==> Questions[i] in r
  {
    FilterMembers(Questions, EssentialOf(d));
    Filter(Questions, EssentialOf(d))
  }

  /** The index of dimension `d`'s section in `Sections`, for the five dimensions that have one. */
  function SectionIndex(d: Dimension): nat {
    match d
    case Family => 0 case Career => 1 case Finances => 2
    case Lifestyle => 3 case Values => 4 case Intimacy => 5
  }

  /** The bank is its five sections, in list order. */
  lemma QuestionsAreSections()
    ensures Questions == Section(Family) + Section(Career) + Section(Finances) + Section(Lifestyle) + Section(Values)
  {
    QuestionsUnfold();
  }

  /** Every entry of a section belongs to that section's dimension. */
  lemma SectionsAreHomogeneous()
    ensures forall d :: d != Intimacy ==> SectionIndex(d) < |Sections| && Sections[SectionIndex(d)] == Section(d)
    ensures forall j, i :: 0 <= j < |Sections| && 0 <= i < |Sections[j]| ==> SectionIndex(Sections[j][i].dimension) == j
  {
  }

  /** The bank is its five sections laid end to end. */
  lemma QuestionsUnfold()
    ensures Questions == FamilyEntries + CareerEntries + FinancesEntries + LifestyleEntries + ValuesEntries
  {
    assert Flatten(Sections[5..]) == [];
    assert Flatten(Sections[4..]) == ValuesEntries + Flatten(Sections[5..]);
    assert Flatten(Sections[3..]) == LifestyleEntries + Flatten(Sections[4..]);
    assert Flatten(Sections[2..]) == FinancesEntries + Flatten(Sections[3..]);
    assert Flatten(Sections[1..]) == CareerEntries + Flatten(Sections[2..]);
    assert Flatten(Sections) == FamilyEntries + Flatten(Sections[1..]);
  }

  /** Filtering the bank by dimension yields exactly that dimension's section, in bank order. */
  lemma QuestionsByDimensionIsSection(d: Dimension)
    ensures QuestionsByDimension(d) == Section(d)
  {
    SectionsAreHomogeneous();
    if d == Intimacy {
      FilterSelectsNone(Sections, OfDimension(d));
    } else {
      FilterSelectsBlock(Sections, SectionIndex(d), OfDimension(d));
    }
  }

  /** The essential entries are the essential-tagged subsequence of the dimension's entries. */
  lemma EssentialIsFilterOfDimension(d: Dimension)
    ensures EssentialQuestions(d) == Filter(QuestionsByDimension(d), IsEssential())
  {
    FilterFilter(Questions, OfDimension(d), IsEssential(), EssentialOf(d));
  }

  /** "Have different ids", as one term so that pairwise facts about it can be combined. */
  function DifferentIds(): (OutputQuestion, OutputQuestion) -> bool {
    (a: OutputQuestion, b: OutputQuestion) => a.id != b.id
  }

  /** No two questions of `qs` share an id. */
  predicate NoDuplicateIds(qs: seq<OutputQuestion>) {
    Pairwise(qs, DifferentIds())
  }

  /** The two letters the ids of a dimension's entries start with. */
  function IdPrefix(d: Dimension): string {
    match d
    case Family => "fa" case Career => "ca" case Finances => "fi"
    case Lifestyle => "li" case Values => "va" case Intimacy => "in"
  }

  /** An entry whose id starts with its dimension's two letters. */
  predicate Prefixed(q: OutputQuestion) {
    |q.id| >= 2 && q.id[..2] == IdPrefix(q.dimension)
  }

  /** Every entry of `qs` belongs to `d` and its id starts with the two letters of `d`. */
  predicate AllPrefixed(qs: seq<OutputQuestion>, d: Dimension) {
    forall i :: 0 <= i < |qs| ==> Prefixed(qs[i]) && qs[i].dimension == d
  }

  // The section facts one at a time, so that each literal is unfolded on its own.
  lemma FamilyPrefixed() ensures AllPrefixed(FamilyEntries, Family) { }
  lemma CareerPrefixed() ensures AllPrefixed(CareerEntries, Career) { }
  lemma FinancesPrefixed() ensures AllPrefixed(FinancesEntries, Finances) { }
  lemma LifestylePrefixed() ensures AllPrefixed(LifestyleEntries, Lifestyle) { }
  lemma ValuesPrefixed() ensures AllPrefixed(ValuesEntries, Values) { }
  lemma FamilyDistinct() ensures NoDuplicateIds(FamilyEntries) { }
  lemma CareerDistinct() ensures NoDuplicateIds(CareerEntries) { }
  lemma FinancesDistinct() ensures NoDuplicateIds(FinancesEntries) { }
  lemma LifestyleDistinct() ensures NoDuplicateIds(LifestyleEntries) { }
  lemma ValuesDistinct() ensures NoDuplicateIds(ValuesEntries) { }

  /** Within a section the ids are distinct, and each starts with the section's two letters. */
  lemma SectionIds(d: Dimension)
    ensures forall i :: 0 <= i < |Section(d)| ==> Prefixed(Section(d)[i]) && Section(d)[i].dimension == d
    ensures NoDuplicateIds(Section(d))
  {
    match d
    case Family => FamilyPrefixed(); FamilyDistinct();
    case Career => CareerPrefixed(); CareerDistinct();
    case Finances => FinancesPrefixed(); FinancesDistinct();
    case Lifestyle => LifestylePrefixed(); LifestyleDistinct();
    case Values => ValuesPrefixed(); ValuesDistinct();
    case Intimacy =>
  }

  /** Appending a later section to entries of earlier sections keeps the ids distinct. */
  lemma AppendSection(acc: seq<OutputQuestion>, d: Dimension)
    requires NoDuplicateIds(acc)
    requires forall i :: 0 <= i < |acc| ==> Prefixed(acc[i]) && SectionIndex(acc[i].dimension) < SectionIndex(d)
    ensures NoDuplicateIds(acc + Section(d))
    ensures forall i :: 0 <= i < |acc + Section(d)| ==>
      Prefixed((acc + Section(d))[i]) && SectionIndex((acc + Section(d))[i].dimension) <= SectionIndex(d)
  {
    SectionIds(d);
    forall i, j | 0 <= i < |acc| && 0 <= j < |Section(d)|
      ensures DifferentIds()(acc[i], Section(d)[j])
    {
      assert IdPrefix(acc[i].dimension) != IdPrefix(d);
    }
    ConcatPairwise(acc, Section(d), DifferentIds());
  }

  /** No two entries of the bank share an id. */
  lemma BankIdsDistinct()
    ensures forall i, j :: 0 <= i < j < |Questions| ==> Questions[i].id != Questions[j].id
  {
    SectionIds(Family);
    AppendSection(Section(Family), Career);
    AppendSection(Section(Family) + Section(Career), Finances);
    AppendSection(Section(Family) + Section(Career) + Section(Finances), Lifestyle);
    AppendSection(Section(Family) + Section(Career) + Section(Finances) + Section(Lifestyle), Values);
    QuestionsUnfold();
    assert NoDuplicateIds(Questions);
  }

  /** No entry of the bank belongs to the intimacy dimension. */
  lemma NoIntimacyEntries()
    ensures forall i :: 0 <= i < |Questions| ==> Questions[i].dimension != Intimacy
  {
    QuestionsUnfold();
  }

  /** The essential-tagged and high-tagged entries of each section, in bank order. */
  lemma FamilyTags()
    ensures Filter(FamilyEntries, IsEssential()) == [FamilyEntries[0], FamilyEntries[2]]
    ensures Filter(FamilyEntries, IsHigh()) == [FamilyEntries[1], FamilyEntries[3], FamilyEntries[4], FamilyEntries[5]]
  {
  }

  lemma CareerTags()
    ensures Filter(CareerEntries, IsEssential()) == [CareerEntries[0], CareerEntries[2]]
    ensures Filter(CareerEntries, IsHigh()) == [CareerEntries[1], CareerEntries[3], CareerEntries[4]]
  {
  }

  lemma FinancesTags()
    ensures Filter(FinancesEntries, IsEssential()) == [FinancesEntries[0], FinancesEntries[2]]
    ensures Filter(FinancesEntries, IsHigh()) == [FinancesEntries[1], FinancesEntries[3], FinancesEntries[4]]
  {
  }

  lemma LifestyleTags()
    ensures Filter(LifestyleEntries, IsEssential()) == [LifestyleEntries[0], LifestyleEntries[2]]
    ensures Filter(LifestyleEntries, IsHigh()) == [LifestyleEntries[1], LifestyleEntries[3], LifestyleEntries[4], LifestyleEntries[5]]
  {
  }

  lemma ValuesTags()
    ensures Filter(ValuesEntries, IsEssential()) == [ValuesEntries[0], ValuesEntries[2], ValuesEntries[4]]
    ensures Filter(ValuesEntries, IsHigh()) == [ValuesEntries[1], ValuesEntries[3], ValuesEntries[5]]
  {
  }

  /** The number of essential entries per dimension, as the bank's section comments give them. */
  function EssentialCount(d: Dimension): nat {
    match d
    case Family => 2 case Career => 2 case Finances => 2
    case Lifestyle => 2 case Values => 3 case Intimacy => 0
  }

  /** The number of high-tagged entries per dimension, as the bank's section comments give them. */
  function HighCount(d: Dimension): nat {
    match d
    case Family => 4 case Career => 3 case Finances => 3
    case Lifestyle => 4 case Values => 3 case Intimacy => 0
  }

  /**
   * Each dimension's entries split into `EssentialCount(d)` essential and `HighCount(d)`
   * high-tagged ones, and the bank holds 28 entries in all.
   */
  lemma DimensionCounts(d: Dimension)
    ensures |Questions| == 28
    ensures |QuestionsByDimension(d)| == EssentialCount(d) + HighCount(d)
    ensures |Filter(QuestionsByDimension(d), IsEssential())| == EssentialCount(d)
    ensures |EssentialQuestions(d)| == EssentialCount(d)
    ensures |Filter(QuestionsByDimension(d), IsHigh())| == HighCount(d)
  {
    QuestionsUnfold();
    QuestionsByDimensionIsSection(d);
    EssentialIsFilterOfDimension(d);
    match d
    case Family => FamilyTags();
    case Career => CareerTags();
    case Finances => FinancesTags();
    case Lifestyle => LifestyleTags();
    case Values => ValuesTags();
    case Intimacy =>
  }
}
