/**
 * The question selector (src/utils/questionSelector.ts): which output questions a
 * user sees for a priority profile, in which order, and which of them are free.
 */
module QuestionSelector {
  import opened Seqs
  import AssessmentBank
  import opened OutputBank
  import opened Scoring

  /** The number of questions visible without the premium unlock (`FREE_QUESTION_COUNT`). */
  const FreeQuestionCount: nat := 7

  /** High-tagged questions added for a medium-priority dimension (`MEDIUM_PRIORITY_QUESTIONS`). */
  const MediumPriorityQuestions: nat := 2

  /** The profile's string value for a priority: `'high'`, `'medium'` or `'flexible'`. */
  function PriorityName(p: Priority): string {
    match p
    case High => "high"
    case Medium => "medium"
    case Flexible => "flexible"
  }

  /** How many questions a dimension contributes at a priority level, from the bank's per-dimension counts. */
  function SelectedCount(d: AssessmentBank.Dimension, level: string): nat {
    EssentialCount(d) +
      if level == "high" then HighCount(d)
      else if level == "medium" then (if MediumPriorityQuestions < HighCount(d) then MediumPriorityQuestions else HighCount(d))
      else 0
  }

  /**
   * The questions of dimension `d` for a priority level (`selectQuestionsForDimension`):
   * every entry of the dimension at `"high"`; its essential entries followed by its
   * first two high-tagged entries at `"medium"`; only its essential entries at
   * `"flexible"` and at any other value (the `default` branch).
   */
  function SelectForDimension(d: AssessmentBank.Dimension, level: string): (r: seq<OutputQuestion>)
    ensures forall i :: 0 <= i < |r| ==> r[i].dimension == d
  {
    var dimensionQuestions := QuestionsByDimension(d);
    var essential := Filter(dimensionQuestions, IsEssential());
    var high := Filter(dimensionQuestions, IsHigh());
    FilterMembers(dimensionQuestions, IsEssential());
    FilterMembers(dimensionQuestions, IsHigh());
    if level == "high" then dimensionQuestions
    else if level == "medium" then essential + Take(high, MediumPriorityQuestions)
    else essential
  }

  /** A dimension's selection is drawn from the bank. */
  lemma SelectionInBank(d: AssessmentBank.Dimension, level: string)
    ensures forall q :: q in SelectForDimension(d, level) ==> q in Questions
  {
    var dimensionQuestions := QuestionsByDimension(d);
    QuestionsByDimensionInBank(d);
    FilterMembers(dimensionQuestions, IsEssential());
    FilterMembers(dimensionQuestions, IsHigh());
  }

  /** A dimension's selection has as many entries as the bank's per-dimension counts give for its level. */
  lemma SelectionLength(d: AssessmentBank.Dimension, level: string)
    ensures |SelectForDimension(d, level)| == SelectedCount(d, level)
  {
    DimensionCounts(d);
  }

  /** At `"high"` a dimension's selection is its whole section of the bank, in bank order. */
  lemma SelectionAtHigh(d: AssessmentBank.Dimension)
    ensures SelectForDimension(d, "high") == Section(d)
  {
    QuestionsByDimensionIsSection(d);
  }

  /**
   * At any level but `"high"` a dimension's selection starts with the dimension's
   * essential entries and continues with high-tagged entries only; at `"medium"`
   * these are the first two high-tagged entries of the dimension's section, in bank
   * order (all of them when it has fewer).
   */
  lemma SelectionBelowHigh(d: AssessmentBank.Dimension, level: string)
    requires level != "high"
    ensures EssentialCount(d) <= |SelectForDimension(d, level)|
    ensures SelectForDimension(d, level)[..EssentialCount(d)] == EssentialQuestions(d)
    ensures forall i :: EssentialCount(d) <= i < |SelectForDimension(d, level)| ==> SelectForDimension(d, level)[i].tag == HighTag
    ensures level == "medium" ==>
      SelectForDimension(d, level)[EssentialCount(d)..] == Take(Filter(Section(d), IsHigh()), MediumPriorityQuestions)
  {
    var r := SelectForDimension(d, level);
    if level == "medium" {
      MediumTakesFirstHigh(d);
      var taken := r[EssentialCount(d)..];
      forall i | EssentialCount(d) <= i < |r|
        ensures r[i].tag == HighTag
      {
        assert r[i] == taken[i - EssentialCount(d)];
      }
    } else {
      EssentialIsFilterOfDimension(d);
      DimensionCounts(d);
      assert r == EssentialQuestions(d);
    }
  }

  /** At `"medium"` the entries after the essentials are the section's first high-tagged entries. */
  lemma MediumTakesFirstHigh(d: AssessmentBank.Dimension)
    ensures EssentialCount(d) <= |SelectForDimension(d, "medium")|
    ensures SelectForDimension(d, "medium")[..EssentialCount(d)] == EssentialQuestions(d)
    ensures SelectForDimension(d, "medium")[EssentialCount(d)..] == Take(Filter(Section(d), IsHigh()), MediumPriorityQuestions)
    ensures forall q :: q in SelectForDimension(d, "medium")[EssentialCount(d)..] ==> q.tag == HighTag
  {
    var dimensionQuestions := QuestionsByDimension(d);
    var essential := Filter(dimensionQuestions, IsEssential());
    var taken := Take(Filter(dimensionQuestions, IsHigh()), MediumPriorityQuestions);
    DimensionCounts(d);
    EssentialIsFilterOfDimension(d);
    assert SelectForDimension(d, "medium") == essential + taken;
    assert (essential + taken)[..|essential|] == essential;
    assert (essential + taken)[|essential|..] == taken;
    FilterMembers(dimensionQuestions, IsHigh());
    QuestionsByDimensionIsSection(d);
  }

  /** Entries of the bank that differ somewhere differ in their ids. */
  lemma BankEntriesDiffer(x: OutputQuestion, y: OutputQuestion)
    requires x in Questions && y in Questions && x != y
    ensures x.id != y.id
  {
    if x.id == y.id {
      IdDeterminesEntry(x, y);
    }
  }

  /** A dimension's selection never repeats an id, at any level. */
  lemma SelectionHasNoDuplicates(d: AssessmentBank.Dimension, level: string)
    ensures NoDuplicateIds(SelectForDimension(d, level))
  {
    var r := SelectForDimension(d, level);
    var dimensionQuestions := QuestionsByDimension(d);
    BankIdsDistinct();
    assert Pairwise(Questions, DifferentIds());
    FilterKeepsPairwise(Questions, OfDimension(d), DifferentIds());
    FilterKeepsPairwise(dimensionQuestions, IsEssential(), DifferentIds());
    FilterKeepsPairwise(dimensionQuestions, IsHigh(), DifferentIds());
    if level == "medium" {
      var essential := Filter(dimensionQuestions, IsEssential());
      var taken := Take(Filter(dimensionQuestions, IsHigh()), MediumPriorityQuestions);
      assert r == essential + taken;
      QuestionsByDimensionInBank(d);
      FilterMembers(dimensionQuestions, IsEssential());
      FilterMembers(dimensionQuestions, IsHigh());
      SelectionInBank(d, level);
      forall i, j | 0 <= i < |essential| && 0 <= j < |taken|
        ensures essential[i].id != taken[j].id
      {
        BankEntriesDiffer(essential[i], taken[j]);
      }
      ConcatPairwise(essential, taken, DifferentIds());
    }
  }

  /**
   * The sort position of dimension `d` under `profile`: its priority's rank, with the
   * dimension's place in the fixed list family, career, finances, lifestyle, values
   * breaking ties. Intimacy, which the profile does not rate, sorts after all of them.
   */
  function SortKey(profile: Profile, d: AssessmentBank.Dimension): int {
    if d == AssessmentBank.Intimacy then 15 else 5 * Rank(profile.Get(d)) + SectionIndex(d)
  }

  /** "Is rated `p` in `profile`". */
  function HasPriority(profile: Profile, p: Priority): ScoredDimension -> bool {
    (d: ScoredDimension) => profile.Get(d) == p
  }

  /**
   * The five rated dimensions ordered by priority (the stable `sort` in
   * `selectQuestionsByProfile`): the high ones, then the medium ones, then the
   * flexible ones, each group in list order.
   */
  function SortedDimensions(profile: Profile): seq<ScoredDimension> {
    Filter(ScoredDimensions, HasPriority(profile, High))
      + Filter(ScoredDimensions, HasPriority(profile, Medium))
      + Filter(ScoredDimensions, HasPriority(profile, Flexible))
  }

  /** "Sorts strictly before", for dimensions under `profile`. */
  function KeyBefore(profile: Profile): (ScoredDimension, ScoredDimension) -> bool {
    (a: ScoredDimension, b: ScoredDimension) => SortKey(profile, a) < SortKey(profile, b)
  }

  /** "Comes earlier in the list family, career, finances, lifestyle, values". */
  function ListOrder(): (ScoredDimension, ScoredDimension) -> bool {
    (a: ScoredDimension, b: ScoredDimension) => SectionIndex(a) < SectionIndex(b)
  }

  /** The rated dimensions are listed in that order. */
  lemma ScoredDimensionsInListOrder()
    ensures Pairwise(ScoredDimensions, ListOrder())
  {
    assert forall i :: 0 <= i < |ScoredDimensions| ==> SectionIndex(ScoredDimensions[i]) == i;
  }

  /** The dimensions of one priority, in list order, are strictly ordered by the sort key. */
  lemma PriorityGroupOrdered(profile: Profile, p: Priority)
    ensures Pairwise(Filter(ScoredDimensions, HasPriority(profile, p)), KeyBefore(profile))
    ensures forall i :: 0 <= i < |Filter(ScoredDimensions, HasPriority(profile, p))| ==>
      profile.Get(Filter(ScoredDimensions, HasPriority(profile, p))[i]) == p
  {
    var group := Filter(ScoredDimensions, HasPriority(profile, p));
    assert Pairwise(group, ListOrder()) by {
      ScoredDimensionsInListOrder();
      FilterKeepsPairwise(ScoredDimensions, HasPriority(profile, p), ListOrder());
    }
    assert forall i :: 0 <= i < |group| ==> profile.Get(group[i]) == p by {
      FilterMembers(ScoredDimensions, HasPriority(profile, p));
    }
    forall i, j | 0 <= i < j < |group|
      ensures SortKey(profile, group[i]) < SortKey(profile, group[j])
    {
      assert ListOrder()(group[i], group[j]);
    }
  }

  /** A dimension rated ahead of `q` sorts before every dimension rated `q`. */
  lemma GroupsOrdered(profile: Profile, a: seq<ScoredDimension>, b: seq<ScoredDimension>, q: Priority)
    requires forall i :: 0 <= i < |a| ==> Rank(profile.Get(a[i])) < Rank(q)
    requires forall j :: 0 <= j < |b| ==> profile.Get(b[j]) == q
    ensures forall i, j :: 0 <= i < |a| && 0 <= j < |b| ==> KeyBefore(profile)(a[i], b[j])
  {
    forall i, j | 0 <= i < |a| && 0 <= j < |b|
      ensures SortKey(profile, a[i]) < SortKey(profile, b[j])
    {
      assert SectionIndex(a[i]) < 5;
    }
  }

  /** The three priority groups are ordered by the sort key, and so is their concatenation. */
  lemma SortedDimensionsOrdered(profile: Profile)
    ensures Pairwise(SortedDimensions(profile), KeyBefore(profile))
  {
    var highs := Filter(ScoredDimensions, HasPriority(profile, High));
    var mediums := Filter(ScoredDimensions, HasPriority(profile, Medium));
    var flexibles := Filter(ScoredDimensions, HasPriority(profile, Flexible));
    var front := highs + mediums;
    assert Pairwise(front, KeyBefore(profile)) by {
      PriorityGroupOrdered(profile, High);
      PriorityGroupOrdered(profile, Medium);
      GroupsOrdered(profile, highs, mediums, Medium);
      ConcatPairwise(highs, mediums, KeyBefore(profile));
    }
    assert forall i :: 0 <= i < |front| ==> Rank(profile.Get(front[i])) < Rank(Flexible) by {
      PriorityGroupOrdered(profile, High);
      PriorityGroupOrdered(profile, Medium);
      forall i | 0 <= i < |front|
        ensures Rank(profile.Get(front[i])) < Rank(Flexible)
      {
        if i < |highs| {
          assert front[i] == highs[i];
        } else {
          assert front[i] == mediums[i - |highs|];
        }
      }
    }
    assert Pairwise(front + flexibles, KeyBefore(profile)) by {
      PriorityGroupOrdered(profile, Flexible);
      GroupsOrdered(profile, front, flexibles, Flexible);
      ConcatPairwise(front, flexibles, KeyBefore(profile));
    }
  }

  /** A rated dimension lands in the priority group of its own rating. */
  lemma SortedDimensionsHas(profile: Profile, d: ScoredDimension)
    ensures d in SortedDimensions(profile)
  {
    var p := profile.Get(d);
    FilterMembers(ScoredDimensions, HasPriority(profile, p));
    assert ScoredDimensions[SectionIndex(d)] == d;
    assert d in Filter(ScoredDimensions, HasPriority(profile, p));
  }

  /** Every rated dimension lands in exactly one priority group, so the sort loses and adds nothing. */
  lemma SortedDimensionsComplete(profile: Profile)
    ensures |SortedDimensions(profile)| == |ScoredDimensions|
    ensures forall d: ScoredDimension :: d in SortedDimensions(profile)
  {
    FilterPartitionLength(ScoredDimensions, HasPriority(profile, High), HasPriority(profile, Medium), HasPriority(profile, Flexible));
    forall d: ScoredDimension
      ensures d in SortedDimensions(profile)
    {
      SortedDimensionsHas(profile, d);
    }
  }

  /**
   * The sorted dimensions are the five rated dimensions, each exactly once, in
   * nondecreasing priority rank, with dimensions of equal priority in list order
   * (the sort is stable).
   */
  lemma SortedDimensionsIsStableSort(profile: Profile)
    ensures |SortedDimensions(profile)| == |ScoredDimensions|
    ensures forall d: ScoredDimension :: d in SortedDimensions(profile)
    ensures forall i, j :: 0 <= i < j < |SortedDimensions(profile)| ==>
      var a, b := SortedDimensions(profile)[i], SortedDimensions(profile)[j];
      Rank(profile.Get(a)) < Rank(profile.Get(b)) || (profile.Get(a) == profile.Get(b) && SectionIndex(a) < SectionIndex(b))
  {
    SortedDimensionsComplete(profile);
    SortedDimensionsOrdered(profile);
    KeyBeforeIsStable(profile, SortedDimensions(profile));
  }

  /** Dimensions strictly ordered by the sort key are ordered by rank, and by list position within a rank. */
  lemma KeyBeforeIsStable(profile: Profile, dims: seq<ScoredDimension>)
    requires Pairwise(dims, KeyBefore(profile))
    ensures forall i, j :: 0 <= i < j < |dims| ==>
      Rank(profile.Get(dims[i])) < Rank(profile.Get(dims[j]))
      || (profile.Get(dims[i]) == profile.Get(dims[j]) && SectionIndex(dims[i]) < SectionIndex(dims[j]))
  {
    forall i, j | 0 <= i < j < |dims|
      ensures Rank(profile.Get(dims[i])) < Rank(profile.Get(dims[j]))
        || (profile.Get(dims[i]) == profile.Get(dims[j]) && SectionIndex(dims[i]) < SectionIndex(dims[j]))
    {
      assert KeyBefore(profile)(dims[i], dims[j]);
      assert SectionIndex(dims[i]) < 5 && SectionIndex(dims[j]) < 5;
    }
  }

  /** The questions of `dims`, dimension after dimension, each at the profile's level (the loop of `selectQuestionsByProfile`). */
  function Gather(dims: seq<ScoredDimension>, profile: Profile): seq<OutputQuestion> {
    if |dims| == 0 then []
    else
      var last := dims[|dims| - 1];
      Gather(dims[..|dims| - 1], profile) + SelectForDimension(last, PriorityName(profile.Get(last)))
  }

  /** The index of the first question with id `id` in `qs`, or -1 (`findIndex`). */
  function FindIndex(qs: seq<OutputQuestion>, id: string): (k: int)
    ensures -1 <= k < |qs|
    ensures 0 <= k ==> qs[k].id == id
    ensures forall j :: 0 <= j < |qs| && (k == -1 || j < k) ==> qs[j].id != id
  {
    if |qs| == 0 then -1
    else if qs[0].id == id then 0
    else
      var k := FindIndex(qs[1..], id);
      if k == -1 then -1 else k + 1
  }

  /** The questions of `qs` from index `i` on that are the first with their id. */
  function DedupFrom(qs: seq<OutputQuestion>, i: nat): seq<OutputQuestion>
    requires i <= |qs|
    decreases |qs| - i
  {
    if i == |qs| then []
    else (if FindIndex(qs, qs[i].id) == i then [qs[i]] else []) + DedupFrom(qs, i + 1)
  }

  /** `qs` keeping only the first question with each id (the `filter`/`findIndex` de-duplication). */
  function Dedup(qs: seq<OutputQuestion>): seq<OutputQuestion> {
    DedupFrom(qs, 0)
  }

  /** Every question kept from index `i` on is the first in `qs` with its id, at or after `i`. */
  lemma {:induction false} DedupFromOrigins(qs: seq<OutputQuestion>, i: nat)
    requires i <= |qs|
    ensures forall m :: 0 <= m < |DedupFrom(qs, i)| ==>
      var k := FindIndex(qs, DedupFrom(qs, i)[m].id); i <= k && qs[k] == DedupFrom(qs, i)[m]
    decreases |qs| - i
  {
    if i < |qs| {
      DedupFromOrigins(qs, i + 1);
      if FindIndex(qs, qs[i].id) == i {
        assert DedupFrom(qs, i) == [qs[i]] + DedupFrom(qs, i + 1);
      } else {
        assert DedupFrom(qs, i) == DedupFrom(qs, i + 1);
      }
    }
  }

  /** The questions kept from index `i` on have distinct ids. */
  lemma {:induction false} DedupFromDistinct(qs: seq<OutputQuestion>, i: nat)
    requires i <= |qs|
    ensures NoDuplicateIds(DedupFrom(qs, i))
    decreases |qs| - i
  {
    if i < |qs| {
      DedupFromDistinct(qs, i + 1);
      var rest := DedupFrom(qs, i + 1);
      if FindIndex(qs, qs[i].id) == i {
        assert DedupFrom(qs, i) == [qs[i]] + rest;
        DedupFromOrigins(qs, i + 1);
        forall j | 0 <= j < |rest|
          ensures qs[i].id != rest[j].id
        {
          assert FindIndex(qs, rest[j].id) > i;
        }
        ConcatPairwise([qs[i]], rest, DifferentIds());
      } else {
        assert DedupFrom(qs, i) == rest;
      }
    }
  }

  /** Every question from index `i` on that is the first with its id is kept. */
  lemma {:induction false} DedupFromKeepsFirsts(qs: seq<OutputQuestion>, i: nat)
    requires i <= |qs|
    ensures forall k :: i <= k < |qs| && FindIndex(qs, qs[k].id) == k ==> qs[k] in DedupFrom(qs, i)
    decreases |qs| - i
  {
    if i < |qs| {
      DedupFromKeepsFirsts(qs, i + 1);
      var rest := DedupFrom(qs, i + 1);
      var head := if FindIndex(qs, qs[i].id) == i then [qs[i]] else [];
      assert DedupFrom(qs, i) == head + rest;
      forall k | i <= k < |qs| && FindIndex(qs, qs[k].id) == k
        ensures qs[k] in head + rest
      {
        if k == i {
          assert qs[k] in head;
        } else {
          assert qs[k] in rest;
        }
      }
    }
  }

  /**
   * De-duplication keeps, for every id in `qs`, exactly its first question: the result
   * has no repeated id, holds only questions of `qs`, and holds the first occurrence of
   * each id of `qs`.
   */
  lemma DedupKeepsFirstOccurrences(qs: seq<OutputQuestion>)
    ensures NoDuplicateIds(Dedup(qs))
    ensures forall q :: q in Dedup(qs) ==> q in qs
    ensures forall j :: 0 <= j < |qs| ==> 0 <= FindIndex(qs, qs[j].id) && qs[FindIndex(qs, qs[j].id)] in Dedup(qs)
  {
    DedupFromOrigins(qs, 0);
    DedupFromDistinct(qs, 0);
    DedupFromKeepsFirsts(qs, 0);
    forall q | q in Dedup(qs)
      ensures q in qs
    {
      var m :| 0 <= m < |Dedup(qs)| && Dedup(qs)[m] == q;
    }
    forall j | 0 <= j < |qs|
      ensures 0 <= FindIndex(qs, qs[j].id) && qs[FindIndex(qs, qs[j].id)] in Dedup(qs)
    {
      var k := FindIndex(qs, qs[j].id);
    }
  }

  lemma {:induction false} DedupFromUnique(qs: seq<OutputQuestion>, i: nat)
    requires i <= |qs|
    requires NoDuplicateIds(qs)
    ensures DedupFrom(qs, i) == qs[i..]
    decreases |qs| - i
  {
    if i < |qs| {
      DedupFromUnique(qs, i + 1);
      assert qs[i..] == [qs[i]] + qs[i + 1..];
    }
  }

  /** De-duplicating a sequence that repeats no id changes nothing. */
  lemma DedupOfUnique(qs: seq<OutputQuestion>)
    requires NoDuplicateIds(qs)
    ensures Dedup(qs) == qs
  {
    DedupFromUnique(qs, 0);
  }

  /** The selection for a profile (`selectQuestionsByProfile`). */
  function SelectQuestionsByProfile(profile: Profile): seq<OutputQuestion> {
    Dedup(Gather(SortedDimensions(profile), profile))
  }

  /** "Comes no later in the profile's dimension order", for questions. */
  function KeyOrder(profile: Profile): (OutputQuestion, OutputQuestion) -> bool {
    (x: OutputQuestion, y: OutputQuestion) => SortKey(profile, x.dimension) <= SortKey(profile, y.dimension)
  }

  /**
   * Gathering strictly ordered dimensions yields bank entries of those dimensions, with
   * no repeated id, grouped dimension by dimension in the same order.
   */
  lemma {:induction false} GatherFacts(dims: seq<ScoredDimension>, profile: Profile)
    requires Pairwise(dims, KeyBefore(profile))
    ensures forall i :: 0 <= i < |Gather(dims, profile)| ==>
      Gather(dims, profile)[i] in Questions && Gather(dims, profile)[i].dimension in dims
    ensures NoDuplicateIds(Gather(dims, profile))
    ensures Pairwise(Gather(dims, profile), KeyOrder(profile))
  {
    if |dims| > 0 {
      var init, last := dims[..|dims| - 1], dims[|dims| - 1];
      assert Pairwise(init, KeyBefore(profile));
      GatherFacts(init, profile);
      var front := Gather(init, profile);
      var sel := SelectForDimension(last, PriorityName(profile.Get(last)));
      assert Gather(dims, profile) == front + sel;
      SelectionHasNoDuplicates(last, PriorityName(profile.Get(last)));
      SelectionInBank(last, PriorityName(profile.Get(last)));
      forall i, j | 0 <= i < |front| && 0 <= j < |sel|
        ensures front[i].id != sel[j].id && KeyOrder(profile)(front[i], sel[j])
      {
        var k :| 0 <= k < |init| && init[k] == front[i].dimension;
        assert KeyBefore(profile)(dims[k], dims[|dims| - 1]);
        BankEntriesDiffer(front[i], sel[j]);
      }
      ConcatPairwise(front, sel, DifferentIds());
      ConcatPairwise(front, sel, KeyOrder(profile));
    }
  }

  /** The last of strictly ordered dimensions does not occur before it. */
  lemma LastNotEarlier(dims: seq<ScoredDimension>, profile: Profile)
    requires |dims| > 0 && Pairwise(dims, KeyBefore(profile))
    ensures dims[|dims| - 1] !in dims[..|dims| - 1]
  {
    forall k | 0 <= k < |dims| - 1
      ensures dims[k] != dims[|dims| - 1]
    {
      assert KeyBefore(profile)(dims[k], dims[|dims| - 1]);
    }
  }

  /** Gathering strictly ordered dimensions and then keeping one dimension's questions yields that dimension's selection. */
  lemma {:induction false} GatherFilter(dims: seq<ScoredDimension>, profile: Profile, d: ScoredDimension)
    requires Pairwise(dims, KeyBefore(profile))
    ensures Filter(Gather(dims, profile), OfDimension(d)) ==
      if d in dims then SelectForDimension(d, PriorityName(profile.Get(d))) else []
  {
    if |dims| > 0 {
      var init, last := dims[..|dims| - 1], dims[|dims| - 1];
      assert Pairwise(init, KeyBefore(profile));
      assert dims == init + [last];
      GatherFilter(init, profile, d);
      var sel := SelectForDimension(last, PriorityName(profile.Get(last)));
      assert Gather(dims, profile) == Gather(init, profile) + sel;
      FilterConcat(Gather(init, profile), sel, OfDimension(d));
      if last == d {
        FilterAll(sel, OfDimension(d));
        LastNotEarlier(dims, profile);
      } else {
        FilterNone(sel, OfDimension(d));
      }
    }
  }

  /** Gathering rated dimensions yields no intimacy question. */
  lemma GatherHasNoIntimacy(dims: seq<ScoredDimension>, profile: Profile)
    requires Pairwise(dims, KeyBefore(profile))
    ensures Filter(Gather(dims, profile), OfDimension(AssessmentBank.Intimacy)) == []
  {
    GatherFacts(dims, profile);
    var g := Gather(dims, profile);
    forall i | 0 <= i < |g|
      ensures g[i].dimension != AssessmentBank.Intimacy
    {
      var k :| 0 <= k < |dims| && dims[k] == g[i].dimension;
    }
    FilterNone(g, OfDimension(AssessmentBank.Intimacy));
  }

  /**
   * The selection for a profile is the dimensions' selections laid end to end in
   * sorted order; de-duplication never removes anything, because the bank repeats no id.
   */
  lemma SelectionIsGathered(profile: Profile)
    ensures SelectQuestionsByProfile(profile) == Gather(SortedDimensions(profile), profile)
    ensures NoDuplicateIds(SelectQuestionsByProfile(profile))
  {
    SortedDimensionsOrdered(profile);
    GatherFacts(SortedDimensions(profile), profile);
    DedupOfUnique(Gather(SortedDimensions(profile), profile));
  }

  /**
   * Keeping one dimension's questions of a profile's selection gives exactly that
   * dimension's selection at the profile's level for it, in bank order; there are no
   * intimacy questions.
   */
  lemma SelectionPerDimension(profile: Profile, d: ScoredDimension)
    ensures Filter(SelectQuestionsByProfile(profile), OfDimension(d)) == SelectForDimension(d, PriorityName(profile.Get(d)))
    ensures Filter(SelectQuestionsByProfile(profile), OfDimension(AssessmentBank.Intimacy)) == []
  {
    SelectionIsGathered(profile);
    SortedDimensionsOrdered(profile);
    SortedDimensionsComplete(profile);
    GatherFilter(SortedDimensions(profile), profile, d);
    GatherHasNoIntimacy(SortedDimensions(profile), profile);
  }

  /**
   * Questions of a higher-priority dimension come before those of a lower-priority one,
   * and among equal priorities the dimension order family, career, finances,
   * lifestyle, values is kept.
   */
  lemma SelectionOrdered(profile: Profile)
    ensures forall i, j ::
      (0 <= i < |SelectQuestionsByProfile(profile)| && 0 <= j < |SelectQuestionsByProfile(profile)|
       && RatedBefore(profile, SelectQuestionsByProfile(profile)[i].dimension, SelectQuestionsByProfile(profile)[j].dimension)
       ==> i < j)
  {
    var qs := SelectQuestionsByProfile(profile);
    assert Pairwise(qs, KeyOrder(profile)) by {
      SelectionIsGathered(profile);
      SortedDimensionsOrdered(profile);
      GatherFacts(SortedDimensions(profile), profile);
    }
    KeyOrderedPositions(profile, qs);
  }

  /** In questions ordered by dimension sort key, a question of a dimension rated before another's comes first. */
  lemma KeyOrderedPositions(profile: Profile, qs: seq<OutputQuestion>)
    requires Pairwise(qs, KeyOrder(profile))
    ensures forall i, j :: 0 <= i < |qs| && 0 <= j < |qs| && RatedBefore(profile, qs[i].dimension, qs[j].dimension) ==> i < j
  {
    forall x, y | 0 <= y <= x < |qs|
      ensures SortKey(profile, qs[y].dimension) <= SortKey(profile, qs[x].dimension)
    {
      if y < x {
        assert KeyOrder(profile)(qs[y], qs[x]);
      }
    }
    forall i, j | 0 <= i < |qs| && 0 <= j < |qs| && RatedBefore(profile, qs[i].dimension, qs[j].dimension)
      ensures i < j
    {
      assert SectionIndex(qs[i].dimension) < 5 && SectionIndex(qs[j].dimension) < 5;
    }
  }

  /**
   * `a` is shown before `b` under `profile`: both are rated, and `a` has the higher
   * priority, or the same priority and an earlier place in the list.
   */
  predicate RatedBefore(profile: Profile, a: AssessmentBank.Dimension, b: AssessmentBank.Dimension) {
    a != AssessmentBank.Intimacy && b != AssessmentBank.Intimacy
    && (Rank(profile.Get(a)) < Rank(profile.Get(b)) || (profile.Get(a) == profile.Get(b) && SectionIndex(a) < SectionIndex(b)))
  }

  /** The number of questions a profile selects, from the bank's per-dimension counts. */
  function ProfileSelectedCount(profile: Profile): nat {
    SelectedCount(AssessmentBank.Family, PriorityName(profile.family))
      + SelectedCount(AssessmentBank.Career, PriorityName(profile.career))
      + SelectedCount(AssessmentBank.Finances, PriorityName(profile.finances))
      + SelectedCount(AssessmentBank.Lifestyle, PriorityName(profile.lifestyle))
      + SelectedCount(AssessmentBank.Values, PriorityName(profile.values))
  }

  /** Every question belongs to exactly one of the six dimensions. */
  lemma {:induction false} DimensionPartitionLength(qs: seq<OutputQuestion>)
    ensures |qs| ==
      |Filter(qs, OfDimension(AssessmentBank.Family))| + |Filter(qs, OfDimension(AssessmentBank.Career))|
      + |Filter(qs, OfDimension(AssessmentBank.Finances))| + |Filter(qs, OfDimension(AssessmentBank.Lifestyle))|
      + |Filter(qs, OfDimension(AssessmentBank.Values))| + |Filter(qs, OfDimension(AssessmentBank.Intimacy))|
  {
    if |qs| > 0 {
      DimensionPartitionLength(qs[1..]);
    }
  }

  /** A dimension contributes at least its essential entries and at most all its entries. */
  lemma SelectedCountBounds(d: AssessmentBank.Dimension, level: string)
    ensures EssentialCount(d) <= SelectedCount(d, level) <= EssentialCount(d) + HighCount(d)
  {
  }

  /** A profile selects as many questions as its dimensions' levels give. */
  lemma SelectionLengthIsProfileCount(profile: Profile)
    ensures |SelectQuestionsByProfile(profile)| == ProfileSelectedCount(profile)
  {
    var r := SelectQuestionsByProfile(profile);
    DimensionPartitionLength(r);
    SelectionDimensionLength(profile, AssessmentBank.Family);
    SelectionDimensionLength(profile, AssessmentBank.Career);
    SelectionDimensionLength(profile, AssessmentBank.Finances);
    SelectionDimensionLength(profile, AssessmentBank.Lifestyle);
    SelectionDimensionLength(profile, AssessmentBank.Values);
    SelectionPerDimension(profile, AssessmentBank.Family);
  }

  /**
   * A profile selects between 11 questions (all flexible: only the essential entries)
   * and 28 (all high: the whole bank).
   */
  lemma SelectionLengthBounds(profile: Profile)
    ensures |SelectQuestionsByProfile(profile)| == ProfileSelectedCount(profile)
    ensures 11 <= |SelectQuestionsByProfile(profile)| <= 28
  {
    SelectionLengthIsProfileCount(profile);
    SelectedCountBounds(AssessmentBank.Family, PriorityName(profile.family));
    SelectedCountBounds(AssessmentBank.Career, PriorityName(profile.career));
    SelectedCountBounds(AssessmentBank.Finances, PriorityName(profile.finances));
    SelectedCountBounds(AssessmentBank.Lifestyle, PriorityName(profile.lifestyle));
    SelectedCountBounds(AssessmentBank.Values, PriorityName(profile.values));
  }

  /** The number of a profile's questions in dimension `d` is the count for `d` at its level. */
  lemma SelectionDimensionLength(profile: Profile, d: ScoredDimension)
    ensures |Filter(SelectQuestionsByProfile(profile), OfDimension(d))| == SelectedCount(d, PriorityName(profile.Get(d)))
  {
    SelectionPerDimension(profile, d);
    SelectionLength(d, PriorityName(profile.Get(d)));
  }

  /** A uniform profile keeps the five dimensions in list order. */
  lemma UniformSortsInListOrder(p: Priority)
    ensures SortedDimensions(Uniform(p)) == ScoredDimensions
  {
    var profile := Uniform(p);
    FilterAll(ScoredDimensions, HasPriority(profile, p));
    match p
    case High =>
      FilterNone(ScoredDimensions, HasPriority(profile, Medium));
      FilterNone(ScoredDimensions, HasPriority(profile, Flexible));
    case Medium =>
      FilterNone(ScoredDimensions, HasPriority(profile, High));
      FilterNone(ScoredDimensions, HasPriority(profile, Flexible));
    case Flexible =>
      FilterNone(ScoredDimensions, HasPriority(profile, High));
      FilterNone(ScoredDimensions, HasPriority(profile, Medium));
  }

  /** Gathering five dimensions selects each of them at the profile's level for it, in the given order. */
  lemma GatherFive(a: ScoredDimension, b: ScoredDimension, c: ScoredDimension, d: ScoredDimension, e: ScoredDimension, profile: Profile)
    ensures Gather([a, b, c, d, e], profile) ==
      SelectForDimension(a, PriorityName(profile.Get(a))) + SelectForDimension(b, PriorityName(profile.Get(b)))
      + SelectForDimension(c, PriorityName(profile.Get(c))) + SelectForDimension(d, PriorityName(profile.Get(d)))
      + SelectForDimension(e, PriorityName(profile.Get(e)))
  {
    var dims := [a, b, c, d, e];
    assert Gather([a], profile) == SelectForDimension(a, PriorityName(profile.Get(a))) by {
      assert [a][..0] == [];
    }
    assert Gather([a, b], profile) == Gather([a], profile) + SelectForDimension(b, PriorityName(profile.Get(b))) by {
      assert [a, b][..1] == [a];
    }
    assert Gather([a, b, c], profile) == Gather([a, b], profile) + SelectForDimension(c, PriorityName(profile.Get(c))) by {
      assert [a, b, c][..2] == [a, b];
    }
    assert Gather([a, b, c, d], profile) == Gather([a, b, c], profile) + SelectForDimension(d, PriorityName(profile.Get(d))) by {
      assert [a, b, c, d][..3] == [a, b, c];
    }
    assert dims[..4] == [a, b, c, d];
  }

  /** Gathering the five dimensions under a uniform profile selects each at the same level, in list order. */
  lemma GatherUniform(p: Priority)
    ensures Gather(ScoredDimensions, Uniform(p)) ==
      SelectForDimension(AssessmentBank.Family, PriorityName(p)) + SelectForDimension(AssessmentBank.Career, PriorityName(p))
      + SelectForDimension(AssessmentBank.Finances, PriorityName(p)) + SelectForDimension(AssessmentBank.Lifestyle, PriorityName(p))
      + SelectForDimension(AssessmentBank.Values, PriorityName(p))
  {
    var profile := Uniform(p);
    assert ScoredDimensions == [AssessmentBank.Family, AssessmentBank.Career, AssessmentBank.Finances, AssessmentBank.Lifestyle, AssessmentBank.Values];
    assert forall d: ScoredDimension :: profile.Get(d) == p;
    GatherFive(AssessmentBank.Family, AssessmentBank.Career, AssessmentBank.Finances, AssessmentBank.Lifestyle, AssessmentBank.Values, profile);
  }

  /** Under a uniform profile the selection is the five dimensions' selections at that level, in list order. */
  lemma UniformSelection(p: Priority)
    ensures SelectQuestionsByProfile(Uniform(p)) ==
      SelectForDimension(AssessmentBank.Family, PriorityName(p)) + SelectForDimension(AssessmentBank.Career, PriorityName(p))
      + SelectForDimension(AssessmentBank.Finances, PriorityName(p)) + SelectForDimension(AssessmentBank.Lifestyle, PriorityName(p))
      + SelectForDimension(AssessmentBank.Values, PriorityName(p))
  {
    SelectionIsGathered(Uniform(p));
    UniformSortsInListOrder(p);
    GatherUniform(p);
  }

  /** Under an all-high profile each dimension contributes its whole section. */
  lemma UniformHighIsSections()
    ensures SelectQuestionsByProfile(Uniform(High)) == Section(AssessmentBank.Family) + Section(AssessmentBank.Career)
      + Section(AssessmentBank.Finances) + Section(AssessmentBank.Lifestyle) + Section(AssessmentBank.Values)
  {
    UniformSelection(High);
    SelectionAtHigh(AssessmentBank.Family);
    SelectionAtHigh(AssessmentBank.Career);
    SelectionAtHigh(AssessmentBank.Finances);
    SelectionAtHigh(AssessmentBank.Lifestyle);
    SelectionAtHigh(AssessmentBank.Values);
  }

  /** A profile that rates every dimension high sees the whole bank, in bank order. */
  lemma AllHighSelectsWholeBank()
    ensures SelectQuestionsByProfile(Uniform(High)) == Questions
    ensures |SelectQuestionsByProfile(Uniform(High))| == 28
  {
    UniformHighIsSections();
    QuestionsAreSections();
    assert |Questions| == TotalOutputQuestions();
  }

  /** At any level but `"high"` and `"medium"`, a dimension's selection is exactly its essential entries. */
  lemma SelectionIsEssentials(d: AssessmentBank.Dimension, level: string)
    requires level != "high" && level != "medium"
    ensures SelectForDimension(d, level) == EssentialQuestions(d)
  {
    SelectionBelowHigh(d, level);
    SelectionLength(d, level);
    assert SelectForDimension(d, level) == SelectForDimension(d, level)[..EssentialCount(d)];
  }

  /** The essential entries of the five profiled dimensions, in list order. */
  function AllEssentials(): seq<OutputQuestion> {
    EssentialQuestions(AssessmentBank.Family) + EssentialQuestions(AssessmentBank.Career)
    + EssentialQuestions(AssessmentBank.Finances) + EssentialQuestions(AssessmentBank.Lifestyle)
    + EssentialQuestions(AssessmentBank.Values)
  }

  /** There are eleven essential entries. */
  lemma AllEssentialsCount()
    ensures |AllEssentials()| == 11
  {
    assert |EssentialQuestions(AssessmentBank.Family)| == 2 by { DimensionCounts(AssessmentBank.Family); }
    assert |EssentialQuestions(AssessmentBank.Career)| == 2 by { DimensionCounts(AssessmentBank.Career); }
    assert |EssentialQuestions(AssessmentBank.Finances)| == 2 by { DimensionCounts(AssessmentBank.Finances); }
    assert |EssentialQuestions(AssessmentBank.Lifestyle)| == 2 by { DimensionCounts(AssessmentBank.Lifestyle); }
    assert |EssentialQuestions(AssessmentBank.Values)| == 3 by { DimensionCounts(AssessmentBank.Values); }
  }

  /** At the flexible level each of the five dimensions contributes exactly its essential entries. */
  lemma FlexibleBlocksAreEssentials()
    ensures SelectForDimension(AssessmentBank.Family, "flexible") + SelectForDimension(AssessmentBank.Career, "flexible")
      + SelectForDimension(AssessmentBank.Finances, "flexible") + SelectForDimension(AssessmentBank.Lifestyle, "flexible")
      + SelectForDimension(AssessmentBank.Values, "flexible") == AllEssentials()
  {
    SelectionIsEssentials(AssessmentBank.Family, "flexible");
    SelectionIsEssentials(AssessmentBank.Career, "flexible");
    SelectionIsEssentials(AssessmentBank.Finances, "flexible");
    SelectionIsEssentials(AssessmentBank.Lifestyle, "flexible");
    SelectionIsEssentials(AssessmentBank.Values, "flexible");
  }

  /** A profile that rates every dimension flexible sees only the eleven essential entries, dimension by dimension. */
  lemma AllFlexibleSelectsEssentials()
    ensures SelectQuestionsByProfile(Uniform(Flexible)) == AllEssentials()
    ensures |SelectQuestionsByProfile(Uniform(Flexible))| == 11
  {
    UniformSelection(Flexible);
    FlexibleBlocksAreEssentials();
    AllEssentialsCount();
  }

  /** The questions visible for free: the first seven, or all when fewer (`getFreeQuestions`). */
  function FreeQuestions(qs: seq<OutputQuestion>): seq<OutputQuestion> {
    Take(qs, FreeQuestionCount)
  }

  /** The questions behind the premium unlock: all after the seventh (`getLockedQuestions`). */
  function LockedQuestions(qs: seq<OutputQuestion>): seq<OutputQuestion> {
    Drop(qs, FreeQuestionCount)
  }

  /** Whether the question at a position is behind the premium unlock (`isQuestionLocked`). */
  function IsQuestionLocked(index: int): bool {
    index >= FreeQuestionCount
  }

  /**
   * The free and locked questions split a list in two without loss or reordering; at
   * most seven are free; and a position is locked exactly when its question falls in
   * the locked part.
   */
  lemma FreeAndLockedPartition(qs: seq<OutputQuestion>)
    ensures FreeQuestions(qs) + LockedQuestions(qs) == qs
    ensures |FreeQuestions(qs)| <= FreeQuestionCount
    ensures forall i :: 0 <= i < |qs| ==>
      if IsQuestionLocked(i) then LockedQuestions(qs)[i - FreeQuestionCount] == qs[i]
      else i < |FreeQuestions(qs)| && FreeQuestions(qs)[i] == qs[i]
  {
    TakeDropSplit(qs, FreeQuestionCount);
    var free, locked := FreeQuestions(qs), LockedQuestions(qs);
    forall i | 0 <= i < |qs|
      ensures if IsQuestionLocked(i) then locked[i - FreeQuestionCount] == qs[i] else i < |free| && free[i] == qs[i]
    {
      if IsQuestionLocked(i) {
        assert locked[i - FreeQuestionCount] == qs[FreeQuestionCount + (i - FreeQuestionCount)];
      }
    }
  }

  /** Every profile selects more than seven questions, so exactly seven are free and at least four are locked. */
  lemma SelectionAlwaysHasLockedQuestions(profile: Profile)
    ensures |FreeQuestions(SelectQuestionsByProfile(profile))| == FreeQuestionCount
    ensures |LockedQuestions(SelectQuestionsByProfile(profile))| == |SelectQuestionsByProfile(profile)| - FreeQuestionCount >= 4
  {
    SelectionLengthBounds(profile);
  }
}
