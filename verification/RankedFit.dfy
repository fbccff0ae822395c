/** Ranking sorts on scores rounded to twelve places and the composer drops on the exact
    ones, so the memories kept need not be the top of the ranking. When they are,
    exactly. */
module RankedFit {
  import Memories
  import opened Common
  import opened Ordering
  import opened Ranking
  import opened Rendering
  import opened Fitting
  import opened Composer

  /** Memories whose scores round alike stand in the order of their exact scores. */
  predicate TiesInOrder(items: seq<Ranked>) {
    forall i, j :: 0 <= i < j < |items| && Round12(items[i].score) == Round12(items[j].score) ==>
      items[j].score <= items[i].score
  }

  /** On a ranked list the order of ranking and that of dropping agree exactly when ties are
      in order. */
  lemma DropOrderExactly(items: seq<Ranked>)
    requires InOrder(RankKey(), items)
    ensures InDropOrder(items) <==> TiesInOrder(items)
  {
    forall i, j | 0 <= i < j < |items|
      ensures Worse(items[j], items[i]) <==>
                (Round12(items[i].score) == Round12(items[j].score) ==> items[j].score <= items[i].score)
    {
      assert Ahead(RankKey()(items[i]), RankKey()(items[j]));
      RoundingIsMonotone(items[i].score, items[j].score);
    }
  }

  // ---- counters for which every memory costs something ---------------------------------

  function Cost(count: Counter): Weight {
    (items: seq<Ranked>) => count(Block(items))
  }

  /** The byte length is such a counter. */
  lemma EstimateIsStrict()
    ensures Strict(Cost(EstimateTokens))
  {
    forall items: seq<Ranked>, k: nat | k < |items|
      ensures Cost(EstimateTokens)(Without(items, k)) < Cost(EstimateTokens)(items)
    {
      LessIsLighter(items, k);
    }
  }

  lemma LinesWithout(items: seq<Ranked>, k: nat)
    requires k < |items|
    ensures Lines(Without(items, k)) == Without(Lines(items), k)
  {}

  lemma BlockBytes(items: seq<Ranked>)
    ensures EstimateTokens(Block(items)) ==
              if items == [] then 0 else EstimateTokens(BLOCK_HEADER) + TotalBytes(Lines(items)) + |items|
  {
    if items != [] {
      BlockOfLines(items);
      HeadedBytes(Lines(items));
    }
  }

  lemma LessIsLighter(items: seq<Ranked>, k: nat)
    requires k < |items|
    ensures EstimateTokens(Block(Without(items, k))) < EstimateTokens(Block(items))
  {
    BlockBytes(items);
    BlockBytes(Without(items, k));
    LinesWithout(items, k);
    TotalSplits(Lines(items), k);
  }

  /** Whatever the budget, what is kept is a prefix of the list. */
  ghost predicate KeepsPrefixes(items: seq<Ranked>, count: Counter) {
    forall budget: int :: FitTo(items, Within(budget, count)).selected <= items
  }

  lemma OrderKeepsPrefixes(items: seq<Ranked>, count: Counter)
    requires InDropOrder(items)
    ensures KeepsPrefixes(items, count)
  {
    forall budget: int ensures FitTo(items, Within(budget, count)).selected <= items {
      DropsFromTheEnd(items, Within(budget, count));
    }
  }

  /** Out of order, the budget that some number of memories needs keeps no prefix. */
  lemma DisorderDoesNot(items: seq<Ranked>, count: Counter) returns (budget: nat)
    requires DistinctMemories(items) && !InDropOrder(items) && Strict(Cost(count))
    ensures !(FitTo(items, Within(budget, count)).selected <= items)
  {
    var n := OutOfDropOrder(items);
    budget := Cost(count)(FitTo(items, AtMost(n)).selected);
    RoomForSome(items, n, Cost(count), Within(budget, count), budget);
  }

  /** The exact condition: the composer keeps a prefix of a ranked list under every budget,
      if and only if scores that round alike are in exact order. The condition is enough for
      any counter, and needed for any to which every memory costs something. */
  lemma PrefixExactly(items: seq<Ranked>, count: Counter)
    requires InOrder(RankKey(), items) && DistinctMemories(items)
    ensures TiesInOrder(items) ==> KeepsPrefixes(items, count)
    ensures Strict(Cost(count)) && KeepsPrefixes(items, count) ==> TiesInOrder(items)
  {
    DropOrderExactly(items);
    if InDropOrder(items) {
      OrderKeepsPrefixes(items, count);
    } else if Strict(Cost(count)) {
      var budget := DisorderDoesNot(items, count);
    }
  }

  /** So it is with the byte length. */
  lemma PrefixExactlyInBytes(items: seq<Ranked>)
    requires InOrder(RankKey(), items) && DistinctMemories(items)
    ensures KeepsPrefixes(items, EstimateTokens) <==> TiesInOrder(items)
  {
    EstimateIsStrict();
    PrefixExactly(items, EstimateTokens);
  }

  // ---- ranking followed by fitting -----------------------------------------------------------

  lemma {:induction false} NonBlankRanked(items: seq<Ranked>)
    requires InOrder(RankKey(), items) && DistinctMemories(items)
    ensures InOrder(RankKey(), NonBlank(items)) && DistinctMemories(NonBlank(items))
  {
    NonBlankKeeps(items);
    if items != [] {
      assert forall j :: 0 <= j < |items[1..]| ==> items[1..][j] == items[j + 1];
      NonBlankRanked(items[1..]);
      NonBlankKeeps(items[1..]);
      forall k | 0 <= k < |NonBlank(items[1..])|
        ensures Ahead(RankKey()(items[0]), RankKey()(NonBlank(items[1..])[k]))
      {
        var x := NonBlank(items[1..])[k];
        assert x in NonBlank(items[1..]);
        var j :| 0 <= j < |items[1..]| && items[1..][j] == x;
        assert items[j + 1] == x;
      }
    }
  }

  lemma RankIsRanked(half: real -> real, cs: seq<Retrieved>, limit: nat, now: Memories.Time)
    requires DistinctCandidates(cs)
    ensures InOrder(RankKey(), BestOf(half, cs, limit, now)) && DistinctMemories(BestOf(half, cs, limit, now))
  {
    var all := Map(Scorer(half, now), cs);
    assert DistinctIds(RankKey(), all);
    PrefixInOrder(RankKey(), all, limit);
    SortedDistinct(BestOf(half, cs, limit, now));
  }

  lemma SortedDistinct(items: seq<Ranked>)
    requires DistinctIds(RankKey(), items)
    ensures DistinctMemories(items)
  {
    forall i, j | 0 <= i < j < |items| ensures items[i].candidate.id != items[j].candidate.id {
      assert RankKey()(items[i]).1 != RankKey()(items[j]).1;
    }
  }

  lemma ProfileKeeps(ranked: seq<Ranked>, budget: nat, count: Counter)
    ensures Profile(ranked, budget, count).included == FitTo(NonBlank(ranked), Within(budget, count)).selected
  {}

  /** Composing keeps a prefix of the non-blank part of the ranking, whatever the budget. */
  ghost predicate ComposesPrefixes(ranked: seq<Ranked>, count: Counter) {
    forall budget: nat :: Profile(ranked, budget, count).included <= NonBlank(ranked)
  }

  lemma OrderComposesPrefixes(ranked: seq<Ranked>, count: Counter)
    requires InDropOrder(NonBlank(ranked))
    ensures ComposesPrefixes(ranked, count)
  {
    forall budget: nat ensures Profile(ranked, budget, count).included <= NonBlank(ranked) {
      DropsFromTheEnd(NonBlank(ranked), Within(budget, count));
      ProfileKeeps(ranked, budget, count);
    }
  }

  lemma DisorderComposesOther(ranked: seq<Ranked>, count: Counter)
    requires DistinctMemories(NonBlank(ranked)) && !InDropOrder(NonBlank(ranked)) && Strict(Cost(count))
    ensures !ComposesPrefixes(ranked, count)
  {
    var budget := DisorderDoesNot(NonBlank(ranked), count);
    ProfileKeeps(ranked, budget, count);
  }

  /** So composing raw candidates with the byte length, or with any counter to which every
      memory costs something, keeps the top of their ranking without its blank memories
      under every budget, exactly when scores in it that round alike are in exact order. */
  lemma ComposedPrefixExactly(half: real -> real, cs: seq<Retrieved>, limit: nat, now: Memories.Time, count: Counter)
    requires DistinctCandidates(cs) && (count == EstimateTokens || Strict(Cost(count)))
    ensures var ranked := BestOf(half, cs, limit, now);
            ComposesPrefixes(ranked, count) <==> TiesInOrder(NonBlank(ranked))
  {
    var ranked := BestOf(half, cs, limit, now);
    EstimateIsStrict();
    RankIsRanked(half, cs, limit, now);
    NonBlankRanked(ranked);
    DropOrderExactly(NonBlank(ranked));
    if InDropOrder(NonBlank(ranked)) {
      OrderComposesPrefixes(ranked, count);
    } else {
      DisorderComposesOther(ranked, count);
    }
  }

  // ---- a ranking the composer does not follow --------------------------------------------------

  /** A memory of no importance and without timestamps, found with a given similarity. */
  function Said(id: nat, text: string, similarity: real): Retrieved {
    Retrieved(id, text, similarity, None, None, None, Some(0.0))
  }

  function Found(id: nat, text: string, similarity: real): Ranked {
    Ranked(Said(id, text, similarity), WEIGHT_SEMANTIC * similarity)
  }

  lemma GapRoundsAway(gap: real)
    requires 0.0 <= gap <= 1.0 / PLACES
    ensures Round12(WEIGHT_SEMANTIC * gap) == 0.0
  {
    assert gap * PLACES <= 1.0;
    assert WEIGHT_SEMANTIC * gap * PLACES == WEIGHT_SEMANTIC * (gap * PLACES);
  }

  lemma RankedById(half: real -> real, now: Memories.Time, text: string, gap: real)
    requires 0.0 <= gap <= 1.0 / PLACES
    ensures BestOf(half, [Said(0, text, 0.0), Said(1, text, gap)], 2, now) == [Found(0, text, 0.0), Found(1, text, gap)]
  {
    var cs := [Said(0, text, 0.0), Said(1, text, gap)];
    var low, high := Found(0, text, 0.0), Found(1, text, gap);
    assert Map(Scorer(half, now), cs) == [low, high];
    GapRoundsAway(0.0);
    GapRoundsAway(gap);
    assert [low, high][..1] == [low] && [low][..0] == [];
    assert Sort(RankKey(), [low]) == Insert(RankKey(), low, []) == [low];
    assert [low][1..] == [];
    assert Insert(RankKey(), high, [low]) == [low, high];
  }

  lemma SameText(a: Ranked, b: Ranked)
    requires a.candidate.content == b.candidate.content
    ensures Block([a]) == Block([b])
  {
    assert Contents([a]) == Contents([b]);
  }

  lemma BothStay(a: Ranked, b: Ranked)
    requires Clean(a.candidate.content) != "" && Clean(b.candidate.content) != ""
    ensures NonBlank([a, b]) == [a, b]
  {
    assert [a, b][1..] == [b] && [b][1..] == [];
    assert NonBlank([b]) == [b];
  }

  /** With room for the better of two memories, the other goes, wherever it stands. */
  lemma RoomForOne(low: Ranked, high: Ranked, count: Counter)
    requires Worse(low, high) && Strict(Cost(count)) && NonBlank([low, high]) == [low, high]
    ensures Profile([low, high], count(Block([high])), count).included == [high]
  {
    var items, budget := [low, high], count(Block([high]));
    assert Victim(items) == 0 && Without(items, 0) == [high];
    assert FitTo([high], AtMost(1)) == Fitted([high], []);
    RoomForSome(items, 1, Cost(count), Within(budget, count), budget);
    ProfileKeeps(items, budget, count);
  }

  /** Two memories of the same text whose similarities differ by at most the last place, the
      lower id being the less similar: ranking puts the lower id first, and the composer,
      with as many bytes as either needs, keeps the other. */
  lemma HiddenTieDropsTheFirst(half: real -> real, now: Memories.Time, text: string, gap: real)
    requires 0.0 < gap <= 1.0 / PLACES && Words(text) != []
    ensures var low, high := Found(0, text, 0.0), Found(1, text, gap);
            var ranked := BestOf(half, [low.candidate, high.candidate], 2, now);
            var budget := EstimateTokens(Block([high]));
            && ranked == [low, high]
            && EstimateTokens(Block([low])) <= budget
            && Profile(ranked, budget, EstimateTokens).included == [high]
  {
    RankedById(half, now, text, gap);
    var low, high := Found(0, text, 0.0), Found(1, text, gap);
    SameText(low, high);
    BlankMeansNoWords(text);
    BothStay(low, high);
    EstimateIsStrict();
    RoomForOne(low, high, EstimateTokens);
  }
}
