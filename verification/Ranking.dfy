/** Scoring and ranking retrieved memories (`retrieve/features.py`,
    `retrieve/ranking.py`). `half` stands for `x -> 0.5 ** x`. */
module Ranking {
  import opened Common
  import opened Memories
  import opened Decay
  import opened Ordering

  const WEIGHT_SEMANTIC := 0.35
  const WEIGHT_RECENCY := 0.25
  const WEIGHT_ACTIVATION := 0.10
  const WEIGHT_FREQUENCY := 0.10
  const WEIGHT_IMPORTANCE := 0.20

  const HALF_LIFE_DAYS := 30.0
  const FREQUENCY_REFERENCE := 3.0
  const IMPORTANCE_DEFAULT := 0.5

  /** A merged candidate; metadata a path did not supply is absent. */
  datatype Retrieved = Retrieved(
    id: Id, content: string, score: real, createdAt: Option<Time>, accessedAt: Option<Time>,
    reinforcements: Option<int>, importance: Option<real>)

  datatype Ranked = Ranked(candidate: Retrieved, score: real)

  function Clamp(x: real): (r: real)
    ensures 0.0 <= r <= 1.0 && (0.0 <= x <= 1.0 ==> r == x)
  {
    Max(0.0, Min(1.0, x))
  }

  // ---- the five signals -----------------------------------------------------------------

  function Semantic(c: Retrieved): real {
    Clamp(c.score)
  }

  /** Exponential decay on a timestamp; absent counts as long ago, the future as now. */
  function Fading(half: real -> real, stamp: Option<Time>, now: Time): (r: real)
    ensures 0.0 <= r <= 1.0
    ensures stamp.None? ==> r == 0.0
    ensures stamp.Some? && now <= stamp.value ==> r == 1.0
  {
    if stamp.None? then 0.0
    else
      var age := (now - stamp.value) as real / SECONDS_PER_DAY;
      if age <= 0.0 then 1.0 else Clamp(half(age / HALF_LIFE_DAYS))
  }

  function Recency(half: real -> real, c: Retrieved, now: Time): real {
    Fading(half, c.createdAt, now)
  }

  function Activation(half: real -> real, c: Retrieved, now: Time): real {
    Fading(half, c.accessedAt, now)
  }

  function Frequency(c: Retrieved): (r: real)
    ensures 0.0 <= r <= 1.0
  {
    if c.reinforcements.None? || c.reinforcements.value <= 0 then 0.0
    else
      var n := c.reinforcements.value as real;
      Clamp(n / (n + FREQUENCY_REFERENCE))
  }

  function Importance(c: Retrieved): real {
    Clamp(if c.importance.Some? then c.importance.value else IMPORTANCE_DEFAULT)
  }

  function ScoreCandidate(half: real -> real, c: Retrieved, now: Time): real {
    WEIGHT_SEMANTIC * Semantic(c) + WEIGHT_RECENCY * Recency(half, c, now)
    + WEIGHT_ACTIVATION * Activation(half, c, now)
    + WEIGHT_FREQUENCY * Frequency(c) + WEIGHT_IMPORTANCE * Importance(c)
  }

  /** A total never leaves [0, 1], and reaches 1 only when every signal does. */
  lemma TotalsStayInUnit(half: real -> real, c: Retrieved, now: Time)
    ensures 0.0 <= ScoreCandidate(half, c, now) <= 1.0
    ensures ScoreCandidate(half, c, now) == 1.0 <==>
              Semantic(c) == Recency(half, c, now) == Activation(half, c, now) == Frequency(c) == Importance(c) == 1.0
    ensures ScoreCandidate(half, c, now) == 0.0 <==>
              Semantic(c) == Recency(half, c, now) == Activation(half, c, now) == Frequency(c) == Importance(c) == 0.0
  {}

  lemma FadingFalls(half: real -> real, early: Time, late: Time, now: Time)
    requires HalfLaw(half) && early < late
    ensures Fading(half, Some(early), now) <= Fading(half, Some(late), now)
    ensures early < now ==> Fading(half, Some(early), now) < Fading(half, Some(late), now)
  {
    if early < now {
      var older := (now - early) as real / SECONDS_PER_DAY;
      assert 0.0 < older;
      QuotientGrows(0.0, older, HALF_LIFE_DAYS);
      assert 0.0 < half(older / HALF_LIFE_DAYS) < half(0.0);
      if late < now {
        var young := (now - late) as real / SECONDS_PER_DAY;
        QuotientGrows((now - late) as real, (now - early) as real, SECONDS_PER_DAY);
        QuotientGrows(0.0, young, HALF_LIFE_DAYS);
        QuotientGrows(young, older, HALF_LIFE_DAYS);
      }
    }
  }

  /** Equal on the other three signals, the memory stated later outranks the one merely
      read later whenever its lead in recency exceeds two fifths of the other's lead
      in activation, and only then. */
  lemma StatedBeatsReadExactly(half: real -> real, a: Retrieved, b: Retrieved, now: Time)
    requires Semantic(a) == Semantic(b) && Frequency(a) == Frequency(b) && Importance(a) == Importance(b)
    ensures ScoreCandidate(half, a, now) > ScoreCandidate(half, b, now) <==>
              Recency(half, a, now) - Recency(half, b, now) >
                0.4 * (Activation(half, b, now) - Activation(half, a, now))
  {}

  /** In particular, of two otherwise equal memories with their timestamps exchanged, the
      one stated later wins, however recently the other was read. */
  lemma StatedLaterWins(half: real -> real, a: Retrieved, b: Retrieved, early: Time, late: Time, now: Time)
    requires HalfLaw(half) && early < late && early < now
    requires Semantic(a) == Semantic(b) && Frequency(a) == Frequency(b) && Importance(a) == Importance(b)
    requires a.createdAt == Some(late) && a.accessedAt == Some(early)
    requires b.createdAt == Some(early) && b.accessedAt == Some(late)
    ensures ScoreCandidate(half, a, now) > ScoreCandidate(half, b, now)
  {
    FadingFalls(half, early, late, now);
    StatedBeatsReadExactly(half, a, b, now);
  }

  /** More reinforcement always counts for more, and never for everything. */
  lemma FrequencySaturates(a: Retrieved, b: Retrieved)
    requires a.reinforcements.Some? && b.reinforcements.Some?
    requires 0 <= a.reinforcements.value < b.reinforcements.value
    ensures Frequency(a) < Frequency(b) < 1.0
  {
    var n, m := a.reinforcements.value as real, b.reinforcements.value as real;
    SaturationRises(n, m, FREQUENCY_REFERENCE);
  }

  lemma SaturationRises(n: real, m: real, reference: real)
    requires 0.0 <= n < m && 0.0 < reference
    ensures 0.0 <= n / (n + reference) < m / (m + reference) < 1.0
  {
    Share(n, reference);
    Share(m, reference);
    QuotientShrinks(reference, n + reference, m + reference);
  }

  lemma Share(n: real, reference: real)
    requires 0.0 <= n && 0.0 < reference
    ensures n / (n + reference) == 1.0 - reference / (n + reference)
    ensures 0.0 <= n / (n + reference) < 1.0
  {
    var whole := n + reference;
    assert n / whole + reference / whole == 1.0;
    assert 0.0 <= n / whole;
    assert 0.0 < reference / whole;
  }

  // ---- the rounded sort key --------------------------------------------------------------

  function RoundHalfEven(x: real): int {
    var f := x.Floor;
    if x - f as real < 0.5 || (x - f as real == 0.5 && f % 2 == 0) then f else f + 1
  }

  const PLACES := 1000000000000.0

  /** `round(x, 12)`. */
  function Round12(x: real): real {
    RoundHalfEven(x * PLACES) as real / PLACES
  }

  lemma RoundsToNearest(x: real, y: real)
    ensures x - 0.5 <= RoundHalfEven(x) as real <= x + 0.5
    ensures x <= y ==> RoundHalfEven(x) <= RoundHalfEven(y)
  {}

  /** Rounding keeps order, and hides only differences below the twelfth place. */
  lemma RoundingIsMonotone(x: real, y: real)
    ensures x <= y ==> Round12(x) <= Round12(y)
    ensures Round12(y) <= Round12(x) ==> y <= x + 1.0 / PLACES
  {
    RoundsToNearest(x * PLACES, y * PLACES);
    RoundsToNearest(y * PLACES, y * PLACES);
  }

  function RankKey(): Ranked -> Key {
    (r: Ranked) => (Round12(r.score), r.candidate.id)
  }

  // ---- the node ----------------------------------------------------------------------------

  function Scorer(half: real -> real, now: Time): Retrieved -> Ranked {
    (c: Retrieved) => Ranked(c, ScoreCandidate(half, c, now))
  }

  /** The configured number unless one is given, and none when it is negative. */
  function Limit(topK: Option<int>, configured: int): nat {
    var k := if topK.Some? then topK.value else configured;
    if k < 0 then 0 else k
  }

  /** The first `limit` of the scored candidates in order. */
  function BestOf(half: real -> real, cs: seq<Retrieved>, limit: nat, now: Time): seq<Ranked> {
    Take(Sort(RankKey(), Map(Scorer(half, now), cs)), limit)
  }

  predicate DistinctCandidates(cs: seq<Retrieved>) {
    forall i, j :: 0 <= i < j < |cs| ==> cs[i].id != cs[j].id
  }

  lemma BestOfLength(half: real -> real, cs: seq<Retrieved>, limit: nat, now: Time)
    ensures |BestOf(half, cs, limit, now)| == if |cs| < limit then |cs| else limit
  {
    SortPermutes(RankKey(), Map(Scorer(half, now), cs));
  }

  method Rank(half: real -> real, cs: seq<Retrieved>, topK: Option<int>, configured: int, now: Time)
    returns (selected: seq<Ranked>)
    ensures selected == BestOf(half, cs, Limit(topK, configured), now)
    ensures |selected| == if |cs| < Limit(topK, configured) then |cs| else Limit(topK, configured)
  {
    BestOfLength(half, cs, Limit(topK, configured), now);
    if cs == [] {
      return [];
    }
    var ranked: seq<Ranked> := [];
    for i := 0 to |cs|
      invariant ranked == Map(Scorer(half, now), cs[..i])
    {
      ranked := ranked + [Ranked(cs[i], ScoreCandidate(half, cs[i], now))];
    }
    assert cs[..|cs|] == cs;
    ranked := Sort(RankKey(), ranked);
    var limit := if topK.Some? then topK.value else configured;
    if limit < 0 {
      limit := 0;
    }
    selected := Take(ranked, limit);
  }

  /** The order candidates arrive in makes no difference. */
  lemma RankIgnoresInputOrder(half: real -> real, a: seq<Retrieved>, b: seq<Retrieved>, limit: nat, now: Time)
    requires DistinctCandidates(a) && multiset(a) == multiset(b)
    ensures BestOf(half, a, limit, now) == BestOf(half, b, limit, now)
  {
    var ra, rb := Map(Scorer(half, now), a), Map(Scorer(half, now), b);
    MapReordered(Scorer(half, now), a, b);
    assert DistinctIds(RankKey(), ra);
    DistinctReordered(RankKey(), ra, rb);
    SortIgnoresInputOrder(RankKey(), ra, rb);
  }

  /** What is kept is a permutation's best part: in order, each candidate once with its
      own score, and nothing left out outscores anything kept by more than the rounding. */
  lemma RankKeepsTheBest(half: real -> real, cs: seq<Retrieved>, limit: nat, now: Time, c: Retrieved)
    requires DistinctCandidates(cs) && c in cs
    ensures var kept := BestOf(half, cs, limit, now);
            && InOrder(RankKey(), kept)
            && multiset(kept) <= multiset(Map(Scorer(half, now), cs))
            && (Scorer(half, now)(c) !in kept ==>
                  |kept| == limit && forall r :: r in kept ==>
                    && Ahead(RankKey()(r), RankKey()(Scorer(half, now)(c)))
                    && ScoreCandidate(half, c, now) <= r.score + 1.0 / PLACES)
  {
    var all := Map(Scorer(half, now), cs);
    var mine := Scorer(half, now)(c);
    assert DistinctIds(RankKey(), all);
    var i :| 0 <= i < |cs| && cs[i] == c;
    assert all[i] == mine;
    PrefixLeads(RankKey(), all, limit, mine);
    forall r: Ranked | Ahead(RankKey()(r), RankKey()(mine)) ensures mine.score <= r.score + 1.0 / PLACES {
      RoundingIsMonotone(r.score, mine.score);
    }
  }
}
