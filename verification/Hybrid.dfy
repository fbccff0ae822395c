/** Hybrid retrieval: two paths, each isolated from the other's failure, normalised in
    place and merged by memory (`retrieve/hybrid.py`). */
module Hybrid {
  import opened Memories
  import opened Ordering
  import opened Ranking

  datatype Path = ViaSemantic | ViaKeyword

  const TS_RANK_REFERENCE := 0.0607927

  // ---- scores ---------------------------------------------------------------------------

  /** A raw path score on the fixed 0..1 scale of its path. */
  function Normalized(path: Path, raw: real): (r: real)
    ensures 0.0 <= r <= 1.0
  {
    match path
    case ViaSemantic => Clamp(raw)
    case ViaKeyword => if raw > 0.0 then (Share(raw, TS_RANK_REFERENCE); raw / (raw + TS_RANK_REFERENCE)) else 0.0
  }

  /** The transform one path applies. */
  function Scale(path: Path): real -> real {
    (raw: real) => Normalized(path, raw)
  }

  /** Normalisation never reverses two scores of one path, and separates them unless both
      fall off the same end of the scale: a semantic pair both at or below zero or both
      at or above one, a keyword pair both at or below zero. */
  lemma NormalizedOrderExactly(path: Path, low: real, high: real)
    requires low < high
    ensures Normalized(path, low) <= Normalized(path, high)
    ensures Normalized(path, low) < Normalized(path, high) <==> high > 0.0 && (path.ViaSemantic? ==> low < 1.0)
  {
    if path.ViaKeyword? && low > 0.0 {
      SaturationRises(low, high, TS_RANK_REFERENCE);
    } else if path.ViaKeyword? && high > 0.0 {
      SaturationRises(0.0, high, TS_RANK_REFERENCE);
    }
  }

  /** Two poor semantic matches the normalisation does not tell apart. */
  lemma WeakMatchesTie()
    ensures Normalized(ViaSemantic, -0.5) == Normalized(ViaSemantic, -0.1)
  {}

  /** Did both paths contribute results? */
  predicate BothContribute(semantic: map<Id, real>, keyword: map<Id, real>) {
    semantic != map[] && keyword != map[]
  }

  /** A total over the number of contributing paths, of which there are one or two. */
  function Mean(total: real, both: bool): real {
    if both then total / 2.0 else total
  }

  function Term(scores: map<Id, real>, id: Id): real {
    if id in scores then scores[id] else 0.0
  }

  /** The zero-filled mean over the paths that contributed. */
  function MergedScore(semantic: map<Id, real>, keyword: map<Id, real>, id: Id): real {
    Mean(Term(semantic, id) + Term(keyword, id), BothContribute(semantic, keyword))
  }

  function ByScore(): Key -> Key {
    (k: Key) => k
  }

  /** The merge as a list of score and id: every memory either path found, once, with its
      mean, in order. */
  predicate IsMerge(list: seq<Key>, semantic: map<Id, real>, keyword: map<Id, real>) {
    && InOrder(ByScore(), list)
    && (forall k :: k in list ==> k.1 in semantic.Keys + keyword.Keys && k.0 == MergedScore(semantic, keyword, k.1))
    && (forall id :: id in semantic.Keys + keyword.Keys ==> (MergedScore(semantic, keyword, id), id) in list)
  }

  /** There is one such list, so the order results arrive in within a path is invisible. */
  lemma MergeIsUnique(a: seq<Key>, b: seq<Key>, semantic: map<Id, real>, keyword: map<Id, real>)
    requires IsMerge(a, semantic, keyword) && IsMerge(b, semantic, keyword)
    ensures a == b
  {
    forall k | k in a || k in b ensures k in a && k in b {}
    InOrderOnce(a);
    InOrderOnce(b);
    assert multiset(a) == multiset(b) by {
      forall k ensures multiset(a)[k] == multiset(b)[k] {
        assert k in multiset(a) <==> k in a;
        assert k in multiset(b) <==> k in b;
      }
    }
    OneOrder(ByScore(), a, b);
  }

  lemma {:induction false} InOrderOnce(list: seq<Key>)
    requires InOrder(ByScore(), list)
    ensures forall k :: k in list ==> multiset(list)[k] == 1
  {
    forall k | k in list ensures multiset(list)[k] == 1 {
      var i :| 0 <= i < |list| && list[i] == k;
      assert list == list[..i] + [k] + list[i + 1..];
      assert k !in list[..i] && k !in list[i + 1..];
    }
  }

  predicate InUnit(scores: map<Id, real>) {
    forall id :: id in scores ==> 0.0 <= scores[id] <= 1.0
  }

  /** With one path empty or degraded the other's scores stand as they are. */
  lemma SinglePathKeepsScores(scores: map<Id, real>, id: Id)
    ensures MergedScore(scores, map[], id) == MergedScore(map[], scores, id) == Term(scores, id)
  {}

  lemma MergedScoresStayInUnit(semantic: map<Id, real>, keyword: map<Id, real>, id: Id)
    requires InUnit(semantic) && InUnit(keyword)
    ensures 0.0 <= MergedScore(semantic, keyword, id) <= 1.0
  {
    if semantic == map[] {
      SinglePathKeepsScores(keyword, id);
    } else if keyword == map[] {
      SinglePathKeepsScores(semantic, id);
    }
  }

  lemma MergeIsSymmetric(list: seq<Key>, semantic: map<Id, real>, keyword: map<Id, real>)
    requires IsMerge(list, semantic, keyword)
    ensures IsMerge(list, keyword, semantic)
  {
    assert forall id :: MergedScore(keyword, semantic, id) == MergedScore(semantic, keyword, id);
  }

  lemma AgreementOnFirst(list: seq<Key>, first: map<Id, real>, second: map<Id, real>, both: Id, one: Id, i: nat, j: nat)
    requires IsMerge(list, first, second) && InUnit(second)
    requires both in first && both in second && one in first && one !in second && first[one] <= first[both]
    requires i < |list| && j < |list| && list[i].1 == both && list[j].1 == one
    ensures list[j].0 <= list[i].0
    ensures i < j <==> first[one] < first[both] || 0.0 < second[both] || both < one
  {
    assert list[i] in list && list[j] in list;
    assert BothContribute(first, second);
    assert i < j ==> Ahead(ByScore()(list[i]), ByScore()(list[j]));
    assert j < i ==> Ahead(ByScore()(list[j]), ByScore()(list[i]));
  }

  /** A memory both paths found never scores below one that a single path found, whichever,
      and scored no better, and is listed ahead of it exactly when that path or the other
      tells them apart, or its id comes first. */
  lemma AgreementWins(list: seq<Key>, semantic: map<Id, real>, keyword: map<Id, real>, both: Id, one: Id,
                      i: nat, j: nat)
    requires IsMerge(list, semantic, keyword) && InUnit(semantic) && InUnit(keyword)
    requires both in semantic && both in keyword && (one in semantic <==> one !in keyword)
    requires i < |list| && j < |list| && list[i].1 == both && list[j].1 == one
    ensures var own := if one in semantic then semantic else keyword;
            var other := if one in semantic then keyword else semantic;
            own[one] <= own[both] ==>
              && list[j].0 <= list[i].0
              && (i < j <==> own[one] < own[both] || 0.0 < other[both] || both < one)
  {
    if one in semantic {
      if semantic[one] <= semantic[both] {
        AgreementOnFirst(list, semantic, keyword, both, one, i, j);
      }
    } else if keyword[one] <= keyword[both] {
      MergeIsSymmetric(list, semantic, keyword);
      AgreementOnFirst(list, keyword, semantic, both, one, i, j);
    }
  }
}
