/** Dropping the worst memory until what is left fits (`context/composer.py`), for any test
    of what fits. */
module Fitting {
  import opened Ordering
  import opened Ranking

  predicate DistinctMemories(items: seq<Ranked>) {
    forall i, j :: 0 <= i < j < |items| ==> items[i].candidate.id != items[j].candidate.id
  }

  // ---- the victim ------------------------------------------------------------------------

  /** The one to drop before the other: lower score, then later id. */
  predicate Worse(a: Ranked, b: Ranked) {
    a.score < b.score || (a.score == b.score && a.candidate.id > b.candidate.id)
  }

  /** Worse than every other item, by list position if two share an id. */
  predicate IsVictim(items: seq<Ranked>, k: nat) {
    k < |items| && forall j :: 0 <= j < |items| && j != k ==>
      || Worse(items[k], items[j])
      || (items[k].score == items[j].score && items[k].candidate.id == items[j].candidate.id && j < k)
  }

  function Victim(items: seq<Ranked>): (k: nat)
    requires items != []
    ensures IsVictim(items, k)
  {
    if |items| == 1 then 0
    else
      var last := |items| - 1;
      var k := Victim(items[..last]);
      assert forall j :: 0 <= j < last ==> items[..last][j] == items[j];
      if Worse(items[k], items[last]) then k else last
  }

  method LowestScore(items: seq<Ranked>) returns (lowest: real)
    requires items != []
    ensures (forall i :: 0 <= i < |items| ==> lowest <= items[i].score)
    ensures exists i :: 0 <= i < |items| && items[i].score == lowest
  {
    lowest := items[0].score;
    for i := 0 to |items|
      invariant forall j :: 0 <= j < i ==> lowest <= items[j].score
      invariant exists j :: 0 <= j < |items| && items[j].score == lowest
    {
      if items[i].score < lowest {
        lowest := items[i].score;
      }
    }
  }

  /** The positions with a given score, ascending. */
  method Tied(items: seq<Ranked>, score: real) returns (tied: seq<nat>)
    ensures forall i: nat :: i in tied <==> i < |items| && items[i].score == score
    ensures forall s, t :: 0 <= s < t < |tied| ==> tied[s] < tied[t]
  {
    tied := [];
    for i := 0 to |items|
      invariant forall j: nat :: j in tied <==> j < i && items[j].score == score
      invariant forall t :: 0 <= t < |tied| ==> tied[t] in tied
      invariant forall s, t :: 0 <= s < t < |tied| ==> tied[s] < tied[t]
    {
      if items[i].score == score {
        tied := tied + [i];
      }
    }
  }

  /** `max()` over pairs of id and position. */
  method LastById(items: seq<Ranked>, tied: seq<nat>) returns (k: nat)
    requires tied != [] && (forall t :: 0 <= t < |tied| ==> tied[t] < |items|)
    requires forall s, t :: 0 <= s < t < |tied| ==> tied[s] < tied[t]
    ensures k in tied && forall t :: 0 <= t < |tied| ==> NotAfter(items, tied[t], k)
  {
    k := tied[0];
    for t := 1 to |tied|
      invariant k in tied[..t] && k < |items|
      invariant forall s :: 0 <= s < t ==> NotAfter(items, tied[s], k)
    {
      if items[tied[t]].candidate.id >= items[k].candidate.id {
        k := tied[t];
      }
    }
  }

  predicate NotAfter(items: seq<Ranked>, j: nat, k: nat)
    requires j < |items| && k < |items|
  {
    items[j].candidate.id < items[k].candidate.id || (items[j].candidate.id == items[k].candidate.id && j <= k)
  }

  method LowestScoredIndex(items: seq<Ranked>) returns (k: nat)
    requires items != []
    ensures k == Victim(items)
  {
    var lowest := LowestScore(items);
    var tied := Tied(items, lowest);
    ghost var i :| 0 <= i < |items| && items[i].score == lowest;
    assert i in tied;
    assert forall t :: 0 <= t < |tied| ==> tied[t] in tied;
    k := LastById(items, tied);
    forall j | 0 <= j < |items| && j != k && items[j].score == lowest ensures NotAfter(items, j, k) {
      assert j in tied;
    }
    assert IsVictim(items, k);
  }

  /** Which memory goes depends on the memories, not on their order. */
  lemma SameVictim(a: seq<Ranked>, b: seq<Ranked>)
    requires a != [] && b != [] && DistinctMemories(a) && multiset(a) == multiset(b)
    ensures a[Victim(a)] == b[Victim(b)]
  {
    var x, y := a[Victim(a)], b[Victim(b)];
    assert x in multiset(b) && y in multiset(a);
    var i :| 0 <= i < |b| && b[i] == x;
    var j :| 0 <= j < |a| && a[j] == y;
    assert i == Victim(b) || x == y || Worse(y, x) || y.candidate.id == x.candidate.id;
    assert j == Victim(a) || x == y || Worse(x, y);
  }

  // ---- the drop loop -----------------------------------------------------------------------

  /** Does a selection fit? */
  type Test = seq<Ranked> -> bool

  datatype Fitted = Fitted(selected: seq<Ranked>, dropped: seq<Ranked>)

  predicate Stops(items: seq<Ranked>, fits: Test) {
    items == [] || fits(items)
  }

  function FitTo(items: seq<Ranked>, fits: Test): (f: Fitted)
    ensures Stops(f.selected, fits)
    decreases |items|
  {
    if Stops(items, fits) then Fitted(items, [])
    else
      var k := Victim(items);
      var rest := FitTo(Without(items, k), fits);
      Fitted(rest.selected, [items[k]] + rest.dropped)
  }

  /** Where the loop stands: what it will keep and drop is settled by what it has left. */
  predicate FitSoFar(items: seq<Ranked>, fits: Test, selected: seq<Ranked>, dropped: seq<Ranked>) {
    var rest := FitTo(selected, fits);
    FitTo(items, fits) == Fitted(rest.selected, dropped + rest.dropped)
  }

  lemma FitStep(items: seq<Ranked>, fits: Test, selected: seq<Ranked>, dropped: seq<Ranked>)
    requires FitSoFar(items, fits, selected, dropped) && !Stops(selected, fits)
    ensures var k := Victim(selected);
            FitSoFar(items, fits, Without(selected, k), dropped + [selected[k]])
  {
    var k := Victim(selected);
    var rest := FitTo(Without(selected, k), fits);
    assert dropped + ([selected[k]] + rest.dropped) == dropped + [selected[k]] + rest.dropped;
  }

  // ---- what the loop guarantees --------------------------------------------------------------

  /** The items of a list that are not among some others, in their order. */
  function Remaining(items: seq<Ranked>, gone: seq<Ranked>): seq<Ranked> {
    if items == [] then []
    else (if items[0] in gone then [] else [items[0]]) + Remaining(items[1..], gone)
  }

  lemma {:induction false} RemainingAll(items: seq<Ranked>)
    ensures Remaining(items, []) == items
  {
    if items != [] {
      RemainingAll(items[1..]);
    }
  }

  lemma {:induction false} RemainingSplit(a: seq<Ranked>, b: seq<Ranked>, gone: seq<Ranked>)
    ensures Remaining(a + b, gone) == Remaining(a, gone) + Remaining(b, gone)
  {
    if a == [] {
      assert a + b == b;
    } else {
      assert (a + b)[1..] == a[1..] + b;
      RemainingSplit(a[1..], b, gone);
    }
  }

  lemma {:induction false} RemainingIgnores(items: seq<Ranked>, x: Ranked, gone: seq<Ranked>)
    requires x !in items
    ensures Remaining(items, [x] + gone) == Remaining(items, gone)
  {
    if items != [] {
      RemainingIgnores(items[1..], x, gone);
    }
  }

  lemma OthersDiffer(items: seq<Ranked>, k: nat)
    requires k < |items| && DistinctMemories(items)
    ensures DistinctMemories(Without(items, k)) && items[k] !in Without(items, k)
    ensures items[k] !in items[..k] && items[k] !in items[k + 1..]
  {
    var others := Without(items, k);
    assert forall j :: 0 <= j < |others| ==> others[j] == items[if j < k then j else j + 1];
  }

  lemma RemainingMiddle(a: seq<Ranked>, x: Ranked, b: seq<Ranked>, gone: seq<Ranked>)
    requires x !in a && x !in b
    ensures Remaining(a + ([x] + b), [x] + gone) == Remaining(a + b, gone)
  {
    RemainingSplit(a, [x] + b, [x] + gone);
    RemainingSplit(a, b, gone);
    RemainingIgnores(a, x, gone);
    RemainingIgnores(b, x, gone);
    assert ([x] + b)[1..] == b;
  }

  lemma RemainingWithout(items: seq<Ranked>, k: nat, gone: seq<Ranked>)
    requires k < |items| && DistinctMemories(items)
    ensures Remaining(items, [items[k]] + gone) == Remaining(Without(items, k), gone)
  {
    OthersDiffer(items, k);
    RemainingMiddle(items[..k], items[k], items[k + 1..], gone);
    assert items == items[..k] + ([items[k]] + items[k + 1..]);
  }

  /** Nothing is lost or invented: what is kept is the input minus what is dropped, in
      input order, and together they are the input. */
  lemma {:induction false} FitPartitions(items: seq<Ranked>, fits: Test)
    requires DistinctMemories(items)
    ensures var f := FitTo(items, fits);
            && f.selected == Remaining(items, f.dropped)
            && multiset(f.selected) + multiset(f.dropped) == multiset(items)
    decreases |items|
  {
    if Stops(items, fits) {
      RemainingAll(items);
    } else {
      var k := Victim(items);
      var rest := FitTo(Without(items, k), fits);
      RemainingWithout(items, k, rest.dropped);
      OthersDiffer(items, k);
      FitPartitions(Without(items, k), fits);
      PutBack(items, k, rest.selected, rest.dropped);
    }
  }

  lemma PutBack(items: seq<Ranked>, k: nat, selected: seq<Ranked>, dropped: seq<Ranked>)
    requires k < |items| && multiset(selected) + multiset(dropped) == multiset(Without(items, k))
    ensures multiset(selected) + multiset([items[k]] + dropped) == multiset(items)
  {
    var x, all := items[k], multiset(items);
    WithoutOne(items, k);
    assert x in all && (all - multiset{x}) + multiset{x} == all;
    assert multiset([x] + dropped) == multiset{x} + multiset(dropped);
  }

  predicate WorstFirst(dropped: seq<Ranked>) {
    forall i, j :: 0 <= i < j < |dropped| ==> Worse(dropped[i], dropped[j])
  }

  predicate AllWorse(dropped: seq<Ranked>, kept: seq<Ranked>) {
    forall i, j :: 0 <= i < |dropped| && 0 <= j < |kept| ==> Worse(dropped[i], kept[j])
  }

  /** Memories go worst first, and each is worse than everything kept. */
  lemma {:induction false} DropsTheWorst(items: seq<Ranked>, fits: Test)
    requires DistinctMemories(items)
    ensures WorstFirst(FitTo(items, fits).dropped)
    ensures AllWorse(FitTo(items, fits).dropped, FitTo(items, fits).selected)
    decreases |items|
  {
    if !Stops(items, fits) {
      var k := Victim(items);
      var others := Without(items, k);
      var rest := FitTo(others, fits);
      OthersDiffer(items, k);
      DropsTheWorst(others, fits);
      FitPartitions(others, fits);
      forall s | s in rest.dropped + rest.selected ensures Worse(items[k], s) {
        assert s in multiset(others);
        VictimIsWorst(items, s);
      }
      WorstPrepended(items[k], rest.dropped, rest.selected);
    }
  }

  lemma WorstPrepended(x: Ranked, dropped: seq<Ranked>, kept: seq<Ranked>)
    requires WorstFirst(dropped) && AllWorse(dropped, kept) && forall s :: s in dropped + kept ==> Worse(x, s)
    ensures WorstFirst([x] + dropped) && AllWorse([x] + dropped, kept)
  {
    assert forall j :: 0 <= j < |dropped| ==> dropped[j] in dropped + kept;
    assert forall j :: 0 <= j < |kept| ==> kept[j] in dropped + kept;
  }

  /** So nothing dropped outscores anything kept. */
  lemma NoDroppedOutscoresKept(items: seq<Ranked>, fits: Test, d: Ranked, s: Ranked)
    requires DistinctMemories(items)
    requires d in FitTo(items, fits).dropped && s in FitTo(items, fits).selected
    ensures d.score <= s.score
  {
    DropsTheWorst(items, fits);
  }

  lemma VictimIsWorst(items: seq<Ranked>, s: Ranked)
    requires items != [] && DistinctMemories(items) && s in Without(items, Victim(items))
    ensures Worse(items[Victim(items)], s)
  {
    var k := Victim(items);
    var j :| 0 <= j < |items| - 1 && Without(items, k)[j] == s;
    assert items[if j < k then j else j + 1] == s;
  }

  /** The list without all but the last dropped memory does not fit, and putting that one
      back in its place among what is kept gives it. */
  ghost predicate LastNeeded(items: seq<Ranked>, fits: Test, f: Fitted) {
    f.dropped != [] &&
    var before, last := Remaining(items, f.dropped[..|f.dropped| - 1]), f.dropped[|f.dropped| - 1];
    !fits(before) && exists k: nat :: PutsBack(before, k, f.selected, last)
  }

  predicate PutsBack(before: seq<Ranked>, k: nat, kept: seq<Ranked>, last: Ranked) {
    k < |before| && Without(before, k) == kept && before[k] == last
  }

  /** The loop stops at the first fit: with the last memory it dropped put back where it
      stood, the selection does not fit. */
  lemma {:induction false} LastDropWasNeeded(items: seq<Ranked>, fits: Test)
    requires DistinctMemories(items) && FitTo(items, fits).dropped != []
    ensures LastNeeded(items, fits, FitTo(items, fits))
    decreases |items|
  {
    var k := Victim(items);
    var others := Without(items, k);
    OthersDiffer(items, k);
    if Stops(others, fits) {
      OnlyDropNeeded(items, k, fits);
      assert FitTo(items, fits) == Fitted(others, [items[k]]);
    } else {
      LastDropWasNeeded(others, fits);
      LaterDropNeeded(items, k, fits, FitTo(others, fits));
    }
  }

  lemma OnlyDropNeeded(items: seq<Ranked>, k: nat, fits: Test)
    requires k < |items| && !fits(items)
    ensures LastNeeded(items, fits, Fitted(Without(items, k), [items[k]]))
  {
    var f := Fitted(Without(items, k), [items[k]]);
    assert f.dropped[..|f.dropped| - 1] == [];
    RemainingAll(items);
    var before, last := Remaining(items, f.dropped[..|f.dropped| - 1]), f.dropped[|f.dropped| - 1];
    assert before == items && last == items[k];
    assert PutsBack(before, k, f.selected, last);
  }

  lemma LaterDropNeeded(items: seq<Ranked>, k: nat, fits: Test, rest: Fitted)
    requires DistinctMemories(items) && k < |items| && LastNeeded(Without(items, k), fits, rest)
    ensures LastNeeded(items, fits, Fitted(rest.selected, [items[k]] + rest.dropped))
  {
    var n := |rest.dropped| - 1;
    var dropped := [items[k]] + rest.dropped;
    assert dropped[..n + 1] == [items[k]] + rest.dropped[..n] && dropped[n + 1] == rest.dropped[n];
    RemainingWithout(items, k, rest.dropped[..n]);
  }

  /** Whatever the test, two orders of the same memories drop the same ones in the
      same sequence until one of them stops. */
  lemma {:induction false} DropsAgree(a: seq<Ranked>, b: seq<Ranked>, fits: Test)
    requires DistinctMemories(a) && multiset(a) == multiset(b)
    ensures var da, db := FitTo(a, fits).dropped, FitTo(b, fits).dropped; da <= db || db <= da
    decreases |a|
  {
    assert |multiset(a)| == |a| && |multiset(b)| == |b|;
    if !Stops(a, fits) && !Stops(b, fits) {
      SameVictim(a, b);
      OthersDiffer(a, Victim(a));
      WithoutOne(a, Victim(a));
      WithoutOne(b, Victim(b));
      DropsAgree(Without(a, Victim(a)), Without(b, Victim(b)), fits);
    }
  }

  /** A test blind to the order of the selection. */
  ghost predicate OrderBlind(fits: Test) {
    forall a: seq<Ranked>, b: seq<Ranked> :: multiset(a) == multiset(b) ==> fits(a) == fits(b)
  }

  /** With such a test the same memories are kept and the same ones dropped. */
  lemma {:induction false} OrderBlindFitsAgree(a: seq<Ranked>, b: seq<Ranked>, fits: Test)
    requires DistinctMemories(a) && multiset(a) == multiset(b) && OrderBlind(fits)
    ensures FitTo(a, fits).dropped == FitTo(b, fits).dropped
    ensures multiset(FitTo(a, fits).selected) == multiset(FitTo(b, fits).selected)
    decreases |a|
  {
    assert |multiset(a)| == |a| && |multiset(b)| == |b|;
    assert fits(a) == fits(b);
    if !Stops(a, fits) {
      SameVictim(a, b);
      OthersDiffer(a, Victim(a));
      WithoutOne(a, Victim(a));
      WithoutOne(b, Victim(b));
      OrderBlindFitsAgree(Without(a, Victim(a)), Without(b, Victim(b)), fits);
    }
  }

  // ---- when the loop keeps a prefix ---------------------------------------------------------

  /** The list is in the order in which the loop would drop from its end. */
  predicate InDropOrder(items: seq<Ranked>) {
    forall i, j :: 0 <= i < j < |items| ==> Worse(items[j], items[i])
  }

  lemma {:induction false} DropsFromTheEnd(items: seq<Ranked>, fits: Test)
    requires InDropOrder(items)
    ensures FitTo(items, fits).selected <= items
    decreases |items|
  {
    if !Stops(items, fits) {
      var last := |items| - 1;
      assert Victim(items) == last;
      assert Without(items, last) == items[..last];
      DropsFromTheEnd(items[..last], fits);
    }
  }

  /** Up to `n` memories fit. */
  function AtMost(n: nat): Test {
    (items: seq<Ranked>) => |items| <= n
  }

  lemma {:induction false} AtMostKept(items: seq<Ranked>, n: nat)
    requires n <= |items|
    ensures |FitTo(items, AtMost(n)).selected| == n
    decreases |items|
  {
    if n < |items| {
      AtMostKept(Without(items, Victim(items)), n);
    }
  }

  /** How much a selection weighs. */
  type Weight = seq<Ranked> -> nat

  /** Each memory adds something to what it is part of. */
  ghost predicate Strict(weigh: Weight) {
    forall items: seq<Ranked>, k: nat :: k < |items| ==> weigh(Without(items, k)) < weigh(items)
  }

  lemma {:induction false} KeptIsLighter(items: seq<Ranked>, fits: Test, weigh: Weight)
    requires Strict(weigh)
    ensures weigh(FitTo(items, fits).selected) <= weigh(items)
    decreases |items|
  {
    if !Stops(items, fits) {
      KeptIsLighter(Without(items, Victim(items)), fits, weigh);
    }
  }

  /** Room for exactly what `n` memories weigh is room for these and no sooner. */
  lemma {:induction false} RoomForSome(items: seq<Ranked>, n: nat, weigh: Weight, fits: Test, budget: nat)
    requires Strict(weigh) && forall s :: fits(s) <==> weigh(s) <= budget
    requires budget == weigh(FitTo(items, AtMost(n)).selected)
    ensures FitTo(items, fits) == FitTo(items, AtMost(n))
    decreases |items|
  {
    if n < |items| {
      var others := Without(items, Victim(items));
      KeptIsLighter(others, AtMost(n), weigh);
      assert weigh(others) < weigh(items);
      RoomForSome(others, n, weigh, fits, budget);
    }
  }

  lemma {:induction false} RemainingHas(items: seq<Ranked>, gone: seq<Ranked>, x: Ranked)
    requires x in items
    ensures x in gone || x in Remaining(items, gone)
  {
    if x != items[0] {
      RemainingHas(items[1..], gone, x);
    }
  }

  lemma NextIsWorse(items: seq<Ranked>, dropped: seq<Ranked>, i: nat, j: nat)
    requires DistinctMemories(items) && i < j < |items| && AllWorse(dropped, items[..j])
    requires items[j] in items[..j] || items[j] in dropped
    ensures Worse(items[j], items[i])
  {
    OthersDiffer(items, j);
    var d :| 0 <= d < |dropped| && dropped[d] == items[j];
    assert Worse(dropped[d], items[..j][i]);
  }

  /** Keeping exactly the first `j` means the next one is worse than each of them. */
  lemma PrefixForcesOrder(items: seq<Ranked>, fits: Test, i: nat, j: nat)
    requires DistinctMemories(items) && i < j < |items| && FitTo(items, fits).selected == items[..j]
    ensures Worse(items[j], items[i])
  {
    DropsTheWorst(items, fits);
    FitPartitions(items, fits);
    RemainingHas(items, FitTo(items, fits).dropped, items[j]);
    NextIsWorse(items, FitTo(items, fits).dropped, i, j);
  }

  /** Out of drop order, some number of memories to keep does not keep a prefix. */
  lemma OutOfDropOrder(items: seq<Ranked>) returns (n: nat)
    requires DistinctMemories(items) && !InDropOrder(items)
    ensures n < |items| && !(FitTo(items, AtMost(n)).selected <= items)
  {
    var i: nat, j: nat :| i < j < |items| && !Worse(items[j], items[i]);
    n := j;
    AtMostKept(items, j);
    if FitTo(items, AtMost(j)).selected <= items {
      assert FitTo(items, AtMost(j)).selected == items[..j];
      PrefixForcesOrder(items, AtMost(j), i, j);
    }
  }
}
