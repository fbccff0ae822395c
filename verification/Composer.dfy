/** Fitting ranked memories into a token budget (`context/composer.py`). The counter is
    any function of the finished block that counts the empty text as nothing; it need
    not be additive over lines. */
module Composer {
  import opened Common
  import opened Memories
  import opened Ordering
  import opened Ranking
  import opened Rendering
  import opened Fitting

  type Counter = string -> nat

  function Contents(items: seq<Ranked>): seq<string> {
    seq(|items|, i requires 0 <= i < |items| => items[i].candidate.content)
  }

  function Block(items: seq<Ranked>): string {
    RenderBlock(Contents(items))
  }

  // ---- the drop loop -----------------------------------------------------------------------

  /** The block of the selection is within the budget. */
  function Within(budget: int, count: Counter): Test {
    (items: seq<Ranked>) => count(Block(items)) <= budget
  }

  method Fit(ranked: seq<Ranked>, budget: int, count: Counter)
    returns (selected: seq<Ranked>, dropped: seq<Ranked>, block: string, tokens: nat)
    ensures Fitted(selected, dropped) == FitTo(ranked, Within(budget, count))
    ensures block == Block(selected) && tokens == count(block)
    ensures selected == [] || tokens <= budget
  {
    selected, dropped := ranked, [];
    block := Block(selected);
    tokens := count(block);
    while selected != [] && tokens > budget
      invariant block == Block(selected) && tokens == count(block)
      invariant FitSoFar(ranked, Within(budget, count), selected, dropped)
      decreases |selected|
    {
      FitStep(ranked, Within(budget, count), selected, dropped);
      var k := LowestScoredIndex(selected);
      dropped := dropped + [selected[k]];
      selected := Without(selected, k);
      block := Block(selected);
      tokens := count(block);
    }
  }

  // ---- the byte-length counter is blind to order --------------------------------------------

  function TotalBytes(parts: seq<string>): nat {
    if parts == [] then 0 else EstimateTokens(parts[0]) + TotalBytes(parts[1..])
  }

  lemma {:induction false} JoinBytes(parts: seq<string>)
    requires parts != []
    ensures EstimateTokens(Join(NEWLINE, parts)) == TotalBytes(parts) + |parts| - 1
  {
    if |parts| > 1 {
      var rest := Join(NEWLINE, parts[1..]);
      JoinBytes(parts[1..]);
      EncodeJoins(parts[0] + [NEWLINE], rest);
      EncodeJoins(parts[0], [NEWLINE]);
      assert Encode([NEWLINE]) == EncodeChar(NEWLINE) + Encode("");
    }
  }

  lemma {:induction false} TotalSplits(parts: seq<string>, i: nat)
    requires i < |parts|
    ensures TotalBytes(parts) == EstimateTokens(parts[i]) + TotalBytes(Without(parts, i))
  {
    if i == 0 {
      assert Without(parts, 0) == parts[1..];
    } else {
      TotalSplits(parts[1..], i - 1);
      assert Without(parts, i)[1..] == Without(parts[1..], i - 1);
    }
  }

  lemma {:induction false} TotalReordered(a: seq<string>, b: seq<string>)
    requires multiset(a) == multiset(b)
    ensures TotalBytes(a) == TotalBytes(b)
  {
    assert |multiset(a)| == |a| && |multiset(b)| == |b|;
    if a != [] {
      assert a[0] in multiset(b);
      var i :| 0 <= i < |b| && b[i] == a[0];
      WithoutOne(a, 0);
      WithoutOne(b, i);
      TotalReordered(Without(a, 0), Without(b, i));
      TotalSplits(a, 0);
      TotalSplits(b, i);
    }
  }

  /** So under every budget what fits does not depend on the order of the lines. */
  lemma EstimateIsOrderBlind(budget: int)
    ensures OrderBlind(Within(budget, EstimateTokens))
  {
    forall a: seq<Ranked>, b: seq<Ranked> | multiset(a) == multiset(b)
      ensures Within(budget, EstimateTokens)(a) == Within(budget, EstimateTokens)(b)
    {
      SameBytes(a, b);
    }
  }

  function Lines(items: seq<Ranked>): seq<string> {
    Map((r: Ranked) => RenderLine(r.candidate.content), items)
  }

  lemma BlockOfLines(items: seq<Ranked>)
    requires items != []
    ensures Block(items) == Join(NEWLINE, [BLOCK_HEADER] + Lines(items))
  {
    assert RenderLines(Contents(items)) == Lines(items);
  }

  lemma SameBytes(a: seq<Ranked>, b: seq<Ranked>)
    requires multiset(a) == multiset(b)
    ensures EstimateTokens(Block(a)) == EstimateTokens(Block(b))
  {
    assert |multiset(a)| == |a| && |multiset(b)| == |b|;
    if a != [] {
      BlockOfLines(a);
      BlockOfLines(b);
      MapReordered((r: Ranked) => RenderLine(r.candidate.content), a, b);
      TotalReordered(Lines(a), Lines(b));
      HeadedBytes(Lines(a));
      HeadedBytes(Lines(b));
    }
  }

  lemma HeadedBytes(lines: seq<string>)
    ensures EstimateTokens(Join(NEWLINE, [BLOCK_HEADER] + lines)) ==
              EstimateTokens(BLOCK_HEADER) + TotalBytes(lines) + |lines|
  {
    JoinedBytes(BLOCK_HEADER, lines);
  }

  lemma JoinedBytes(first: string, lines: seq<string>)
    ensures EstimateTokens(Join(NEWLINE, [first] + lines)) == EstimateTokens(first) + TotalBytes(lines) + |lines|
  {
    JoinBytes([first] + lines);
    assert ([first] + lines)[1..] == lines;
  }

  // ---- composing ---------------------------------------------------------------------------

  /** What the composer hands back. */
  datatype Context = Context(
    block: string, memoryIds: seq<Id>, droppedIds: seq<Id>, tokens: nat, budget: int, included: seq<Ranked>)

  function IdsOf(items: seq<Ranked>): seq<Id> {
    seq(|items|, i requires 0 <= i < |items| => items[i].candidate.id)
  }

  function NonBlank(items: seq<Ranked>): seq<Ranked> {
    if items == [] then []
    else (if Clean(items[0].candidate.content) == "" then [] else [items[0]]) + NonBlank(items[1..])
  }

  /** The budget given, or else the configured one; a negative one is no room. */
  function Room(budget: Option<int>, configured: int): nat {
    var limit := if budget.Some? then budget.value else configured;
    if limit < 0 then 0 else limit
  }

  function Profile(ranked: seq<Ranked>, limit: nat, count: Counter): Context {
    var items := NonBlank(ranked);
    if items == [] then Context("", [], [], 0, limit, [])
    else
      var f := FitTo(items, Within(limit, count));
      Context(Block(f.selected), IdsOf(f.selected), IdsOf(f.dropped), count(Block(f.selected)), limit, f.selected)
  }

  method ComposeProfileBlock(ranked: seq<Ranked>, budget: Option<int>, configured: int, count: Counter)
    returns (context: Context)
    requires count("") == 0
    ensures context == Profile(ranked, Room(budget, configured), count)
  {
    var limit := if budget.Some? then budget.value else configured;
    limit := if limit < 0 then 0 else limit;
    var items := NonBlank(ranked);
    if items == [] {
      return Context("", [], [], 0, limit, []);
    }
    var selected, dropped, block, tokens := Fit(items, limit, count);
    assert tokens <= limit;
    context := Context(block, IdsOf(selected), IdsOf(dropped), tokens, limit, selected);
  }

  lemma {:induction false} NonBlankKeeps(items: seq<Ranked>)
    ensures forall x :: x in NonBlank(items) <==> x in items && Words(x.candidate.content) != []
    ensures DistinctMemories(items) ==> DistinctMemories(NonBlank(items))
  {
    if items != [] {
      NonBlankKeeps(items[1..]);
      BlankMeansNoWords(items[0].candidate.content);
      assert items == [items[0]] + items[1..];
      if DistinctMemories(items) {
        assert forall j :: 0 <= j < |items[1..]| ==> items[1..][j] == items[j + 1];
        forall x | x in NonBlank(items[1..]) ensures x.candidate.id != items[0].candidate.id {
          var j :| 0 <= j < |items[1..]| && items[1..][j] == x;
          assert items[j + 1] == x;
        }
      }
    }
  }

  /** The block is within budget by its own count, holds the header and one whole line per
      included memory and nothing else, and blank memories neither appear nor count as
      dropped. */
  lemma ProfileIsFaithful(ranked: seq<Ranked>, limit: nat, count: Counter)
    requires count("") == 0
    ensures var c := Profile(ranked, limit, count);
            && c.tokens == count(c.block) <= limit
            && c.memoryIds == IdsOf(c.included)
            && (c.included == [] <==> c.block == "")
            && (c.included != [] ==> Split(NEWLINE, c.block) == [BLOCK_HEADER] + RenderLines(Contents(c.included)))
            && (DistinctMemories(ranked) ==>
                  forall x :: x in c.included ==> x in ranked && Words(x.candidate.content) != [])
  {
    var items := NonBlank(ranked);
    NonBlankKeeps(ranked);
    var c := Profile(ranked, limit, count);
    if items != [] && DistinctMemories(ranked) {
      FitPartitions(items, Within(limit, count));
      forall x | x in c.included ensures x in items {
        assert x in multiset(c.included) && multiset(c.included) <= multiset(items);
      }
    }
    if c.included != [] {
      BlockRoundTrip(Contents(c.included));
      BlockNotEmpty(Contents(c.included));
    }
  }

  lemma BlockNotEmpty(contents: seq<string>)
    requires contents != []
    ensures RenderBlock(contents) != ""
  {
    var lines := [BLOCK_HEADER] + RenderLines(contents);
    assert Join(NEWLINE, lines) == lines[0] + [NEWLINE] + Join(NEWLINE, lines[1..]);
  }

  /** With the byte-length counter the block's true token count never exceeds the budget,
      whatever byte-covering tokenizer the model uses. */
  lemma BudgetHoldsForAnyTokenizer(ranked: seq<Ranked>, limit: nat, tokens: seq<seq<Byte>>)
    requires Covers(tokens, Profile(ranked, limit, EstimateTokens).block)
    ensures |tokens| <= limit
  {
    ProfileIsFaithful(ranked, limit, EstimateTokens);
    TokensFitBytes(tokens);
  }

  // ---- the single entry point ------------------------------------------------------------------

  datatype Item = Raw(candidate: Retrieved) | Scored(ranked: Ranked)

  datatype Composition = Composed(context: Context) | TypeError

  function RawOf(items: seq<Item>): seq<Retrieved>
    requires forall i :: 0 <= i < |items| ==> items[i].Raw?
  {
    seq(|items|, i requires 0 <= i < |items| => items[i].candidate)
  }

  function RankedOf(items: seq<Item>): seq<Ranked>
    requires forall i :: 0 <= i < |items| ==> items[i].Scored?
  {
    seq(|items|, i requires 0 <= i < |items| => items[i].ranked)
  }

  datatype Settings = Settings(half: real -> real, topK: int, budget: int, count: Counter)

  /** Raw candidates are ranked first; ranked ones are taken as they come; a mixture is
      refused. An empty list reports the configured budget unclamped. */
  method Compose(items: seq<Item>, budget: Option<int>, topK: Option<int>, cfg: Settings, now: Time)
    returns (result: Composition)
    requires cfg.count("") == 0
    ensures result.TypeError? <==>
              (exists i, j :: 0 <= i < |items| && 0 <= j < |items| && items[i].Raw? && items[j].Scored?)
    ensures items == [] ==>
              result == Composed(Context("", [], [], 0, if budget.None? then cfg.budget else Room(budget, 0), []))
    ensures items != [] && (forall i :: 0 <= i < |items| ==> items[i].Scored?) ==>
              result == Composed(Profile(RankedOf(items), Room(budget, cfg.budget), cfg.count))
    ensures items != [] && (forall i :: 0 <= i < |items| ==> items[i].Raw?) ==>
              result == Composed(Profile(BestOf(cfg.half, RawOf(items), Limit(topK, cfg.topK), now),
                                         Room(budget, cfg.budget), cfg.count))
  {
    if items == [] {
      var given := if budget.None? then cfg.budget else if budget.value < 0 then 0 else budget.value;
      return Composed(Context("", [], [], 0, given, []));
    }
    var ranked: seq<Ranked>;
    if forall i :: 0 <= i < |items| ==> items[i].Scored? {
      ranked := RankedOf(items);
    } else if exists i :: 0 <= i < |items| && items[i].Scored? {
      return TypeError;
    } else {
      ranked := Rank(cfg.half, RawOf(items), topK, cfg.topK, now);
    }
    var context := ComposeProfileBlock(ranked, budget, cfg.budget, cfg.count);
    result := Composed(context);
  }

  /** The same raw candidates in any order compose to the identical result. */
  lemma ComposeIgnoresInputOrder(a: seq<Retrieved>, b: seq<Retrieved>, k: nat, limit: nat, cfg: Settings, now: Time)
    requires DistinctCandidates(a) && multiset(a) == multiset(b)
    ensures Profile(BestOf(cfg.half, a, k, now), limit, cfg.count) ==
              Profile(BestOf(cfg.half, b, k, now), limit, cfg.count)
  {
    RankIgnoresInputOrder(cfg.half, a, b, k, now);
  }
}
