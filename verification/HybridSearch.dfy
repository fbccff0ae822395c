/** The retriever as the program runs it: candidates are objects that normalisation and
    the merge update in place (`retrieve/hybrid.py`, `retrieve/types.py`). */
module HybridSearch {
  import opened Common
  import opened Memories
  import opened Ordering
  import opened Hybrid

  /** A dictionary over the two paths. */
  datatype PerPath = PerPath(semantic: Option<real>, keyword: Option<real>) {
    function At(path: Path): Option<real> {
      if path.ViaSemantic? then semantic else keyword
    }

    function Get(path: Path): real {
      if At(path).Some? then At(path).value else 0.0
    }

    function With(path: Path, value: real): PerPath {
      if path.ViaSemantic? then this.(semantic := Some(value)) else this.(keyword := Some(value))
    }

    /** `dict.update`. */
    function Update(other: PerPath): PerPath {
      PerPath(if other.semantic.Some? then other.semantic else semantic,
              if other.keyword.Some? then other.keyword else keyword)
    }
  }

  const Nothing := PerPath(None, None)

  /** A set of paths. */
  datatype Paths = Paths(semantic: bool, keyword: bool) {
    function Union(other: Paths): Paths {
      Paths(semantic || other.semantic, keyword || other.keyword)
    }
  }

  function Just(path: Path): Paths {
    Paths(path.ViaSemantic?, path.ViaKeyword?)
  }

  /** What the paths have said of a memory. */
  datatype View = View(paths: Paths, pathScores: PerPath, rawPathScores: PerPath, metadata: map<string, string>) {
    function Plus(other: View): View {
      View(paths.Union(other.paths), pathScores.Update(other.pathScores), rawPathScores.Update(other.rawPathScores),
           metadata + other.metadata)
    }

    /** Proposed by one path and not normalised yet. */
    predicate ProposedBy(path: Path) {
      paths == Just(path) && rawPathScores.At(path).Some? && pathScores == Nothing
    }

    function NormalizedBy(path: Path, scale: real -> real): View {
      this.(pathScores := pathScores.With(path, scale(rawPathScores.Get(path))))
    }

    /** Proposed and normalised by one path. */
    predicate ScoredBy(path: Path) {
      paths == Just(path) && pathScores.At(path).Some? && pathScores == Nothing.With(path, pathScores.Get(path))
    }
  }

  /** The path with the better score, the first to report it when they agree. */
  function Strongest(scores: PerPath): Path {
    if scores.semantic.Some? && (scores.keyword.Some? ==> scores.keyword.value <= scores.semantic.value)
    then ViaSemantic
    else ViaKeyword
  }

  lemma StrongestIsBest(scores: PerPath, p: Path)
    requires scores.At(p).Some?
    ensures scores.At(Strongest(scores)).Some? && scores.Get(p) <= scores.Get(Strongest(scores))
  {
    match p {
      case ViaSemantic =>
      case ViaKeyword =>
    }
  }

  class Candidate {
    const id: Id
    const content: string
    var score: real
    var path: Path
    var seen: View

    /** A path's proposal: one raw score. */
    constructor (id: Id, content: string, path: Path, raw: real, metadata: map<string, string>)
      ensures this.id == id && this.content == content && this.path == path && score == 0.0
      ensures seen == View(Just(path), Nothing, Nothing.With(path, raw), metadata) && seen.ProposedBy(path)
    {
      this.id, this.content, score, this.path := id, content, 0.0, path;
      seen := View(Just(path), Nothing, Nothing.With(path, raw), metadata);
    }

    /** Put the path's raw score on its fixed scale. */
    method Rate(path: Path, scale: real -> real)
      modifies this`score, this`seen
      ensures seen == old(seen).NormalizedBy(path, scale) && score == seen.pathScores.Get(path)
    {
      seen := seen.NormalizedBy(path, scale);
      score := seen.pathScores.Get(path);
    }

    /** The zero-filled mean over one or two contributing paths, and the strongest path. */
    method Rescore(divisor: nat)
      requires 1 <= divisor <= 2
      modifies this`score, this`path
      ensures score == Mean(seen.pathScores.Get(ViaSemantic) + seen.pathScores.Get(ViaKeyword), divisor == 2)
      ensures path == Strongest(seen.pathScores)
    {
      score := (seen.pathScores.Get(ViaSemantic) + seen.pathScores.Get(ViaKeyword)) / divisor as real;
      path := Strongest(seen.pathScores);
    }
  }

  ghost predicate OneEach(cs: seq<Candidate>) {
    forall i, j :: 0 <= i < j < |cs| ==> cs[i].id != cs[j].id
  }

  ghost function IdsIn(cs: seq<Candidate>): set<Id> {
    set c | c in cs :: c.id
  }

  /** The views a list of candidates holds, by memory. */
  ghost predicate Says(cs: seq<Candidate>, views: map<Id, View>)
    reads cs
  {
    && OneEach(cs) && views.Keys == IdsIn(cs)
    && forall i :: 0 <= i < |cs| ==> views[cs[i].id] == cs[i].seen
  }

  /** One path's scores in a collection of views. */
  function Scores(views: map<Id, View>, path: Path): map<Id, real> {
    map id | id in views && views[id].pathScores.At(path).Some? :: views[id].pathScores.Get(path)
  }

  // ---- normalise --------------------------------------------------------------------------

  predicate AllProposedBy(views: map<Id, View>, path: Path) {
    forall id :: id in views ==> views[id].ProposedBy(path)
  }

  predicate AllScoredBy(views: map<Id, View>, path: Path) {
    forall id :: id in views ==> views[id].ScoredBy(path)
  }

  /** The views after normalisation. */
  function Rated(views: map<Id, View>, path: Path, scale: real -> real): map<Id, View>
    requires AllProposedBy(views, path)
  {
    map id | id in views :: views[id].NormalizedBy(path, scale)
  }

  method Normalize(cs: seq<Candidate>, path: Path, scale: real -> real, ghost views: map<Id, View>)
    requires Says(cs, views) && AllProposedBy(views, path)
    modifies cs
    ensures Says(cs, Rated(views, path, scale))
    ensures forall c :: c in cs ==> c.score == c.seen.pathScores.Get(path)
  {
    for n := 0 to |cs|
      invariant forall i :: 0 <= i < |cs| ==> cs[i].id in views
      invariant forall i :: 0 <= i < n ==>
                  && cs[i].seen == views[cs[i].id].NormalizedBy(path, scale)
                  && cs[i].score == cs[i].seen.pathScores.Get(path)
      invariant forall i :: n <= i < |cs| ==> cs[i].seen == views[cs[i].id]
    {
      cs[n].Rate(path, scale);
    }
    RatedSays(cs, path, scale, views);
  }

  lemma RatedSays(cs: seq<Candidate>, path: Path, scale: real -> real, views: map<Id, View>)
    requires OneEach(cs) && views.Keys == IdsIn(cs) && AllProposedBy(views, path)
    requires forall i :: 0 <= i < |cs| ==> cs[i].id in views && cs[i].seen == views[cs[i].id].NormalizedBy(path, scale)
    ensures Says(cs, Rated(views, path, scale))
  {}

  // ---- the merge dictionary -----------------------------------------------------------------

  /** Position of a memory in the dictionary, which keeps insertion order. */
  function Find(values: seq<Candidate>, id: Id): (at: Option<nat>)
    ensures at.Some? ==> at.value < |values| && values[at.value].id == id
    ensures at.None? ==> forall i :: 0 <= i < |values| ==> values[i].id != id
  {
    if values == [] then None
    else if values[|values| - 1].id == id then Some(|values| - 1)
    else Find(values[..|values| - 1], id)
  }

  /** Everything said in either of two collections. */
  function JoinViews(a: map<Id, View>, b: map<Id, View>): map<Id, View> {
    map id | id in a.Keys + b.Keys ::
      if id in a && id in b then a[id].Plus(b[id]) else if id in a then a[id] else b[id]
  }

  function Only(id: Id, v: View): (m: map<Id, View>)
    ensures m.Keys == {id} && m[id] == v
  {
    map[id := v]
  }

  lemma EnteredNew(values: seq<Candidate>, said: map<Id, View>, c: Candidate)
    requires Says(values, said) && c.id !in said
    ensures Says(values + [c], JoinViews(said, Only(c.id, c.seen)))
  {
    assert forall i :: 0 <= i < |values| ==> values[i].id in said;
  }

  lemma EnteredKnown(values: seq<Candidate>, said: map<Id, View>, id: Id, v: View)
    requires OneEach(values) && said.Keys == IdsIn(values) && id in said
    requires forall i :: 0 <= i < |values| ==>
               values[i].id in said && values[i].seen ==
               if values[i].id == id then said[id].Plus(v) else said[values[i].id]
    ensures Says(values, JoinViews(said, Only(id, v)))
  {}

  /** A new memory enters as the path's own object, a known one absorbs what the path says
      of it. */
  method Enter(c: Candidate, values: seq<Candidate>, ghost said: map<Id, View>) returns (out: seq<Candidate>)
    requires Says(values, said) && c !in values
    modifies set v | v in values && v.id == c.id
    ensures out == values || out == values + [c]
    ensures Says(out, JoinViews(said, Only(c.id, c.seen)))
  {
    var at := Find(values, c.id);
    if at.None? {
      out := values + [c];
      EnteredNew(values, said, c);
    } else {
      var existing := values[at.value];
      existing.seen := existing.seen.Plus(c.seen);
      out := values;
      EnteredKnown(values, said, c.id, c.seen);
    }
  }

  lemma JoinOneMore(a: map<Id, View>, b: map<Id, View>, id: Id, v: View)
    requires id !in b
    ensures JoinViews(JoinViews(a, b), Only(id, v)) == JoinViews(a, b[id := v])
  {
    var one, other := JoinViews(JoinViews(a, b), Only(id, v)), JoinViews(a, b[id := v]);
    forall i | i in one ensures one[i] == other[i] {
      assert i != id ==> one[i] == JoinViews(a, b)[i];
    }
  }

  /** One path's pass of the merge. */
  method Fold(cs: seq<Candidate>, values: seq<Candidate>, ghost told: map<Id, View>, ghost said: map<Id, View>)
    returns (out: seq<Candidate>)
    requires Says(cs, told) && Says(values, said) && forall c :: c in cs ==> c !in values
    modifies values
    ensures forall c :: c in out ==> c in values || c in cs
    ensures Says(out, JoinViews(said, told))
  {
    out := values;
    ghost var heard: map<Id, View> := map[];
    ghost var all := said;
    JoinNothing(said);
    for i := 0 to |cs|
      invariant forall c :: c in out ==> c in values || c in cs[..i]
      invariant Says(cs, told) && Says(out, all)
      invariant HeardSoFar(cs, i, told, heard) && all == JoinViews(said, heard)
    {
      var c := cs[i];
      FirstSeen(cs, i, values, out);
      out := Enter(c, out, all);
      all := JoinViews(all, Only(c.id, c.seen));
      JoinOneMore(said, heard, c.id, c.seen);
      HeardOneMore(cs, i, told, heard);
      heard := heard[c.id := told[c.id]];
    }
    HeardAll(cs, told, heard);
  }

  lemma JoinNothing(said: map<Id, View>)
    ensures JoinViews(said, map[]) == said
  {}

  ghost predicate HeardSoFar(cs: seq<Candidate>, n: nat, told: map<Id, View>, heard: map<Id, View>)
    requires n <= |cs|
  {
    heard.Keys == IdsIn(cs[..n]) && forall id :: id in heard ==> id in told && heard[id] == told[id]
  }

  lemma HeardOneMore(cs: seq<Candidate>, n: nat, told: map<Id, View>, heard: map<Id, View>)
    requires OneEach(cs) && n < |cs| && cs[n].id in told && HeardSoFar(cs, n, told, heard)
    ensures cs[n].id !in heard && HeardSoFar(cs, n + 1, told, heard[cs[n].id := told[cs[n].id]])
  {
    assert cs[..n + 1] == cs[..n] + [cs[n]];
  }

  lemma HeardAll(cs: seq<Candidate>, told: map<Id, View>, heard: map<Id, View>)
    requires HeardSoFar(cs, |cs|, told, heard) && told.Keys == IdsIn(cs)
    ensures heard == told
  {
    assert cs[..|cs|] == cs;
  }

  /** A memory new to its path: what shares its id so far came from before. */
  lemma FirstSeen(cs: seq<Candidate>, i: nat, values: seq<Candidate>, out: seq<Candidate>)
    requires OneEach(cs) && i < |cs| && (forall c :: c in out ==> c in values || c in cs[..i])
    requires forall c :: c in cs ==> c !in values
    ensures cs[i].id !in IdsIn(cs[..i]) && cs[i] !in out
    ensures forall v :: v in out && v.id == cs[i].id ==> v in values && v !in cs
    ensures forall c :: c in out + [cs[i]] ==> c in values || c in cs[..i + 1]
  {
    assert cs[..i + 1] == cs[..i] + [cs[i]];
  }

  // ---- the merge --------------------------------------------------------------------------

  /** A view that says exactly what each path's scores say of the memory. */
  predicate Reports(v: View, id: Id, semantic: map<Id, real>, keyword: map<Id, real>) {
    && (v.pathScores.semantic.Some? <==> id in semantic) && (v.pathScores.keyword.Some? <==> id in keyword)
    && v.pathScores.Get(ViaSemantic) == Term(semantic, id) && v.pathScores.Get(ViaKeyword) == Term(keyword, id)
    && v.paths == Paths(id in semantic, id in keyword)
  }

  lemma JoinReports(a: map<Id, View>, b: map<Id, View>, id: Id)
    requires AllScoredBy(a, ViaSemantic) && AllScoredBy(b, ViaKeyword) && id in a.Keys + b.Keys
    ensures Reports(JoinViews(a, b)[id], id, Scores(a, ViaSemantic), Scores(b, ViaKeyword))
  {
    if id in a {
      assert a[id].ScoredBy(ViaSemantic);
    }
    if id in b {
      assert b[id].ScoredBy(ViaKeyword);
    }
  }

  datatype Standing = Standing(candidate: Candidate, score: real)

  function StandingKey(): Standing -> Key {
    (s: Standing) => (s.score, s.candidate.id)
  }

  ghost function KeysOf(cs: seq<Candidate>): seq<Key>
    reads cs
  {
    seq(|cs|, i requires 0 <= i < |cs| reads cs => (cs[i].score, cs[i].id))
  }

  /** The candidate carries the zero-filled mean of its path scores and the name of its
      strongest path. */
  ghost predicate Rescored(c: Candidate, both: bool)
    reads c
  {
    && c.score == Mean(c.seen.pathScores.Get(ViaSemantic) + c.seen.pathScores.Get(ViaKeyword), both)
    && c.path == Strongest(c.seen.pathScores)
  }

  /** Every candidate rescored in place, and listed with its score. */
  method RescoreAll(values: seq<Candidate>, divisor: nat, ghost views: map<Id, View>) returns (standings: seq<Standing>)
    requires Says(values, views) && 1 <= divisor <= 2
    modifies values
    ensures Says(values, views) && forall c :: c in values ==> Rescored(c, divisor == 2)
    ensures |standings| == |values| && forall i :: 0 <= i < |values| ==>
              standings[i] == Standing(values[i], values[i].score)
  {
    standings := [];
    for n := 0 to |values|
      invariant Says(values, views)
      invariant |standings| == n && forall i :: 0 <= i < n ==>
                  standings[i] == Standing(values[i], values[i].score) && Rescored(values[i], divisor == 2)
    {
      values[n].Rescore(divisor);
      standings := standings + [Standing(values[n], values[n].score)];
    }
  }

  /** Both passes of the merge loop. */
  method Union(semantic: seq<Candidate>, keyword: seq<Candidate>, ghost a: map<Id, View>, ghost b: map<Id, View>)
    returns (values: seq<Candidate>)
    requires Says(semantic, a) && Says(keyword, b) && forall c :: c in keyword ==> c !in semantic
    modifies semantic
    ensures Says(values, JoinViews(a, b)) && forall c :: c in values ==> c in semantic || c in keyword
  {
    ghost var none: map<Id, View> := map[];
    NoneJoined(a);
    var first := Fold(semantic, [], a, none);
    values := Fold(keyword, first, b, a);
  }

  /** Union the paths by memory and rescore. */
  method Gather(semantic: seq<Candidate>, keyword: seq<Candidate>, ghost a: map<Id, View>, ghost b: map<Id, View>)
    returns (values: seq<Candidate>, standings: seq<Standing>)
    requires Says(semantic, a) && Says(keyword, b) && AllScoredBy(a, ViaSemantic) && AllScoredBy(b, ViaKeyword)
    requires forall c :: c in keyword ==> c !in semantic
    modifies semantic, keyword
    ensures OneEach(values) && IdsIn(values) == a.Keys + b.Keys
    ensures forall c :: c in values ==>
              (c in semantic || c in keyword) && Merged(c, Scores(a, ViaSemantic), Scores(b, ViaKeyword))
    ensures |standings| == |values| && forall i :: 0 <= i < |values| ==>
              standings[i] == Standing(values[i], values[i].score)
  {
    var contributing := One(semantic != []) + One(keyword != []);
    var divisor := if contributing < 1 then 1 else contributing;
    Contributing(semantic, keyword, a, b);
    values := Union(semantic, keyword, a, b);
    standings := RescoreAll(values, divisor, JoinViews(a, b));
    RescoredMerge(values, a, b, divisor == 2);
  }

  /** Union, rescore, and sort. The list and its scores are the merge of the two paths'
      scores, and each candidate shows what every path that found it said. */
  method Merge(semantic: seq<Candidate>, keyword: seq<Candidate>, ghost a: map<Id, View>, ghost b: map<Id, View>)
    returns (ranked: seq<Candidate>)
    requires Says(semantic, a) && Says(keyword, b) && AllScoredBy(a, ViaSemantic) && AllScoredBy(b, ViaKeyword)
    requires forall c :: c in keyword ==> c !in semantic
    modifies semantic, keyword
    ensures IsMerge(KeysOf(ranked), Scores(a, ViaSemantic), Scores(b, ViaKeyword))
    ensures forall c :: c in ranked ==>
              (c in semantic || c in keyword) && Merged(c, Scores(a, ViaSemantic), Scores(b, ViaKeyword))
  {
    ghost var s, k := Scores(a, ViaSemantic), Scores(b, ViaKeyword);
    ScoredKeys(a, ViaSemantic);
    ScoredKeys(b, ViaKeyword);
    var values, standings := Gather(semantic, keyword, a, b);
    var sorted := Sort(StandingKey(), standings);
    ranked := seq(|sorted|, i requires 0 <= i < |sorted| => sorted[i].candidate);
    SortedMerge(values, standings, ranked, s, k);
  }

  lemma NoneJoined(a: map<Id, View>)
    ensures JoinViews(map[], a) == a
  {}

  lemma Contributing(semantic: seq<Candidate>, keyword: seq<Candidate>, a: map<Id, View>, b: map<Id, View>)
    requires a.Keys == IdsIn(semantic) && b.Keys == IdsIn(keyword)
    requires AllScoredBy(a, ViaSemantic) && AllScoredBy(b, ViaKeyword)
    ensures BothContribute(Scores(a, ViaSemantic), Scores(b, ViaKeyword)) <==> semantic != [] && keyword != []
  {
    ScoredKeys(a, ViaSemantic);
    ScoredKeys(b, ViaKeyword);
    if semantic != [] {
      assert semantic[0].id in Scores(a, ViaSemantic);
    }
    if keyword != [] {
      assert keyword[0].id in Scores(b, ViaKeyword);
    }
  }

  /** A merged candidate reports both paths, carries its merged score and names its
      strongest path. */
  ghost predicate Merged(c: Candidate, semantic: map<Id, real>, keyword: map<Id, real>)
    reads c
  {
    && Reports(c.seen, c.id, semantic, keyword)
    && c.score == MergedScore(semantic, keyword, c.id) && c.path == Strongest(c.seen.pathScores)
  }

  lemma RescoredMerge(values: seq<Candidate>, a: map<Id, View>, b: map<Id, View>, both: bool)
    requires Says(values, JoinViews(a, b)) && AllScoredBy(a, ViaSemantic) && AllScoredBy(b, ViaKeyword)
    requires both <==> BothContribute(Scores(a, ViaSemantic), Scores(b, ViaKeyword))
    requires forall c :: c in values ==> Rescored(c, both)
    ensures forall c :: c in values ==> Merged(c, Scores(a, ViaSemantic), Scores(b, ViaKeyword))
  {
    forall c | c in values ensures Merged(c, Scores(a, ViaSemantic), Scores(b, ViaKeyword)) {
      assert c.id in JoinViews(a, b);
      JoinReports(a, b, c.id);
    }
  }

  lemma ScoredKeys(views: map<Id, View>, path: Path)
    requires AllScoredBy(views, path)
    ensures Scores(views, path).Keys == views.Keys
  {
    forall id | id in views ensures views[id].pathScores.At(path).Some? {
      assert views[id].ScoredBy(path);
    }
  }

  /** Sorting the standings lists each score once, in order. */
  lemma SortedScores(values: seq<Candidate>, standings: seq<Standing>, ranked: seq<Candidate>, scores: map<Id, real>)
    requires OneEach(values) && IdsIn(values) == scores.Keys
    requires |standings| == |values|
    requires forall i :: 0 <= i < |values| ==>
              standings[i] == Standing(values[i], values[i].score) && values[i].score == scores[values[i].id]
    requires var sorted := Sort(StandingKey(), standings);
             |ranked| == |sorted| && forall i :: 0 <= i < |ranked| ==> ranked[i] == sorted[i].candidate
    ensures InOrder(ByScore(), KeysOf(ranked)) && forall c :: c in ranked ==> c in values
    ensures forall k :: k in KeysOf(ranked) ==> k.1 in scores && k.0 == scores[k.1]
    ensures forall id :: id in scores ==> (scores[id], id) in KeysOf(ranked)
  {
    var sorted, list := Sort(StandingKey(), standings), KeysOf(ranked);
    assert DistinctIds(StandingKey(), standings);
    SortKeeps(StandingKey(), standings);
    SortOrders(StandingKey(), standings);
    forall i | 0 <= i < |sorted| ensures ranked[i] in values && list[i] == StandingKey()(sorted[i]) {
      assert sorted[i] in standings;
    }
    forall id | id in scores ensures (scores[id], id) in list {
      var j :| 0 <= j < |values| && values[j].id == id;
      assert standings[j] in sorted;
      var i :| 0 <= i < |sorted| && sorted[i] == standings[j];
      assert list[i] == (scores[id], id);
    }
  }

  /** Every merged score by memory. */
  function MergedScores(semantic: map<Id, real>, keyword: map<Id, real>): map<Id, real> {
    map id | id in semantic.Keys + keyword.Keys :: MergedScore(semantic, keyword, id)
  }

  lemma SortedMerge(values: seq<Candidate>, standings: seq<Standing>, ranked: seq<Candidate>, s: map<Id, real>,
                    k: map<Id, real>)
    requires OneEach(values) && IdsIn(values) == s.Keys + k.Keys && forall c :: c in values ==> Merged(c, s, k)
    requires |standings| == |values|
    requires forall i :: 0 <= i < |values| ==> standings[i] == Standing(values[i], values[i].score)
    requires var sorted := Sort(StandingKey(), standings);
             |ranked| == |sorted| && forall i :: 0 <= i < |ranked| ==> ranked[i] == sorted[i].candidate
    ensures IsMerge(KeysOf(ranked), s, k) && forall c :: c in ranked ==> c in values && Merged(c, s, k)
  {
    var scores := MergedScores(s, k);
    forall i | 0 <= i < |values| ensures values[i].score == scores[values[i].id] {
      assert Merged(values[i], s, k);
    }
    SortedScores(values, standings, ranked, scores);
  }

  // ---- one search ---------------------------------------------------------------------------

  /** How one path's call ended. */
  datatype Outcome = Returned(candidates: seq<Candidate>) | TimedOut | Failed(error: string)

  datatype SearchResult = SearchResult(candidates: seq<Candidate>, degraded: map<Path, string>, counts: map<Path, nat>)

  /** A path that fails in any way contributes an empty list and a note. */
  method RunPath(path: Path, outcome: Outcome, degraded: map<Path, string>)
    returns (cs: seq<Candidate>, noted: map<Path, string>)
    ensures cs == if outcome.Returned? then outcome.candidates else []
    ensures outcome.Returned? ==> noted == degraded
    ensures !outcome.Returned? ==> noted.Keys == degraded.Keys + {path} && noted - {path} == degraded - {path}
  {
    match outcome {
      case Returned(candidates) => cs, noted := candidates, degraded;
      case TimedOut => cs, noted := [], degraded[path := "timeout"];
      case Failed(error) => cs, noted := [], degraded[path := error];
    }
  }

  function Offered(outcome: Outcome): seq<Candidate> {
    if outcome.Returned? then outcome.candidates else []
  }

  /** The normalised scores of what a path proposed. */
  function RatedScores(views: map<Id, View>, path: Path, scale: real -> real): map<Id, real>
    requires AllProposedBy(views, path)
  {
    map id | id in views :: scale(views[id].rawPathScores.Get(path))
  }

  lemma RatedAreScored(views: map<Id, View>, path: Path, scale: real -> real)
    requires AllProposedBy(views, path)
    ensures AllScoredBy(Rated(views, path, scale), path)
    ensures Scores(Rated(views, path, scale), path) == RatedScores(views, path, scale)
  {
    forall id | id in views
      ensures Rated(views, path, scale)[id].ScoredBy(path)
      ensures Rated(views, path, scale)[id].pathScores.Get(path) == scale(views[id].rawPathScores.Get(path))
    {
      assert views[id].ProposedBy(path);
    }
  }

  /** On the scale the path really applies. */
  function OnScale(views: map<Id, View>, path: Path): map<Id, real>
    requires AllProposedBy(views, path)
  {
    RatedScores(views, path, Scale(path))
  }

  lemma RatedInUnit(views: map<Id, View>, path: Path)
    requires AllProposedBy(views, path)
    ensures InUnit(OnScale(views, path))
  {
    forall id | id in views ensures 0.0 <= Scale(path)(views[id].rawPathScores.Get(path)) <= 1.0 {
      assert views[id].ProposedBy(path);
    }
  }

  /** A blank query touches nothing. Otherwise a path that times out or raises is noted and
      contributes nothing, the other path's results survive it, and the answer is the merge
      of what the paths returned, every score in [0, 1]. */
  method Search(blank: bool, semantic: Outcome, keyword: Outcome, ghost a: map<Id, View>, ghost b: map<Id, View>)
    returns (r: SearchResult)
    requires Says(Offered(semantic), a) && Says(Offered(keyword), b)
    requires AllProposedBy(a, ViaSemantic) && AllProposedBy(b, ViaKeyword)
    requires forall c :: c in Offered(keyword) ==> c !in Offered(semantic)
    modifies Offered(semantic), Offered(keyword)
    ensures blank ==> (forall c :: c in Offered(semantic) || c in Offered(keyword) ==> unchanged(c))
    ensures blank ==> r == SearchResult([], map[], map[ViaSemantic := 0, ViaKeyword := 0])
    ensures !blank ==>
              r.degraded.Keys == (if semantic.Returned? then {} else {ViaSemantic})
                                 + (if keyword.Returned? then {} else {ViaKeyword})
    ensures !blank ==> r.counts == map[ViaSemantic := |Offered(semantic)|, ViaKeyword := |Offered(keyword)|]
    ensures !blank ==> IsMerge(KeysOf(r.candidates), OnScale(a, ViaSemantic), OnScale(b, ViaKeyword))
    ensures !blank ==> forall c :: c in r.candidates ==>
              0.0 <= c.score <= 1.0 && Merged(c, OnScale(a, ViaSemantic), OnScale(b, ViaKeyword))
  {
    if blank {
      return SearchResult([], map[], map[ViaSemantic := 0, ViaKeyword := 0]);
    }
    var left, degraded := RunPath(ViaSemantic, semantic, map[]);
    var right, noted := RunPath(ViaKeyword, keyword, degraded);
    var merged := NormalizeAndMerge(left, right, Scale(ViaSemantic), Scale(ViaKeyword), a, b);
    MergedInUnit(merged, a, b);
    r := SearchResult(merged, noted, map[ViaSemantic := |left|, ViaKeyword := |right|]);
  }

  method NormalizeAndMerge(left: seq<Candidate>, right: seq<Candidate>, first: real -> real, second: real -> real,
                           ghost a: map<Id, View>, ghost b: map<Id, View>)
    returns (merged: seq<Candidate>)
    requires Says(left, a) && Says(right, b) && AllProposedBy(a, ViaSemantic) && AllProposedBy(b, ViaKeyword)
    requires forall c :: c in right ==> c !in left
    modifies left, right
    ensures IsMerge(KeysOf(merged), RatedScores(a, ViaSemantic, first), RatedScores(b, ViaKeyword, second))
    ensures forall c :: c in merged ==>
              Merged(c, RatedScores(a, ViaSemantic, first), RatedScores(b, ViaKeyword, second))
  {
    ghost var x, y := Rated(a, ViaSemantic, first), Rated(b, ViaKeyword, second);
    RatedAreScored(a, ViaSemantic, first);
    RatedAreScored(b, ViaKeyword, second);
    NormalizeBoth(left, right, first, second, a, b);
    merged := Merge(left, right, x, y);
  }

  method NormalizeBoth(left: seq<Candidate>, right: seq<Candidate>, first: real -> real, second: real -> real,
                       ghost a: map<Id, View>, ghost b: map<Id, View>)
    requires Says(left, a) && Says(right, b) && AllProposedBy(a, ViaSemantic) && AllProposedBy(b, ViaKeyword)
    requires forall c :: c in right ==> c !in left
    modifies left, right
    ensures Says(left, Rated(a, ViaSemantic, first)) && Says(right, Rated(b, ViaKeyword, second))
  {
    Normalize(left, ViaSemantic, first, a);
    Normalize(right, ViaKeyword, second, b);
  }

  lemma MergedInUnit(cs: seq<Candidate>, a: map<Id, View>, b: map<Id, View>)
    requires AllProposedBy(a, ViaSemantic) && AllProposedBy(b, ViaKeyword)
    requires IsMerge(KeysOf(cs), OnScale(a, ViaSemantic), OnScale(b, ViaKeyword))
    ensures forall c :: c in cs ==> 0.0 <= c.score <= 1.0
  {
    RatedInUnit(a, ViaSemantic);
    RatedInUnit(b, ViaKeyword);
    ScoresInUnit(cs, OnScale(a, ViaSemantic), OnScale(b, ViaKeyword));
  }

  lemma ScoresInUnit(cs: seq<Candidate>, s: map<Id, real>, k: map<Id, real>)
    requires IsMerge(KeysOf(cs), s, k) && InUnit(s) && InUnit(k)
    ensures forall c :: c in cs ==> 0.0 <= c.score <= 1.0
  {
    forall c | c in cs ensures 0.0 <= c.score <= 1.0 {
      var i :| 0 <= i < |cs| && cs[i] == c;
      assert KeysOf(cs)[i] in KeysOf(cs);
      MergedScoresStayInUnit(s, k, c.id);
    }
  }
}
