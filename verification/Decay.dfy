/** The decay function, one sweep over a row, and why sweeps are independent of
    their history (`jobs/decay.py`). Weights are reals; `half` stands for
    `x -> 0.5 ** x` and only the laws in `HalfLaw` are used of it. */
module Decay {
  import opened Common
  import opened Memories

  const SECONDS_PER_DAY := 86400.0

  datatype Tuning = Tuning(half: real -> real, halfLife: real, damping: real, floor: real, threshold: real)

  ghost predicate HalfLaw(half: real -> real) {
    && half(0.0) == 1.0
    && (forall x :: 0.0 <= x ==> 0.0 < half(x) <= 1.0)
    && (forall x, y :: 0.0 <= x < y ==> half(y) < half(x))
  }

  /** The relations the shipped defaults satisfy. The module itself checks at
      import only that the threshold exceeds the floor. */
  ghost predicate Sound(t: Tuning, cfg: Config) {
    && HalfLaw(t.half) && 0.0 < t.halfLife && 0.0 < t.damping
    && 0.0 <= t.floor <= 1.0 && t.floor < t.threshold
    && 0.0 <= cfg.increment && 1.0 <= cfg.ceiling
  }

  /** The weight of a row that was accessed just now. */
  function PeakWeight(cfg: Config, reinforcements: nat): real {
    Min(cfg.ceiling, 1.0 + cfg.increment * reinforcements as real)
  }

  function AgeInDays(accessedAt: Time, at: Time): real {
    Max(0.0, (at - accessedAt) as real / SECONDS_PER_DAY)
  }

  function EffectiveHalfLife(t: Tuning, reinforcements: nat): real
    requires t.damping != 0.0
  {
    t.halfLife * (1.0 + reinforcements as real / t.damping)
  }

  /** Exponential decay on age from a base, over a given half-life, floored. */
  function DecayOver(t: Tuning, age: real, halfLife: real, base: real): real
    requires halfLife != 0.0
  {
    Max(t.floor, base * t.half(Max(0.0, age) / halfLife))
  }

  function DecayWeight(t: Tuning, age: real, reinforcements: nat, base: real): real
    requires 0.0 < t.damping
  {
    if t.halfLife <= 0.0 then Max(t.floor, base)
    else
      StretchPositive(t, reinforcements);
      DecayOver(t, age, EffectiveHalfLife(t, reinforcements), base)
  }

  /** The weight a sweep at time `at` gives a row. */
  function WeightAt(t: Tuning, cfg: Config, r: Row, at: Time): real
    requires 0.0 < t.damping
  {
    DecayWeight(t, AgeInDays(r.accessedAt, at), r.reinforcements, PeakWeight(cfg, r.reinforcements))
  }

  lemma StretchPositive(t: Tuning, n: nat)
    requires 0.0 < t.damping && 0.0 < t.halfLife
    ensures 0.0 < EffectiveHalfLife(t, n)
  {
    assert 0.0 <= n as real / t.damping;
  }

  lemma StretchGrows(t: Tuning, n: nat, m: nat)
    requires 0.0 < t.damping && 0.0 < t.halfLife && n < m
    ensures EffectiveHalfLife(t, n) < EffectiveHalfLife(t, m)
  {
    QuotientGrows(n as real, m as real, t.damping);
    ProductGrows(t.halfLife, 1.0 + n as real / t.damping, 1.0 + m as real / t.damping);
  }

  lemma QuotientGrows(a: real, b: real, d: real)
    requires a < b && 0.0 < d
    ensures a / d < b / d
  {}

  lemma QuotientShrinks(a: real, d: real, e: real)
    requires 0.0 < a && 0.0 < d < e
    ensures 0.0 < a / e < a / d
  {
    var q := a / e;
    ProductGrows(q, d, e);
    QuotientGrows(q * d, a, d);
    assert q * d / d == q;
  }

  lemma ProductGrows(k: real, a: real, b: real)
    requires 0.0 < k && a < b
    ensures k * a < k * b
  {}

  lemma Scales(floor: real, a: real, b: real, k: real)
    requires 0.0 < k && a <= b
    ensures Max(floor, a * k) <= Max(floor, b * k)
  {}

  lemma Shrinks(base: real, h: real)
    requires 0.0 <= base && 0.0 < h <= 1.0
    ensures base * h <= base
  {}

  lemma OverBounds(t: Tuning, age: real, s: real, base: real)
    requires HalfLaw(t.half) && 0.0 < s && 0.0 <= base
    ensures t.floor <= DecayOver(t, age, s, base) <= Max(t.floor, base)
    ensures DecayOver(t, 0.0, s, base) == Max(t.floor, base)
  {
    assert 0.0 <= Max(0.0, age) / s && Max(0.0, 0.0) / s == 0.0;
    Shrinks(base, t.half(Max(0.0, age) / s));
  }

  /** A larger quotient of age by half-life means a smaller weight. */
  lemma OverFalls(t: Tuning, age: real, s: real, later: real, u: real, base: real)
    requires HalfLaw(t.half) && 0.0 <= age && 0.0 <= later && 0.0 < s && 0.0 < u && 0.0 < base
    requires age / s < later / u
    ensures DecayOver(t, later, u, base) <= DecayOver(t, age, s, base)
    ensures DecayOver(t, age, s, base) > t.floor ==> DecayOver(t, later, u, base) < DecayOver(t, age, s, base)
  {
    var x, y := age / s, later / u;
    assert Max(0.0, age) == age && Max(0.0, later) == later && 0.0 <= x;
    ProductGrows(base, t.half(y), t.half(x));
  }

  lemma OverRisesWithBase(t: Tuning, age: real, s: real, low: real, high: real)
    requires HalfLaw(t.half) && 0.0 < s && low <= high
    ensures DecayOver(t, age, s, low) <= DecayOver(t, age, s, high)
  {
    var x := Max(0.0, age) / s;
    assert 0.0 <= x;
    Scales(t.floor, low, high, t.half(x));
  }

  /** Weights never leave [floor, max(floor, base)], and a row just accessed has
      its base weight. */
  lemma DecayBounds(t: Tuning, cfg: Config, age: real, n: nat, base: real)
    requires Sound(t, cfg) && 0.0 <= base
    ensures t.floor <= DecayWeight(t, age, n, base) <= Max(t.floor, base)
    ensures DecayWeight(t, 0.0, n, base) == Max(t.floor, base)
  {
    StretchPositive(t, n);
    OverBounds(t, age, EffectiveHalfLife(t, n), base);
  }

  /** Weight falls with age, strictly while it is above the floor. */
  lemma DecayFallsWithAge(t: Tuning, cfg: Config, young: real, older: real, n: nat, base: real)
    requires Sound(t, cfg) && 0.0 < base && 0.0 <= young < older
    ensures DecayWeight(t, older, n, base) <= DecayWeight(t, young, n, base)
    ensures DecayWeight(t, young, n, base) > t.floor ==>
              DecayWeight(t, older, n, base) < DecayWeight(t, young, n, base)
  {
    StretchPositive(t, n);
    var s := EffectiveHalfLife(t, n);
    QuotientGrows(young, older, s);
    OverFalls(t, young, s, older, s, base);
  }

  /** Reinforcement slows decay at an equal base, strictly while above the floor. */
  lemma ReinforcementSlowsDecay(t: Tuning, cfg: Config, age: real, n: nat, m: nat, base: real)
    requires Sound(t, cfg) && 0.0 < age && n < m && 0.0 < base
    ensures DecayWeight(t, age, n, base) <= DecayWeight(t, age, m, base)
    ensures DecayWeight(t, age, m, base) > t.floor ==> DecayWeight(t, age, n, base) < DecayWeight(t, age, m, base)
  {
    StretchPositive(t, n);
    StretchGrows(t, n, m);
    var s, u := EffectiveHalfLife(t, n), EffectiveHalfLife(t, m);
    QuotientShrinks(age, s, u);
    OverFalls(t, age, u, age, s, base);
  }

  /** So a row reinforced more often never weighs less at the same age. */
  lemma WeightRisesWithReinforcement(t: Tuning, cfg: Config, age: real, n: nat, m: nat)
    requires Sound(t, cfg) && 0.0 <= age && n <= m
    ensures DecayWeight(t, age, n, PeakWeight(cfg, n)) <= DecayWeight(t, age, m, PeakWeight(cfg, m))
  {
    PeakGrows(cfg, n, m);
    StretchPositive(t, m);
    OverRisesWithBase(t, age, EffectiveHalfLife(t, m), PeakWeight(cfg, n), PeakWeight(cfg, m));
    if age == 0.0 {
      DecayBounds(t, cfg, age, n, PeakWeight(cfg, n));
      DecayBounds(t, cfg, age, m, PeakWeight(cfg, n));
    } else if n < m {
      ReinforcementSlowsDecay(t, cfg, age, n, m, PeakWeight(cfg, n));
    }
  }

  lemma PeakGrows(cfg: Config, n: nat, m: nat)
    requires 0.0 <= cfg.increment && 1.0 <= cfg.ceiling && n <= m
    ensures 1.0 <= PeakWeight(cfg, n) <= PeakWeight(cfg, m) <= cfg.ceiling
  {
    assert 0.0 <= cfg.increment * n as real <= cfg.increment * m as real;
  }

  // ---- one batch and one sweep --------------------------------------------------

  predicate Eligible(r: Row, run: nat) {
    Live(r) && r.archivedAt.None? && r.decayRun != Some(run)
  }

  /** A claimed row after its batch commits: stamped, reweighted and, below the
      threshold, archived. */
  function DecayRow(t: Tuning, cfg: Config, r: Row, run: nat, at: Time, now: Time): Row
    requires 0.0 < t.damping
  {
    var w := WeightAt(t, cfg, r, at);
    r.(decayRun := Some(run), weight := w, archivedAt := if w < t.threshold then Some(now) else r.archivedAt)
  }

  /** The table after a batch of claimed rows commits. */
  function DecayRows(t: Tuning, cfg: Config, rows: seq<Row>, ids: set<Id>, run: nat, at: Time,
                     now: Time): (rs: seq<Row>)
    requires 0.0 < t.damping
    ensures |rs| == |rows|
    ensures forall i :: 0 <= i < |rows| && i !in ids ==> rs[i] == rows[i]
  {
    seq(|rows|, i requires 0 <= i < |rows| => if i in ids then DecayRow(t, cfg, rows[i], run, at, now) else rows[i])
  }

  datatype Pass = Pass(run: nat, at: Time, now: Time)

  function SweepRow(t: Tuning, cfg: Config, r: Row, p: Pass): Row
    requires 0.0 < t.damping
  {
    if Eligible(r, p.run) then DecayRow(t, cfg, r, p.run, p.at, p.now) else r
  }

  function SweepRows(t: Tuning, cfg: Config, r: Row, passes: seq<Pass>): Row
    requires 0.0 < t.damping
    decreases |passes|
  {
    if passes == [] then r
    else SweepRow(t, cfg, SweepRows(t, cfg, r, passes[..|passes| - 1]), passes[|passes| - 1])
  }

  /** Sweeps at nondecreasing times, each under a run id of its own. */
  predicate Nightly(r: Row, passes: seq<Pass>) {
    && passes != [] && r.decayRun != Some(passes[0].run)
    && forall k :: 0 < k < |passes| ==> passes[k - 1].at <= passes[k].at && passes[k - 1].run != passes[k].run
  }

  lemma WeightFallsOverTime(t: Tuning, cfg: Config, r: Row, early: Time, late: Time)
    requires Sound(t, cfg) && early <= late
    ensures WeightAt(t, cfg, r, late) <= WeightAt(t, cfg, r, early)
  {
    PeakGrows(cfg, r.reinforcements, r.reinforcements);
    var a, b := AgeInDays(r.accessedAt, early), AgeInDays(r.accessedAt, late);
    if early < late {
      QuotientGrows((early - r.accessedAt) as real, (late - r.accessedAt) as real, SECONDS_PER_DAY);
    }
    if a < b {
      DecayFallsWithAge(t, cfg, a, b, r.reinforcements, PeakWeight(cfg, r.reinforcements));
    }
  }

  /** Any number of sweeps archive exactly the rows the last one alone would, leave
      every other live row equal in every field to what the last one alone makes of
      it, and do not touch a soft-deleted or already archived row. */
  lemma {:induction false} HistoryIndependence(t: Tuning, cfg: Config, r: Row, passes: seq<Pass>)
    requires Sound(t, cfg) && Nightly(r, passes)
    ensures var many := SweepRows(t, cfg, r, passes);
            var last := passes[|passes| - 1];
            var once := SweepRow(t, cfg, r, last);
            && (!Live(r) || r.archivedAt.Some? ==> many == r)
            && (Live(r) && r.archivedAt.None? ==>
                  && (many.archivedAt.Some? <==> WeightAt(t, cfg, r, last.at) < t.threshold)
                  && (many.archivedAt.None? ==> many == DecayRow(t, cfg, r, last.run, last.at, last.now))
                  && many.accessedAt == r.accessedAt && many.reinforcements == r.reinforcements)
            && (many.archivedAt.None? && r.decayRun != Some(last.run) ==> many == once)
    decreases |passes|
  {
    var init := passes[..|passes| - 1];
    var last := passes[|passes| - 1];
    if init == [] {
      assert SweepRows(t, cfg, r, init) == r;
    } else {
      HistoryIndependence(t, cfg, r, init);
      var prior := init[|init| - 1];
      assert prior == passes[|passes| - 2];
      WeightFallsOverTime(t, cfg, r, prior.at, last.at);
    }
  }

  /** Sweeping again at the same time changes nothing but the run stamp. */
  lemma SweepIdempotent(t: Tuning, cfg: Config, r: Row, first: Pass, again: Pass)
    requires Sound(t, cfg) && first.at == again.at
    requires Eligible(r, first.run) && first.run != again.run
    ensures var one := SweepRow(t, cfg, r, first);
            var two := SweepRow(t, cfg, one, again);
            two == one.(decayRun := two.decayRun)
            && two.decayRun == if one.archivedAt.Some? then Some(first.run) else Some(again.run)
  {
  }
}
