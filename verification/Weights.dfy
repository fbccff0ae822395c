/** The stored weight under every interleaving of captures and sweeps. */
module Weights {
  import opened Common
  import opened Memories
  import opened Reflection
  import opened Decay
  import opened Effects
  import opened Lifecycle
  import opened Integrity

  /** Within [floor, peak]; exactly at the peak while no sweep has run. */
  predicate WeightOk(env: Env, r: Row, swept: bool) {
    var peak := PeakWeight(env.cfg, r.reinforcements);
    if swept then env.tuning.floor <= r.weight <= peak else r.weight == peak
  }

  predicate Weighed(env: Env, rows: seq<Row>, swept: bool) {
    forall i :: 0 <= i < |rows| ==> WeightOk(env, rows[i], swept)
  }

  /** Old rows keep weight and count; new rows have the column defaults. */
  predicate SameWeights(a: seq<Row>, b: seq<Row>) {
    && |a| <= |b|
    && (forall i :: 0 <= i < |a| ==> b[i].weight == a[i].weight && b[i].reinforcements == a[i].reinforcements)
    && (forall i :: |a| <= i < |b| ==> b[i].weight == 1.0 && b[i].reinforcements == 0)
  }

  lemma SameWeightsWeighed(env: Env, a: seq<Row>, b: seq<Row>, swept: bool)
    requires Sound(env.tuning, env.cfg) && Weighed(env, a, swept) && SameWeights(a, b)
    ensures Weighed(env, b, swept)
  {
    forall i | 0 <= i < |b| ensures WeightOk(env, b[i], swept) {
      if i < |a| {
        assert WeightOk(env, a[i], swept);
      } else {
        assert env.cfg.increment * 0 as real == 0.0;
      }
    }
  }

  /** Reinforcing moves a row from one peak towards the next, and onto it from the
      peak: the capture writer and the decay job agree on what a row is worth. */
  lemma ReinforcedWeight(env: Env, r: Row, now: Time, swept: bool)
    requires Sound(env.tuning, env.cfg) && WeightOk(env, r, swept)
    ensures WeightOk(env, ReinforcedRow(r, env.cfg, now), swept)
  {
    NextPeak(env.cfg, r.reinforcements);
    PeakGrows(env.cfg, r.reinforcements, r.reinforcements);
  }

  lemma Spread(k: real, n: nat)
    ensures k * (n + 1) as real == k * n as real + k
  {}

  /** One increment on a peak, capped, is the next peak. */
  lemma NextPeak(cfg: Config, n: nat)
    requires 0.0 <= cfg.increment
    ensures PeakWeight(cfg, n + 1) == Min(PeakWeight(cfg, n) + cfg.increment, cfg.ceiling)
  {
    Spread(cfg.increment, n);
  }

  /** Decay starts over at a reinforcement: a sweep at that moment gives the row the peak
      of its new count, which a row never swept already carries. */
  lemma ReinforcementRestarts(env: Env, r: Row, now: Time)
    requires Sound(env.tuning, env.cfg)
    ensures var after := ReinforcedRow(r, env.cfg, now);
            && WeightAt(env.tuning, env.cfg, after, now) == PeakWeight(env.cfg, after.reinforcements)
            && (WeightOk(env, r, false) ==> WeightAt(env.tuning, env.cfg, after, now) == after.weight)
  {
    var after := ReinforcedRow(r, env.cfg, now);
    var peak := PeakWeight(env.cfg, after.reinforcements);
    PeakGrows(env.cfg, after.reinforcements, after.reinforcements);
    assert AgeInDays(after.accessedAt, now) == 0.0;
    DecayBounds(env.tuning, env.cfg, 0.0, after.reinforcements, peak);
    if WeightOk(env, r, false) {
      ReinforcedWeight(env, r, now, false);
    }
  }

  /** And no later sweep ever finds the row lighter for having been reinforced. */
  lemma ReinforcementNeverLowers(env: Env, r: Row, now: Time, at: Time)
    requires Sound(env.tuning, env.cfg) && r.accessedAt <= now
    ensures WeightAt(env.tuning, env.cfg, r, at) <= WeightAt(env.tuning, env.cfg, ReinforcedRow(r, env.cfg, now), at)
  {
    var n := r.reinforcements;
    var young, older := AgeInDays(now, at), AgeInDays(r.accessedAt, at);
    PeakGrows(env.cfg, n, n + 1);
    if r.accessedAt < now {
      QuotientGrows((at - now) as real, (at - r.accessedAt) as real, SECONDS_PER_DAY);
    }
    if young < older {
      DecayFallsWithAge(env.tuning, env.cfg, young, older, n, PeakWeight(env.cfg, n));
    }
    WeightRisesWithReinforcement(env.tuning, env.cfg, young, n, n + 1);
  }

  lemma ApplyWeighed(env: Env, st: Store, who: Session, c: Candidate, d: Decision, now: Time, swept: bool)
    requires Sound(env.tuning, env.cfg) && Linked(st.rows) && Weighed(env, st.rows, swept)
    ensures Weighed(env, Apply(st, who, c, d, env.cfg, now).rows, swept)
  {
    var after := Apply(st, who, c, d, env.cfg, now);
    match d {
      case Block(_) =>
      case Ignore(_) =>
      case Repeat(near) =>
        if Mutable(st, who, near) {
          ReinforcedWeight(env, st.rows[near], now, swept);
        }
      case Add =>
        InsertRows(st, who, c, now);
        SameWeightsWeighed(env, st.rows, after.rows, swept);
    }
  }

  lemma {:induction false} CaptureWeighed(env: Env, st: Store, who: Session, cs: seq<Candidate>, picks: seq<Pick>,
                          now: Time, swept: bool)
    requires Sound(env.tuning, env.cfg) && Tidy(st.rows) && Weighed(env, st.rows, swept) && |picks| == |cs|
    ensures Weighed(env, Capture(st, who, cs, picks, env.cfg, now).rows, swept)
    decreases |cs|
  {
    if cs != [] {
      var last := |cs| - 1;
      CaptureWeighed(env, st, who, cs[..last], picks[..last], now, swept);
      CaptureTidy(st, who, cs[..last], picks[..last], env.cfg, now);
      var before := Capture(st, who, cs[..last], picks[..last], env.cfg, now);
      ApplyWeighed(env, before, who, cs[last], Decide(before.rows, cs[last], picks[last], env.cfg), now, swept);
    }
  }

  lemma {:induction false} RebuildSameWeights(st: Store, who: Session, batch: seq<Id>, now: Time)
    requires Tidy(st.rows)
    ensures SameWeights(st.rows, Rebuild(st, who, batch, now).rows)
    decreases |batch|
  {
    if batch != [] {
      var init := batch[..|batch| - 1];
      var before, summary := Rebuild(st, who, init, now), batch[|batch| - 1];
      RebuildSameWeights(st, who, init, now);
      RebuildTidy(st, who, init, now);
      if Mutable(before, who, summary) {
        assert EdgeOk(before.rows, summary);
        RebuildOneRows(before, who, summary, now);
      }
    }
  }

  lemma SweptWeighed(env: Env, st: Store, run: nat, ids: set<Id>, at: Time, now: Time, swept: bool)
    requires Sound(env.tuning, env.cfg) && Weighed(env, st.rows, swept)
    ensures Weighed(env, DecayBatch(env, st, run, ids, at, now).rows, true)
  {
    var after := DecayBatch(env, st, run, ids, at, now);
    forall i | 0 <= i < |after.rows| ensures WeightOk(env, after.rows[i], true) {
      var r := st.rows[i];
      assert WeightOk(env, r, swept);
      PeakGrows(env.cfg, r.reinforcements, r.reinforcements);
      DecayBounds(env.tuning, env.cfg, AgeInDays(r.accessedAt, at), r.reinforcements,
                  PeakWeight(env.cfg, r.reinforcements));
    }
  }

  lemma WriteSameWeights(st: Store, who: Session, content: string, e: Embedding, read: map<Id, nat>, now: Time)
    ensures SameWeights(st.rows, WriteSummary(st, who, content, e, read, now).rows)
  {
    WriteRows(st, who, content, e, read, now);
    WriteEffectSameWeights(st.rows, WriteSummary(st, who, content, e, read, now).rows, who, content, e, read, now);
  }

  lemma WriteEffectSameWeights(a: seq<Row>, b: seq<Row>, who: Session, content: string, e: Embedding, read: map<Id,
                          nat>, now: Time)
    requires WriteEffect(a, b, who, content, e, read, now)
    ensures SameWeights(a, b)
  {}

  /** Steps that only mark, delete, edit or read. */
  lemma PlainStepSameWeights(env: Env, sys: System, step: Step)
    requires Enabled(env, sys, step)
    requires !step.CaptureBatch? && !step.Settle? && !step.WriteUp? && !step.RebuildStale? && !step.SweepBatch?
    ensures SameWeights(sys.store.rows, StoreAfter(env, sys, step).rows)
  {}

  lemma StepWeighed(env: Env, sys: System, step: Step, swept: bool)
    requires Sound(env.tuning, env.cfg) && Enabled(env, sys, step)
    requires Tidy(sys.store.rows) && Weighed(env, sys.store.rows, swept)
    ensures Weighed(env, StoreAfter(env, sys, step).rows, swept || step.SweepBatch?)
  {
    var st, after := sys.store, StoreAfter(env, sys, step);
    match step {
      case CaptureBatch(who, cs, picks, now) => CaptureWeighed(env, st, who, cs, picks, now, swept);
      case Settle(op, now) =>
        ApplyWeighed(env, st, sys.captures[op].who, sys.captures[op].c, sys.captures[op].decision.value, now, swept);
      case WriteUp(run, content, e, now) =>
        WriteSameWeights(st, sys.selected[run].who, content, e, sys.selected[run].read, now);
        SameWeightsWeighed(env, st.rows, after.rows, swept);
      case RebuildStale(who, batch, now) =>
        RebuildSameWeights(st, who, batch, now);
        SameWeightsWeighed(env, st.rows, after.rows, swept);
      case SweepBatch(run, ids, at, now) => SweptWeighed(env, st, run, ids, at, now, swept);
      case _ =>
        PlainStepSameWeights(env, sys, step);
        SameWeightsWeighed(env, st.rows, after.rows, swept);
    }
  }

  predicate AnySweep(steps: seq<Step>) {
    exists k :: 0 <= k < |steps| && steps[k].SweepBatch?
  }

  /** After every run, floor <= weight <= peak(reinforcements) <= ceiling; and while
      nothing has been swept, weight is exactly the peak. */
  lemma {:induction false} WeightsBounded(env: Env, steps: seq<Step>)
    requires Sound(env.tuning, env.cfg) && Possible(env, steps)
    ensures Weighed(env, After(env, steps).store.rows, AnySweep(steps))
    ensures forall i :: 0 <= i < |After(env, steps).store.rows| ==>
              env.tuning.floor <= After(env, steps).store.rows[i].weight <= env.cfg.ceiling
    decreases |steps|
  {
    if steps != [] {
      var init := steps[..|steps| - 1];
      WeightsBounded(env, init);
      RunTidy(env, init);
      StepWeighed(env, After(env, init), steps[|steps| - 1], AnySweep(init));
      assert AnySweep(init) ==> AnySweep(steps) by {
        if AnySweep(init) {
          var k :| 0 <= k < |init| && init[k].SweepBatch?;
          assert steps[k].SweepBatch?;
        }
      }
      assert steps[|steps| - 1].SweepBatch? ==> AnySweep(steps);
      assert AnySweep(steps) ==> AnySweep(init) || steps[|steps| - 1].SweepBatch? by {
        if AnySweep(steps) {
          var k :| 0 <= k < |steps| && steps[k].SweepBatch?;
          assert k < |init| ==> init[k].SweepBatch?;
        }
      }
    }
    var rows := After(env, steps).store.rows;
    forall i | 0 <= i < |rows| ensures env.tuning.floor <= rows[i].weight <= env.cfg.ceiling {
      assert WeightOk(env, rows[i], AnySweep(steps));
      PeakGrows(env.cfg, rows[i].reinforcements, rows[i].reinforcements);
    }
  }
}
