/** What every step of the system keeps: tombstones and pointers are written once,
    pointers stay well formed, and a single-valued slot has at most one current
    value. */
module Integrity {
  import opened Common
  import opened Memories
  import opened Reflection
  import opened Effects
  import opened Lifecycle

  /** At most one current row per subject, actor and single-valued attribute. */
  predicate Slots(rows: seq<Row>) {
    forall i, j :: 0 <= i < j < |rows| && SameSlot(rows[i], rows[j]) ==> !(Current(rows[i]) && Current(rows[j]))
  }

  predicate Tidy(rows: seq<Row>) {
    Linked(rows) && Slots(rows)
  }

  /** Supersession is untouched, a consolidation edge may only be dropped, and only a
      summary may be marked stale. */
  predicate SamePointers(a: Row, b: Row) {
    && Keeps(a, b)
    && b.supersededAt == a.supersededAt && b.supersededBy == a.supersededBy
    && (|| (b.consolidatedAt == a.consolidatedAt && b.consolidatedInto == a.consolidatedInto)
        || (b.consolidatedAt.None? && b.consolidatedInto.None?))
    && (b.staleAt == a.staleAt || a.source == Some(REFLECTION))
  }

  lemma TidyFrame(a: seq<Row>, b: seq<Row>)
    requires Tidy(a) && |b| == |a|
    requires forall i :: 0 <= i < |a| ==> SamePointers(a[i], b[i])
    ensures Tidy(b)
  {
    forall i | 0 <= i < |b| ensures SuccessorOk(b, i) && EdgeOk(b, i) && StaleOk(b[i]) {
      assert SuccessorOk(a, i) && EdgeOk(a, i) && StaleOk(a[i]) && SamePointers(a[i], b[i]);
    }
    forall i, j | 0 <= i < j < |b| && SameSlot(b[i], b[j]) ensures !(Current(b[i]) && Current(b[j])) {
      assert SamePointers(a[i], b[i]) && SamePointers(a[j], b[j]);
      assert SameSlot(a[i], a[j]);
    }
  }

  // ---- capture --------------------------------------------------------------------

  lemma InsertEffectTidy(a: seq<Row>, b: seq<Row>, who: Session, c: Candidate, now: Time)
    requires Tidy(a) && InsertEffect(a, b, who, c, now)
    ensures Tidy(b)
    ensures forall i :: 0 <= i < |a| ==> Keeps(a[i], b[i])
  {
    var n := |a|;
    forall i | 0 <= i < n ensures Keeps(a[i], b[i]) && SuccessorOk(b, i) && EdgeOk(b, i) && StaleOk(b[i]) {
      assert SuccessorOk(a, i) && EdgeOk(a, i) && StaleOk(a[i]);
    }
    forall i, j | 0 <= i < j < |b| && SameSlot(b[i], b[j]) ensures !(Current(b[i]) && Current(b[j])) {
      if j < n {
        assert SameSlot(a[i], a[j]);
      } else {
        assert Current(b[i]) ==> Supersedes(a[i], who, c);
      }
    }
  }

  lemma InsertTidy(st: Store, who: Session, c: Candidate, now: Time)
    requires Tidy(st.rows)
    ensures Tidy(InsertCandidate(st, who, c, now).rows)
    ensures Evolves(st, InsertCandidate(st, who, c, now))
  {
    InsertRows(st, who, c, now);
    InsertEffectTidy(st.rows, InsertCandidate(st, who, c, now).rows, who, c, now);
  }

  lemma ApplyTidy(st: Store, who: Session, c: Candidate, d: Decision, cfg: Config, now: Time)
    requires Tidy(st.rows)
    ensures Tidy(Apply(st, who, c, d, cfg, now).rows)
    ensures Evolves(st, Apply(st, who, c, d, cfg, now))
  {
    var after := Apply(st, who, c, d, cfg, now);
    match d {
      case Block(_) =>
      case Ignore(_) =>
      case Repeat(near) => TidyFrame(st.rows, after.rows);
      case Add => InsertTidy(st, who, c, now);
    }
  }

  lemma {:induction false} CaptureTidy(st: Store, who: Session, cs: seq<Candidate>, picks: seq<Pick>, cfg: Config,
                          now: Time)
    requires Tidy(st.rows) && |picks| == |cs|
    ensures Tidy(Capture(st, who, cs, picks, cfg, now).rows)
    ensures Evolves(st, Capture(st, who, cs, picks, cfg, now))
    decreases |cs|
  {
    if cs != [] {
      var last := |cs| - 1;
      var before := Capture(st, who, cs[..last], picks[..last], cfg, now);
      CaptureTidy(st, who, cs[..last], picks[..last], cfg, now);
      ApplyTidy(before, who, cs[last], Decide(before.rows, cs[last], picks[last], cfg), cfg, now);
      EvolvesTransitive(st, before, Capture(st, who, cs, picks, cfg, now));
    }
  }

  // ---- user mutations, reflection, decay --------------------------------------------

  lemma MutationTidy(st: Store, after: Store)
    requires Tidy(st.rows) && |after.rows| == |st.rows| && st.audit <= after.audit
    requires forall i :: 0 <= i < |st.rows| ==> SamePointers(st.rows[i], after.rows[i])
    ensures Tidy(after.rows) && Evolves(st, after)
  {
    TidyFrame(st.rows, after.rows);
  }

  /** A source row either keeps its pointers or gains an edge to the new summary. */
  predicate MayJoin(a: Row, b: Row, i: Id, summary: Row, n: Id) {
    && Keeps(a, b) && b.staleAt == a.staleAt && b.supersededAt == a.supersededAt && b.supersededBy == a.supersededBy
    && (|| (b.consolidatedAt == a.consolidatedAt && b.consolidatedInto == a.consolidatedInto)
        || (&& b.consolidatedAt.Some? && b.consolidatedInto == Some(n)
            && a.subject == summary.subject && a.actor == summary.actor
            && a.source != Some(REFLECTION) && i in summary.folded))
  }

  lemma JoinTidy(a: seq<Row>, b: seq<Row>)
    requires Tidy(a) && |b| == |a| + 1
    requires forall i :: 0 <= i < |a| ==> MayJoin(a[i], b[i], i, b[|a|], |a|)
    requires b[|a|].source == Some(REFLECTION) && b[|a|].attribute.None? && b[|a|].supersededAt.None?
    requires b[|a|].supersededBy.None? && b[|a|].staleAt.None? && b[|a|].consolidatedAt.None?
          && b[|a|].consolidatedInto.None?
    ensures Tidy(b)
  {
    forall i | 0 <= i < |b| ensures SuccessorOk(b, i) && EdgeOk(b, i) && StaleOk(b[i]) {
      if i < |a| {
        assert StaleOk(a[i]);
        assert SuccessorOk(a, i) && EdgeOk(a, i) && MayJoin(a[i], b[i], i, b[|a|], |a|);
        var edge := a[i].consolidatedInto;
        assert edge.Some? ==> MayJoin(a[edge.value], b[edge.value], edge.value, b[|a|], |a|);
        var next := a[i].supersededBy;
        assert next.Some? ==> MayJoin(a[next.value], b[next.value], next.value, b[|a|], |a|);
      }
    }
    forall i, j | 0 <= i < j < |b| && SameSlot(b[i], b[j]) ensures !(Current(b[i]) && Current(b[j])) {
      assert MayJoin(a[i], b[i], i, b[|a|], |a|) && MayJoin(a[j], b[j], j, b[|a|], |a|);
      assert SameSlot(a[i], a[j]);
    }
  }

  lemma WriteEffectTidy(a: seq<Row>, b: seq<Row>, who: Session, content: string, e: Embedding, read: map<Id, nat>,
                        now: Time)
    requires Tidy(a) && WriteEffect(a, b, who, content, e, read, now)
    requires forall i :: i in read && i < |a| ==> a[i].source != Some(REFLECTION)
    ensures Tidy(b)
    ensures forall i :: 0 <= i < |a| ==> Keeps(a[i], b[i])
  {
    JoinTidy(a, b);
  }

  lemma WriteTidy(st: Store, who: Session, content: string, e: Embedding, read: map<Id, nat>, now: Time)
    requires Tidy(st.rows)
    requires forall i :: i in read && i < |st.rows| ==> st.rows[i].source != Some(REFLECTION)
    ensures var after := WriteSummary(st, who, content, e, read, now);
            Tidy(after.rows) && Evolves(st, after)
  {
    WriteRows(st, who, content, e, read, now);
    WriteEffectTidy(st.rows, WriteSummary(st, who, content, e, read, now).rows, who, content, e, read, now);
  }

  lemma RebuildEffectTidy(a: seq<Row>, b: seq<Row>, who: Session, summary: Id, now: Time)
    requires Tidy(a) && RebuildEffect(a, b, who, summary, now)
    ensures Tidy(b)
    ensures forall i :: 0 <= i < |a| ==> Keeps(a[i], b[i])
  {
    TidyFrame(a, b);
  }

  lemma RebuildOneTidy(st: Store, who: Session, summary: Id, now: Time)
    requires Tidy(st.rows)
    ensures var after := RebuildOne(st, who, summary, now);
            Tidy(after.rows) && Evolves(st, after) && |after.rows| == |st.rows|
  {
    if Mutable(st, who, summary) {
      assert EdgeOk(st.rows, summary);
      RebuildOneRows(st, who, summary, now);
      RebuildEffectTidy(st.rows, RebuildOne(st, who, summary, now).rows, who, summary, now);
    }
  }

  lemma {:induction false} RebuildTidy(st: Store, who: Session, batch: seq<Id>, now: Time)
    requires Tidy(st.rows)
    ensures var after := Rebuild(st, who, batch, now);
            Tidy(after.rows) && Evolves(st, after) && |after.rows| == |st.rows|
    decreases |batch|
  {
    if batch != [] {
      var init := batch[..|batch| - 1];
      RebuildTidy(st, who, init, now);
      RebuildOneTidy(Rebuild(st, who, init, now), who, batch[|batch| - 1], now);
      EvolvesTransitive(st, Rebuild(st, who, init, now), Rebuild(st, who, batch, now));
    }
  }

  // ---- the system ---------------------------------------------------------------------

  /** Selections in flight name rows of their own session that are not summaries. */
  predicate SelectionsOk(sys: System) {
    forall run :: run in sys.selected ==> SelectionOk(sys.store.rows, sys.selected[run])
  }

  predicate SelectionOk(rows: seq<Row>, s: Selection) {
    forall i :: i in s.read ==> i < |rows| && Visible(rows[i], s.who) && rows[i].source != Some(REFLECTION)
  }

  lemma InvalidateTidy(st: Store, who: Session, id: Id, now: Time)
    requires Tidy(st.rows)
    ensures var after := MarkStale(st, who, id, now, true); Tidy(after.rows) && Evolves(st, after)
  {
    assert id < |st.rows| ==> EdgeOk(st.rows, id);
    MutationTidy(st, MarkStale(st, who, id, now, true));
  }

  lemma DeleteTidy(st: Store, who: Session, id: Id, now: Time)
    requires Tidy(st.rows)
    ensures Tidy(DeleteRow(st, who, id, now).rows) && Evolves(st, DeleteRow(st, who, id, now))
  {
    MutationTidy(st, DeleteRow(st, who, id, now));
  }

  lemma EditTidy(st: Store, who: Session, id: Id, content: string, e: Embedding)
    requires Tidy(st.rows)
    ensures Tidy(EditRow(st, who, id, content, e).rows) && Evolves(st, EditRow(st, who, id, content, e))
  {
    MutationTidy(st, EditRow(st, who, id, content, e));
  }

  lemma SweepTidy(env: Env, st: Store, run: nat, ids: set<Id>, at: Time, now: Time)
    requires Tidy(st.rows) && 0.0 < env.tuning.damping
    ensures var after := DecayBatch(env, st, run, ids, at, now); Tidy(after.rows) && Evolves(st, after)
  {
    MutationTidy(st, DecayBatch(env, st, run, ids, at, now));
  }

  lemma StoreTidy(env: Env, sys: System, step: Step)
    requires Enabled(env, sys, step) && Tidy(sys.store.rows) && SelectionsOk(sys)
    ensures Tidy(StoreAfter(env, sys, step).rows) && Evolves(sys.store, StoreAfter(env, sys, step))
  {
    var st := sys.store;
    match step {
      case CaptureBatch(who, cs, picks, now) => CaptureTidy(st, who, cs, picks, env.cfg, now);
      case Settle(op, now) =>
        ApplyTidy(st, sys.captures[op].who, sys.captures[op].c, sys.captures[op].decision.value, env.cfg, now);
      case Invalidate(_, who, id, now) => InvalidateTidy(st, who, id, now);
      case FinishDelete(op, now) => DeleteTidy(st, sys.pending[op].who, sys.pending[op].id, now);
      case FinishEdit(op, content, e) => EditTidy(st, sys.pending[op].who, sys.pending[op].id, content, e);
      case WriteUp(run, content, e, now) =>
        assert SelectionOk(st.rows, sys.selected[run]);
        WriteTidy(st, sys.selected[run].who, content, e, sys.selected[run].read, now);
      case RebuildStale(who, batch, now) => RebuildTidy(st, who, batch, now);
      case SweepBatch(run, ids, at, now) => SweepTidy(env, st, run, ids, at, now);
      case _ =>
    }
  }

  lemma StepTidy(env: Env, sys: System, step: Step)
    requires Enabled(env, sys, step) && Tidy(sys.store.rows) && SelectionsOk(sys)
    ensures var next := Next(env, sys, step);
            Tidy(next.store.rows) && SelectionsOk(next) && Evolves(sys.store, next.store)
  {
    StoreTidy(env, sys, step);
    var a, b, next := sys.store.rows, StoreAfter(env, sys, step).rows, Next(env, sys, step);
    forall run | run in next.selected ensures SelectionOk(b, next.selected[run]) {
      var s := next.selected[run];
      assert SelectionOk(a, s);
      forall i | i in s.read ensures i < |b| && Visible(b[i], s.who) && b[i].source != Some(REFLECTION) {
        assert Keeps(a[i], b[i]);
      }
    }
  }

  lemma {:induction false} RunTidy(env: Env, steps: seq<Step>)
    requires Possible(env, steps)
    ensures Tidy(After(env, steps).store.rows) && SelectionsOk(After(env, steps))
    decreases |steps|
  {
    if steps != [] {
      RunTidy(env, steps[..|steps| - 1]);
      StepTidy(env, After(env, steps[..|steps| - 1]), steps[|steps| - 1]);
    }
  }

  /** Over a whole run: nothing written once is ever rewritten, whatever happens
      between an earlier moment and a later one. */
  lemma {:induction false} RunEvolves(env: Env, steps: seq<Step>, k: nat)
    requires Possible(env, steps) && k <= |steps|
    ensures Possible(env, steps[..k])
    ensures Evolves(After(env, steps[..k]).store, After(env, steps).store)
    decreases |steps|
  {
    if k == |steps| {
      assert steps[..k] == steps;
    } else {
      var init := steps[..|steps| - 1];
      RunEvolves(env, init, k);
      assert init[..k] == steps[..k];
      RunTidy(env, init);
      StepTidy(env, After(env, init), steps[|steps| - 1]);
      EvolvesTransitive(After(env, steps[..k]).store, After(env, init).store, After(env, steps).store);
    }
  }

  /** At most one current row per single-valued slot, after every run. */
  lemma OneCurrentValuePerSlot(env: Env, steps: seq<Step>, i: Id, j: Id)
    requires Possible(env, steps)
    requires i < |After(env, steps).store.rows| && j < |After(env, steps).store.rows|
    requires var rows := After(env, steps).store.rows;
             SameSlot(rows[i], rows[j]) && Current(rows[i]) && Current(rows[j])
    ensures i == j
  {
    RunTidy(env, steps);
  }

  /** Follow supersession pointers to the present. */
  function Present(rows: seq<Row>, i: Id): Id
    requires Linked(rows) && i < |rows|
    decreases |rows| - i
  {
    assert SuccessorOk(rows, i);
    if rows[i].supersededBy.Some? then Present(rows, rows[i].supersededBy.value) else i
  }

  /** The chain from any row ends, no earlier than it started, at a row of the same
      slot that nothing has replaced; a replaced row's chain ends strictly later. */
  lemma {:induction false} ChainEndsInThePresent(rows: seq<Row>, i: Id)
    requires Linked(rows) && i < |rows|
    ensures var p := Present(rows, i);
            && i <= p < |rows| && rows[p].supersededAt.None?
            && (rows[i].supersededAt.Some? ==> i < p && SameSlot(rows[i], rows[p]))
            && (rows[i].supersededAt.None? ==> p == i)
    decreases |rows| - i
  {
    assert SuccessorOk(rows, i);
    if rows[i].supersededBy.Some? {
      ChainEndsInThePresent(rows, rows[i].supersededBy.value);
    }
  }
}
