/** Who can touch whose memories: every operation of a session leaves other sessions'
    rows alone, and a subject nobody acts for keeps its rows and its trail. */
module Isolation {
  import opened Common
  import opened Memories
  import opened Reflection
  import opened Effects
  import opened Lifecycle
  import opened Captures

  /** Rows never change hands. */
  predicate SameOwners(a: seq<Row>, b: seq<Row>) {
    |a| <= |b| && forall i :: 0 <= i < |a| ==> b[i].subject == a[i].subject && b[i].actor == a[i].actor
  }

  /** An entry is signed by the session and is about a row of its own. */
  predicate OwnEntry(e: Entry, rows: seq<Row>, who: Session) {
    e.subject == who.subject && e.actor == who.actor && e.memory < |rows| && Visible(rows[e.memory], who)
  }

  /** The session changed its own rows only, added rows of its own only, and logged
      entries about its own rows only. */
  predicate Isolated(a: Store, b: Store, who: Session) {
    && SameOwners(a.rows, b.rows) && a.audit <= b.audit
    && (forall i :: 0 <= i < |a.rows| && !Visible(a.rows[i], who) ==> b.rows[i] == a.rows[i])
    && (forall i :: |a.rows| <= i < |b.rows| ==> Visible(b.rows[i], who))
    && (forall e :: |a.audit| <= e < |b.audit| ==> OwnEntry(b.audit[e], b.rows, who))
  }

  lemma IsolatedTransitive(a: Store, b: Store, c: Store, who: Session)
    requires Isolated(a, b, who) && Isolated(b, c, who)
    ensures Isolated(a, c, who)
  {
    forall e | |a.audit| <= e < |c.audit| ensures OwnEntry(c.audit[e], c.rows, who) {
      if e < |b.audit| {
        assert c.audit[e] == b.audit[e] && OwnEntry(b.audit[e], b.rows, who);
      }
    }
  }

  // ---- each operation ---------------------------------------------------------------------

  lemma LogIsolated(st: Store, who: Session, id: Id, event: Event)
    requires id < |st.rows| && Visible(st.rows[id], who)
    ensures Isolated(st, Log(st, who, id, event), who)
  {}

  lemma {:induction false} LogEachIsolated(st: Store, who: Session, ids: seq<Id>, event: Event)
    requires forall k :: 0 <= k < |ids| ==> ids[k] < |st.rows| && Visible(st.rows[ids[k]], who)
    ensures Isolated(st, LogEach(st, who, ids, event), who)
    decreases |ids|
  {
    if ids != [] {
      var init := ids[..|ids| - 1];
      LogEachIsolated(st, who, init, event);
      LogEachRows(st, who, init, event);
      LogIsolated(LogEach(st, who, init, event), who, ids[|ids| - 1], event);
      IsolatedTransitive(st, LogEach(st, who, init, event), LogEach(st, who, ids, event), who);
    }
  }

  /** The in-transaction cascade stays inside the session. */
  lemma MarkStaleIsolated(st: Store, who: Session, source: Id, now: Time)
    ensures Isolated(st, MarkStale(st, who, source, now, false), who)
  {}

  lemma {:induction false} CascadeIsolated(st: Store, who: Session, successor: Id, retired: seq<Id>, now: Time)
    requires forall k :: 0 <= k < |retired| ==> retired[k] < |st.rows| && Visible(st.rows[retired[k]], who)
    ensures Isolated(st, CascadeEach(st, who, successor, retired, now), who)
    decreases |retired|
  {
    if retired != [] {
      var last := |retired| - 1;
      var before := CascadeEach(st, who, successor, retired[..last], now);
      CascadeIsolated(st, who, successor, retired[..last], now);
      MarkStaleIsolated(before, who, retired[last], now);
      var marked := MarkStale(before, who, retired[last], now, false);
      IsolatedTransitive(st, before, marked, who);
      LogIsolated(marked, who, retired[last], Superseded(successor));
      IsolatedTransitive(st, marked, CascadeEach(st, who, successor, retired, now), who);
    }
  }

  lemma SupersedeIsolated(st: Store, who: Session, attribute: string, successor: Id, now: Time)
    ensures Isolated(st, SupersedeSlot(st, who, attribute, successor, now), who)
  {
    var retired := st.(rows := Retire(st.rows, who, attribute, successor, now));
    var ids := Occupants(st.rows, who, attribute, successor);
    assert forall k :: 0 <= k < |ids| ==> ids[k] in ids;
    CascadeIsolated(retired, who, successor, ids, now);
    assert Isolated(st, retired, who);
    IsolatedTransitive(st, retired, SupersedeSlot(st, who, attribute, successor, now), who);
  }

  lemma InsertIsolated(st: Store, who: Session, c: Candidate, now: Time)
    ensures Isolated(st, InsertCandidate(st, who, c, now), who)
  {
    var n := |st.rows|;
    var inserted := Append(st, CandidateRow(who, c, now));
    assert Isolated(st, inserted, who);
    var settled := inserted;
    if IsSingleValued(SlotOf(c)) {
      settled := SupersedeSlot(inserted, who, SlotOf(c).value, n, now);
      SupersedeIsolated(inserted, who, SlotOf(c).value, n, now);
      IsolatedTransitive(st, inserted, settled, who);
    }
    LogIsolated(settled, who, n, Inserted);
    IsolatedTransitive(st, settled, InsertCandidate(st, who, c, now), who);
  }

  lemma ApplyIsolated(st: Store, who: Session, c: Candidate, d: Decision, cfg: Config, now: Time)
    requires d.Repeat? ==> d.near < |st.rows| && Visible(st.rows[d.near], who)
    ensures Isolated(st, Apply(st, who, c, d, cfg, now), who)
  {
    match d {
      case Block(_) =>
      case Ignore(_) =>
      case Repeat(near) =>
        assert Isolated(st, Reinforce(st, who, near, cfg, now), who);
        LogIsolated(Reinforce(st, who, near, cfg, now), who, near, Reinforced);
        IsolatedTransitive(st, Reinforce(st, who, near, cfg, now), Apply(st, who, c, d, cfg, now), who);
      case Add => InsertIsolated(st, who, c, now);
    }
  }

  lemma {:induction false} CaptureIsolated(st: Store, who: Session, cs: seq<Candidate>, picks: seq<Pick>, cfg: Config,
                                           now: Time)
    requires |picks| == |cs| && ValidPicks(st, who, cs, picks, cfg, now)
    ensures Isolated(st, Capture(st, who, cs, picks, cfg, now), who)
    decreases |cs|
  {
    if cs != [] {
      var last := |cs| - 1;
      var before := Capture(st, who, cs[..last], picks[..last], cfg, now);
      CaptureIsolated(st, who, cs[..last], picks[..last], cfg, now);
      ApplyIsolated(before, who, cs[last], Decide(before.rows, cs[last], picks[last], cfg), cfg, now);
      IsolatedTransitive(st, before, Capture(st, who, cs, picks, cfg, now), who);
    }
  }

  lemma WriteIsolated(st: Store, who: Session, content: string, e: Embedding, read: map<Id, nat>, now: Time)
    ensures Isolated(st, WriteSummary(st, who, content, e, read, now), who)
  {
    var filed := FileSummary(st, who, content, e, read, now);
    var ids := Claimed(st.rows, who, read);
    assert Isolated(st, filed, who);
    assert forall k :: 0 <= k < |ids| ==> ids[k] in ids;
    LogEachIsolated(filed, who, ids, Consolidated(|st.rows|));
    IsolatedTransitive(st, filed, WriteSummary(st, who, content, e, read, now), who);
  }

  lemma RebuildOneIsolated(st: Store, who: Session, summary: Id, now: Time)
    ensures Isolated(st, RebuildOne(st, who, summary, now), who)
  {
    if Mutable(st, who, summary) {
      var retired := RetireSummary(st, who, summary, now);
      var freed := retired.(rows := Free(retired.rows, who, summary));
      var ids := Freed(retired.rows, who, summary);
      assert Isolated(st, freed, who);
      assert forall k :: 0 <= k < |ids| ==> ids[k] in ids;
      LogEachIsolated(freed, who, ids, Unconsolidated(summary));
      IsolatedTransitive(st, freed, RebuildOne(st, who, summary, now), who);
    }
  }

  lemma {:induction false} RebuildIsolated(st: Store, who: Session, batch: seq<Id>, now: Time)
    ensures Isolated(st, Rebuild(st, who, batch, now), who)
    decreases |batch|
  {
    if batch != [] {
      var init := batch[..|batch| - 1];
      RebuildIsolated(st, who, init, now);
      RebuildOneIsolated(Rebuild(st, who, init, now), who, batch[|batch| - 1], now);
      IsolatedTransitive(st, Rebuild(st, who, init, now), Rebuild(st, who, batch, now), who);
    }
  }

  // ---- every step ---------------------------------------------------------------------------

  /** The session a step acts for. A sweep acts for nobody. */
  function ActsFor(sys: System, step: Step): Option<Session> {
    match step
    case CaptureBatch(who, _, _, _) => Some(who)
    case Settle(op, _) => if op in sys.captures then Some(sys.captures[op].who) else None
    case Invalidate(_, who, _, _) => Some(who)
    case FinishDelete(op, _) => if op in sys.pending then Some(sys.pending[op].who) else None
    case FinishEdit(op, _, _) => if op in sys.pending then Some(sys.pending[op].who) else None
    case WriteUp(run, _, _, _) => if run in sys.selected then Some(sys.selected[run].who) else None
    case RebuildStale(who, _, _) => Some(who)
    case _ => None
  }

  /** Every step but the owner-side invalidation and the sweep stays inside its session. */
  lemma StepIsolated(env: Env, sys: System, step: Step, who: Session)
    requires Enabled(env, sys, step) && CapturesOk(env, sys) && ActsFor(sys, step) == Some(who) && !step.Invalidate?
    ensures Isolated(sys.store, StoreAfter(env, sys, step), who)
  {
    var st := sys.store;
    match step {
      case CaptureBatch(_, cs, picks, now) => CaptureIsolated(st, who, cs, picks, env.cfg, now);
      case Settle(op, now) =>
        assert InflightOk(st.rows, sys.captures[op], env.cfg);
        ApplyIsolated(st, who, sys.captures[op].c, sys.captures[op].decision.value, env.cfg, now);
      case WriteUp(run, content, e, now) => WriteIsolated(st, who, content, e, sys.selected[run].read, now);
      case RebuildStale(_, batch, now) => RebuildIsolated(st, who, batch, now);
      case _ =>
    }
  }

  /** What the sweep may do to a row. */
  predicate OnlyDecayed(a: Row, b: Row) {
    b == a.(weight := b.weight, archivedAt := b.archivedAt, decayRun := b.decayRun)
  }

  /** A subject's rows at most decayed, none were added, and nothing was logged about them
      or in its name. */
  predicate LeftAlone(a: Store, b: Store, subject: Party) {
    && SameOwners(a.rows, b.rows) && a.audit <= b.audit
    && (forall i :: 0 <= i < |a.rows| && a.rows[i].subject == subject ==> OnlyDecayed(a.rows[i], b.rows[i]))
    && (forall i :: |a.rows| <= i < |b.rows| ==> b.rows[i].subject != subject)
    && (forall e :: |a.audit| <= e < |b.audit| ==> NotAbout(b.audit[e], b.rows, subject))
  }

  predicate NotAbout(e: Entry, rows: seq<Row>, subject: Party) {
    e.subject != subject && e.memory < |rows| && rows[e.memory].subject != subject
  }

  lemma LeftAloneTransitive(a: Store, b: Store, c: Store, subject: Party)
    requires LeftAlone(a, b, subject) && LeftAlone(b, c, subject)
    ensures LeftAlone(a, c, subject)
  {
    forall e | |a.audit| <= e < |c.audit| ensures NotAbout(c.audit[e], c.rows, subject) {
      if e < |b.audit| {
        assert c.audit[e] == b.audit[e] && NotAbout(b.audit[e], b.rows, subject);
      }
    }
  }

  lemma IsolatedLeavesAlone(a: Store, b: Store, who: Session, subject: Party)
    requires Isolated(a, b, who) && who.subject != subject
    ensures LeftAlone(a, b, subject)
  {
    forall e | |a.audit| <= e < |b.audit| ensures NotAbout(b.audit[e], b.rows, subject) {
      assert OwnEntry(b.audit[e], b.rows, who);
    }
  }

  /** Any step that does not act for a subject leaves the subject alone, the owner-side
      invalidation, which row-level security does not filter, included. */
  lemma StepLeavesAlone(env: Env, sys: System, step: Step, subject: Party)
    requires Enabled(env, sys, step) && CapturesOk(env, sys)
    requires ActsFor(sys, step).Some? ==> ActsFor(sys, step).value.subject != subject
    ensures LeftAlone(sys.store, StoreAfter(env, sys, step), subject)
  {
    var st, after := sys.store, StoreAfter(env, sys, step);
    if step.SweepBatch? {
      SweepLeavesAlone(env, st, step.decayRun, step.ids, step.at, step.now, subject);
    } else if !step.Invalidate? && ActsFor(sys, step).Some? {
      StepIsolated(env, sys, step, ActsFor(sys, step).value);
      IsolatedLeavesAlone(st, after, ActsFor(sys, step).value, subject);
    }
  }

  lemma SweepLeavesAlone(env: Env, st: Store, run: nat, ids: set<Id>, at: Time, now: Time, subject: Party)
    requires 0.0 < env.tuning.damping
    ensures LeftAlone(st, DecayBatch(env, st, run, ids, at, now), subject)
  {}

  predicate NobodyActsFor(env: Env, steps: seq<Step>, from: nat, subject: Party)
    requires Possible(env, steps) && from <= |steps|
    decreases |steps|
  {
    from == |steps| ||
    var init := steps[..|steps| - 1];
    var actor := ActsFor(After(env, init), steps[|steps| - 1]);
    NobodyActsFor(env, init, from, subject) && (actor.Some? ==> actor.value.subject != subject)
  }

  /** Over any stretch of any run in which nobody acts for a subject, the subject's rows
      keep every column but the three the sweep owns, and its trail does not grow. */
  lemma {:induction false} SubjectLeftAlone(env: Env, steps: seq<Step>, from: nat, subject: Party)
    requires Possible(env, steps) && from <= |steps| && NobodyActsFor(env, steps, from, subject)
    ensures Possible(env, steps[..from])
    ensures LeftAlone(After(env, steps[..from]).store, After(env, steps).store, subject)
    decreases |steps|
  {
    if from == |steps| {
      assert steps[..from] == steps;
    } else {
      var init := steps[..|steps| - 1];
      SubjectLeftAlone(env, init, from, subject);
      assert init[..from] == steps[..from];
      RunCaptures(env, init);
      StepLeavesAlone(env, After(env, init), steps[|steps| - 1], subject);
      LeftAloneTransitive(After(env, steps[..from]).store, After(env, init).store, After(env, steps).store, subject);
    }
  }
}
