/** The running system: the store plus the operations that other transactions can come
    in between. A delete or an edit first invalidates the summary of its row in one
    transaction and mutates the row in a later one; a reflection pass reads its cluster
    in one transaction and writes the summary in a later one. A capture is one
    transaction, but each of its statements sees what has committed by then: it looks a
    note up among the removed rows, looks a candidate up among the current ones, and
    then writes. Its lock keeps out other captures of the subject and nothing else, so
    anything but those may happen in between, and any operation may never finish. */
module Lifecycle {
  import opened Common
  import opened Memories
  import opened Reflection
  import opened Decay

  datatype Env = Env(cfg: Config, tuning: Tuning, rebuildLimit: nat, minCluster: nat, maxCluster: nat)

  datatype Mutation = Mutation(who: Session, id: Id)
  datatype Selection = Selection(who: Session, read: map<Id, nat>)

  /** A candidate on its way through capture: whether the removed rows blocked it, and
      what the current rows decided, once looked up. The last two fields are history: the
      tables the two queries saw. */
  datatype Inflight = Inflight(
    who: Session, c: Candidate, blocked: bool, decision: Option<Decision>, recalled: seq<Row>, looked: seq<Row>)

  datatype System = System(
    store: Store,
    pending: map<nat, Mutation>,
    selected: map<nat, Selection>,
    captures: map<nat, Inflight>)

  datatype Step =
    | CaptureBatch(who: Session, cs: seq<Candidate>, picks: seq<Pick>, now: Time)
    | Recall(op: nat, who: Session, c: Candidate, tombstone: Option<Id>)
    | Match(op: nat, nearest: Option<Id>)
    | Settle(op: nat, now: Time)
    | GiveUp(op: nat)
    | Invalidate(op: nat, who: Session, id: Id, now: Time)
    | FinishDelete(op: nat, now: Time)
    | FinishEdit(op: nat, content: string, e: Embedding)
    | Abandon(op: nat)
    | Select(run: nat, who: Session, ids: set<Id>)
    | WriteUp(run: nat, content: string, e: Embedding, now: Time)
    | Discard(run: nat)
    | RebuildStale(who: Session, batch: seq<Id>, now: Time)
    | SweepBatch(decayRun: nat, ids: set<Id>, at: Time, now: Time)

  const Initial := System(EmptyStore, map[], map[], map[])

  /** No capture of the subject holds its lock. */
  predicate Unlocked(sys: System, subject: Party) {
    forall op :: op in sys.captures ==> sys.captures[op].who.subject != subject
  }

  predicate Enabled(env: Env, sys: System, step: Step) {
    match step
    case CaptureBatch(who, cs, picks, now) =>
      Unlocked(sys, who.subject) && |picks| == |cs| && ValidPicks(sys.store, who, cs, picks, env.cfg, now)
    case Recall(op, who, c, tombstone) =>
      && op !in sys.captures && Unlocked(sys, who.subject)
      && (FromAssistant(c) && c.embedding.Some? ==>
            IsNearest(sys.store.rows, who, true, c.embedding.value, env.cfg, tombstone))
    case Match(op, nearest) =>
      && op in sys.captures && !sys.captures[op].blocked && sys.captures[op].decision.None?
      && var f := sys.captures[op];
         f.c.embedding.Some? ==> IsNearest(sys.store.rows, f.who, false, f.c.embedding.value, env.cfg, nearest)
    case Settle(op, _) => op in sys.captures && sys.captures[op].decision.Some?
    case GiveUp(op) => op in sys.captures
    case Invalidate(op, _, _, _) => op !in sys.pending
    case FinishDelete(op, _) => op in sys.pending
    case FinishEdit(op, _, _) => op in sys.pending
    case Abandon(op) => op in sys.pending
    case Select(run, who, ids) =>
      && run !in sys.selected && env.minCluster <= |ids| <= env.maxCluster
      && forall i :: i in ids ==> i < |sys.store.rows| && IsCandidate(sys.store.rows[i], who)
    case WriteUp(run, _, _, _) => run in sys.selected
    case Discard(run) => run in sys.selected
    case RebuildStale(who, batch, _) => IsStaleBatch(sys.store.rows, who, env.rebuildLimit, batch)
    case SweepBatch(run, ids, _, _) =>
      && 0.0 < env.tuning.damping
      && forall i :: i in ids ==> i < |sys.store.rows| && Eligible(sys.store.rows[i], run)
  }

  /** One committed decay batch. */
  function DecayBatch(env: Env, st: Store, run: nat, ids: set<Id>, at: Time, now: Time): Store
    requires 0.0 < env.tuning.damping
  {
    st.(rows := DecayRows(env.tuning, env.cfg, st.rows, ids, run, at, now))
  }

  function StoreAfter(env: Env, sys: System, step: Step): Store
    requires Enabled(env, sys, step)
  {
    match step
    case CaptureBatch(who, cs, picks, now) => Capture(sys.store, who, cs, picks, env.cfg, now)
    case Recall(_, _, _, _) => sys.store
    case Match(_, _) => sys.store
    case Settle(op, now) =>
      Apply(sys.store, sys.captures[op].who, sys.captures[op].c, sys.captures[op].decision.value, env.cfg, now)
    case GiveUp(_) => sys.store
    case Invalidate(_, who, id, now) => MarkStale(sys.store, who, id, now, true)
    case FinishDelete(op, now) => DeleteRow(sys.store, sys.pending[op].who, sys.pending[op].id, now)
    case FinishEdit(op, content, e) => EditRow(sys.store, sys.pending[op].who, sys.pending[op].id, content, e)
    case Abandon(_) => sys.store
    case Select(_, _, _) => sys.store
    case WriteUp(run, content, e, now) =>
      WriteSummary(sys.store, sys.selected[run].who, content, e, sys.selected[run].read, now)
    case Discard(_) => sys.store
    case RebuildStale(who, batch, now) => Rebuild(sys.store, who, batch, now)
    case SweepBatch(run, ids, at, now) => DecayBatch(env, sys.store, run, ids, at, now)
  }

  function Next(env: Env, sys: System, step: Step): System
    requires Enabled(env, sys, step)
  {
    var pending := match step
      case Invalidate(op, who, id, _) => sys.pending[op := Mutation(who, id)]
      case FinishDelete(op, _) => sys.pending - {op}
      case FinishEdit(op, _, _) => sys.pending - {op}
      case Abandon(op) => sys.pending - {op}
      case _ => sys.pending;
    var selected := match step
      case Select(run, who, ids) => sys.selected[run := Selection(who, Read(sys.store.rows, ids))]
      case WriteUp(run, _, _, _) => sys.selected - {run}
      case Discard(run) => sys.selected - {run}
      case _ => sys.selected;
    var captures := match step
      case Recall(op, who, c, tombstone) =>
        sys.captures[op := Inflight(who, c, IsBlocked(sys.store.rows, c, Pick(tombstone, None), env.cfg), None,
                                    sys.store.rows, [])]
      case Match(op, nearest) =>
        sys.captures[op := sys.captures[op].(
                       decision := Some(Decide(sys.store.rows, sys.captures[op].c, Pick(None, nearest), env.cfg)),
                       looked := sys.store.rows)]
      case Settle(op, _) => sys.captures - {op}
      case GiveUp(op) => sys.captures - {op}
      case _ => sys.captures;
    System(StoreAfter(env, sys, step), pending, selected, captures)
  }

  /** The steps can be taken one after another from the empty system. */
  predicate Possible(env: Env, steps: seq<Step>)
    decreases |steps|, 0
  {
    steps == [] ||
    var init := steps[..|steps| - 1];
    Possible(env, init) && Enabled(env, After(env, init), steps[|steps| - 1])
  }

  function After(env: Env, steps: seq<Step>): System
    requires Possible(env, steps)
    decreases |steps|, 1
  {
    if steps == [] then Initial
    else Next(env, After(env, steps[..|steps| - 1]), steps[|steps| - 1])
  }
}
