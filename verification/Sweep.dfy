/** The decay sweep as N workers draining one table (`jobs/claims.py`,
    `jobs/decay.py`, `graphs/decay_graph.py`, `jobs/metrics.py`). A batch is one
    transaction: claim, compute, apply, archive, commit. Its row locks last until it
    commits or rolls back, and a claim skips rows other transactions hold, be they
    workers' or those of a capture, a delete, an edit or a write-up. */
module Sweep {
  import opened Common
  import opened Memories
  import opened Decay

  datatype Env = Env(cfg: Config, tuning: Tuning, run: nat, size: nat, at: Time)

  predicate EnvOk(env: Env) {
    0.0 < env.tuning.damping && 1 <= env.size
  }

  // ---- the claim statement ---------------------------------------------------------

  /** Rows a claim may take: eligible for the run and locked by nobody else. */
  function Available(rows: seq<Row>, run: nat, locked: set<Id>): set<Id> {
    set i | 0 <= i < |rows| && i !in locked && Eligible(rows[i], run)
  }

  /** Stalest first, ids breaking ties. */
  predicate Staler(rows: seq<Row>, i: Id, j: Id)
    requires i < |rows| && j < |rows|
  {
    rows[i].accessedAt < rows[j].accessedAt || (rows[i].accessedAt == rows[j].accessedAt && i < j)
  }

  predicate Distinct(ids: seq<Id>) {
    forall j, k :: 0 <= j < k < |ids| ==> ids[j] != ids[k]
  }

  /** The claim returns the stalest available rows, up to the batch size. */
  predicate IsClaim(rows: seq<Row>, run: nat, locked: set<Id>, size: nat, ids: seq<Id>) {
    && Distinct(ids)
    && (forall k :: 0 <= k < |ids| ==> ids[k] in Available(rows, run, locked))
    && |ids| <= size
    && (|ids| < size ==> forall i :: i in Available(rows, run, locked) ==> i in ids)
    && (forall i, k :: i in Available(rows, run, locked) && i !in ids && 0 <= k < |ids| ==> Staler(rows, ids[k], i))
  }

  /** What a committed batch leaves in the table. */
  function Settle(env: Env, rows: seq<Row>, ids: seq<Id>, now: Time): (rs: seq<Row>)
    requires EnvOk(env)
    ensures |rs| == |rows|
  {
    DecayRows(env.tuning, env.cfg, rows, (set i | i in ids), env.run, env.at, now)
  }

  // ---- the workers --------------------------------------------------------------------

  datatype Worker = Idle | Holding(ids: seq<Id>) | Drained | Stopped | Crashed

  /** The committed table, the workers, the rows that other transactions have locked, and
      history: the table the run started from, every committed batch, the rows rolled back
      since the last empty claim, and the rows locked by others when it was made. */
  datatype Job = Job(rows: seq<Row>, workers: seq<Worker>, foreign: set<Id>, initial: seq<Row>,
                     batches: seq<seq<Id>>, orphans: set<Id>, skipped: set<Id>)

  datatype Step =
    | Claim(w: nat, ids: seq<Id>)
    | Commit(w: nat, now: Time)
    | Crash(w: nat)
    | HitRail(w: nat)
    | Grip(i: Id)
    | Release(i: Id, row: Row)
    | Arrive(row: Row)

  function Held(workers: seq<Worker>): set<Id> {
    set w, i | 0 <= w < |workers| && workers[w].Holding? && i in workers[w].ids :: i
  }

  function Locked(job: Job): set<Id> {
    Held(job.workers) + job.foreign
  }

  /** Other writers lock a row nobody holds, and commit or roll back later: they may change
      the row, and delete it, but not the columns the sweep owns. They may also insert rows
      no sweep has seen. */
  predicate MayTouch(old_: Row, new_: Row) {
    new_.decayRun == old_.decayRun && new_.archivedAt == old_.archivedAt && (Live(new_) ==> Live(old_))
  }

  predicate Enabled(env: Env, job: Job, s: Step) {
    match s
    case Claim(w, ids) =>
      w < |job.workers| && job.workers[w] == Idle && IsClaim(job.rows, env.run, Locked(job), env.size, ids)
    case Commit(w, _) => w < |job.workers| && job.workers[w].Holding?
    case Crash(w) => w < |job.workers| && (job.workers[w] == Idle || job.workers[w].Holding?)
    case HitRail(w) => w < |job.workers| && job.workers[w] == Idle
    case Grip(i) => i < |job.rows| && i !in Locked(job)
    case Release(i, row) => i < |job.rows| && i in job.foreign && MayTouch(job.rows[i], row)
    case Arrive(row) => row.decayRun != Some(env.run)
  }

  function Next(env: Env, job: Job, s: Step): Job
    requires EnvOk(env) && Enabled(env, job, s)
  {
    match s
    case Claim(w, ids) =>
      if ids == [] then job.(workers := job.workers[w := Drained], orphans := {}, skipped := job.foreign)
      else job.(workers := job.workers[w := Holding(ids)])
    case Commit(w, now) =>
      job.(rows := Settle(env, job.rows, job.workers[w].ids, now), workers := job.workers[w := Idle],
           batches := job.batches + [job.workers[w].ids])
    case Crash(w) =>
      job.(workers := job.workers[w := Crashed],
           orphans := if job.workers[w].Holding? then job.orphans + (set i | i in job.workers[w].ids) else job.orphans)
    case HitRail(w) => job.(workers := job.workers[w := Stopped])
    case Grip(i) => job.(foreign := job.foreign + {i})
    case Release(i, row) => job.(rows := job.rows[i := row], foreign := job.foreign - {i})
    case Arrive(row) => job.(rows := job.rows + [row])
  }

  predicate Possible(env: Env, rows: seq<Row>, workers: nat, steps: seq<Step>)
    requires EnvOk(env)
    decreases |steps|, 0
  {
    steps == [] ||
    var init := steps[..|steps| - 1];
    Possible(env, rows, workers, init) && Enabled(env, After(env, rows, workers, init), steps[|steps| - 1])
  }

  function After(env: Env, rows: seq<Row>, workers: nat, steps: seq<Step>): Job
    requires EnvOk(env) && Possible(env, rows, workers, steps)
    decreases |steps|, 1
  {
    if steps == [] then Job(rows, seq(workers, _ => Idle), {}, rows, [], {}, {})
    else Next(env, After(env, rows, workers, steps[..|steps| - 1]), steps[|steps| - 1])
  }

  // ---- the invariant ----------------------------------------------------------------------

  predicate InBatch(batches: seq<seq<Id>>, i: Id) {
    exists b :: 0 <= b < |batches| && i in batches[b]
  }

  /** Rows workers hold are still eligible, held once, and locked by nobody else. */
  predicate LocksOk(env: Env, job: Job) {
    && (forall w :: 0 <= w < |job.workers| && job.workers[w].Holding? ==>
          && Distinct(job.workers[w].ids)
          && (forall i :: i in job.workers[w].ids ==>
                i < |job.rows| && i !in job.foreign && Eligible(job.rows[i], env.run)))
    && (forall v, w, i :: 0 <= v < w < |job.workers| && job.workers[v].Holding? && job.workers[w].Holding? ==>
          i in job.workers[v].ids ==> i !in job.workers[w].ids)
  }

  /** A committed row carries the run's stamp, and was committed once. */
  predicate BatchesOk(env: Env, job: Job) {
    && (forall b :: 0 <= b < |job.batches| ==>
          && Distinct(job.batches[b])
          && (forall i :: i in job.batches[b] ==> i < |job.rows| && job.rows[i].decayRun == Some(env.run)))
    && (forall a, b, i :: 0 <= a < b < |job.batches| && i in job.batches[a] ==> i !in job.batches[b])
  }

  /** A row eligible at the start is processed, still eligible, or was deleted; and
      nothing else of the initial table is ever processed. */
  predicate Accounted(env: Env, job: Job, i: Id)
    requires i < |job.initial| <= |job.rows|
  {
    && (Eligible(job.initial[i], env.run) ==>
          InBatch(job.batches, i) || Eligible(job.rows[i], env.run) || !Live(job.rows[i]))
    && (InBatch(job.batches, i) || Eligible(job.rows[i], env.run) ==> Eligible(job.initial[i], env.run))
  }

  predicate AllAccounted(env: Env, job: Job) {
    |job.initial| <= |job.rows| && forall i :: 0 <= i < |job.initial| ==> Accounted(env, job, i)
  }

  /** Once some worker has seen an empty claim, an initial row that is still eligible
      is held by a worker, was rolled back since, or was locked by someone else then. */
  predicate DrainOk(env: Env, job: Job) {
    Drained in job.workers ==>
      forall i :: 0 <= i < |job.initial| && i < |job.rows| && Eligible(job.rows[i], env.run) ==>
        i in Held(job.workers) || i in job.orphans || i in job.skipped
  }

  predicate Sane(env: Env, job: Job) {
    LocksOk(env, job) && BatchesOk(env, job) && AllAccounted(env, job) && DrainOk(env, job)
  }
}
