/** Nightly decay of the whole table: however many nights, the table is as the last one
    alone would leave it (`jobs/decay.py`). */
module Nights {
  import opened Common
  import opened Memories
  import opened Decay
  import opened Sweep
  import opened SweepRuns
  import opened DecayWorker

  /** A drained run: every eligible row as some batch of the run leaves it, every other row
      as it was. */
  ghost predicate Swept(env: Env, before: seq<Row>, after: seq<Row>)
    requires EnvOk(env)
  {
    && |after| == |before|
    && forall i :: 0 <= i < |before| ==> SweptRow(env, before[i], after[i])
  }

  ghost predicate SweptRow(env: Env, before: Row, after: Row)
    requires EnvOk(env)
  {
    if Eligible(before, env.run)
    then exists now: Time :: after == SweepRow(env.tuning, env.cfg, before, Pass(env.run, env.at, now))
    else after == before
  }

  /** What a worker that drained the table by itself has done to it. */
  lemma DrainedIsSwept(env: Env, before: seq<Row>, after: seq<Row>, done: seq<Id>, clocks: nat -> Time, batches: nat)
    requires EnvOk(env) && Progress(env, before, after, done, clocks, batches)
    requires forall i :: 0 <= i < |after| ==> !Eligible(after[i], env.run)
    ensures Swept(env, before, after)
  {
    forall i | 0 <= i < |before| ensures SweptRow(env, before[i], after[i]) {
      if i in done {
        var b :| 0 <= b < batches && after[i] == DecayRow(env.tuning, env.cfg, before[i], env.run, env.at, clocks(b));
        assert after[i] == SweepRow(env.tuning, env.cfg, before[i], Pass(env.run, env.at, clocks(b)));
      }
    }
  }

  // ---- any number of workers -----------------------------------------------------------

  /** A run in which nobody else changes the table: others may lock rows, and let go of them
      as they were. */
  ghost predicate Quiet(env: Env, rows: seq<Row>, workers: nat, steps: seq<Step>)
    requires EnvOk(env) && Possible(env, rows, workers, steps)
    decreases |steps|
  {
    steps == [] ||
    var init, s := steps[..|steps| - 1], steps[|steps| - 1];
    && Quiet(env, rows, workers, init)
    && !s.Arrive?
    && (s.Release? ==> s.row == After(env, rows, workers, init).rows[s.i])
  }

  /** A processed row is as one batch leaves the initial row, any other is as it was. */
  ghost predicate OneBatch(env: Env, job: Job)
    requires EnvOk(env)
  {
    && |job.rows| == |job.initial|
    && forall i :: 0 <= i < |job.rows| ==> Once(env, job.initial[i], job.rows[i], InBatch(job.batches, i))
  }

  ghost predicate Once(env: Env, before: Row, after: Row, processed: bool)
    requires EnvOk(env)
  {
    if processed
    then exists now: Time :: after == DecayRow(env.tuning, env.cfg, before, env.run, env.at, now)
    else after == before
  }

  lemma CommitOnce(env: Env, job: Job, w: nat, now: Time)
    requires EnvOk(env) && Sane(env, job) && Enabled(env, job, Commit(w, now)) && OneBatch(env, job)
    ensures OneBatch(env, Next(env, job, Commit(w, now)))
  {
    var next, ids := Next(env, job, Commit(w, now)), job.workers[w].ids;
    forall i | 0 <= i < |job.rows|
      ensures Once(env, job.initial[i], next.rows[i], InBatch(next.batches, i))
    {
      BatchGrows(job.batches, ids, i);
      assert Once(env, job.initial[i], job.rows[i], InBatch(job.batches, i));
      if i in ids {
        assert !InBatch(job.batches, i);
        assert next.rows[i] == DecayRow(env.tuning, env.cfg, job.initial[i], env.run, env.at, now);
      }
    }
  }

  lemma {:induction false} QuietOnce(env: Env, rows: seq<Row>, workers: nat, steps: seq<Step>)
    requires EnvOk(env) && Possible(env, rows, workers, steps) && Quiet(env, rows, workers, steps)
    ensures OneBatch(env, After(env, rows, workers, steps))
    decreases |steps|
  {
    if steps != [] {
      var init, s := steps[..|steps| - 1], steps[|steps| - 1];
      QuietOnce(env, rows, workers, init);
      RunSane(env, rows, workers, init);
      if s.Commit? {
        CommitOnce(env, After(env, rows, workers, init), s.w, s.now);
      }
    }
  }

  /** A quiet run that has finished has swept the table, and so is one night to
      `ManyNightsAreOne`, if and only if no eligible row is left; each one left was locked by
      someone else at the last empty claim. */
  lemma FleetSweeps(env: Env, rows: seq<Row>, workers: nat, steps: seq<Step>)
    requires EnvOk(env) && Possible(env, rows, workers, steps) && Quiet(env, rows, workers, steps)
    requires Finished(After(env, rows, workers, steps))
    ensures var job := After(env, rows, workers, steps);
            && |job.rows| == |rows|
            && (Swept(env, rows, job.rows) <==> forall i :: 0 <= i < |rows| ==> !Eligible(job.rows[i], env.run))
            && (forall i :: 0 <= i < |rows| ==> Eligible(job.rows[i], env.run) ==> i in job.skipped)
            && (job.skipped == {} ==> Swept(env, rows, job.rows))
  {
    QuietOnce(env, rows, workers, steps);
    RunSane(env, rows, workers, steps);
    var job := After(env, rows, workers, steps);
    forall i | 0 <= i < |rows|
      ensures SweptRow(env, rows[i], job.rows[i]) <==> !Eligible(job.rows[i], env.run)
      ensures Eligible(job.rows[i], env.run) ==> i in job.skipped
    {
      SweptExactlyOnce(env, rows, workers, steps, i);
      OnceIsSwept(env, rows[i], job.rows[i], InBatch(job.batches, i));
    }
    assert (forall i :: 0 <= i < |rows| ==> SweptRow(env, rows[i], job.rows[i])) <==>
           (forall i :: 0 <= i < |rows| ==> !Eligible(job.rows[i], env.run));
  }

  lemma OnceIsSwept(env: Env, before: Row, after: Row, processed: bool)
    requires EnvOk(env) && Once(env, before, after, processed)
    requires processed ==> Eligible(before, env.run)
    ensures SweptRow(env, before, after) <==> !Eligible(after, env.run)
  {
    if processed {
      var now: Time :| after == DecayRow(env.tuning, env.cfg, before, env.run, env.at, now);
      assert after == SweepRow(env.tuning, env.cfg, before, Pass(env.run, env.at, now));
    }
  }

  // ---- many nights ------------------------------------------------------------------------

  /** One tuning throughout, times that never run backwards, and a fresh run id each. */
  ghost predicate InSequence(nights: seq<Env>, rows: seq<Row>) {
    && nights != []
    && (forall k :: 0 <= k < |nights| ==>
          EnvOk(nights[k]) && nights[k].tuning == nights[0].tuning && nights[k].cfg == nights[0].cfg)
    && (forall k :: 0 < k < |nights| ==> nights[k - 1].at <= nights[k].at && nights[k - 1].run != nights[k].run)
    && (forall k, i :: 0 <= k < |nights| && 0 <= i < |rows| ==> rows[i].decayRun != Some(nights[k].run))
  }

  /** The table after each night. */
  ghost predicate Ran(nights: seq<Env>, tables: seq<seq<Row>>)
    requires forall k :: 0 <= k < |nights| ==> EnvOk(nights[k])
  {
    |tables| == |nights| + 1 && forall k :: 0 <= k < |nights| ==> Swept(nights[k], tables[k], tables[k + 1])
  }

  /** What the nights did to one row, as the sweeps of `Decay`. */
  lemma {:induction false} RowPasses(nights: seq<Env>, tables: seq<seq<Row>>, t: Tuning, cfg: Config, i: nat)
    returns (passes: seq<Pass>)
    requires 0.0 < t.damping
    requires forall k :: 0 <= k < |nights| ==> EnvOk(nights[k]) && nights[k].tuning == t && nights[k].cfg == cfg
    requires Ran(nights, tables) && i < |tables[0]|
    ensures |passes| == |nights| && i < |tables[|nights|]|
    ensures forall k :: 0 <= k < |nights| ==> passes[k].run == nights[k].run && passes[k].at == nights[k].at
    ensures tables[|nights|][i] == SweepRows(t, cfg, tables[0][i], passes)
    decreases |nights|
  {
    if nights == [] {
      passes := [];
    } else {
      var n := |nights| - 1;
      assert forall k :: 0 <= k < n ==> Swept(nights[k], tables[k], tables[k + 1]);
      var init := RowPasses(nights[..n], tables[..n + 1], t, cfg, i);
      assert Swept(nights[n], tables[n], tables[n + 1]);
      assert SweptRow(nights[n], tables[n][i], tables[n + 1][i]);
      var pass := Pass(nights[n].run, nights[n].at, 0);
      if Eligible(tables[n][i], nights[n].run) {
        var now: Time :| tables[n + 1][i] == SweepRow(t, cfg, tables[n][i], Pass(nights[n].run, nights[n].at, now));
        pass := Pass(nights[n].run, nights[n].at, now);
      }
      passes := init + [pass];
      assert passes[..n] == init;
    }
  }

  /** Any number of nights with no access or delete between them archive exactly the rows
      the last night alone would, leave every other row equal in every field to what that
      night alone makes of it, and do not touch a soft-deleted row. */
  lemma ManyNightsAreOne(nights: seq<Env>, tables: seq<seq<Row>>, once: seq<Row>, i: nat)
    requires |tables| == |nights| + 1 && InSequence(nights, tables[0]) && Sound(nights[0].tuning, nights[0].cfg)
    requires Ran(nights, tables) && Swept(nights[|nights| - 1], tables[0], once) && i < |tables[0]|
    ensures i < |tables[|nights|]| && i < |once|
    ensures var row, many := tables[0][i], tables[|nights|][i];
            && (many.archivedAt.Some? <==> once[i].archivedAt.Some?)
            && (many.archivedAt.None? ==> many == once[i])
            && (!Live(row) ==> many == row == once[i])
  {
    var t, cfg, last := nights[0].tuning, nights[0].cfg, nights[|nights| - 1];
    var passes := RowPasses(nights, tables, t, cfg, i);
    assert SweptRow(last, tables[0][i], once[i]);
    HistoryIndependence(t, cfg, tables[0][i], passes);
  }
}
