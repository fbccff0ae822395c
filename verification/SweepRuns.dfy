/** Exactly once: what every interleaving of sweep workers guarantees. */
module SweepRuns {
  import opened Common
  import opened Memories
  import opened Decay
  import opened Sweep

  lemma InHeld(workers: seq<Worker>, w: nat, i: Id)
    requires w < |workers| && workers[w].Holding? && i in workers[w].ids
    ensures i in Held(workers)
  {}

  lemma ClaimSane(env: Env, job: Job, s: Step)
    requires EnvOk(env) && Sane(env, job) && Enabled(env, job, s) && s.Claim?
    ensures Sane(env, Next(env, job, s))
  {
    var next := Next(env, job, s);
    assert forall k :: 0 <= k < |s.ids| ==> s.ids[k] in Available(job.rows, env.run, Locked(job));
    forall v, i | 0 <= v < |job.workers| && job.workers[v].Holding? && i in job.workers[v].ids ensures i !in s.ids {
      InHeld(job.workers, v, i);
    }
    forall i | i in Held(job.workers) ensures i in Held(next.workers) {
      var v :| 0 <= v < |job.workers| && job.workers[v].Holding? && i in job.workers[v].ids;
      assert next.workers[v] == job.workers[v];
      InHeld(next.workers, v, i);
    }
    if s.ids == [] {
      forall i | 0 <= i < |job.rows| && Eligible(job.rows[i], env.run) ensures i in Locked(next) {
        assert i !in Available(job.rows, env.run, Locked(job));
      }
    } else {
      assert Drained in next.workers ==> Drained in job.workers;
    }
    forall i | 0 <= i < |job.initial| ensures Accounted(env, next, i) {
      assert Accounted(env, job, i);
    }
  }

  /** What the invariant needs to know of a committed batch. */
  predicate Stamps(env: Env, before: seq<Row>, after: seq<Row>, ids: seq<Id>) {
    && |after| == |before|
    && (forall i :: 0 <= i < |before| && i !in ids ==> after[i] == before[i])
    && (forall i :: 0 <= i < |before| && i in ids ==>
          after[i].decayRun == Some(env.run) && Live(after[i]) == Live(before[i]))
  }

  lemma CommitSane(env: Env, job: Job, s: Step)
    requires EnvOk(env) && Sane(env, job) && Enabled(env, job, s) && s.Commit?
    ensures Sane(env, Next(env, job, s))
  {
    StampsSane(env, job, s.w, Settle(env, job.rows, job.workers[s.w].ids, s.now));
  }

  lemma StampsSane(env: Env, job: Job, w: nat, after: seq<Row>)
    requires Sane(env, job) && w < |job.workers| && job.workers[w].Holding?
    requires Stamps(env, job.rows, after, job.workers[w].ids)
    ensures Sane(env, job.(rows := after, workers := job.workers[w := Idle],
                           batches := job.batches + [job.workers[w].ids]))
  {
    var ids := job.workers[w].ids;
    var next := job.(rows := after, workers := job.workers[w := Idle], batches := job.batches + [ids]);
    forall b, i | 0 <= b < |job.batches| && i in job.batches[b] ensures i !in ids {
      assert job.rows[i].decayRun == Some(env.run);
    }
    forall i | 0 <= i < |job.initial| ensures Accounted(env, next, i) {
      assert Accounted(env, job, i);
      BatchGrows(job.batches, ids, i);
    }
    forall i | i in Held(job.workers) && i !in ids ensures i in Held(next.workers) {
      var v :| 0 <= v < |job.workers| && job.workers[v].Holding? && i in job.workers[v].ids;
      assert next.workers[v] == job.workers[v];
      InHeld(next.workers, v, i);
    }
    assert Drained in next.workers ==> Drained in job.workers;
  }

  lemma BatchGrows(batches: seq<seq<Id>>, ids: seq<Id>, i: Id)
    ensures InBatch(batches + [ids], i) <==> InBatch(batches, i) || i in ids
  {
    var more := batches + [ids];
    if InBatch(batches, i) {
      var b :| 0 <= b < |batches| && i in batches[b];
      assert more[b] == batches[b];
    }
    if i in ids {
      assert more[|batches|] == ids;
    }
  }

  lemma CrashSane(env: Env, job: Job, s: Step)
    requires EnvOk(env) && Sane(env, job) && Enabled(env, job, s) && (s.Crash? || s.HitRail?)
    ensures Sane(env, Next(env, job, s))
  {
    var next := Next(env, job, s);
    forall i | i in Held(job.workers) ensures i in Held(next.workers) || i in next.orphans {
      var v :| 0 <= v < |job.workers| && job.workers[v].Holding? && i in job.workers[v].ids;
      if v != s.w {
        assert next.workers[v] == job.workers[v];
        InHeld(next.workers, v, i);
      }
    }
    assert Drained in next.workers ==> Drained in job.workers;
    forall i | 0 <= i < |job.initial| ensures Accounted(env, next, i) {
      assert Accounted(env, job, i);
    }
  }

  lemma OthersSane(env: Env, job: Job, s: Step)
    requires EnvOk(env) && Sane(env, job) && Enabled(env, job, s) && (s.Grip? || s.Release? || s.Arrive?)
    ensures Sane(env, Next(env, job, s))
  {
    var next := Next(env, job, s);
    forall v, i | 0 <= v < |job.workers| && job.workers[v].Holding? && i in job.workers[v].ids
      ensures i < |job.rows| && next.rows[i] == job.rows[i]
    {
      InHeld(job.workers, v, i);
    }
    forall i | 0 <= i < |job.initial| ensures Accounted(env, next, i) {
      assert Accounted(env, job, i);
    }
  }

  lemma StepSane(env: Env, job: Job, s: Step)
    requires EnvOk(env) && Sane(env, job) && Enabled(env, job, s)
    ensures Sane(env, Next(env, job, s))
  {
    match s {
      case Claim(_, _) => ClaimSane(env, job, s);
      case Commit(_, _) => CommitSane(env, job, s);
      case Crash(_) => CrashSane(env, job, s);
      case HitRail(_) => CrashSane(env, job, s);
      case Grip(_) => OthersSane(env, job, s);
      case Release(_, _) => OthersSane(env, job, s);
      case Arrive(_) => OthersSane(env, job, s);
    }
  }

  lemma {:induction false} RunSane(env: Env, rows: seq<Row>, workers: nat, steps: seq<Step>)
    requires EnvOk(env) && Possible(env, rows, workers, steps)
    ensures Sane(env, After(env, rows, workers, steps)) && After(env, rows, workers, steps).initial == rows
    decreases |steps|
  {
    if steps != [] {
      var init := steps[..|steps| - 1];
      RunSane(env, rows, workers, init);
      StepSane(env, After(env, rows, workers, init), steps[|steps| - 1]);
    }
  }

  /** No row is committed twice, by one worker or by two, in any interleaving. */
  lemma CommittedOnce(env: Env, rows: seq<Row>, workers: nat, steps: seq<Step>, a: nat, j: nat, b: nat, k: nat)
    requires EnvOk(env) && Possible(env, rows, workers, steps)
    requires var batches := After(env, rows, workers, steps).batches;
             a < |batches| && j < |batches[a]| && b < |batches| && k < |batches[b]| && batches[a][j] == batches[b][k]
    ensures a == b && j == k
  {
    RunSane(env, rows, workers, steps);
    var batches := After(env, rows, workers, steps).batches;
    assert batches[a][j] in batches[a] && batches[b][k] in batches[b];
  }

  /** A worker that exits on an empty claim leaves only rows open transactions hold, its
      fellows' or others'. */
  lemma EmptyClaimMeansDrained(env: Env, job: Job, w: nat, i: Id)
    requires EnvOk(env) && Enabled(env, job, Claim(w, [])) && i < |job.rows|
    requires Eligible(job.rows[i], env.run)
    ensures i in Locked(job)
  {
    assert i !in Available(job.rows, env.run, Locked(job));
  }

  /** Everyone has finished, someone on an empty claim, and no transaction was rolled
      back after the last empty claim. */
  predicate Finished(job: Job) {
    && Drained in job.workers && job.orphans == {}
    && forall w :: 0 <= w < |job.workers| ==> job.workers[w] != Idle && !job.workers[w].Holding?
  }

  /** Then an initially eligible row was processed in exactly one place or deleted by its
      owner, if and only if it is not eligible any more; if it still is, another transaction
      had it locked at the last empty claim. No other initial row was processed at all. */
  lemma SweptExactlyOnce(env: Env, rows: seq<Row>, workers: nat, steps: seq<Step>, i: Id)
    requires EnvOk(env) && Possible(env, rows, workers, steps)
    requires Finished(After(env, rows, workers, steps)) && i < |rows|
    ensures var job := After(env, rows, workers, steps);
            && i < |job.rows|
            && (Eligible(rows[i], env.run) ==>
                  (InBatch(job.batches, i) || !Live(job.rows[i]) <==> !Eligible(job.rows[i], env.run)))
            && (Eligible(job.rows[i], env.run) ==> i in job.skipped)
            && (InBatch(job.batches, i) ==> Eligible(rows[i], env.run))
  {
    RunSane(env, rows, workers, steps);
    var job := After(env, rows, workers, steps);
    assert Held(job.workers) == {};
    assert Accounted(env, job, i);
  }

  lemma Extend(env: Env, rows: seq<Row>, workers: nat, steps: seq<Step>, s: Step)
    requires EnvOk(env) && Possible(env, rows, workers, steps) && Enabled(env, After(env, rows, workers, steps), s)
    ensures Possible(env, rows, workers, steps + [s])
    ensures After(env, rows, workers, steps + [s]) == Next(env, After(env, rows, workers, steps), s)
  {
    assert (steps + [s])[..|steps|] == steps;
  }

  /** Leaving a row locked by someone else is not hypothetical: the only eligible row is
      being changed when the only worker claims, so the sweep ends with the row live and
      unprocessed. */
  lemma LockedRowIsMissed(env: Env, row: Row)
    requires EnvOk(env) && Eligible(row, env.run)
    ensures var steps := [Grip(0), Claim(0, []), Release(0, row)];
            && Possible(env, [row], 1, steps)
            && var job := After(env, [row], 1, steps);
               Finished(job) && job.rows == [row] && job.batches == []
  {
    var steps := [Grip(0), Claim(0, []), Release(0, row)];
    var one := [] + [Grip(0)];
    Extend(env, [row], 1, [], Grip(0));
    var two := one + [Claim(0, [])];
    assert Available([row], env.run, Locked(After(env, [row], 1, one))) == {};
    Extend(env, [row], 1, one, Claim(0, []));
    Extend(env, [row], 1, two, Release(0, row));
    assert steps == two + [Release(0, row)];
    assert After(env, [row], 1, steps) == Job([row], [Drained], {}, [row], [], {}, {0});
  }

  /** A crash gives every claimed row back: the table is as it was, and each row the
      worker held can be claimed again by any other. */
  lemma CrashGivesBack(env: Env, rows: seq<Row>, workers: nat, steps: seq<Step>, w: nat, i: Id)
    requires EnvOk(env) && Possible(env, rows, workers, steps)
    requires Enabled(env, After(env, rows, workers, steps), Crash(w))
    requires After(env, rows, workers, steps).workers[w].Holding?
             && i in After(env, rows, workers, steps).workers[w].ids
    ensures var job := After(env, rows, workers, steps);
            var next := Next(env, job, Crash(w));
            next.rows == job.rows && i in Available(next.rows, env.run, Locked(next))
  {
    RunSane(env, rows, workers, steps);
    var job := After(env, rows, workers, steps);
    var next := Next(env, job, Crash(w));
    forall v | 0 <= v < |next.workers| && next.workers[v].Holding? ensures i !in next.workers[v].ids {
      assert job.workers[v] == next.workers[v];
    }
  }
}
