/** The decay job as the program runs it: statements that lock, stamp, reweight and
    archive rows of one table, the batch that strings them together, and the loop
    that drains the table (`jobs/claims.py`, `jobs/decay.py`,
    `graphs/decay_graph.py`, `jobs/metrics.py`). */
module DecayWorker {
  import opened Common
  import opened Memories
  import opened Decay
  import opened MemoryStore
  import opened Sweep

  datatype ClaimedRow = ClaimedRow(id: Id, weight: real, reinforcements: nat, accessedAt: Time)
  datatype WeightUpdate = WeightUpdate(id: Id, oldWeight: real, newWeight: real, shouldArchive: bool)

  function Ids(claimed: seq<ClaimedRow>): seq<Id> {
    seq(|claimed|, k requires 0 <= k < |claimed| => claimed[k].id)
  }

  function ClaimOf(rows: seq<Row>, i: Id): ClaimedRow
    requires i < |rows|
  {
    ClaimedRow(i, rows[i].weight, rows[i].reinforcements, rows[i].accessedAt)
  }

  /** The table with some rows stamped by the run. */
  predicate IsStamped(before: seq<Row>, after: seq<Row>, ids: seq<Id>, run: nat) {
    && |after| == |before|
    && forall i :: 0 <= i < |before| ==>
         after[i] == if i in ids then before[i].(decayRun := Some(run)) else before[i]
  }

  // ---- the claim ----------------------------------------------------------------------

  method FindStalest(table: Table, run: nat, locked: set<Id>) returns (best: Option<Id>)
    ensures best.None? <==> Available(table.rows, run, locked) == {}
    ensures best.Some? ==> best.value in Available(table.rows, run, locked)
    ensures best.Some? ==> forall i :: i in Available(table.rows, run, locked) && i != best.value ==>
              Staler(table.rows, best.value, i)
  {
    best := None;
    for j := 0 to |table.rows|
      invariant best.None? ==> forall i :: i in Available(table.rows, run, locked) ==> j <= i
      invariant best.Some? ==> best.value < j && best.value in Available(table.rows, run, locked)
      invariant best.Some? ==> forall i :: i in Available(table.rows, run, locked) && i < j && i != best.value ==>
                Staler(table.rows, best.value, i)
    {
      if j !in locked && Eligible(table.rows[j], run) {
        if best.None? || table.rows[j].accessedAt < table.rows[best.value].accessedAt {
          best := Some(j);
        }
      }
    }
  }

  /** Take up to `size` rows, stalest first, skipping the rows others have locked, and
      stamp them. Empty when nothing is available. */
  method ClaimBatch(table: Table, run: nat, size: nat, locked: set<Id>) returns (claimed: seq<ClaimedRow>)
    modifies table`rows
    ensures IsClaim(old(table.rows), run, locked, size, Ids(claimed))
    ensures IsStamped(old(table.rows), table.rows, Ids(claimed), run)
    ensures forall k :: 0 <= k < |claimed| ==>
              claimed[k].id < |old(table.rows)| && claimed[k] == ClaimOf(old(table.rows), claimed[k].id)
  {
    claimed := [];
    ghost var before := table.rows;
    while |claimed| < size
      invariant |claimed| <= size
      invariant IsStamped(before, table.rows, Ids(claimed), run)
      invariant Distinct(Ids(claimed))
      invariant forall k :: 0 <= k < |claimed| ==>
                  claimed[k].id in Available(before, run, locked) && claimed[k] == ClaimOf(before, claimed[k].id)
      invariant forall i, k :: i in Available(before, run, locked) && i !in Ids(claimed) && 0 <= k < |claimed| ==>
                  Staler(before, claimed[k].id, i)
      decreases size - |claimed|
    {
      var ids := Ids(claimed);
      StampedStaysOut(before, table.rows, ids, run, locked);
      var best := FindStalest(table, run, locked);
      if best.None? {
        forall i | i in Available(before, run, locked) ensures i in ids {
          assert i !in Available(table.rows, run, locked);
        }
        break;
      }
      var i := best.value;
      assert i in Available(before, run, locked) && i < |before|;
      forall j: Id | j < |before| && j in Available(before, run, locked) && j !in ids && j != i
        ensures Staler(before, i, j)
      {
        assert j in Available(table.rows, run, locked);
        assert Staler(table.rows, i, j);
      }
      claimed := claimed + [ClaimOf(table.rows, i)];
      assert Ids(claimed) == ids + [i];
      table.rows := table.rows[i := table.rows[i].(decayRun := Some(run))];
    }
  }

  /** What the claim's own stamp takes out of reach. */
  lemma StampedStaysOut(before: seq<Row>, after: seq<Row>, ids: seq<Id>, run: nat, locked: set<Id>)
    requires IsStamped(before, after, ids, run)
    ensures forall i :: i in Available(after, run, locked) <==> i in Available(before, run, locked) && i !in ids
    ensures forall i :: 0 <= i < |before| ==> after[i].accessedAt == before[i].accessedAt
  {}

  // ---- compute, apply, archive ------------------------------------------------------------

  function UpdateOf(env: Env, c: ClaimedRow): WeightUpdate
    requires EnvOk(env)
  {
    var w := DecayWeight(env.tuning, AgeInDays(c.accessedAt, env.at), c.reinforcements,
                         PeakWeight(env.cfg, c.reinforcements));
    WeightUpdate(c.id, c.weight, w, w < env.tuning.threshold)
  }

  method ComputeUpdates(env: Env, claimed: seq<ClaimedRow>) returns (updates: seq<WeightUpdate>)
    requires EnvOk(env)
    ensures |updates| == |claimed| && forall k :: 0 <= k < |claimed| ==> updates[k] == UpdateOf(env, claimed[k])
  {
    updates := [];
    for k := 0 to |claimed|
      invariant |updates| == k && forall j :: 0 <= j < k ==> updates[j] == UpdateOf(env, claimed[j])
    {
      updates := updates + [UpdateOf(env, claimed[k])];
    }
  }

  predicate DistinctUpdates(updates: seq<WeightUpdate>) {
    forall j, k :: 0 <= j < k < |updates| ==> updates[j].id != updates[k].id
  }

  predicate Writable(rows: seq<Row>, i: Id) {
    i < |rows| && Live(rows[i])
  }

  /** The table with every update of a live row written and nothing else changed. */
  predicate IsWeighed(before: seq<Row>, after: seq<Row>, updates: seq<WeightUpdate>) {
    && |after| == |before|
    && (forall k :: 0 <= k < |updates| && Writable(before, updates[k].id) ==>
          after[updates[k].id] == before[updates[k].id].(weight := updates[k].newWeight))
    && (forall i :: 0 <= i < |before| && (!Live(before[i]) || forall k :: 0 <= k < |updates| ==> updates[k].id != i) ==>
          after[i] == before[i])
  }

  lemma OneMoreWeighed(before: seq<Row>, rows: seq<Row>, after: seq<Row>, updates: seq<WeightUpdate>, u: WeightUpdate)
    requires IsWeighed(before, rows, updates) && DistinctUpdates(updates + [u])
    requires after == if Writable(rows, u.id) then rows[u.id := rows[u.id].(weight := u.newWeight)] else rows
    ensures IsWeighed(before, after, updates + [u]) && (Writable(rows, u.id) <==> Writable(before, u.id))
  {
    var all, n := updates + [u], |updates|;
    assert all[n] == u && forall k :: 0 <= k < n ==> all[k] == updates[k] && updates[k].id != u.id;
    if u.id < |before| {
      assert rows[u.id] == before[u.id];
    }
    forall k | 0 <= k < |all| && Writable(before, all[k].id)
      ensures after[all[k].id] == before[all[k].id].(weight := all[k].newWeight)
    {
      assert k < n ==> rows[updates[k].id] == before[updates[k].id].(weight := updates[k].newWeight);
    }
    forall i | 0 <= i < |before| && (!Live(before[i]) || forall k :: 0 <= k < |all| ==> all[k].id != i)
      ensures after[i] == before[i]
    {
      assert !Live(before[i]) || (all[n].id != i && forall k :: 0 <= k < n ==> updates[k].id != i);
    }
  }

  /** Write every new weight to a live row; the ids written. */
  method ApplyWeights(table: Table, updates: seq<WeightUpdate>) returns (written: seq<Id>)
    requires DistinctUpdates(updates)
    modifies table`rows
    ensures IsWeighed(old(table.rows), table.rows, updates)
    ensures (forall k :: 0 <= k < |updates| ==> Writable(old(table.rows), updates[k].id)) ==> |written| == |updates|
  {
    written := [];
    ghost var before := table.rows;
    assert updates[..0] == [];
    for j := 0 to |updates|
      invariant IsWeighed(before, table.rows, updates[..j])
      invariant (forall k :: 0 <= k < |updates| ==> Writable(before, updates[k].id)) ==> |written| == j
    {
      var i := updates[j].id;
      assert updates[..j + 1] == updates[..j] + [updates[j]];
      ghost var rows := table.rows;
      if i < |table.rows| && Live(table.rows[i]) {
        table.rows := table.rows[i := table.rows[i].(weight := updates[j].newWeight)];
        written := written + [i];
      }
      OneMoreWeighed(before, rows, table.rows, updates[..j], updates[j]);
    }
    assert updates[..|updates|] == updates;
  }

  predicate Archivable(rows: seq<Row>, i: Id) {
    i < |rows| && Live(rows[i]) && rows[i].archivedAt.None?
  }

  predicate IsArchived(before: seq<Row>, after: seq<Row>, ids: seq<Id>, now: Time) {
    && |after| == |before|
    && forall i :: 0 <= i < |before| ==>
         after[i] == if i in ids && Archivable(before, i) then before[i].(archivedAt := Some(now)) else before[i]
  }

  /** Stamp `archived_at` where it is unset on a live row; the ids newly archived. */
  method ArchiveRows(table: Table, ids: seq<Id>, now: Time) returns (archived: seq<Id>)
    requires Distinct(ids)
    modifies table`rows
    ensures IsArchived(old(table.rows), table.rows, ids, now)
    ensures (forall k :: 0 <= k < |ids| ==> Archivable(old(table.rows), ids[k])) ==> archived == ids
  {
    archived := [];
    ghost var before := table.rows;
    for j := 0 to |ids|
      invariant IsArchived(before, table.rows, ids[..j], now)
      invariant (forall k :: 0 <= k < |ids| ==> Archivable(before, ids[k])) ==> archived == ids[..j]
    {
      var i := ids[j];
      assert ids[..j + 1] == ids[..j] + [i];
      assert i !in ids[..j];
      if i < |table.rows| && Live(table.rows[i]) && table.rows[i].archivedAt.None? {
        table.rows := table.rows[i := table.rows[i].(archivedAt := Some(now))];
        archived := archived + [i];
      }
    }
    assert ids[..|ids|] == ids;
  }

  /** The updates that retire their row. */
  function Fading(updates: seq<WeightUpdate>): (ids: seq<Id>)
    ensures forall i :: i in ids <==> exists k :: 0 <= k < |updates| && updates[k].shouldArchive && updates[k].id == i
    ensures |ids| <= |updates|
  {
    if updates == [] then []
    else
      var last := updates[|updates| - 1];
      Fading(updates[..|updates| - 1]) + if last.shouldArchive then [last.id] else []
  }

  lemma {:induction false} FadingDistinct(updates: seq<WeightUpdate>)
    requires DistinctUpdates(updates)
    ensures Distinct(Fading(updates))
  {
    if updates != [] {
      var init := updates[..|updates| - 1];
      FadingDistinct(init);
      assert updates[|updates| - 1].id !in Fading(init);
    }
  }

  predicate InTable(rows: seq<Row>, ids: seq<Id>) {
    forall k :: 0 <= k < |ids| ==> ids[k] < |rows|
  }

  /** Does a sweep retire the row? */
  function Fades(env: Env): Row -> bool
    requires EnvOk(env)
  {
    r => WeightAt(env.tuning, env.cfg, r, env.at) < env.tuning.threshold
  }

  /** How many of the listed rows pass a test. */
  function Count(test: Row -> bool, rows: seq<Row>, ids: seq<Id>): nat
    requires InTable(rows, ids)
  {
    if ids == [] then 0
    else Count(test, rows, ids[..|ids| - 1]) + One(test(rows[ids[|ids| - 1]]))
  }

  lemma {:induction false} FadingCounted(env: Env, rows: seq<Row>, ids: seq<Id>, updates: seq<WeightUpdate>)
    requires EnvOk(env) && |updates| == |ids| && InTable(rows, ids)
    requires forall k :: 0 <= k < |ids| ==> updates[k] == UpdateOf(env, ClaimOf(rows, ids[k]))
    ensures |Fading(updates)| == Count(Fades(env), rows, ids)
  {
    if ids != [] {
      FadingCounted(env, rows, ids[..|ids| - 1], updates[..|ids| - 1]);
    }
  }

  lemma {:induction false} CountJoin(test: Row -> bool, rows: seq<Row>, ids: seq<Id>, more: seq<Id>)
    requires InTable(rows, ids) && InTable(rows, more)
    ensures InTable(rows, ids + more)
            && Count(test, rows, ids + more) == Count(test, rows, ids) + Count(test, rows, more)
  {
    if more == [] {
      assert ids + more == ids;
    } else {
      var init := more[..|more| - 1];
      assert (ids + more)[..|ids + more| - 1] == ids + init;
      CountJoin(test, rows, ids, init);
    }
  }

  lemma {:induction false} CountSame(test: Row -> bool, before: seq<Row>, rows: seq<Row>, ids: seq<Id>)
    requires InTable(before, ids) && InTable(rows, ids)
    requires forall k :: 0 <= k < |ids| ==> rows[ids[k]] == before[ids[k]]
    ensures Count(test, before, ids) == Count(test, rows, ids)
  {
    if ids != [] {
      CountSame(test, before, rows, ids[..|ids| - 1]);
    }
  }

  // ---- one batch and the drain loop ---------------------------------------------------------

  datatype Batch = Batch(claimed: seq<Id>, decayed: seq<Id>, archived: seq<Id>)

  /** One transaction: claim, and unless that came back empty compute, apply and
      archive. */
  method RunDecayBatch(table: Table, env: Env, locked: set<Id>, now: Time) returns (batch: Batch)
    requires EnvOk(env)
    modifies table`rows
    ensures IsClaim(old(table.rows), env.run, locked, env.size, batch.claimed)
    ensures InTable(old(table.rows), batch.claimed)
    ensures table.rows == Settle(env, old(table.rows), batch.claimed, now)
    ensures |batch.decayed| == |batch.claimed| && |batch.archived| == Count(Fades(env), old(table.rows), batch.claimed)
  {
    ghost var before := table.rows;
    var claimed := ClaimBatch(table, env.run, env.size, locked);
    var ids := Ids(claimed);
    assert forall i :: i in ids ==> i in Available(before, env.run, locked);
    if claimed == [] {
      assert ids == [] && table.rows == before == Settle(env, before, ids, now);
      return Batch(ids, [], []);
    }
    ghost var stamped := table.rows;
    var updates := ComputeUpdates(env, claimed);
    assert UpdatesFor(env, before, ids, updates);
    StampedRows(env, before, stamped, ids, updates);
    var decayed := ApplyWeights(table, updates);
    ghost var weighed := table.rows;
    var fading := Fading(updates);
    WeighedRows(env, before, stamped, weighed, ids, updates);
    var archived := ArchiveRows(table, fading, now);
    SettledRows(env, before, weighed, table.rows, ids, updates, now);
    return Batch(ids, decayed, archived);
  }

  predicate UpdatesFor(env: Env, rows: seq<Row>, ids: seq<Id>, updates: seq<WeightUpdate>)
    requires EnvOk(env)
  {
    && |updates| == |ids| && Distinct(ids)
    && forall k :: 0 <= k < |ids| ==>
         ids[k] < |rows| && Eligible(rows[ids[k]], env.run) && updates[k] == UpdateOf(env, ClaimOf(rows, ids[k]))
  }

  lemma StampedRows(env: Env, before: seq<Row>, stamped: seq<Row>, ids: seq<Id>, updates: seq<WeightUpdate>)
    requires EnvOk(env) && UpdatesFor(env, before, ids, updates) && IsStamped(before, stamped, ids, env.run)
    ensures DistinctUpdates(updates) && InTable(before, ids)
    ensures forall k :: 0 <= k < |updates| ==> updates[k].id == ids[k] && Writable(stamped, updates[k].id)
  {}

  /** The claimed rows with their stamp and their new weight. */
  predicate Reweighed(env: Env, before: seq<Row>, weighed: seq<Row>, ids: seq<Id>, updates: seq<WeightUpdate>)
    requires EnvOk(env) && UpdatesFor(env, before, ids, updates)
  {
    && |weighed| == |before|
    && (forall k :: 0 <= k < |ids| ==>
          weighed[ids[k]] == before[ids[k]].(decayRun := Some(env.run), weight := updates[k].newWeight))
    && (forall i :: 0 <= i < |before| && i !in ids ==> weighed[i] == before[i])
  }

  lemma StampedThenWeighed(env: Env, before: seq<Row>, stamped: seq<Row>, weighed: seq<Row>, ids: seq<Id>,
                           updates: seq<WeightUpdate>)
    requires EnvOk(env) && UpdatesFor(env, before, ids, updates)
    requires IsStamped(before, stamped, ids, env.run) && IsWeighed(stamped, weighed, updates)
    ensures Reweighed(env, before, weighed, ids, updates)
  {
    StampedRows(env, before, stamped, ids, updates);
    forall k | 0 <= k < |ids|
      ensures weighed[ids[k]] == before[ids[k]].(decayRun := Some(env.run), weight := updates[k].newWeight)
    {
      assert updates[k].id == ids[k] && Writable(stamped, updates[k].id);
    }
  }

  lemma FadingArchivable(env: Env, before: seq<Row>, weighed: seq<Row>, ids: seq<Id>, updates: seq<WeightUpdate>)
    requires EnvOk(env) && UpdatesFor(env, before, ids, updates) && Reweighed(env, before, weighed, ids, updates)
    ensures forall k :: 0 <= k < |Fading(updates)| ==> Archivable(weighed, Fading(updates)[k])
  {
    forall i | i in Fading(updates) ensures Archivable(weighed, i) {
      var k :| 0 <= k < |updates| && updates[k].shouldArchive && updates[k].id == i;
      assert ids[k] == i;
    }
  }

  lemma WeighedRows(env: Env, before: seq<Row>, stamped: seq<Row>, weighed: seq<Row>, ids: seq<Id>,
                    updates: seq<WeightUpdate>)
    requires EnvOk(env) && UpdatesFor(env, before, ids, updates)
    requires IsStamped(before, stamped, ids, env.run) && IsWeighed(stamped, weighed, updates)
    ensures Reweighed(env, before, weighed, ids, updates)
    ensures Distinct(Fading(updates)) && forall k :: 0 <= k < |Fading(updates)| ==>
              Archivable(weighed, Fading(updates)[k])
    ensures InTable(before, ids) && |Fading(updates)| == Count(Fades(env), before, ids)
  {
    StampedRows(env, before, stamped, ids, updates);
    StampedThenWeighed(env, before, stamped, weighed, ids, updates);
    FadingArchivable(env, before, weighed, ids, updates);
    FadingDistinct(updates);
    FadingCounted(env, before, ids, updates);
  }

  /** Stamp, weight and archive mark together are what a committed batch leaves. */
  lemma SettledRows(env: Env, before: seq<Row>, weighed: seq<Row>, after: seq<Row>, ids: seq<Id>,
                    updates: seq<WeightUpdate>, now: Time)
    requires EnvOk(env) && UpdatesFor(env, before, ids, updates) && Reweighed(env, before, weighed, ids, updates)
    requires IsArchived(weighed, after, Fading(updates), now)
    ensures after == Settle(env, before, ids, now)
  {
    forall i | 0 <= i < |before| ensures after[i] == Settle(env, before, ids, now)[i] {
      if i in ids {
        var k :| 0 <= k < |ids| && ids[k] == i;
        assert updates[k].id == i;
        assert i in Fading(updates) <==> updates[k].shouldArchive;
      }
    }
  }

  /** The record of one worker's run. Raises, here by naming the id, when the run
      processes an id it has already seen. */
  class RunStats {
    var batches: nat
    var rowsClaimed: nat
    var rowsDecayed: nat
    var rowsArchived: nat
    var processed: seq<Id>
    var seen: set<Id>

    ghost predicate Valid()
      reads this
    {
      Distinct(processed) && seen == set i | i in processed
    }

    constructor ()
      ensures Valid() && processed == [] && batches == rowsClaimed == rowsDecayed == rowsArchived == 0
    {
      batches, rowsClaimed, rowsDecayed, rowsArchived, processed, seen := 0, 0, 0, 0, [], {};
    }

    method AddProcessed(ids: seq<Id>) returns (repeated: Option<Id>)
      requires Valid()
      modifies this`processed, this`seen
      ensures Valid()
      ensures repeated.None? <==> Distinct(old(processed) + ids)
      ensures repeated.None? ==> processed == old(processed) + ids
      ensures repeated.Some? ==> exists k :: 0 <= k < |ids| && ids[k] == repeated.value
                                   && processed == old(processed) + ids[..k] && repeated.value in processed
    {
      ghost var start := processed;
      for k := 0 to |ids|
        invariant Valid() && processed == start + ids[..k]
      {
        if ids[k] in seen {
          var j :| 0 <= j < |processed| && processed[j] == ids[k];
          assert (start + ids)[j] == (start + ids)[|start| + k];
          return Some(ids[k]);
        }
        seen := seen + {ids[k]};
        processed := processed + [ids[k]];
        assert ids[..k + 1] == ids[..k] + [ids[k]];
      }
      assert ids[..|ids|] == ids;
      repeated := None;
    }

    /** Count a batch and record its ids, none of which the run has seen. */
    method Account(batch: Batch)
      requires Valid() && Distinct(processed + batch.claimed)
      modifies this
      ensures Valid() && processed == old(processed) + batch.claimed && batches == old(batches) + 1
      ensures rowsClaimed == old(rowsClaimed) + |batch.claimed| && rowsDecayed == old(rowsDecayed) + |batch.decayed|
      ensures rowsArchived == old(rowsArchived) + |batch.archived|
    {
      batches := batches + 1;
      rowsClaimed := rowsClaimed + |batch.claimed|;
      rowsDecayed := rowsDecayed + |batch.decayed|;
      rowsArchived := rowsArchived + |batch.archived|;
      var repeated := AddProcessed(batch.claimed);
      assert repeated == None;
    }
  }

  /** A row some batch of the run reweighted, archived at that batch's clock if it faded. */
  predicate SweptBy(env: Env, before: Row, after: Row, clocks: nat -> Time, batches: nat)
    requires EnvOk(env)
  {
    exists b :: 0 <= b < batches && after == DecayRow(env.tuning, env.cfg, before, env.run, env.at, clocks(b))
  }

  /** What one worker alone has done to a table after some batches. */
  ghost predicate Progress(env: Env, before: seq<Row>, after: seq<Row>, done: seq<Id>, clocks: nat -> Time,
                           batches: nat)
    requires EnvOk(env)
  {
    && |after| == |before| && InTable(before, done)
    && (forall i :: i in done ==>
          i < |before| && Eligible(before[i], env.run) && SweptBy(env, before[i], after[i], clocks, batches))
    && (forall i :: 0 <= i < |before| && i !in done ==> after[i] == before[i])
  }

  /** What the record of a run says after some batches. */
  ghost predicate Recorded(env: Env, before: seq<Row>, rows: seq<Row>, stats: RunStats, clocks: nat -> Time)
    requires EnvOk(env)
    reads stats
  {
    && stats.Valid() && stats.batches <= |stats.processed|
    && Progress(env, before, rows, stats.processed, clocks, stats.batches)
    && stats.rowsClaimed == stats.rowsDecayed == |stats.processed|
    && stats.rowsArchived == Count(Fades(env), before, stats.processed)
  }

  /** One turn of the drain loop; true when the claim came back empty. */
  method DrainOnce(table: Table, env: Env, clocks: nat -> Time, stats: RunStats, ghost before: seq<Row>)
    returns (drained: bool)
    requires EnvOk(env) && Recorded(env, before, table.rows, stats, clocks)
    modifies table`rows, stats
    ensures Recorded(env, before, table.rows, stats, clocks)
    ensures drained ==> stats.batches == old(stats.batches) && forall i :: 0 <= i < |table.rows| ==>
              !Eligible(table.rows[i], env.run)
    ensures !drained ==> stats.batches == old(stats.batches) + 1
  {
    ghost var rows, done := table.rows, stats.processed;
    var batch := RunDecayBatch(table, env, {}, clocks(stats.batches));
    ClaimedEligible(rows, env.run, batch.claimed, env.size);
    if batch.claimed == [] {
      assert table.rows == rows;
      return true;
    }
    BatchProgress(env, before, rows, done, batch.claimed, clocks, stats.batches);
    stats.Account(batch);
    return false;
  }

  /** The drain loop of one worker with the table to itself. It never processes a row
      twice; it leaves every processed row as one batch makes it and every other row
      alone; and unless it ran into the batch limit no eligible row is left. */
  method RunDecayWorker(table: Table, env: Env, clocks: nat -> Time, maxBatches: nat)
    returns (stats: RunStats, drained: bool)
    requires EnvOk(env)
    modifies table`rows
    ensures fresh(stats) && Recorded(env, old(table.rows), table.rows, stats, clocks)
    ensures drained ==> forall i :: 0 <= i < |table.rows| ==> !Eligible(table.rows[i], env.run)
    ensures drained ==> forall i :: 0 <= i < |table.rows| && Eligible(old(table.rows[i]), env.run) ==>
              i in stats.processed
    ensures !drained ==> stats.batches == maxBatches
  {
    stats := new RunStats();
    drained := false;
    ghost var before := table.rows;
    for n := 0 to maxBatches
      invariant fresh(stats) && stats.batches == n && Recorded(env, before, table.rows, stats, clocks)
    {
      drained := DrainOnce(table, env, clocks, stats, before);
      if drained {
        return;
      }
    }
  }

  lemma BatchProgress(env: Env, before: seq<Row>, rows: seq<Row>, done: seq<Id>, ids: seq<Id>, clocks: nat -> Time,
                      n: nat)
    requires EnvOk(env) && Progress(env, before, rows, done, clocks, n) && Distinct(done) && Distinct(ids)
    requires InTable(rows, ids) && forall i :: i in ids ==> i < |rows| && Eligible(rows[i], env.run)
    ensures Distinct(done + ids)
    ensures Progress(env, before, Settle(env, rows, ids, clocks(n)), done + ids, clocks, n + 1)
    ensures Count(Fades(env), before, done + ids) == Count(Fades(env), before, done) + Count(Fades(env), rows, ids)
  {
    forall i | i in done ensures i !in ids {
      SweptIsDone(env, before, rows, done, clocks, n, i);
    }
    Joined(done, ids);
    ProgressGrows(env, before, rows, done, ids, clocks, n);
    CountJoin(Fades(env), before, done, ids);
    CountSame(Fades(env), before, rows, ids);
  }

  lemma ProgressGrows(env: Env, before: seq<Row>, rows: seq<Row>, done: seq<Id>, ids: seq<Id>, clocks: nat -> Time,
                      n: nat)
    requires EnvOk(env) && Progress(env, before, rows, done, clocks, n)
    requires forall i :: i in ids ==> i < |rows| && i !in done && Eligible(rows[i], env.run)
    ensures Progress(env, before, Settle(env, rows, ids, clocks(n)), done + ids, clocks, n + 1)
  {
    var after := Settle(env, rows, ids, clocks(n));
    forall k | 0 <= k < |done + ids| ensures (done + ids)[k] < |after| {
      assert (done + ids)[k] in done || (done + ids)[k] in ids;
    }
    forall i | i in done + ids
      ensures i < |before| && Eligible(before[i], env.run) && SweptBy(env, before[i], after[i], clocks, n + 1)
    {
      if i in ids {
        assert after[i] == DecayRow(env.tuning, env.cfg, before[i], env.run, env.at, clocks(n));
      } else {
        var b :| 0 <= b < n && rows[i] == DecayRow(env.tuning, env.cfg, before[i], env.run, env.at, clocks(b));
        assert after[i] == rows[i];
      }
    }
  }

  lemma ClaimedEligible(rows: seq<Row>, run: nat, ids: seq<Id>, size: nat)
    requires IsClaim(rows, run, {}, size, ids)
    ensures InTable(rows, ids) && forall i :: i in ids ==> i < |rows| && Eligible(rows[i], run)
    ensures ids == [] && 0 < size ==> forall i :: 0 <= i < |rows| ==> !Eligible(rows[i], run)
  {
    assert forall i :: i in ids ==> i in Available(rows, run, {});
    if ids == [] && 0 < size {
      forall i | 0 <= i < |rows| ensures !Eligible(rows[i], run) {
        assert i !in Available(rows, run, {});
      }
    }
  }

  /** A row this run has swept is no longer eligible for it. */
  lemma SweptIsDone(env: Env, before: seq<Row>, rows: seq<Row>, done: seq<Id>, clocks: nat -> Time, n: nat, i: Id)
    requires EnvOk(env) && Progress(env, before, rows, done, clocks, n) && i in done
    ensures i < |rows| && !Eligible(rows[i], env.run)
  {
    var b :| 0 <= b < n && rows[i] == DecayRow(env.tuning, env.cfg, before[i], env.run, env.at, clocks(b));
  }

  lemma Joined(done: seq<Id>, ids: seq<Id>)
    requires Distinct(done) && Distinct(ids) && forall i :: i in ids ==> i !in done
    ensures Distinct(done + ids)
  {
    forall j, k | 0 <= j < k < |done + ids| ensures (done + ids)[j] != (done + ids)[k] {
      assert k >= |done| ==> ids[k - |done|] in ids;
    }
  }
}
