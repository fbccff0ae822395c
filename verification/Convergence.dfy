/** Reflection converges: it never folds its own output, and without user activity
    repeated passes stop changing the store. */
module Convergence {
  import opened Common
  import opened Memories
  import opened Reflection
  import opened Effects
  import opened Lifecycle
  import opened Integrity

  function StaleSet(rows: seq<Row>, who: Session): set<Id> {
    set i | 0 <= i < |rows| && LiveStale(rows[i], who)
  }

  function CandidateSet(rows: seq<Row>, who: Session): set<Id> {
    set i | 0 <= i < |rows| && IsCandidate(rows[i], who)
  }

  /** A summary is never folded into another one, in any run. */
  lemma EdgesHaveDepthOne(env: Env, steps: seq<Step>, i: Id)
    requires Possible(env, steps) && i < |After(env, steps).store.rows|
    requires After(env, steps).store.rows[i].consolidatedInto.Some?
    ensures var rows := After(env, steps).store.rows;
            var m := rows[i].consolidatedInto.value;
            i < m < |rows| && rows[m].source == Some(REFLECTION) && rows[m].consolidatedInto.None?
  {
    RunTidy(env, steps);
    var rows := After(env, steps).store.rows;
    assert EdgeOk(rows, i) && EdgeOk(rows, rows[i].consolidatedInto.value);
  }

  lemma RebuildOneStale(st: Store, who: Session, summary: Id, now: Time)
    requires Tidy(st.rows) && summary < |st.rows| && LiveStale(st.rows[summary], who)
    ensures StaleSet(RebuildOne(st, who, summary, now).rows, who) == StaleSet(st.rows, who) - {summary}
  {
    assert EdgeOk(st.rows, summary);
    RebuildOneRows(st, who, summary, now);
    RebuildEffectStale(st.rows, RebuildOne(st, who, summary, now).rows, who, summary, now);
  }

  lemma RebuildEffectStale(a: seq<Row>, b: seq<Row>, who: Session, summary: Id, now: Time)
    requires RebuildEffect(a, b, who, summary, now)
    ensures StaleSet(b, who) == StaleSet(a, who) - {summary}
  {}

  function Elements(ids: seq<Id>): set<Id> {
    set i | i in ids
  }

  lemma LessOneMore(all: set<Id>, batch: seq<Id>)
    requires batch != []
    ensures all - Elements(batch) == all - Elements(batch[..|batch| - 1]) - {batch[|batch| - 1]}
  {
    assert batch == batch[..|batch| - 1] + [batch[|batch| - 1]];
  }

  /** A rebuild pass retires exactly the summaries of its batch. */
  lemma {:induction false} RebuildStaleSet(st: Store, who: Session, batch: seq<Id>, now: Time)
    requires Tidy(st.rows)
    requires forall k :: 0 <= k < |batch| ==> batch[k] < |st.rows| && LiveStale(st.rows[batch[k]], who)
    requires forall j, k :: 0 <= j < k < |batch| ==> batch[j] != batch[k]
    ensures StaleSet(Rebuild(st, who, batch, now).rows, who) == StaleSet(st.rows, who) - Elements(batch)
    decreases |batch|
  {
    if batch == [] {
      assert Elements(batch) == {};
    } else {
      var init, summary := batch[..|batch| - 1], batch[|batch| - 1];
      var before := Rebuild(st, who, init, now);
      RebuildStaleSet(st, who, init, now);
      RebuildTidy(st, who, init, now);
      assert summary in StaleSet(st.rows, who) && summary !in init;
      assert summary in StaleSet(before.rows, who);
      RebuildOneStale(before, who, summary, now);
      LessOneMore(StaleSet(st.rows, who), batch);
    }
  }

  /** A write-up over candidates uses each of them up and makes none. */
  lemma WriteCandidates(st: Store, who: Session, ids: set<Id>, content: string, e: Embedding, now: Time)
    requires forall i :: i in ids ==> i < |st.rows| && IsCandidate(st.rows[i], who)
    ensures var after := WriteSummary(st, who, content, e, Read(st.rows, ids), now).rows;
            CandidateSet(after, who) == CandidateSet(st.rows, who) - ids
            && StaleSet(after, who) == StaleSet(st.rows, who)
  {
    WriteRows(st, who, content, e, Read(st.rows, ids), now);
    WriteEffectCandidates(st.rows, WriteSummary(st, who, content, e, Read(st.rows, ids), now).rows, who, ids,
                          content, e, now);
  }

  lemma WriteEffectCandidates(a: seq<Row>, b: seq<Row>, who: Session, ids: set<Id>, content: string, e: Embedding,
                          now: Time)
    requires forall i :: i in ids ==> i < |a| && IsCandidate(a[i], who)
    requires WriteEffect(a, b, who, content, e, Read(a, ids), now)
    ensures CandidateSet(b, who) == CandidateSet(a, who) - ids && StaleSet(b, who) == StaleSet(a, who)
  {
    var n := |a|;
    assert !IsCandidate(b[n], who) && !LiveStale(b[n], who);
    forall i | 0 <= i < n
      ensures IsCandidate(b[i], who) <==> IsCandidate(a[i], who) && i !in ids
      ensures LiveStale(b[i], who) <==> LiveStale(a[i], who)
    {
      assert IsCandidate(a[i], who) && i in ids ==> Claimable(a[i], who);
    }
  }

  lemma SmallerSet(a: set<Id>, b: set<Id>)
    requires b != {} && b <= a
    ensures |a - b| < |a|
  {
    assert (a - b) + b == a;
  }

  // ---- passes -------------------------------------------------------------------------

  /** What the queries of a pass return: the stale batch and the cluster, either of
      which may be empty, and the sentence written for the cluster. */
  datatype Oracle = Oracle(stale: Store -> seq<Id>, cluster: Store -> set<Id>,
                           text: string, vector: Embedding, limit: nat)

  ghost predicate Honest(o: Oracle, who: Session) {
    && 0 < o.limit
    && (forall st: Store :: IsStaleBatch(st.rows, who, o.limit, o.stale(st)))
    && (forall st: Store, i: Id :: i in o.cluster(st) ==> i < |st.rows| && IsCandidate(st.rows[i], who))
  }

  /** One undisturbed pass: rebuild, then cluster and write. */
  ghost function ReflectOnce(st: Store, who: Session, o: Oracle, now: Time): Store
    requires Honest(o, who)
  {
    var rebuilt := Rebuild(st, who, o.stale(st), now);
    if o.cluster(rebuilt) == {} then rebuilt
    else WriteSummary(rebuilt, who, o.text, o.vector, Read(rebuilt.rows, o.cluster(rebuilt)), now)
  }

  /** A pass that finds nothing. */
  ghost predicate Settled(st: Store, o: Oracle) {
    o.stale(st) == [] && o.cluster(st) == {}
  }

  lemma RebuildHalf(st: Store, who: Session, o: Oracle, now: Time)
    requires Tidy(st.rows) && Honest(o, who)
    ensures var rebuilt := Rebuild(st, who, o.stale(st), now);
            && Tidy(rebuilt.rows)
            && (o.stale(st) == [] ==> rebuilt == st)
            && (o.stale(st) != [] ==> |StaleSet(rebuilt.rows, who)| < |StaleSet(st.rows, who)|)
  {
    var batch := o.stale(st);
    assert IsStaleBatch(st.rows, who, o.limit, batch);
    assert forall k :: 0 <= k < |batch| ==> batch[k] in batch;
    RebuildStaleSet(st, who, batch, now);
    RebuildTidy(st, who, batch, now);
    if batch != [] {
      assert batch[0] in Elements(batch);
      SmallerSet(StaleSet(st.rows, who), Elements(batch));
    }
  }

  lemma WriteHalf(st: Store, who: Session, o: Oracle, ids: set<Id>, now: Time)
    requires Tidy(st.rows) && ids != {}
    requires forall i :: i in ids ==> i < |st.rows| && IsCandidate(st.rows[i], who)
    ensures var after := WriteSummary(st, who, o.text, o.vector, Read(st.rows, ids), now);
            && Tidy(after.rows)
            && |StaleSet(after.rows, who)| == |StaleSet(st.rows, who)|
            && |CandidateSet(after.rows, who)| < |CandidateSet(st.rows, who)|
  {
    WriteCandidates(st, who, ids, o.text, o.vector, now);
    SmallerSet(CandidateSet(st.rows, who), ids);
    WriteTidy(st, who, o.text, o.vector, Read(st.rows, ids), now);
  }

  /** Every other pass decreases (live stale summaries, candidates) lexicographically. */
  lemma PassDecreases(st: Store, who: Session, o: Oracle, now: Time)
    requires Tidy(st.rows) && Honest(o, who) && !Settled(st, o)
    ensures var after := ReflectOnce(st, who, o, now);
            && Tidy(after.rows)
            && (|| |StaleSet(after.rows, who)| < |StaleSet(st.rows, who)|
                || (&& |StaleSet(after.rows, who)| == |StaleSet(st.rows, who)|
                    && |CandidateSet(after.rows, who)| < |CandidateSet(st.rows, who)|))
  {
    RebuildHalf(st, who, o, now);
    var rebuilt := Rebuild(st, who, o.stale(st), now);
    if o.cluster(rebuilt) != {} {
      WriteHalf(rebuilt, who, o, o.cluster(rebuilt), now);
    }
  }

  /** Run passes until one finds nothing; the measure above shows there is one. */
  ghost function Settle(st: Store, who: Session, o: Oracle, now: Time): (settled: Store)
    requires Tidy(st.rows) && Honest(o, who)
    ensures Tidy(settled.rows) && Settled(settled, o)
    decreases |StaleSet(st.rows, who)|, |CandidateSet(st.rows, who)|
  {
    if Settled(st, o) then st
    else
      PassDecreases(st, who, o, now);
      Settle(ReflectOnce(st, who, o, now), who, o, now)
  }

  /** Once settled, no stale summary of the session is live, and a further pass
      changes nothing at all. */
  lemma SettledIsFixed(st: Store, who: Session, o: Oracle, now: Time, i: Id)
    requires Tidy(st.rows) && Honest(o, who)
    ensures var settled := Settle(st, who, o, now);
            && ReflectOnce(settled, who, o, now) == settled
            && (i < |settled.rows| ==> !LiveStale(settled.rows[i], who))
  {
    var settled := Settle(st, who, o, now);
    assert IsStaleBatch(settled.rows, who, o.limit, o.stale(settled));
  }
}
