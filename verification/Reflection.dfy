/** Reflection: selecting a cluster, writing its summary, and rebuilding the
    summaries whose sources changed (`jobs/reflection.py`). */
module Reflection {
  import opened Common
  import opened Memories

  /** A row clustering may choose. */
  predicate IsCandidate(r: Row, who: Session) {
    && Visible(r, who) && Current(r) && r.consolidatedAt.None?
    && r.embedding.Some? && r.source != Some(REFLECTION)
  }

  /** What one selection transaction read: the chosen ids, each with the version
      of the content that the summary will be written from. */
  function Read(rows: seq<Row>, ids: set<Id>): (selection: map<Id, nat>)
    requires forall i :: i in ids ==> i < |rows|
  {
    map i | i in ids :: rows[i].version
  }

  /** The UPDATE that marks sources consolidated re-checks these columns only. */
  predicate Claimable(r: Row, who: Session) {
    Visible(r, who) && Live(r) && r.consolidatedAt.None?
  }

  function Claimed(rows: seq<Row>, who: Session, selection: map<Id, nat>): (ids: seq<Id>)
    ensures forall i: Id :: i in ids <==> i < |rows| && i in selection && Claimable(rows[i], who)
    ensures forall j, k :: 0 <= j < k < |ids| ==> ids[j] < ids[k]
  {
    Matching(|rows|, (i: Id) => i < |rows| && i in selection && Claimable(rows[i], who))
  }

  function Consolidate(rows: seq<Row>, who: Session, selection: map<Id, nat>, summary: Id, now: Time): (rs: seq<Row>)
    ensures |rs| == |rows|
  {
    seq(|rows|, i requires 0 <= i < |rows| =>
      if i in selection && Claimable(rows[i], who) then
        rows[i].(consolidatedAt := Some(now), consolidatedInto := Some(summary))
      else
        rows[i])
  }

  /** One audit entry per listed row, in order. */
  function LogEach(st: Store, who: Session, ids: seq<Id>, event: Event): Store
    decreases |ids|
  {
    if ids == [] then st
    else Log(LogEach(st, who, ids[..|ids| - 1], event), who, ids[|ids| - 1], event)
  }

  /** The summary inserted and audited, and its sources marked. */
  function FileSummary(st: Store, who: Session, content: string, e: Embedding,
                       selection: map<Id, nat>, now: Time): Store
  {
    var summary := |st.rows|;
    var written := Log(Append(st, NewRow(who, content, Some(e), Some(REFLECTION), None, now, selection)),
                       who, summary, SummaryWritten);
    written.(rows := Consolidate(st.rows, who, selection, summary, now) + [written.rows[summary]])
  }

  /** The write-up transaction: file the summary, then audit each source it marked. */
  function WriteSummary(st: Store, who: Session, content: string, e: Embedding,
                        selection: map<Id, nat>, now: Time): Store
  {
    LogEach(FileSummary(st, who, content, e, selection, now), who,
            Claimed(st.rows, who, selection), Consolidated(|st.rows|))
  }

  // ---- rebuilding -------------------------------------------------------------

  predicate LiveStale(r: Row, who: Session) {
    Visible(r, who) && Live(r) && r.staleAt.Some?
  }

  /** What the bounded, oldest-first query may return. */
  predicate IsStaleBatch(rows: seq<Row>, who: Session, limit: nat, batch: seq<Id>) {
    && |batch| <= limit
    && (forall i :: i in batch ==> i < |rows| && LiveStale(rows[i], who))
    && (forall j, k :: 0 <= j < k < |batch| ==> batch[j] != batch[k])
    && (|batch| < limit ==> forall i :: 0 <= i < |rows| && LiveStale(rows[i], who) ==> i in batch)
    && (forall i, j :: 0 <= i < |rows| && LiveStale(rows[i], who) && i !in batch && j in batch ==>
          rows[j].staleAt.value <= rows[i].staleAt.value)
  }

  /** A source that survives its summary and becomes a candidate again. */
  predicate Freeable(r: Row, who: Session, summary: Id) {
    Visible(r, who) && r.consolidatedInto == Some(summary) && Current(r)
  }

  function Freed(rows: seq<Row>, who: Session, summary: Id): (ids: seq<Id>)
    ensures forall i: Id :: i in ids <==> i < |rows| && Freeable(rows[i], who, summary)
    ensures forall j, k :: 0 <= j < k < |ids| ==> ids[j] < ids[k]
  {
    Matching(|rows|, (i: Id) => i < |rows| && Freeable(rows[i], who, summary))
  }

  function Free(rows: seq<Row>, who: Session, summary: Id): (rs: seq<Row>)
    ensures |rs| == |rows|
  {
    seq(|rows|, i requires 0 <= i < |rows| =>
      if Freeable(rows[i], who, summary) then
        rows[i].(consolidatedAt := None, consolidatedInto := None)
      else
        rows[i])
  }

  /** A stale summary soft-deleted and audited. */
  function RetireSummary(st: Store, who: Session, summary: Id, now: Time): Store
    requires summary < |st.rows|
  {
    Log(st.(rows := st.rows[summary := st.rows[summary].(deletedAt := Some(now))]), who, summary, StaleRetired)
  }

  /** Retire one stale summary and free its survivors. */
  function RebuildOne(st: Store, who: Session, summary: Id, now: Time): Store {
    if Mutable(st, who, summary) then
      var retired := RetireSummary(st, who, summary, now);
      LogEach(retired.(rows := Free(retired.rows, who, summary)), who,
              Freed(retired.rows, who, summary), Unconsolidated(summary))
    else
      st
  }

  function Rebuild(st: Store, who: Session, batch: seq<Id>, now: Time): Store
    decreases |batch|
  {
    if batch == [] then st
    else RebuildOne(Rebuild(st, who, batch[..|batch| - 1], now), who, batch[|batch| - 1], now)
  }
}
