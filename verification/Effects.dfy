/** What each transaction does to each row, stated row by row, and the structural
    invariant of the table's pointers. The invariants of the other modules are
    proved from these statements rather than from the statements' bodies. */
module Effects {
  import opened Common
  import opened Memories
  import opened Reflection

  // ---- the pointer invariant --------------------------------------------------

  /** The two rows compete for one single-valued slot. */
  predicate SameSlot(r: Row, s: Row) {
    r.subject == s.subject && r.actor == s.actor && IsSingleValued(r.attribute) && r.attribute == s.attribute
  }

  /** A supersession pointer leads to a later row of the same slot. */
  predicate SuccessorOk(rows: seq<Row>, i: Id)
    requires i < |rows|
  {
    && (rows[i].supersededAt.Some? <==> rows[i].supersededBy.Some?)
    && (rows[i].supersededBy.Some? ==>
          var j := rows[i].supersededBy.value;
          i < j < |rows| && SameSlot(rows[i], rows[j]))
  }

  /** A consolidation edge leads from a row that is not a summary to a later
      summary of the same subject and actor that was written from it. */
  predicate EdgeOk(rows: seq<Row>, i: Id)
    requires i < |rows|
  {
    && (rows[i].consolidatedAt.Some? <==> rows[i].consolidatedInto.Some?)
    && (rows[i].consolidatedInto.Some? ==>
          var m := rows[i].consolidatedInto.value;
          && i < m < |rows|
          && rows[m].subject == rows[i].subject && rows[m].actor == rows[i].actor
          && rows[i].source != Some(REFLECTION) && rows[m].source == Some(REFLECTION)
          && i in rows[m].folded)
  }

  /** Only summaries are ever marked stale. */
  predicate StaleOk(r: Row) {
    r.staleAt.Some? ==> r.source == Some(REFLECTION)
  }

  predicate Linked(rows: seq<Row>) {
    && (forall i :: 0 <= i < |rows| ==> SuccessorOk(rows, i))
    && (forall i :: 0 <= i < |rows| ==> EdgeOk(rows, i))
    && (forall i :: 0 <= i < |rows| ==> StaleOk(rows[i]))
  }

  // ---- how one row may change --------------------------------------------------

  /** Only the staleness mark may differ, and it is never rewritten. */
  predicate OnlyStaled(a: Row, b: Row) {
    b == a.(staleAt := b.staleAt) && (a.staleAt.Some? ==> b.staleAt == a.staleAt)
  }

  /** Some consolidation edge leads to the row. */
  predicate IsTarget(rows: seq<Row>, m: Id) {
    exists i :: 0 <= i < |rows| && rows[i].consolidatedInto == Some(m)
  }

  /** What no transaction ever undoes: identity columns are fixed, tombstones are
      written once, counters only grow. */
  predicate Keeps(a: Row, b: Row) {
    && b.subject == a.subject && b.actor == a.actor && b.source == a.source
    && b.attribute == a.attribute && b.folded == a.folded
    && (a.deletedAt.Some? ==> b.deletedAt == a.deletedAt)
    && (a.supersededBy.Some? ==> b.supersededBy == a.supersededBy)
    && (a.supersededAt.Some? ==> b.supersededAt == a.supersededAt)
    && (a.staleAt.Some? ==> b.staleAt == a.staleAt)
    && a.reinforcements <= b.reinforcements && a.version <= b.version
  }

  /** The table only grows and every old row keeps what it must; the log only grows. */
  predicate Evolves(a: Store, b: Store) {
    && |a.rows| <= |b.rows|
    && (forall i :: 0 <= i < |a.rows| ==> Keeps(a.rows[i], b.rows[i]))
    && a.audit <= b.audit
  }

  /** The summary the edge names, if any, cannot reach a prompt. */
  predicate NotServed(rows: seq<Row>, edge: Option<Id>) {
    edge.Some? && edge.value < |rows| ==> !Retrievable(rows[edge.value])
  }

  lemma EvolvesTransitive(a: Store, b: Store, c: Store)
    requires Evolves(a, b) && Evolves(b, c)
    ensures Evolves(a, c)
  {
    forall i | 0 <= i < |a.rows| ensures Keeps(a.rows[i], c.rows[i]) {
      assert Keeps(a.rows[i], b.rows[i]) && Keeps(b.rows[i], c.rows[i]);
    }
  }

  // ---- supersession ------------------------------------------------------------

  /** A cascade marks summaries stale and does nothing else. */
  lemma {:induction false} CascadeRows(st: Store, who: Session, successor: Id, retired: seq<Id>, now: Time)
    ensures var after := CascadeEach(st, who, successor, retired, now);
            && |after.rows| == |st.rows|
            && (forall m :: 0 <= m < |st.rows| ==> OnlyStaled(st.rows[m], after.rows[m]))
            && (forall m :: 0 <= m < |st.rows| && after.rows[m] != st.rows[m] ==> IsTarget(st.rows, m))
            && st.audit <= after.audit
    decreases |retired|
  {
    if retired != [] {
      var init := retired[..|retired| - 1];
      CascadeRows(st, who, successor, init, now);
      var before := CascadeEach(st, who, successor, init, now);
      assert forall i :: 0 <= i < |st.rows| ==> OnlyStaled(st.rows[i], before.rows[i]);
      var source := retired[|retired| - 1];
      if source < |st.rows| {
        assert before.rows[source].consolidatedInto == st.rows[source].consolidatedInto;
      }
    }
  }

  /** No summary of a retired row is retrievable once the cascade has run. */
  lemma {:induction false} CascadeReaches(st: Store, who: Session, successor: Id, retired: seq<Id>, now: Time, i: Id)
    requires i in retired && i < |st.rows| && Visible(st.rows[i], who)
    requires st.rows[i].consolidatedInto.Some?
    requires st.rows[i].consolidatedInto.value < |st.rows| && Visible(st.rows[st.rows[i].consolidatedInto.value], who)
    ensures var after := CascadeEach(st, who, successor, retired, now);
            |after.rows| == |st.rows| && !Retrievable(after.rows[st.rows[i].consolidatedInto.value])
    decreases |retired|
  {
    var init := retired[..|retired| - 1];
    CascadeRows(st, who, successor, init, now);
    var before := CascadeEach(st, who, successor, init, now);
    var m := st.rows[i].consolidatedInto.value;
    assert OnlyStaled(st.rows[i], before.rows[i]) && OnlyStaled(st.rows[m], before.rows[m]);
    if i in init {
      CascadeReaches(st, who, successor, init, now, i);
    }
  }

  /** The row a capture's INSERT adds. */
  function CandidateRow(who: Session, c: Candidate, now: Time): Row {
    NewRow(who, c.text, c.embedding, c.source, SlotOf(c), now, map[])
  }

  predicate Supersedes(r: Row, who: Session, c: Candidate) {
    IsSingleValued(SlotOf(c)) && Occupies(r, who, SlotOf(c).value)
  }

  /** An insert appends its row, retires exactly the current occupants of its slot
      and touches nothing else but the staleness mark of summaries; every summary of
      a retired row stops being retrievable. */
  predicate InsertEffect(a: seq<Row>, b: seq<Row>, who: Session, c: Candidate, now: Time) {
    var n := |a|;
    && |b| == n + 1
    && b[n] == CandidateRow(who, c, now)
    && (forall i :: 0 <= i < n ==>
          OnlyStaled(if Supersedes(a[i], who, c)
                     then a[i].(supersededBy := Some(n), supersededAt := Some(now)) else a[i], b[i]))
    && (forall m :: 0 <= m < n && b[m].staleAt != a[m].staleAt ==> a[m].source == Some(REFLECTION))
    && (forall i :: 0 <= i < n && Supersedes(a[i], who, c) ==> NotServed(b, a[i].consolidatedInto))
  }

  lemma InsertRows(st: Store, who: Session, c: Candidate, now: Time)
    requires Linked(st.rows)
    ensures InsertEffect(st.rows, InsertCandidate(st, who, c, now).rows, who, c, now)
    ensures st.audit <= InsertCandidate(st, who, c, now).audit
  {
    var n := |st.rows|;
    var after := InsertCandidate(st, who, c, now);
    var inserted := Append(st, CandidateRow(who, c, now));
    if IsSingleValued(SlotOf(c)) {
      var attribute := SlotOf(c).value;
      var retired := inserted.(rows := Retire(inserted.rows, who, attribute, n, now));
      var ids := Occupants(inserted.rows, who, attribute, n);
      CascadeRows(retired, who, n, ids, now);
      forall m: Id | IsTarget(retired.rows, m) ensures m < n && st.rows[m].source == Some(REFLECTION) {
        var i :| 0 <= i < |retired.rows| && retired.rows[i].consolidatedInto == Some(m);
        assert i < n && inserted.rows[i] == st.rows[i] && EdgeOk(st.rows, i);
      }
      forall i | 0 <= i < n && Supersedes(st.rows[i], who, c)
        ensures NotServed(after.rows, st.rows[i].consolidatedInto)
      {
        assert EdgeOk(st.rows, i) && inserted.rows[i] == st.rows[i];
        if st.rows[i].consolidatedInto.Some? {
          CascadeReaches(retired, who, n, ids, now, i);
        }
      }
    }
  }

  // ---- reflection ----------------------------------------------------------------

  lemma {:induction false} LogEachRows(st: Store, who: Session, ids: seq<Id>, event: Event)
    ensures LogEach(st, who, ids, event).rows == st.rows
    ensures st.audit <= LogEach(st, who, ids, event).audit
    decreases |ids|
  {
    if ids != [] {
      LogEachRows(st, who, ids[..|ids| - 1], event);
    }
  }

  /** A write-up appends the summary and claims the claimable rows of its cluster. */
  predicate WriteEffect(a: seq<Row>, b: seq<Row>, who: Session, content: string, e: Embedding,
                        selection: map<Id, nat>, now: Time)
  {
    var n := |a|;
    && |b| == n + 1
    && b[n] == NewRow(who, content, Some(e), Some(REFLECTION), None, now, selection)
    && (forall i :: 0 <= i < n ==>
          b[i] == if i in selection && Claimable(a[i], who)
                  then a[i].(consolidatedAt := Some(now), consolidatedInto := Some(n)) else a[i])
  }

  lemma WriteRows(st: Store, who: Session, content: string, e: Embedding, selection: map<Id, nat>, now: Time)
    ensures WriteEffect(st.rows, WriteSummary(st, who, content, e, selection, now).rows,
                        who, content, e, selection, now)
    ensures st.audit <= WriteSummary(st, who, content, e, selection, now).audit
  {
    LogEachRows(FileSummary(st, who, content, e, selection, now), who,
                Claimed(st.rows, who, selection), Consolidated(|st.rows|));
  }

  /** A rebuild deletes the summary and frees its surviving sources. */
  predicate RebuildEffect(a: seq<Row>, b: seq<Row>, who: Session, summary: Id, now: Time) {
    && |b| == |a| && summary < |a| && Live(a[summary])
    && b[summary] == a[summary].(deletedAt := Some(now))
    && (forall i :: 0 <= i < |a| && i != summary ==>
          b[i] == if Freeable(a[i], who, summary)
                  then a[i].(consolidatedAt := None, consolidatedInto := None) else a[i])
  }

  lemma RebuildOneRows(st: Store, who: Session, summary: Id, now: Time)
    requires Mutable(st, who, summary)
    requires st.rows[summary].consolidatedInto != Some(summary)
    ensures RebuildEffect(st.rows, RebuildOne(st, who, summary, now).rows, who, summary, now)
    ensures st.audit <= RebuildOne(st, who, summary, now).audit
  {
    var retired := RetireSummary(st, who, summary, now);
    LogEachRows(retired.(rows := Free(retired.rows, who, summary)), who,
                Freed(retired.rows, who, summary), Unconsolidated(summary));
  }
}
