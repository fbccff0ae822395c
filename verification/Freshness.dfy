/** Erasure reaches summaries: a summary that retrieval can return quotes only
    rows that are still live, not replaced, and worded as when it was written.
    Proved over every run in which a reflection write-up finds its cluster as the
    selection read it, and shown to fail exactly when it does not. */
module Freshness {
  import opened Common
  import opened Memories
  import opened Reflection
  import opened Effects
  import opened Lifecycle
  import opened Integrity

  /** Row `i` still says what it said when it was read at version `v`. */
  predicate Unchanged(rows: seq<Row>, i: Id, v: nat) {
    i < |rows| && Current(rows[i]) && rows[i].version == v
  }

  predicate FaithfulSummary(rows: seq<Row>, m: Id)
    requires m < |rows|
  {
    forall i :: i in rows[m].folded ==> Unchanged(rows, i, rows[m].folded[i])
  }

  /** What the user is promised: every retrievable summary is faithful to every
      row it was written from. */
  predicate Faithful(rows: seq<Row>) {
    forall m :: 0 <= m < |rows| && Retrievable(rows[m]) ==> FaithfulSummary(rows, m)
  }

  /** The source says what it said, and the edge that a later change of it will be
      traced along is there. */
  predicate Supports(rows: seq<Row>, i: Id, v: nat, m: Id) {
    Unchanged(rows, i, v) && rows[i].consolidatedInto == Some(m)
  }

  predicate FreshSummary(rows: seq<Row>, m: Id)
    requires m < |rows|
  {
    forall i :: i in rows[m].folded ==> Supports(rows, i, rows[m].folded[i], m)
  }

  predicate Fresh(rows: seq<Row>) {
    forall m :: 0 <= m < |rows| && Retrievable(rows[m]) ==> FreshSummary(rows, m)
  }

  lemma FreshIsFaithful(rows: seq<Row>)
    requires Fresh(rows)
    ensures Faithful(rows)
  {
    forall m | 0 <= m < |rows| && Retrievable(rows[m]) ensures FaithfulSummary(rows, m) {
      assert FreshSummary(rows, m);
    }
  }

  /** Rows about to be deleted or edited have no summary left to invalidate. */
  predicate Covered(sys: System) {
    forall op :: op in sys.pending ==> CoveredOne(sys.store.rows, sys.pending[op])
  }

  predicate CoveredOne(rows: seq<Row>, p: Mutation) {
    p.id < |rows| && Visible(rows[p.id], p.who) ==> NotServed(rows, rows[p.id].consolidatedInto)
  }

  /** The write-up finds every row of its cluster as it was read, in no other
      summary, and not about to be deleted or edited. */
  predicate Intact(sys: System, s: Selection) {
    && SelectionHolds(sys.store.rows, s)
    && forall op :: op in sys.pending ==> sys.pending[op].id !in s.read
  }

  predicate SelectionHolds(rows: seq<Row>, s: Selection) {
    forall i :: i in s.read ==> Unchanged(rows, i, s.read[i]) && rows[i].consolidatedInto.None?
  }

  /** A write-up step is undisturbed; every other step is. */
  predicate Undisturbed(sys: System, step: Step) {
    step.WriteUp? && step.run in sys.selected ==> Intact(sys, sys.selected[step.run])
  }

  predicate UndisturbedRun(env: Env, steps: seq<Step>)
    requires Possible(env, steps)
    decreases |steps|
  {
    steps == [] ||
    var init := steps[..|steps| - 1];
    UndisturbedRun(env, init) && Undisturbed(After(env, init), steps[|steps| - 1])
  }

  // ---- the store's operations keep Fresh ------------------------------------------

  /** No row joins a summary between the two stores. */
  predicate EdgesShrink(a: seq<Row>, b: seq<Row>) {
    && |a| <= |b|
    && (forall i :: 0 <= i < |a| ==> b[i].consolidatedInto == a[i].consolidatedInto || b[i].consolidatedInto.None?)
    && (forall i :: |a| <= i < |b| ==> b[i].consolidatedInto.None?)
  }

  lemma EdgesShrinkTransitive(a: seq<Row>, b: seq<Row>, c: seq<Row>)
    requires EdgesShrink(a, b) && EdgesShrink(b, c)
    ensures EdgesShrink(a, c)
  {}

  /** Nothing Fresh depends on changed, except that summaries may have left retrieval. */
  predicate SameMeaning(a: Row, b: Row) {
    && b.folded == a.folded && b.version == a.version && b.consolidatedInto == a.consolidatedInto
    && (Current(a) ==> Current(b)) && (Retrievable(b) ==> Retrievable(a))
  }

  lemma FreshFrame(a: seq<Row>, b: seq<Row>)
    requires Fresh(a) && |b| == |a|
    requires forall i :: 0 <= i < |a| ==> SameMeaning(a[i], b[i])
    ensures Fresh(b) && EdgesShrink(a, b)
  {
    forall m | 0 <= m < |b| && Retrievable(b[m]) ensures FreshSummary(b, m) {
      assert SameMeaning(a[m], b[m]) && FreshSummary(a, m);
      forall i | i in b[m].folded ensures Supports(b, i, b[m].folded[i], m) {
        assert Supports(a, i, a[m].folded[i], m) && SameMeaning(a[i], b[i]);
      }
    }
  }

  lemma InsertEffectFresh(a: seq<Row>, b: seq<Row>, who: Session, c: Candidate, now: Time)
    requires Fresh(a) && InsertEffect(a, b, who, c, now)
    ensures Fresh(b) && EdgesShrink(a, b)
  {
    forall m | 0 <= m < |b| && Retrievable(b[m]) ensures FreshSummary(b, m) {
      if m < |a| {
        assert Retrievable(a[m]) && FreshSummary(a, m) && b[m].folded == a[m].folded;
        forall i | i in b[m].folded ensures Supports(b, i, b[m].folded[i], m) {
          assert Supports(a, i, a[m].folded[i], m);
          assert Supersedes(a[i], who, c) ==> NotServed(b, a[i].consolidatedInto);
        }
      }
    }
  }

  lemma InsertFresh(st: Store, who: Session, c: Candidate, now: Time)
    requires Tidy(st.rows) && Fresh(st.rows)
    ensures var after := InsertCandidate(st, who, c, now);
            Fresh(after.rows) && EdgesShrink(st.rows, after.rows)
  {
    InsertRows(st, who, c, now);
    InsertEffectFresh(st.rows, InsertCandidate(st, who, c, now).rows, who, c, now);
  }

  lemma ApplyFresh(st: Store, who: Session, c: Candidate, d: Decision, cfg: Config, now: Time)
    requires Tidy(st.rows) && Fresh(st.rows)
    ensures var after := Apply(st, who, c, d, cfg, now);
            Fresh(after.rows) && EdgesShrink(st.rows, after.rows)
  {
    match d {
      case Block(_) =>
      case Ignore(_) =>
      case Repeat(near) => FreshFrame(st.rows, Apply(st, who, c, d, cfg, now).rows);
      case Add => InsertFresh(st, who, c, now);
    }
  }

  lemma {:induction false} CaptureFresh(st: Store, who: Session, cs: seq<Candidate>, picks: seq<Pick>, cfg: Config,
                          now: Time)
    requires Tidy(st.rows) && Fresh(st.rows) && |picks| == |cs|
    ensures var after := Capture(st, who, cs, picks, cfg, now);
            Fresh(after.rows) && EdgesShrink(st.rows, after.rows)
    decreases |cs|
  {
    if cs != [] {
      var last := |cs| - 1;
      var before := Capture(st, who, cs[..last], picks[..last], cfg, now);
      CaptureFresh(st, who, cs[..last], picks[..last], cfg, now);
      CaptureTidy(st, who, cs[..last], picks[..last], cfg, now);
      ApplyFresh(before, who, cs[last], Decide(before.rows, cs[last], picks[last], cfg), cfg, now);
      EdgesShrinkTransitive(st.rows, before.rows, Capture(st, who, cs, picks, cfg, now).rows);
    }
  }

  lemma RebuildEffectFresh(a: seq<Row>, b: seq<Row>, who: Session, summary: Id, now: Time)
    requires Tidy(a) && Fresh(a) && RebuildEffect(a, b, who, summary, now)
    requires a[summary].source == Some(REFLECTION)
    ensures Fresh(b) && EdgesShrink(a, b)
  {
    assert EdgeOk(a, summary);
    forall m | 0 <= m < |b| && Retrievable(b[m]) ensures FreshSummary(b, m) {
      assert Retrievable(a[m]) && FreshSummary(a, m);
      forall i | i in b[m].folded ensures Supports(b, i, b[m].folded[i], m) {
        assert Supports(a, i, a[m].folded[i], m);
      }
    }
  }

  lemma RebuildOneFresh(st: Store, who: Session, summary: Id, now: Time)
    requires Tidy(st.rows) && Fresh(st.rows)
    requires summary < |st.rows| ==> st.rows[summary].source == Some(REFLECTION)
    ensures var after := RebuildOne(st, who, summary, now);
            Fresh(after.rows) && EdgesShrink(st.rows, after.rows)
  {
    if Mutable(st, who, summary) {
      assert EdgeOk(st.rows, summary);
      RebuildOneRows(st, who, summary, now);
      RebuildEffectFresh(st.rows, RebuildOne(st, who, summary, now).rows, who, summary, now);
    }
  }

  lemma {:induction false} RebuildFresh(st: Store, who: Session, batch: seq<Id>, now: Time)
    requires Tidy(st.rows) && Fresh(st.rows)
    requires forall i :: i in batch && i < |st.rows| ==> st.rows[i].source == Some(REFLECTION)
    ensures var after := Rebuild(st, who, batch, now);
            Fresh(after.rows) && EdgesShrink(st.rows, after.rows)
    decreases |batch|
  {
    if batch != [] {
      var init := batch[..|batch| - 1];
      var before := Rebuild(st, who, init, now);
      RebuildFresh(st, who, init, now);
      RebuildTidy(st, who, init, now);
      RebuildOneFresh(before, who, batch[|batch| - 1], now);
      EdgesShrinkTransitive(st.rows, before.rows, Rebuild(st, who, batch, now).rows);
    }
  }

  // ---- the mutating transaction, exactly ---------------------------------------------

  lemma OneRowFresh(a: seq<Row>, id: Id, r: Row)
    requires Fresh(a) && id < |a| && NotServed(a, a[id].consolidatedInto)
    requires r.folded == a[id].folded && r.consolidatedInto == a[id].consolidatedInto
    requires Retrievable(r) ==> Retrievable(a[id])
    ensures Fresh(a[id := r]) && EdgesShrink(a, a[id := r])
  {
    var b := a[id := r];
    forall m | 0 <= m < |b| && Retrievable(b[m]) ensures FreshSummary(b, m) {
      assert Retrievable(a[m]) && FreshSummary(a, m);
      forall i | i in b[m].folded ensures Supports(b, i, b[m].folded[i], m) {
        assert Supports(a, i, a[m].folded[i], m);
      }
    }
  }

  /** Changing a row that a retrievable summary was written from breaks the promise. */
  lemma OneRowUnfaithful(a: seq<Row>, id: Id, r: Row)
    requires Tidy(a) && Fresh(a) && id < |a| && !NotServed(a, a[id].consolidatedInto)
    requires !Live(r) || r.version != a[id].version
    ensures !Faithful(a[id := r])
  {
    var m := a[id].consolidatedInto.value;
    assert EdgeOk(a, id) && FreshSummary(a, m);
    var b := a[id := r];
    assert Supports(a, id, a[m].folded[id], m);
    assert b[m] == a[m] && !Unchanged(b, id, b[m].folded[id]);
    assert !FaithfulSummary(b, m);
  }

  /** The deleting transaction keeps the promise exactly when no retrievable summary
      still quotes the row at that moment. */
  lemma DeleteExact(st: Store, who: Session, id: Id, now: Time)
    requires Tidy(st.rows) && Fresh(st.rows) && Mutable(st, who, id)
    ensures Fresh(DeleteRow(st, who, id, now).rows) <==> NotServed(st.rows, st.rows[id].consolidatedInto)
    ensures Faithful(DeleteRow(st, who, id, now).rows) <==> NotServed(st.rows, st.rows[id].consolidatedInto)
  {
    var r := st.rows[id].(deletedAt := Some(now));
    if NotServed(st.rows, st.rows[id].consolidatedInto) {
      OneRowFresh(st.rows, id, r);
      FreshIsFaithful(DeleteRow(st, who, id, now).rows);
    } else {
      OneRowUnfaithful(st.rows, id, r);
      if Fresh(DeleteRow(st, who, id, now).rows) {
        FreshIsFaithful(DeleteRow(st, who, id, now).rows);
      }
    }
  }

  /** The editing transaction, likewise. */
  lemma EditExact(st: Store, who: Session, id: Id, content: string, e: Embedding)
    requires Tidy(st.rows) && Fresh(st.rows) && Mutable(st, who, id)
    ensures Fresh(EditRow(st, who, id, content, e).rows) <==> NotServed(st.rows, st.rows[id].consolidatedInto)
    ensures Faithful(EditRow(st, who, id, content, e).rows) <==> NotServed(st.rows, st.rows[id].consolidatedInto)
  {
    var r := st.rows[id].(content := content, embedding := Some(e), version := st.rows[id].version + 1);
    if NotServed(st.rows, st.rows[id].consolidatedInto) {
      OneRowFresh(st.rows, id, r);
      FreshIsFaithful(EditRow(st, who, id, content, e).rows);
    } else {
      OneRowUnfaithful(st.rows, id, r);
      if Fresh(EditRow(st, who, id, content, e).rows) {
        FreshIsFaithful(EditRow(st, who, id, content, e).rows);
      }
    }
  }

  /** A retrievable summary was written from the row. */
  predicate Quoted(rows: seq<Row>, id: Id) {
    exists m :: 0 <= m < |rows| && m != id && Retrievable(rows[m]) && id in rows[m].folded
  }

  /** One row of a faithful table changes: the table stays faithful exactly when no summary
      that can still be retrieved quotes it. */
  lemma OneRowFaithful(a: seq<Row>, id: Id, r: Row)
    requires Faithful(a) && id < |a| && r.folded == a[id].folded
    requires !Current(r) || a[id].version < r.version
    requires Retrievable(r) ==> Retrievable(a[id]) && id !in r.folded
    ensures Faithful(a[id := r]) <==> !Quoted(a, id)
  {
    var b := a[id := r];
    if Quoted(a, id) {
      var m :| 0 <= m < |a| && m != id && Retrievable(a[m]) && id in a[m].folded;
      assert FaithfulSummary(a, m) && Unchanged(a, id, a[m].folded[id]);
      assert Retrievable(b[m]) && b[m].folded == a[m].folded && !Unchanged(b, id, b[m].folded[id]);
      assert !FaithfulSummary(b, m);
    } else {
      forall m | 0 <= m < |b| && Retrievable(b[m]) ensures FaithfulSummary(b, m) {
        assert FaithfulSummary(a, m);
        assert b[m].folded == a[m].folded;
      }
    }
  }

  /** So from any faithful table, traceable or not, a delete keeps summaries faithful if and
      only if no retrievable summary was written from the row. */
  lemma DeleteFromFaithful(st: Store, who: Session, id: Id, now: Time)
    requires Faithful(st.rows) && Mutable(st, who, id)
    ensures Faithful(DeleteRow(st, who, id, now).rows) <==> !Quoted(st.rows, id)
  {
    OneRowFaithful(st.rows, id, st.rows[id].(deletedAt := Some(now)));
  }

  /** And an edit likewise; a row is never written from itself (`FoldsBack`). */
  lemma EditFromFaithful(st: Store, who: Session, id: Id, content: string, e: Embedding)
    requires FoldsBack(st.rows) && Faithful(st.rows) && Mutable(st, who, id)
    ensures Faithful(EditRow(st, who, id, content, e).rows) <==> !Quoted(st.rows, id)
  {
    var row := st.rows[id];
    OneRowFaithful(st.rows, id, row.(content := content, embedding := Some(e), version := row.version + 1));
  }

  /** The invalidating transaction leaves the row's summary, if any, out of retrieval,
      whichever actor of the subject owns it. */
  lemma InvalidateCovers(st: Store, who: Session, id: Id, now: Time)
    requires Tidy(st.rows) && Fresh(st.rows)
    ensures var after := MarkStale(st, who, id, now, true);
            && Fresh(after.rows) && EdgesShrink(st.rows, after.rows)
            && CoveredOne(after.rows, Mutation(who, id))
  {
    var after := MarkStale(st, who, id, now, true);
    assert id < |st.rows| ==> EdgeOk(st.rows, id);
    FreshFrame(st.rows, after.rows);
  }

  /** On every table the system can reach, the in-transaction cascade, which sees one
      actor's rows, marks what the owner's cross-actor cascade marks: an edge never
      crosses actors. */
  lemma CascadesAgree(st: Store, who: Session, id: Id, now: Time)
    requires Linked(st.rows)
    requires id < |st.rows| ==> Visible(st.rows[id], who)
    ensures MarkStale(st, who, id, now, false) == MarkStale(st, who, id, now, true)
  {
    assert id < |st.rows| ==> EdgeOk(st.rows, id);
  }

  // ---- the write-up, exactly -------------------------------------------------------------

  /** A source's edge after a write-up; nothing else Fresh depends on moves. */
  predicate Joins(a: Row, b: Row, chosen: bool, n: Id) {
    && b.folded == a.folded && b.version == a.version
    && b.deletedAt == a.deletedAt && b.supersededAt == a.supersededAt && b.staleAt == a.staleAt
    && b.consolidatedInto == if chosen && Live(a) && a.consolidatedInto.None? then Some(n) else a.consolidatedInto
  }

  lemma JoinExact(a: seq<Row>, b: seq<Row>, read: map<Id, nat>)
    requires Fresh(a) && |b| == |a| + 1
    requires forall i :: 0 <= i < |a| ==> Joins(a[i], b[i], i in read, |a|)
    requires forall i :: 0 <= i < |a| ==> a[i].consolidatedInto != Some(|a|)
    requires forall i :: i in read ==> i < |a|
    requires Retrievable(b[|a|]) && b[|a|].folded == read
    ensures Fresh(b) <==> forall i :: i in read ==> Unchanged(a, i, read[i]) && a[i].consolidatedInto.None?
    ensures Faithful(b) <==> forall i :: i in read ==> Unchanged(a, i, read[i])
  {
    var n := |a|;
    forall m | 0 <= m < n && Retrievable(b[m]) ensures FreshSummary(b, m) && FaithfulSummary(b, m) {
      assert Joins(a[m], b[m], m in read, n) && FreshSummary(a, m);
      forall i | i in b[m].folded ensures Supports(b, i, b[m].folded[i], m) {
        assert Supports(a, i, a[m].folded[i], m) && Joins(a[i], b[i], i in read, n);
      }
    }
    forall i | i in read
      ensures Unchanged(b, i, read[i]) <==> Unchanged(a, i, read[i])
      ensures Supports(b, i, read[i], n) <==> Unchanged(a, i, read[i]) && a[i].consolidatedInto.None?
    {
      assert Joins(a[i], b[i], i in read, n);
    }
    assert Fresh(b) <==> FreshSummary(b, n);
    assert Faithful(b) <==> FaithfulSummary(b, n);
  }

  lemma WriteEffectExact(a: seq<Row>, b: seq<Row>, s: Selection, content: string, e: Embedding, now: Time)
    requires Tidy(a) && Fresh(a) && SelectionOk(a, s) && WriteEffect(a, b, s.who, content, e, s.read, now)
    ensures Fresh(b) <==> SelectionHolds(a, s)
    ensures Faithful(b) <==> forall i :: i in s.read ==> Unchanged(a, i, s.read[i])
  {
    forall i | 0 <= i < |a| ensures Joins(a[i], b[i], i in s.read, |a|) && a[i].consolidatedInto != Some(|a|) {
      assert EdgeOk(a, i);
    }
    JoinExact(a, b, s.read);
  }

  /** Writing a summary keeps the promise now exactly when every row of the cluster is
      as it was read, and keeps it traceable exactly when also none has joined another
      summary meanwhile. The statement itself re-checks deletion and consolidation
      only, and writes the summary whatever it finds. */
  lemma WriteExact(st: Store, s: Selection, content: string, e: Embedding, now: Time)
    requires Tidy(st.rows) && Fresh(st.rows) && SelectionOk(st.rows, s)
    ensures var after := WriteSummary(st, s.who, content, e, s.read, now).rows;
            && (Fresh(after) <==> SelectionHolds(st.rows, s))
            && (Faithful(after) <==> forall i :: i in s.read ==> Unchanged(st.rows, i, s.read[i]))
  {
    WriteRows(st, s.who, content, e, s.read, now);
    WriteEffectExact(st.rows, WriteSummary(st, s.who, content, e, s.read, now).rows, s, content, e, now);
  }

  // ---- why traceability is not optional --------------------------------------------------------

  /** Summaries are written from rows older than themselves. */
  predicate FoldsBack(rows: seq<Row>) {
    forall m, i :: 0 <= m < |rows| && i in rows[m].folded ==> i < m
  }

  /** A whole delete: invalidate, then mutate. */
  function FullyErased(st: Store, who: Session, id: Id, now: Time): Store {
    DeleteRow(MarkStale(st, who, id, now, true), who, id, now)
  }

  /** A retrievable summary that is faithful and cannot be traced from one of its rows
      survives the delete of that row. */
  lemma UntracedSurvives(st: Store, m: Id, i: Id, now: Time)
    requires Tidy(st.rows) && FoldsBack(st.rows) && m < |st.rows| && Retrievable(st.rows[m])
    requires i in st.rows[m].folded && i < |st.rows| && Live(st.rows[i]) && st.rows[i].consolidatedInto != Some(m)
    ensures !Faithful(FullyErased(st, Session(st.rows[i].subject, st.rows[i].actor), i, now).rows)
  {
    var who := Session(st.rows[i].subject, st.rows[i].actor);
    assert EdgeOk(st.rows, i) && i < m;
    var rows := FullyErased(st, who, i, now).rows;
    assert rows[m] == st.rows[m] && !Live(rows[i]);
    assert !Unchanged(rows, i, rows[m].folded[i]);
    assert !FaithfulSummary(rows, m);
  }

  /** On a faithful table of the system, being fresh is exactly being safe to erase from: no
      uninterrupted delete of any row by its owner leaves a summary quoting it. */
  lemma FreshIsExact(st: Store, now: Time)
    requires Tidy(st.rows) && FoldsBack(st.rows) && Faithful(st.rows)
    ensures Fresh(st.rows) <==>
              forall who: Session, id: Id :: Mutable(st, who, id) ==> Faithful(FullyErased(st, who, id, now).rows)
  {
    if Fresh(st.rows) {
      forall who: Session, id: Id | Mutable(st, who, id) ensures Faithful(FullyErased(st, who, id, now).rows) {
        EraseKeepsFaith(st, who, id, now);
      }
    } else {
      var m :| 0 <= m < |st.rows| && Retrievable(st.rows[m]) && !FreshSummary(st.rows, m);
      var i :| i in st.rows[m].folded && !Supports(st.rows, i, st.rows[m].folded[i], m);
      assert FaithfulSummary(st.rows, m) && Unchanged(st.rows, i, st.rows[m].folded[i]);
      UntracedSurvives(st, m, i, now);
      assert Mutable(st, Session(st.rows[i].subject, st.rows[i].actor), i);
    }
  }

  lemma EraseKeepsFaith(st: Store, who: Session, id: Id, now: Time)
    requires Tidy(st.rows) && Fresh(st.rows) && Mutable(st, who, id)
    ensures Faithful(FullyErased(st, who, id, now).rows)
  {
    var marked := MarkStale(st, who, id, now, true);
    InvalidateCovers(st, who, id, now);
    assert EdgeOk(st.rows, id);
    MutationTidy(st, marked);
    DeleteExact(marked, who, id, now);
  }

  /** New rows fold back and old rows' folds stand. */
  lemma FoldsBackFrame(a: seq<Row>, b: seq<Row>)
    requires FoldsBack(a) && |a| <= |b|
    requires forall m :: 0 <= m < |a| ==> b[m].folded == a[m].folded
    requires forall m, i :: |a| <= m < |b| && i in b[m].folded ==> i < m
    ensures FoldsBack(b)
  {}

  lemma ApplyFoldsBack(st: Store, who: Session, c: Candidate, d: Decision, cfg: Config, now: Time)
    requires Linked(st.rows) && FoldsBack(st.rows)
    ensures FoldsBack(Apply(st, who, c, d, cfg, now).rows)
  {
    if d.Add? {
      InsertRows(st, who, c, now);
    }
    FoldsBackFrame(st.rows, Apply(st, who, c, d, cfg, now).rows);
  }

  lemma {:induction false} CaptureFoldsBack(st: Store, who: Session, cs: seq<Candidate>, picks: seq<Pick>, cfg: Config,
                                            now: Time)
    requires Tidy(st.rows) && FoldsBack(st.rows) && |picks| == |cs|
    ensures FoldsBack(Capture(st, who, cs, picks, cfg, now).rows)
    decreases |cs|
  {
    if cs != [] {
      var last := |cs| - 1;
      var before := Capture(st, who, cs[..last], picks[..last], cfg, now);
      CaptureFoldsBack(st, who, cs[..last], picks[..last], cfg, now);
      CaptureTidy(st, who, cs[..last], picks[..last], cfg, now);
      ApplyFoldsBack(before, who, cs[last], Decide(before.rows, cs[last], picks[last], cfg), cfg, now);
    }
  }

  lemma WriteFoldsBack(st: Store, s: Selection, content: string, e: Embedding, now: Time)
    requires FoldsBack(st.rows) && SelectionOk(st.rows, s)
    ensures FoldsBack(WriteSummary(st, s.who, content, e, s.read, now).rows)
  {
    WriteRows(st, s.who, content, e, s.read, now);
    WriteEffectFoldsBack(st.rows, WriteSummary(st, s.who, content, e, s.read, now).rows, s, content, e, now);
  }

  lemma WriteEffectFoldsBack(a: seq<Row>, b: seq<Row>, s: Selection, content: string, e: Embedding, now: Time)
    requires FoldsBack(a) && SelectionOk(a, s) && WriteEffect(a, b, s.who, content, e, s.read, now)
    ensures FoldsBack(b)
  {
    FoldsBackFrame(a, b);
  }

  lemma StepFoldsBack(env: Env, sys: System, step: Step)
    requires Enabled(env, sys, step) && Tidy(sys.store.rows) && SelectionsOk(sys) && FoldsBack(sys.store.rows)
    ensures FoldsBack(StoreAfter(env, sys, step).rows)
  {
    var st, after := sys.store, StoreAfter(env, sys, step);
    if step.CaptureBatch? {
      CaptureFoldsBack(st, step.who, step.cs, step.picks, env.cfg, step.now);
    } else if step.Settle? {
      var f := sys.captures[step.op];
      ApplyFoldsBack(st, f.who, f.c, f.decision.value, env.cfg, step.now);
    } else if step.WriteUp? {
      assert SelectionOk(st.rows, sys.selected[step.run]);
      WriteFoldsBack(st, sys.selected[step.run], step.content, step.e, step.now);
    } else {
      StoreTidy(env, sys, step);
      SameRowCount(env, sys, step);
      assert forall m :: 0 <= m < |st.rows| ==> Keeps(st.rows[m], after.rows[m]);
      FoldsBackFrame(st.rows, after.rows);
    }
  }

  lemma SameRowCount(env: Env, sys: System, step: Step)
    requires Enabled(env, sys, step) && Tidy(sys.store.rows)
    requires !step.CaptureBatch? && !step.Settle? && !step.WriteUp?
    ensures |StoreAfter(env, sys, step).rows| == |sys.store.rows|
  {
    if step.RebuildStale? {
      RebuildTidy(sys.store, step.who, step.batch, step.now);
    }
  }

  /** Every table the system can reach folds back. */
  lemma {:induction false} RunFoldsBack(env: Env, steps: seq<Step>)
    requires Possible(env, steps)
    ensures FoldsBack(After(env, steps).store.rows)
    decreases |steps|
  {
    if steps != [] {
      var init := steps[..|steps| - 1];
      RunFoldsBack(env, init);
      RunTidy(env, init);
      StepFoldsBack(env, After(env, init), steps[|steps| - 1]);
    }
  }

  // ---- every undisturbed run ----------------------------------------------------------------

  lemma CoveredFrame(a: Store, b: Store, p: Mutation)
    requires Tidy(a.rows) && Evolves(a, b) && EdgesShrink(a.rows, b.rows) && CoveredOne(a.rows, p)
    ensures CoveredOne(b.rows, p)
  {
    if p.id < |a.rows| {
      assert Keeps(a.rows[p.id], b.rows[p.id]) && EdgeOk(a.rows, p.id);
      var edge := a.rows[p.id].consolidatedInto;
      assert edge.Some? ==> Keeps(a.rows[edge.value], b.rows[edge.value]);
    }
  }

  predicate Good(sys: System) {
    Tidy(sys.store.rows) && SelectionsOk(sys) && Fresh(sys.store.rows) && Covered(sys)
  }

  /** Every step but a write-up. */
  lemma OtherStepFresh(env: Env, sys: System, step: Step)
    requires Enabled(env, sys, step) && Good(sys) && !step.WriteUp?
    ensures Fresh(StoreAfter(env, sys, step).rows)
    ensures EdgesShrink(sys.store.rows, StoreAfter(env, sys, step).rows)
  {
    var st, after := sys.store, StoreAfter(env, sys, step);
    match step {
      case CaptureBatch(who, cs, picks, now) => CaptureFresh(st, who, cs, picks, env.cfg, now);
      case Settle(op, now) =>
        ApplyFresh(st, sys.captures[op].who, sys.captures[op].c, sys.captures[op].decision.value, env.cfg, now);
      case Invalidate(_, who, id, now) => InvalidateCovers(st, who, id, now);
      case FinishDelete(op, now) =>
        var p := sys.pending[op];
        if Mutable(st, p.who, p.id) {
          OneRowFresh(st.rows, p.id, after.rows[p.id]);
        }
      case FinishEdit(op, content, e) =>
        var p := sys.pending[op];
        if Mutable(st, p.who, p.id) {
          OneRowFresh(st.rows, p.id, after.rows[p.id]);
        }
      case RebuildStale(who, batch, now) => RebuildFresh(st, who, batch, now);
      case SweepBatch(run, ids, at, now) => FreshFrame(st.rows, after.rows);
      case _ =>
    }
  }

  lemma WriteEffectCovered(a: seq<Row>, b: seq<Row>, s: Selection, content: string, e: Embedding, now: Time,
                          p: Mutation)
    requires Tidy(a) && CoveredOne(a, p) && p.id !in s.read && WriteEffect(a, b, s.who, content, e, s.read, now)
    ensures CoveredOne(b, p)
  {
    assert p.id < |a| ==> EdgeOk(a, p.id);
  }

  lemma WriteUpCovered(st: Store, s: Selection, content: string, e: Embedding, now: Time, p: Mutation)
    requires Tidy(st.rows) && CoveredOne(st.rows, p) && p.id !in s.read
    ensures CoveredOne(WriteSummary(st, s.who, content, e, s.read, now).rows, p)
  {
    WriteRows(st, s.who, content, e, s.read, now);
    WriteEffectCovered(st.rows, WriteSummary(st, s.who, content, e, s.read, now).rows, s, content, e, now, p);
  }

  lemma WriteUpGood(env: Env, sys: System, step: Step)
    requires Enabled(env, sys, step) && Good(sys) && step.WriteUp? && Undisturbed(sys, step)
    ensures Fresh(StoreAfter(env, sys, step).rows) && Covered(Next(env, sys, step))
  {
    var s, b, next := sys.selected[step.run], StoreAfter(env, sys, step), Next(env, sys, step);
    assert SelectionOk(sys.store.rows, s);
    WriteExact(sys.store, s, step.content, step.e, step.now);
    forall op | op in next.pending ensures CoveredOne(b.rows, next.pending[op]) {
      WriteUpCovered(sys.store, s, step.content, step.e, step.now, sys.pending[op]);
    }
  }

  lemma OtherStepCovered(env: Env, sys: System, step: Step)
    requires Enabled(env, sys, step) && Good(sys) && !step.WriteUp?
    ensures Covered(Next(env, sys, step))
  {
    StoreTidy(env, sys, step);
    OtherStepFresh(env, sys, step);
    var a, b, next := sys.store, StoreAfter(env, sys, step), Next(env, sys, step);
    forall op | op in next.pending ensures CoveredOne(b.rows, next.pending[op]) {
      if step.Invalidate? && step.op == op {
        InvalidateCovers(a, step.who, step.id, step.now);
      } else {
        assert CoveredOne(a.rows, sys.pending[op]);
        CoveredFrame(a, b, sys.pending[op]);
      }
    }
  }

  lemma StepGood(env: Env, sys: System, step: Step)
    requires Enabled(env, sys, step) && Good(sys) && Undisturbed(sys, step)
    ensures Good(Next(env, sys, step))
  {
    StepTidy(env, sys, step);
    if step.WriteUp? {
      WriteUpGood(env, sys, step);
    } else {
      OtherStepFresh(env, sys, step);
      OtherStepCovered(env, sys, step);
    }
  }

  lemma {:induction false} RunGood(env: Env, steps: seq<Step>)
    requires Possible(env, steps) && UndisturbedRun(env, steps)
    ensures Good(After(env, steps))
    decreases |steps|
  {
    if steps != [] {
      var init := steps[..|steps| - 1];
      RunGood(env, init);
      StepGood(env, After(env, init), steps[|steps| - 1]);
    }
  }

  /** The retrieval guarantee: after every undisturbed run of captures, deletes, edits,
      supersessions, write-ups, rebuilds and sweeps, a summary retrieval can return is
      faithful to all the rows it was written from. */
  lemma RetrievalIsFaithful(env: Env, steps: seq<Step>, m: Id, i: Id)
    requires Possible(env, steps) && UndisturbedRun(env, steps)
    requires m < |After(env, steps).store.rows| && Retrievable(After(env, steps).store.rows[m])
    requires i in After(env, steps).store.rows[m].folded
    ensures var rows := After(env, steps).store.rows;
            i < m && Unchanged(rows, i, rows[m].folded[i])
  {
    RunGood(env, steps);
    var rows := After(env, steps).store.rows;
    assert FreshSummary(rows, m);
    assert Supports(rows, i, rows[m].folded[i], m) && EdgeOk(rows, i);
  }
}
