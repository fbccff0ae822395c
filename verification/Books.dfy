/** The audit trail balances: after every run, counting a row's entries gives back
    what happened to it, neither more nor less. */
module Books {
  import opened Common
  import opened Memories
  import opened Reflection
  import opened Effects
  import opened Lifecycle
  import opened Integrity
  import opened Captures

  datatype Kind = Wrote | Erased | Replaced | WentStale | Joined | Left | Reworded

  /** `write` and `delete` rows by their action, `update` rows by their outcome. */
  function KindOf(e: Event): Kind {
    match e
    case Inserted => Wrote
    case Reinforced => Wrote
    case SummaryWritten => Wrote
    case SoftDeleted => Erased
    case StaleRetired => Erased
    case Superseded(_) => Replaced
    case MarkedStale(_) => WentStale
    case Edited => Reworded
    case Consolidated(_) => Joined
    case Unconsolidated(_) => Left
  }

  function Tally(audit: seq<Entry>, i: Id, k: Kind): nat
    decreases |audit|
  {
    if audit == [] then 0
    else
      var last := audit[|audit| - 1];
      Tally(audit[..|audit| - 1], i, k) + One(last.memory == i && KindOf(last.event) == k)
  }

  /** A row's accounts. */
  predicate RowBalances(audit: seq<Entry>, i: Id, r: Row) {
    && Tally(audit, i, Wrote) == 1 + r.reinforcements
    && Tally(audit, i, Erased) == One(r.deletedAt.Some?)
    && Tally(audit, i, Replaced) == One(r.supersededAt.Some?)
    && Tally(audit, i, WentStale) == One(r.staleAt.Some?)
    && Tally(audit, i, Joined) == Tally(audit, i, Left) + One(r.consolidatedAt.Some?)
    && Tally(audit, i, Reworded) == r.version
  }

  /** Every row's accounts balance and every entry is about a row that exists. */
  predicate Balanced(st: Store) {
    && (forall i :: 0 <= i < |st.rows| ==> RowBalances(st.audit, i, st.rows[i]))
    && InRange(st)
  }

  lemma LogTally(st: Store, who: Session, id: Id, event: Event, i: Id, k: Kind)
    ensures Tally(Log(st, who, id, event).audit, i, k) ==
              Tally(st.audit, i, k) + One(id == i && KindOf(event) == k)
  {
    assert Log(st, who, id, event).audit[..|st.audit|] == st.audit;
  }

  lemma {:induction false} NoEntryYet(audit: seq<Entry>, n: Id, k: Kind)
    requires forall e :: 0 <= e < |audit| ==> audit[e].memory < n
    ensures Tally(audit, n, k) == 0
    decreases |audit|
  {
    if audit != [] {
      NoEntryYet(audit[..|audit| - 1], n, k);
    }
  }

  predicate InRange(st: Store) {
    forall e :: 0 <= e < |st.audit| ==> st.audit[e].memory < |st.rows|
  }

  /** A row's accounts moved between two stores as the row itself did. */
  predicate Posts(a: Store, b: Store, i: Id)
    requires i < |a.rows| && i < |b.rows|
  {
    var r, t := a.rows[i], b.rows[i];
    && Tally(b.audit, i, Wrote) - Tally(a.audit, i, Wrote) == t.reinforcements - r.reinforcements
    && Tally(b.audit, i, Erased) - Tally(a.audit, i, Erased) == One(t.deletedAt.Some?) - One(r.deletedAt.Some?)
    && Tally(b.audit, i, Replaced) - Tally(a.audit, i, Replaced) ==
       One(t.supersededAt.Some?) - One(r.supersededAt.Some?)
    && Tally(b.audit, i, WentStale) - Tally(a.audit, i, WentStale) == One(t.staleAt.Some?) - One(r.staleAt.Some?)
    && Tally(b.audit, i, Joined) - Tally(a.audit, i, Joined) + One(r.consolidatedAt.Some?)
       == Tally(b.audit, i, Left) - Tally(a.audit, i, Left) + One(t.consolidatedAt.Some?)
    && Tally(b.audit, i, Reworded) - Tally(a.audit, i, Reworded) == t.version - r.version
  }

  lemma PostsBalance(a: Store, b: Store, i: Id)
    requires i < |a.rows| && i < |b.rows| && Posts(a, b, i) && RowBalances(a.audit, i, a.rows[i])
    ensures RowBalances(b.audit, i, b.rows[i])
  {}

  predicate Ascending(ids: seq<Id>) {
    forall j, k :: 0 <= j < k < |ids| ==> ids[j] < ids[k]
  }

  lemma LastIsNew(ids: seq<Id>, i: Id)
    requires ids != [] && Ascending(ids)
    ensures One(i in ids) == One(i in ids[..|ids| - 1]) + One(i == ids[|ids| - 1])
    ensures Ascending(ids[..|ids| - 1])
  {
    var init := ids[..|ids| - 1];
    assert ids == init + [ids[|ids| - 1]];
  }

  /** Entries a list of rows earned, one each. */
  lemma {:induction false} LogEachTally(st: Store, who: Session, ids: seq<Id>, event: Event, i: Id, k: Kind)
    requires Ascending(ids)
    ensures Tally(LogEach(st, who, ids, event).audit, i, k) ==
              Tally(st.audit, i, k) + One(i in ids && KindOf(event) == k)
    decreases |ids|
  {
    if ids != [] {
      var init := ids[..|ids| - 1];
      LastIsNew(ids, i);
      LogEachTally(st, who, init, event, i, k);
      LogTally(LogEach(st, who, init, event), who, ids[|ids| - 1], event, i, k);
    }
  }

  lemma {:induction false} LogEachInRange(st: Store, who: Session, ids: seq<Id>, event: Event)
    requires InRange(st) && forall j :: 0 <= j < |ids| ==> ids[j] < |st.rows|
    ensures InRange(LogEach(st, who, ids, event)) && LogEach(st, who, ids, event).rows == st.rows
    decreases |ids|
  {
    if ids != [] {
      LogEachInRange(st, who, ids[..|ids| - 1], event);
    }
  }

  /** A cascade step earns one stale entry for the row it marks and no other. */
  predicate StalePosts(a: Store, b: Store, i: Id, k: Kind) {
    && |b.rows| == |a.rows|
    && Tally(b.audit, i, k) - Tally(a.audit, i, k) ==
       (if k == WentStale && i < |a.rows| then One(b.rows[i].staleAt.Some?) - One(a.rows[i].staleAt.Some?) else 0)
  }

  lemma MarkStaleTally(st: Store, who: Session, source: Id, now: Time, owner: bool, i: Id, k: Kind)
    ensures StalePosts(st, MarkStale(st, who, source, now, owner), i, k)
  {
    if MarkStale(st, who, source, now, owner) != st {
      var m := st.rows[source].consolidatedInto.value;
      LogTally(st.(rows := st.rows[m := st.rows[m].(staleAt := Some(now))]), who, m, MarkedStale(source), i, k);
    }
  }

  /** How one account moves over a cascade. */
  predicate CascadePosts(a: Store, b: Store, retired: bool, i: Id, k: Kind) {
    && |b.rows| == |a.rows|
    && Tally(b.audit, i, k) - Tally(a.audit, i, k) ==
       One(k == Replaced && retired)
       + (if k == WentStale && i < |a.rows| then One(b.rows[i].staleAt.Some?) - One(a.rows[i].staleAt.Some?) else 0)
  }

  lemma CascadeStepTally(st: Store, before: Store, marked: Store, who: Session, successor: Id, id: Id, earlier: bool,
                         i: Id, k: Kind)
    requires CascadePosts(st, before, earlier, i, k) && !(earlier && i == id)
    requires StalePosts(before, marked, i, k)
    ensures CascadePosts(st, Log(marked, who, id, Superseded(successor)), earlier || i == id, i, k)
  {
    LogTally(marked, who, id, Superseded(successor), i, k);
  }

  lemma {:induction false} CascadeTally(st: Store, who: Session, successor: Id, retired: seq<Id>, now: Time, i: Id,
                          k: Kind)
    requires Ascending(retired)
    ensures CascadePosts(st, CascadeEach(st, who, successor, retired, now), i in retired, i, k)
    decreases |retired|
  {
    if retired != [] {
      var last := |retired| - 1;
      var init := retired[..last];
      LastIsNew(retired, i);
      CascadeTally(st, who, successor, init, now, i, k);
      var before := CascadeEach(st, who, successor, init, now);
      MarkStaleTally(before, who, retired[last], now, false, i, k);
      CascadeStepTally(st, before, MarkStale(before, who, retired[last], now, false), who, successor, retired[last],
                       i in init, i, k);
    }
  }

  lemma {:induction false} CascadeInRange(st: Store, who: Session, successor: Id, retired: seq<Id>, now: Time)
    requires InRange(st) && forall j :: 0 <= j < |retired| ==> retired[j] < |st.rows|
    ensures var after := CascadeEach(st, who, successor, retired, now);
            InRange(after) && |after.rows| == |st.rows|
    decreases |retired|
  {
    if retired != [] {
      CascadeInRange(st, who, successor, retired[..|retired| - 1], now);
    }
  }

  // ---- each transaction balances --------------------------------------------------------

  /** What an insert adds to the trail: a write entry for the new row, a superseded
      entry for each row it retired, a stale entry for each summary it took out of
      retrieval. */
  predicate InsertPosts(a: Store, b: Store, who: Session, c: Candidate, i: Id, k: Kind) {
    var n := |a.rows|;
    && |b.rows| == n + 1
    && Tally(b.audit, i, k) - Tally(a.audit, i, k) ==
       One(k == Wrote && i == n)
       + One(k == Replaced && i < n && Supersedes(a.rows[i], who, c))
       + (if k == WentStale && i < n then One(b.rows[i].staleAt.Some?) - One(a.rows[i].staleAt.Some?) else 0)
  }

  predicate InsertPostsAll(a: Store, b: Store, who: Session, c: Candidate, i: Id) {
    && InsertPosts(a, b, who, c, i, Wrote)
    && InsertPosts(a, b, who, c, i, Erased)
    && InsertPosts(a, b, who, c, i, Replaced)
    && InsertPosts(a, b, who, c, i, WentStale)
    && InsertPosts(a, b, who, c, i, Joined)
    && InsertPosts(a, b, who, c, i, Left)
    && InsertPosts(a, b, who, c, i, Reworded)
  }

  lemma InsertTally(st: Store, who: Session, c: Candidate, now: Time, i: Id, k: Kind)
    requires Linked(st.rows)
    ensures InsertPosts(st, InsertCandidate(st, who, c, now), who, c, i, k)
  {
    var n := |st.rows|;
    InsertRows(st, who, c, now);
    var inserted := Append(st, CandidateRow(who, c, now));
    if IsSingleValued(SlotOf(c)) {
      var attribute := SlotOf(c).value;
      var retired := inserted.(rows := Retire(inserted.rows, who, attribute, n, now));
      var ids := Occupants(inserted.rows, who, attribute, n);
      CascadeTally(retired, who, n, ids, now, i, k);
      LogTally(CascadeEach(retired, who, n, ids, now), who, n, Inserted, i, k);
      assert i in ids <==> i < n && Supersedes(st.rows[i], who, c);
    } else {
      LogTally(inserted, who, n, Inserted, i, k);
    }
  }

  lemma InsertInRange(st: Store, who: Session, c: Candidate, now: Time)
    requires InRange(st)
    ensures InRange(InsertCandidate(st, who, c, now))
  {
    var n := |st.rows|;
    var inserted := Append(st, CandidateRow(who, c, now));
    if IsSingleValued(SlotOf(c)) {
      var attribute := SlotOf(c).value;
      var ids := Occupants(inserted.rows, who, attribute, n);
      assert forall j :: 0 <= j < |ids| ==> ids[j] in ids;
      CascadeInRange(inserted.(rows := Retire(inserted.rows, who, attribute, n, now)), who, n, ids, now);
    }
  }

  lemma InsertEffectBalanced(a: Store, b: Store, who: Session, c: Candidate, now: Time)
    requires Linked(a.rows) && Balanced(a) && InsertEffect(a.rows, b.rows, who, c, now)
    requires forall i :: 0 <= i < |b.rows| ==> InsertPostsAll(a, b, who, c, i)
    ensures forall i :: 0 <= i < |b.rows| ==> RowBalances(b.audit, i, b.rows[i])
  {
    var n := |a.rows|;
    forall i | 0 <= i < |b.rows| ensures RowBalances(b.audit, i, b.rows[i]) {
      assert InsertPostsAll(a, b, who, c, i);
      if i == n {
        forall k: Kind { NoEntryYet(a.audit, n, k); }
      } else {
        assert SuccessorOk(a.rows, i);
        assert Posts(a, b, i);
        PostsBalance(a, b, i);
      }
    }
  }

  lemma InsertBalanced(st: Store, who: Session, c: Candidate, now: Time)
    requires Linked(st.rows) && Balanced(st)
    ensures Balanced(InsertCandidate(st, who, c, now))
  {
    InsertRows(st, who, c, now);
    InsertInRange(st, who, c, now);
    var after := InsertCandidate(st, who, c, now);
    forall i | 0 <= i < |after.rows| ensures InsertPostsAll(st, after, who, c, i) {
      forall k: Kind { InsertTally(st, who, c, now, i, k); }
    }
    InsertEffectBalanced(st, after, who, c, now);
  }

  /** One entry about one row whose account moves by exactly that entry. */
  lemma OneEntryBalanced(st: Store, who: Session, id: Id, r: Row, event: Event)
    requires Balanced(st) && id < |st.rows|
    requires RowBalances(Log(st, who, id, event).audit, id, r)
    ensures Balanced(Log(st.(rows := st.rows[id := r]), who, id, event))
  {
    var after := Log(st.(rows := st.rows[id := r]), who, id, event);
    forall i | 0 <= i < |st.rows| ensures RowBalances(after.audit, i, after.rows[i]) {
      assert RowBalances(st.audit, i, st.rows[i]);
      assert after.audit == Log(st, who, id, event).audit;
      if i != id {
        forall k: Kind { LogTally(st, who, id, event, i, k); }
      }
    }
  }

  /** Reinforcing and logging balance exactly when the row is still there to be
      reinforced: the log entry is written either way. */
  lemma ReinforceExact(st: Store, who: Session, id: Id, cfg: Config, now: Time)
    requires Balanced(st) && id < |st.rows|
    ensures Balanced(Log(Reinforce(st, who, id, cfg, now), who, id, Reinforced)) <==> Mutable(st, who, id)
  {
    var after := Log(Reinforce(st, who, id, cfg, now), who, id, Reinforced);
    assert RowBalances(st.audit, id, st.rows[id]);
    forall k: Kind { LogTally(st, who, id, Reinforced, id, k); }
    if Mutable(st, who, id) {
      OneEntryBalanced(st, who, id, ReinforcedRow(st.rows[id], cfg, now), Reinforced);
    } else {
      assert after == Log(st, who, id, Reinforced);
      assert !RowBalances(after.audit, id, after.rows[id]);
    }
  }

  lemma DeleteBalanced(st: Store, who: Session, id: Id, now: Time)
    requires Balanced(st)
    ensures Balanced(DeleteRow(st, who, id, now))
  {
    if Mutable(st, who, id) {
      assert RowBalances(st.audit, id, st.rows[id]);
      forall k: Kind { LogTally(st, who, id, SoftDeleted, id, k); }
      OneEntryBalanced(st, who, id, st.rows[id].(deletedAt := Some(now)), SoftDeleted);
    }
  }

  lemma EditBalanced(st: Store, who: Session, id: Id, content: string, e: Embedding)
    requires Balanced(st)
    ensures Balanced(EditRow(st, who, id, content, e))
  {
    if Mutable(st, who, id) {
      assert RowBalances(st.audit, id, st.rows[id]);
      forall k: Kind { LogTally(st, who, id, Edited, id, k); }
      OneEntryBalanced(st, who, id, EditRow(st, who, id, content, e).rows[id], Edited);
    }
  }

  lemma MarkStaleBalanced(st: Store, who: Session, source: Id, now: Time, owner: bool)
    requires Balanced(st)
    ensures Balanced(MarkStale(st, who, source, now, owner))
  {
    if MarkStale(st, who, source, now, owner) != st {
      var m := st.rows[source].consolidatedInto.value;
      assert RowBalances(st.audit, m, st.rows[m]);
      forall k: Kind { LogTally(st, who, m, MarkedStale(source), m, k); }
      OneEntryBalanced(st, who, m, st.rows[m].(staleAt := Some(now)), MarkedStale(source));
    }
  }

  lemma ApplyBalanced(st: Store, who: Session, c: Candidate, d: Decision, cfg: Config, now: Time)
    requires Linked(st.rows) && Balanced(st) && (d.Repeat? ==> Mutable(st, who, d.near))
    ensures Balanced(Apply(st, who, c, d, cfg, now))
  {
    match d {
      case Block(_) =>
      case Ignore(_) =>
      case Repeat(near) => ReinforceExact(st, who, near, cfg, now);
      case Add => InsertBalanced(st, who, c, now);
    }
  }

  lemma {:induction false} CaptureBalanced(st: Store, who: Session, cs: seq<Candidate>, picks: seq<Pick>,
                          cfg: Config, now: Time)
    requires Tidy(st.rows) && Balanced(st)
    requires |picks| == |cs| && ValidPicks(st, who, cs, picks, cfg, now)
    ensures Balanced(Capture(st, who, cs, picks, cfg, now))
    decreases |cs|
  {
    if cs != [] {
      var last := |cs| - 1;
      CaptureBalanced(st, who, cs[..last], picks[..last], cfg, now);
      CaptureTidy(st, who, cs[..last], picks[..last], cfg, now);
      var before := Capture(st, who, cs[..last], picks[..last], cfg, now);
      ApplyBalanced(before, who, cs[last], Decide(before.rows, cs[last], picks[last], cfg), cfg, now);
    }
  }

  lemma FileTally(st: Store, who: Session, content: string, e: Embedding, read: map<Id, nat>, now: Time, i: Id, k: Kind)
    ensures Tally(FileSummary(st, who, content, e, read, now).audit, i, k) ==
              Tally(st.audit, i, k) + One(k == Wrote && i == |st.rows|)
    ensures InRange(st) ==> InRange(FileSummary(st, who, content, e, read, now))
  {
    LogTally(Append(st, NewRow(who, content, Some(e), Some(REFLECTION), None, now, read)), who, |st.rows|,
            SummaryWritten, i, k);
  }

  lemma RetireTally(st: Store, who: Session, summary: Id, now: Time, i: Id, k: Kind)
    requires summary < |st.rows|
    ensures Tally(RetireSummary(st, who, summary, now).audit, i, k) ==
              Tally(st.audit, i, k) + One(k == Erased && i == summary)
    ensures InRange(st) ==> InRange(RetireSummary(st, who, summary, now))
  {
    LogTally(st.(rows := st.rows[summary := st.rows[summary].(deletedAt := Some(now))]), who, summary,
            StaleRetired, i, k);
  }

  lemma FiledThenLogged(st: Store, filed: Store, after: Store, who: Session, claimed: seq<Id>, event: Event, n: Id,
                        i: Id, k: Kind)
    requires after == LogEach(filed, who, claimed, event) && Ascending(claimed) && KindOf(event) == Joined
    requires Tally(filed.audit, i, k) == Tally(st.audit, i, k) + One(k == Wrote && i == n)
    ensures Tally(after.audit, i, k) ==
              Tally(st.audit, i, k) + One(k == Wrote && i == n) + One(k == Joined && i in claimed)
  {
    LogEachTally(filed, who, claimed, event, i, k);
  }

  predicate WritePosts(a: Store, b: Store, who: Session, read: map<Id, nat>, i: Id, k: Kind) {
    Tally(b.audit, i, k) == Tally(a.audit, i, k) + One(k == Wrote && i == |a.rows|)
                            + One(k == Joined && i < |a.rows| && i in read && Claimable(a.rows[i], who))
  }

  predicate WritePostsAll(a: Store, b: Store, who: Session, read: map<Id, nat>, i: Id) {
    && WritePosts(a, b, who, read, i, Wrote)
    && WritePosts(a, b, who, read, i, Erased)
    && WritePosts(a, b, who, read, i, Replaced)
    && WritePosts(a, b, who, read, i, WentStale)
    && WritePosts(a, b, who, read, i, Joined)
    && WritePosts(a, b, who, read, i, Left)
    && WritePosts(a, b, who, read, i, Reworded)
  }

  lemma WriteTally(st: Store, who: Session, content: string, e: Embedding, read: map<Id, nat>, now: Time, i: Id,
                   k: Kind)
    ensures WritePosts(st, WriteSummary(st, who, content, e, read, now), who, read, i, k)
  {
    FileTally(st, who, content, e, read, now, i, k);
    FiledThenLogged(st, FileSummary(st, who, content, e, read, now), WriteSummary(st, who, content, e, read, now), who,
                    Claimed(st.rows, who, read), Consolidated(|st.rows|), |st.rows|, i, k);
  }

  lemma WriteInRange(st: Store, who: Session, content: string, e: Embedding, read: map<Id, nat>, now: Time)
    requires InRange(st)
    ensures InRange(WriteSummary(st, who, content, e, read, now))
  {
    var claimed := Claimed(st.rows, who, read);
    assert forall j :: 0 <= j < |claimed| ==> claimed[j] in claimed;
    FileTally(st, who, content, e, read, now, 0, Wrote);
    LogEachInRange(FileSummary(st, who, content, e, read, now), who, claimed, Consolidated(|st.rows|));
  }

  lemma WriteEffectBalanced(a: Store, b: Store, who: Session, content: string, e: Embedding, read: map<Id, nat>,
                          now: Time)
    requires Linked(a.rows) && Balanced(a) && WriteEffect(a.rows, b.rows, who, content, e, read, now)
    requires forall i :: 0 <= i < |b.rows| ==> WritePostsAll(a, b, who, read, i)
    ensures forall i :: 0 <= i < |b.rows| ==> RowBalances(b.audit, i, b.rows[i])
  {
    var n := |a.rows|;
    forall i | 0 <= i < |b.rows| ensures RowBalances(b.audit, i, b.rows[i]) {
      assert WritePostsAll(a, b, who, read, i);
      if i == n {
        forall k: Kind { NoEntryYet(a.audit, n, k); }
      } else {
        assert EdgeOk(a.rows, i);
        assert Posts(a, b, i);
        PostsBalance(a, b, i);
      }
    }
  }

  lemma WriteBalanced(st: Store, who: Session, content: string, e: Embedding, read: map<Id, nat>, now: Time)
    requires Linked(st.rows) && Balanced(st)
    ensures Balanced(WriteSummary(st, who, content, e, read, now))
  {
    WriteRows(st, who, content, e, read, now);
    WriteInRange(st, who, content, e, read, now);
    var after := WriteSummary(st, who, content, e, read, now);
    forall i | 0 <= i < |after.rows| ensures WritePostsAll(st, after, who, read, i) {
      forall k: Kind { WriteTally(st, who, content, e, read, now, i, k); }
    }
    WriteEffectBalanced(st, after, who, content, e, read, now);
  }

  predicate RebuildPosts(a: Store, b: Store, who: Session, summary: Id, i: Id, k: Kind) {
    Tally(b.audit, i, k) == Tally(a.audit, i, k) + One(k == Erased && i == summary)
                            + One(k == Left && i < |a.rows| && Freeable(a.rows[i], who, summary))
  }

  predicate RebuildPostsAll(a: Store, b: Store, who: Session, summary: Id, i: Id) {
    && RebuildPosts(a, b, who, summary, i, Wrote)
    && RebuildPosts(a, b, who, summary, i, Erased)
    && RebuildPosts(a, b, who, summary, i, Replaced)
    && RebuildPosts(a, b, who, summary, i, WentStale)
    && RebuildPosts(a, b, who, summary, i, Joined)
    && RebuildPosts(a, b, who, summary, i, Left)
    && RebuildPosts(a, b, who, summary, i, Reworded)
  }

  lemma RetiredThenLogged(st: Store, retired: Store, who: Session, summary: Id, freed: seq<Id>, i: Id, k: Kind)
    requires Ascending(freed)
    requires Tally(retired.audit, i, k) == Tally(st.audit, i, k) + One(k == Erased && i == summary)
    requires i in freed <==> i < |st.rows| && Freeable(st.rows[i], who, summary)
    ensures RebuildPosts(st, LogEach(retired, who, freed, Unconsolidated(summary)), who, summary, i, k)
  {
    LogEachTally(retired, who, freed, Unconsolidated(summary), i, k);
  }

  lemma RebuildOneTally(st: Store, who: Session, summary: Id, now: Time, i: Id, k: Kind)
    requires Mutable(st, who, summary) && st.rows[summary].consolidatedInto != Some(summary)
    ensures RebuildPosts(st, RebuildOne(st, who, summary, now), who, summary, i, k)
  {
    var retired := RetireSummary(st, who, summary, now);
    var freed := Freed(retired.rows, who, summary);
    RetireTally(st, who, summary, now, i, k);
    assert i in freed <==> i < |st.rows| && Freeable(st.rows[i], who, summary);
    RetiredThenLogged(st, retired.(rows := Free(retired.rows, who, summary)), who, summary, freed, i, k);
  }

  lemma RebuildOneInRange(st: Store, who: Session, summary: Id, now: Time)
    requires InRange(st)
    ensures InRange(RebuildOne(st, who, summary, now))
  {
    if Mutable(st, who, summary) {
      var retired := RetireSummary(st, who, summary, now);
      var freed := Freed(retired.rows, who, summary);
      assert forall j :: 0 <= j < |freed| ==> freed[j] in freed;
      LogEachInRange(retired.(rows := Free(retired.rows, who, summary)), who, freed, Unconsolidated(summary));
    }
  }

  lemma RebuildEffectBalanced(a: Store, b: Store, who: Session, summary: Id, now: Time)
    requires Linked(a.rows) && Balanced(a) && RebuildEffect(a.rows, b.rows, who, summary, now)
    requires forall i :: 0 <= i < |a.rows| ==> RebuildPostsAll(a, b, who, summary, i)
    ensures forall i :: 0 <= i < |b.rows| ==> RowBalances(b.audit, i, b.rows[i])
  {
    forall i | 0 <= i < |b.rows| ensures RowBalances(b.audit, i, b.rows[i]) {
      assert EdgeOk(a.rows, summary) && EdgeOk(a.rows, i);
      assert RebuildPostsAll(a, b, who, summary, i);
      assert Posts(a, b, i);
      PostsBalance(a, b, i);
    }
  }

  lemma RebuildOneBalanced(st: Store, who: Session, summary: Id, now: Time)
    requires Linked(st.rows) && Balanced(st)
    ensures Balanced(RebuildOne(st, who, summary, now))
  {
    if Mutable(st, who, summary) {
      var after := RebuildOne(st, who, summary, now);
      assert EdgeOk(st.rows, summary);
      RebuildOneInRange(st, who, summary, now);
      RebuildOneRows(st, who, summary, now);
      forall i | 0 <= i < |st.rows| ensures RebuildPostsAll(st, after, who, summary, i) {
        forall k: Kind { RebuildOneTally(st, who, summary, now, i, k); }
      }
      RebuildEffectBalanced(st, after, who, summary, now);
    }
  }

  lemma {:induction false} RebuildBalanced(st: Store, who: Session, batch: seq<Id>, now: Time)
    requires Tidy(st.rows) && Balanced(st)
    ensures Balanced(Rebuild(st, who, batch, now))
    decreases |batch|
  {
    if batch != [] {
      var init := batch[..|batch| - 1];
      RebuildBalanced(st, who, init, now);
      RebuildTidy(st, who, init, now);
      RebuildOneBalanced(Rebuild(st, who, init, now), who, batch[|batch| - 1], now);
    }
  }

  lemma DecayBalanced(env: Env, st: Store, run: nat, ids: set<Id>, at: Time, now: Time)
    requires 0.0 < env.tuning.damping && Balanced(st)
    ensures Balanced(DecayBatch(env, st, run, ids, at, now))
  {
    var after := DecayBatch(env, st, run, ids, at, now);
    forall i | 0 <= i < |after.rows| ensures RowBalances(after.audit, i, after.rows[i]) {
      assert RowBalances(st.audit, i, st.rows[i]);
    }
  }

  // ---- over-logging is never made good ----------------------------------------------------

  /** Write entries beyond the one of the row's insertion, less its reinforcements. */
  function Excess(st: Store, i: Id): int
    requires i < |st.rows|
  {
    Tally(st.audit, i, Wrote) - 1 - st.rows[i].reinforcements
  }

  predicate NoLess(a: Store, b: Store, i: Id)
    requires i < |a.rows|
  {
    |a.rows| <= |b.rows| && Excess(a, i) <= Excess(b, i)
  }

  /** Some row has more write entries than writes. */
  predicate OverLogged(st: Store) {
    exists i :: 0 <= i < |st.rows| && Excess(st, i) > 0
  }

  lemma ApplyExcess(st: Store, who: Session, c: Candidate, d: Decision, cfg: Config, now: Time, i: Id)
    requires Linked(st.rows) && i < |st.rows|
    ensures NoLess(st, Apply(st, who, c, d, cfg, now), i)
  {
    match d {
      case Repeat(near) => LogTally(Reinforce(st, who, near, cfg, now), who, near, Reinforced, i, Wrote);
      case Add =>
        InsertRows(st, who, c, now);
        InsertTally(st, who, c, now, i, Wrote);
      case _ =>
    }
  }

  lemma {:induction false} CaptureExcess(st: Store, who: Session, cs: seq<Candidate>, picks: seq<Pick>, cfg: Config,
                                         now: Time, i: Id)
    requires Tidy(st.rows) && |picks| == |cs| && i < |st.rows|
    ensures NoLess(st, Capture(st, who, cs, picks, cfg, now), i)
    decreases |cs|
  {
    if cs != [] {
      var last := |cs| - 1;
      var before := Capture(st, who, cs[..last], picks[..last], cfg, now);
      CaptureExcess(st, who, cs[..last], picks[..last], cfg, now, i);
      CaptureTidy(st, who, cs[..last], picks[..last], cfg, now);
      ApplyExcess(before, who, cs[last], Decide(before.rows, cs[last], picks[last], cfg), cfg, now, i);
    }
  }

  lemma WriteExcess(st: Store, who: Session, content: string, e: Embedding, read: map<Id, nat>, now: Time, i: Id)
    requires i < |st.rows|
    ensures NoLess(st, WriteSummary(st, who, content, e, read, now), i)
  {
    WriteRows(st, who, content, e, read, now);
    WriteTally(st, who, content, e, read, now, i, Wrote);
  }

  lemma {:induction false} RebuildExcess(st: Store, who: Session, batch: seq<Id>, now: Time, i: Id)
    requires Tidy(st.rows) && i < |st.rows|
    ensures NoLess(st, Rebuild(st, who, batch, now), i)
    decreases |batch|
  {
    if batch != [] {
      var init, summary := batch[..|batch| - 1], batch[|batch| - 1];
      var before := Rebuild(st, who, init, now);
      RebuildExcess(st, who, init, now, i);
      RebuildTidy(st, who, init, now);
      if Mutable(before, who, summary) {
        assert EdgeOk(before.rows, summary);
        RebuildOneRows(before, who, summary, now);
        RebuildOneTally(before, who, summary, now, i, Wrote);
      }
    }
  }

  /** No step brings a row's write entries closer to its writes. */
  lemma StepExcess(env: Env, sys: System, step: Step, i: Id)
    requires Enabled(env, sys, step) && Tidy(sys.store.rows) && i < |sys.store.rows|
    ensures NoLess(sys.store, StoreAfter(env, sys, step), i)
  {
    var st := sys.store;
    match step {
      case CaptureBatch(who, cs, picks, now) => CaptureExcess(st, who, cs, picks, env.cfg, now, i);
      case Settle(op, now) =>
        var f := sys.captures[op];
        ApplyExcess(st, f.who, f.c, f.decision.value, env.cfg, now, i);
      case Invalidate(_, who, id, now) => MarkStaleTally(st, who, id, now, true, i, Wrote);
      case FinishDelete(op, _) => LogTally(st, sys.pending[op].who, sys.pending[op].id, SoftDeleted, i, Wrote);
      case FinishEdit(op, _, _) => LogTally(st, sys.pending[op].who, sys.pending[op].id, Edited, i, Wrote);
      case WriteUp(run, content, e, now) =>
        WriteExcess(st, sys.selected[run].who, content, e, sys.selected[run].read, now, i);
      case RebuildStale(who, batch, now) => RebuildExcess(st, who, batch, now, i);
      case _ =>
    }
  }

  // ---- every run --------------------------------------------------------------------------

  /** A reinforcement decided earlier finds its row still there. */
  predicate Timely(sys: System, step: Step) {
    step.Settle? && step.op in sys.captures ==>
      var f := sys.captures[step.op];
      f.decision.Some? && f.decision.value.Repeat? ==> Mutable(sys.store, f.who, f.decision.value.near)
  }

  predicate TimelyRun(env: Env, steps: seq<Step>)
    requires Possible(env, steps)
    decreases |steps|
  {
    steps == [] ||
    var init := steps[..|steps| - 1];
    TimelyRun(env, init) && Timely(After(env, init), steps[|steps| - 1])
  }

  lemma StepBalanced(env: Env, sys: System, step: Step)
    requires Enabled(env, sys, step) && Tidy(sys.store.rows) && Balanced(sys.store) && Timely(sys, step)
    ensures Balanced(StoreAfter(env, sys, step))
  {
    var st := sys.store;
    match step {
      case CaptureBatch(who, cs, picks, now) => CaptureBalanced(st, who, cs, picks, env.cfg, now);
      case Settle(op, now) =>
        ApplyBalanced(st, sys.captures[op].who, sys.captures[op].c, sys.captures[op].decision.value, env.cfg, now);
      case Invalidate(_, who, id, now) => MarkStaleBalanced(st, who, id, now, true);
      case FinishDelete(op, now) => DeleteBalanced(st, sys.pending[op].who, sys.pending[op].id, now);
      case FinishEdit(op, content, e) => EditBalanced(st, sys.pending[op].who, sys.pending[op].id, content, e);
      case WriteUp(run, content, e, now) =>
        WriteBalanced(st, sys.selected[run].who, content, e, sys.selected[run].read, now);
      case RebuildStale(who, batch, now) => RebuildBalanced(st, who, batch, now);
      case SweepBatch(run, ids, at, now) => DecayBalanced(env, st, run, ids, at, now);
      case _ =>
    }
  }

  /** A late reinforcement is logged though it matched nothing. */
  lemma LateStepOverLogs(env: Env, sys: System, step: Step)
    requires Enabled(env, sys, step) && Balanced(sys.store) && !Timely(sys, step)
    requires sys.captures[step.op].decision.value.near < |sys.store.rows|
    ensures OverLogged(StoreAfter(env, sys, step))
  {
    var st, f := sys.store, sys.captures[step.op];
    var near := f.decision.value.near;
    assert RowBalances(st.audit, near, st.rows[near]);
    LogTally(st, f.who, near, Reinforced, near, Wrote);
    assert Excess(StoreAfter(env, sys, step), near) == 1;
  }

  lemma OverLoggedUnbalanced(st: Store)
    requires OverLogged(st)
    ensures !Balanced(st)
  {
    var i :| 0 <= i < |st.rows| && Excess(st, i) > 0;
    assert !RowBalances(st.audit, i, st.rows[i]);
  }

  lemma {:induction false} RunBooks(env: Env, steps: seq<Step>)
    requires Possible(env, steps)
    ensures TimelyRun(env, steps) ==> Balanced(After(env, steps).store)
    ensures !TimelyRun(env, steps) ==> OverLogged(After(env, steps).store)
    decreases |steps|
  {
    if steps != [] {
      var init, step := steps[..|steps| - 1], steps[|steps| - 1];
      var sys := After(env, init);
      RunBooks(env, init);
      RunTidy(env, init);
      RunCaptures(env, init);
      if !TimelyRun(env, init) {
        var i :| 0 <= i < |sys.store.rows| && Excess(sys.store, i) > 0;
        StepExcess(env, sys, step, i);
      } else if Timely(sys, step) {
        StepBalanced(env, sys, step);
      } else {
        LateStepOverLogs(env, sys, step);
      }
    }
  }

  /** Audit conservation over every run, exactly: whatever runs in between whatever else,
      repeated captures in one batch, blocked and ignored candidates included, the trail
      balances if and only if no capture reinforced a row that had been deleted since it
      looked. */
  lemma TrailBalances(env: Env, steps: seq<Step>)
    requires Possible(env, steps)
    ensures Balanced(After(env, steps).store) <==> TimelyRun(env, steps)
  {
    RunBooks(env, steps);
    if !TimelyRun(env, steps) {
      OverLoggedUnbalanced(After(env, steps).store);
    }
  }
}
