/** The store as the program drives it: an object whose methods are the statements
    and loops of `store/memories.py`, `api/memories.py` and `jobs/reflection.py`,
    each proved to take the store to the state the functions of `Memories` and
    `Reflection` give. */
module MemoryStore {
  import opened Common
  import opened Memories
  import opened Reflection
  import opened Effects

  /** What `persist_candidates` reports for one candidate. */
  datatype Result =
    | Blocked(tombstone: Id)
    | Ignored(near: Id)
    | Repeated(near: Id)
    | Stored(id: Id, retired: seq<Id>)

  /** The rows an insert of the candidate retires. */
  function RetiredBy(st: Store, who: Session, c: Candidate, now: Time): seq<Id> {
    if IsSingleValued(SlotOf(c))
    then Occupants(st.rows + [CandidateRow(who, c, now)], who, SlotOf(c).value, |st.rows|) else []
  }

  function ResultOf(st: Store, who: Session, c: Candidate, pick: Pick, cfg: Config, now: Time): Result {
    match Decide(st.rows, c, pick, cfg)
    case Block(of) => Blocked(of)
    case Ignore(near) => Ignored(near)
    case Repeat(near) => Repeated(near)
    case Add =>
      Stored(|st.rows|, RetiredBy(st, who, c, now))
  }

  /** Each candidate's result is that of its own decision, taken after the earlier ones. */
  predicate Reported(st: Store, who: Session, cs: seq<Candidate>, picks: seq<Pick>, results: seq<Result>, cfg: Config,
                     now: Time)
    requires |picks| == |cs| == |results|
  {
    forall k :: 0 <= k < |cs| ==>
      results[k] == ResultOf(Capture(st, who, cs[..k], picks[..k], cfg, now), who, cs[k], picks[k], cfg, now)
  }

  /** Where the capture loop stands after some candidates. */
  predicate CapturedSoFar(st: Store, current: Store, who: Session, cs: seq<Candidate>, picks: seq<Pick>,
                          results: seq<Result>, cfg: Config, now: Time)
  {
    && |picks| == |cs| == |results| && ValidPicks(st, who, cs, picks, cfg, now)
    && current == Capture(st, who, cs, picks, cfg, now) && Reported(st, who, cs, picks, results, cfg, now)
  }

  lemma OneMoreCandidate(st: Store, before: Store, who: Session, cs: seq<Candidate>, picks: seq<Pick>,
                         results: seq<Result>, c: Candidate, pick: Pick, result: Result, cfg: Config, now: Time)
    requires CapturedSoFar(st, before, who, cs, picks, results, cfg, now)
    requires ValidPick(before.rows, who, c, pick, cfg) && result == ResultOf(before, who, c, pick, cfg, now)
    ensures CapturedSoFar(st, CaptureOne(before, who, c, pick, cfg, now), who, cs + [c], picks + [pick],
                          results + [result],
                          cfg, now)
  {
    var all, chosen := cs + [c], picks + [pick];
    assert all[..|cs|] == cs && chosen[..|cs|] == picks;
    forall k | 0 <= k < |all|
      ensures (results + [result])[k] ==
              ResultOf(Capture(st, who, all[..k], chosen[..k], cfg, now), who, all[k], chosen[k], cfg, now)
    {
      assert all[..k] == cs[..k] && chosen[..k] == picks[..k];
    }
  }

  /** What an endpoint answers. */
  datatype Reply = Done | NotFound | Forbidden | Unprocessable

  /** The row exists where the connection can see it, is live and is the subject's own. */
  predicate Authorised(rows: seq<Row>, who: Session, id: Id, rls: bool) {
    id < |rows| && Live(rows[id]) && rows[id].subject == who.subject && (rls ==> Visible(rows[id], who))
  }

  lemma {:induction false} LogEachCount(st: Store, who: Session, ids: seq<Id>, event: Event)
    ensures |LogEach(st, who, ids, event).audit| == |st.audit| + |ids|
    decreases |ids|
  {
    if ids != [] {
      LogEachCount(st, who, ids[..|ids| - 1], event);
    }
  }

  /** Rebuilding a summary takes that one row out of reach of the next and no other. */
  lemma RebuildOneMutable(st: Store, who: Session, summary: Id, now: Time)
    ensures forall i: Id :: Mutable(RebuildOne(st, who, summary, now), who, i) <==> Mutable(st, who, i) && i != summary
  {
    if Mutable(st, who, summary) {
      var retired := RetireSummary(st, who, summary, now);
      LogEachRows(retired.(rows := Free(retired.rows, who, summary)), who,
                  Freed(retired.rows, who, summary), Unconsolidated(summary));
    }
  }

  class Table {
    var rows: seq<Row>
    var audit: seq<Entry>

    ghost function State(): Store
      reads this
    {
      Store(rows, audit)
    }

    constructor ()
      ensures State() == EmptyStore
    {
      rows, audit := [], [];
    }

    /** `find_similar` (removed false) and `find_similar_tombstones` (removed true). */
    method FindSimilar(who: Session, e: Embedding, removed: bool, cfg: Config) returns (hit: Option<Id>)
      ensures IsNearest(rows, who, removed, e, cfg, hit)
    {
      hit := None;
      for j := 0 to |rows|
        invariant IsNearest(rows[..j], who, removed, e, cfg, hit)
      {
        assert rows[..j + 1] == rows[..j] + [rows[j]];
        if Comparable(rows[j], who, removed) {
          if hit.None? || cfg.sim(rows[hit.value].embedding.value, e) < cfg.sim(rows[j].embedding.value, e) {
            hit := Some(j);
          }
        }
      }
      assert rows[..|rows|] == rows;
    }

    method WriteAudit(who: Session, id: Id, event: Event)
      modifies this`audit
      ensures State() == Log(old(State()), who, id, event)
    {
      audit := audit + [Entry(who.subject, who.actor, id, event)];
    }

    method InsertMemory(who: Session, content: string, e: Option<Embedding>, source: Option<string>,
                        attribute: Option<string>, now: Time, folded: map<Id, nat>) returns (id: Id)
      modifies this`rows
      ensures id == |old(rows)|
      ensures State() == Append(old(State()), NewRow(who, content, e, source, attribute, now, folded))
    {
      id := |rows|;
      rows := rows + [NewRow(who, content, e, source, attribute, now, folded)];
    }

    method ReinforceMemory(who: Session, id: Id, cfg: Config, now: Time) returns (matched: bool)
      modifies this`rows
      ensures matched <==> Mutable(old(State()), who, id)
      ensures State() == Reinforce(old(State()), who, id, cfg, now)
    {
      matched := id < |rows| && Visible(rows[id], who) && Live(rows[id]);
      if matched {
        rows := rows[id := ReinforcedRow(rows[id], cfg, now)];
      }
    }

    /** `invalidate_summaries_for` on the owner connection, `mark_summary_stale` on an
        application session. */
    method MarkSummaryStale(who: Session, source: Id, now: Time, owner: bool) returns (marked: seq<Id>)
      modifies this
      ensures State() == MarkStale(old(State()), who, source, now, owner)
      ensures |marked| <= 1 && (marked == [] <==> State() == old(State()))
      ensures forall m :: m in marked ==>
                && m < |old(rows)| && old(rows)[m].staleAt.None?
                && rows == old(rows)[m := old(rows)[m].(staleAt := Some(now))] && !Retrievable(rows[m])
    {
      marked := [];
      if source < |rows| && InScope(rows[source], who, owner) {
        var edge := rows[source].consolidatedInto;
        if edge.Some? && edge.value < |rows| {
          var m := edge.value;
          if InScope(rows[m], who, owner) && Live(rows[m]) && rows[m].staleAt.None? {
            rows := rows[m := rows[m].(staleAt := Some(now))];
            WriteAudit(who, m, MarkedStale(source));
            marked := [m];
          }
        }
      }
    }

    method Supersede(who: Session, attribute: string, successor: Id, now: Time) returns (retired: seq<Id>)
      modifies this
      ensures State() == SupersedeSlot(old(State()), who, attribute, successor, now)
      ensures retired == Occupants(old(rows), who, attribute, successor)
    {
      retired := Occupants(rows, who, attribute, successor);
      rows := Retire(rows, who, attribute, successor, now);
      ghost var st := State();
      assert retired[..0] == [];
      for k := 0 to |retired|
        invariant State() == CascadeEach(st, who, successor, retired[..k], now)
      {
        assert retired[..k + 1][..k] == retired[..k];
        var _ := MarkSummaryStale(who, retired[k], now, false);
        WriteAudit(who, retired[k], Superseded(successor));
      }
      assert retired[..|retired|] == retired;
    }

    /** The insert branch of the capture loop. */
    method Admit(who: Session, c: Candidate, now: Time) returns (result: Result)
      modifies this
      ensures State() == InsertCandidate(old(State()), who, c, now)
      ensures result == Stored(|old(rows)|, RetiredBy(old(State()), who, c, now))
    {
      var attribute := SlotOf(c);
      var id := InsertMemory(who, c.text, c.embedding, c.source, attribute, now, map[]);
      var retired: seq<Id> := [];
      if IsSingleValued(attribute) {
        retired := Supersede(who, attribute.value, id, now);
      }
      WriteAudit(who, id, Inserted);
      result := Stored(id, retired);
    }

    /** The body of the capture loop for one candidate. */
    method PersistOne(who: Session, c: Candidate, cfg: Config, now: Time) returns (result: Result, ghost pick: Pick)
      modifies this
      ensures ValidPick(old(rows), who, c, pick, cfg)
      ensures State() == CaptureOne(old(State()), who, c, pick, cfg, now)
      ensures result == ResultOf(old(State()), who, c, pick, cfg, now)
    {
      pick := Pick(None, None);
      var assistant := FromAssistant(c);
      var attribute := if assistant then None else c.attribute;
      var single := IsSingleValued(attribute);
      if assistant && c.embedding.Some? {
        var grave := FindSimilar(who, c.embedding.value, true, cfg);
        pick := pick.(tombstone := grave);
        if grave.Some? && cfg.threshold <= cfg.sim(rows[grave.value].embedding.value, c.embedding.value) {
          result := Blocked(grave.value);
          return;
        }
      }
      var match_: Option<Id> := None;
      if c.embedding.Some? {
        var near := FindSimilar(who, c.embedding.value, false, cfg);
        pick := pick.(nearest := near);
        if near.Some? && cfg.threshold <= cfg.sim(rows[near.value].embedding.value, c.embedding.value) {
          match_ := near;
        }
      }
      if match_.Some? && single && rows[match_.value].attribute == attribute
         && Strip(rows[match_.value].content) != Strip(c.text) {
        match_ := None;
      }
      if match_.Some? && assistant {
        result := Ignored(match_.value);
      } else if match_.Some? {
        var _ := ReinforceMemory(who, match_.value, cfg, now);
        WriteAudit(who, match_.value, Reinforced);
        result := Repeated(match_.value);
      } else {
        result := Admit(who, c, now);
      }
    }

    /** One capture transaction under the subject's lock. */
    method PersistCandidates(who: Session, cs: seq<Candidate>, cfg: Config, now: Time)
      returns (results: seq<Result>, ghost picks: seq<Pick>)
      modifies this
      ensures |picks| == |cs| == |results|
      ensures ValidPicks(old(State()), who, cs, picks, cfg, now)
      ensures State() == Capture(old(State()), who, cs, picks, cfg, now)
      ensures Reported(old(State()), who, cs, picks, results, cfg, now)
    {
      results, picks := [], [];
      ghost var st := State();
      assert cs[..0] == [];
      for k := 0 to |cs|
        invariant CapturedSoFar(st, State(), who, cs[..k], picks, results, cfg, now)
      {
        ghost var before := State();
        var result, pick := PersistOne(who, cs[k], cfg, now);
        OneMoreCandidate(st, before, who, cs[..k], picks, results, cs[k], pick, result, cfg, now);
        assert cs[..k + 1] == cs[..k] + [cs[k]];
        results, picks := results + [result], picks + [pick];
      }
      assert cs[..|cs|] == cs;
    }

    // ---- user mutations -------------------------------------------------------------

    /** Authorises exactly the owner of a live row, and never confirms to a connection
        row-level security filters that another subject's row exists. */
    method EnsureOwned(who: Session, id: Id, rls: bool) returns (reply: Reply)
      ensures reply == Done <==> Authorised(rows, who, id, rls)
      ensures reply == Forbidden <==> !rls && id < |rows| && rows[id].subject != who.subject
      ensures reply != Unprocessable
    {
      if id >= |rows| || (rls && !Visible(rows[id], who)) {
        return NotFound;
      }
      var row := rows[id];
      if row.subject != who.subject {
        return Forbidden;
      }
      if row.deletedAt.Some? {
        return NotFound;
      }
      reply := Done;
    }

    /** The second transaction of a delete. */
    method EraseRow(who: Session, id: Id, now: Time) returns (reply: Reply)
      modifies this
      ensures State() == DeleteRow(old(State()), who, id, now)
      ensures reply == if Mutable(old(State()), who, id) then Done else NotFound
    {
      if !(id < |rows| && Visible(rows[id], who) && Live(rows[id])) {
        return NotFound;
      }
      rows := rows[id := rows[id].(deletedAt := Some(now))];
      WriteAudit(who, id, SoftDeleted);
      reply := Done;
    }

    /** A delete that nothing interrupts: it either answers 404 and changes nothing, or
        erases the row, audits that once, and leaves no retrievable summary of it. A
        second delete is then answered 404. */
    method DeleteMemory(who: Session, id: Id, now: Time) returns (reply: Reply)
      modifies this
      ensures reply == if Mutable(old(State()), who, id) then Done else NotFound
      ensures reply != Done ==> State() == old(State())
      ensures reply == Done ==> State() == DeleteRow(MarkStale(old(State()), who, id, now, true), who, id, now)
      ensures reply == Done && Linked(old(rows)) ==>
                && |rows| == |old(rows)| && rows[id] == old(rows)[id].(deletedAt := Some(now))
                && NotServed(rows, rows[id].consolidatedInto)
                && !Mutable(State(), who, id)
    {
      reply := EnsureOwned(who, id, true);
      if reply != Done {
        return;
      }
      assert Linked(rows) ==> EdgeOk(rows, id);
      var _ := MarkSummaryStale(who, id, now, true);
      reply := EraseRow(who, id, now);
    }

    /** The second transaction of an edit. */
    method RewordRow(who: Session, id: Id, content: string, e: Embedding) returns (reply: Reply)
      modifies this
      ensures State() == EditRow(old(State()), who, id, content, e)
      ensures reply == if Mutable(old(State()), who, id) then Done else NotFound
    {
      reply := EnsureOwned(who, id, true);
      if reply != Done {
        return;
      }
      rows := rows[id := rows[id].(content := content, embedding := Some(e), version := rows[id].version + 1)];
      WriteAudit(who, id, Edited);
    }

    /** An edit that nothing interrupts. Blank text is refused before anything is read. */
    method PatchMemory(who: Session, id: Id, text: string, e: Embedding, now: Time) returns (reply: Reply)
      modifies this
      ensures reply == if Strip(text) == "" then Unprocessable
                       else if Mutable(old(State()), who, id) then Done else NotFound
      ensures reply != Done ==> State() == old(State())
      ensures reply == Done ==> State() == EditRow(MarkStale(old(State()), who, id, now, true), who, id, Strip(text), e)
      ensures reply == Done && Linked(old(rows)) ==>
                && |rows| == |old(rows)| && rows[id].content == Strip(text) && rows[id].embedding == Some(e)
                && NotServed(rows, rows[id].consolidatedInto)
    {
      var content := Strip(text);
      if content == "" {
        return Unprocessable;
      }
      reply := EnsureOwned(who, id, true);
      if reply != Done {
        return;
      }
      assert Linked(rows) ==> EdgeOk(rows, id);
      var _ := MarkSummaryStale(who, id, now, true);
      reply := RewordRow(who, id, content, e);
    }

    // ---- reflection --------------------------------------------------------------------

    method LogAll(who: Session, ids: seq<Id>, event: Event)
      modifies this`audit
      ensures State() == LogEach(old(State()), who, ids, event)
    {
      ghost var st := State();
      assert ids[..0] == [];
      for k := 0 to |ids|
        invariant State() == LogEach(st, who, ids[..k], event)
      {
        assert ids[..k + 1][..k] == ids[..k];
        WriteAudit(who, ids[k], event);
      }
      assert ids[..|ids|] == ids;
    }

    method WriteUp(who: Session, content: string, e: Embedding, read: map<Id, nat>, now: Time)
      returns (summary: Id, claimed: seq<Id>)
      modifies this
      ensures State() == WriteSummary(old(State()), who, content, e, read, now)
      ensures summary == |old(rows)| && claimed == Claimed(old(rows), who, read)
    {
      ghost var before := State();
      claimed := Claimed(rows, who, read);
      summary := InsertMemory(who, content, Some(e), Some(REFLECTION), None, now, read);
      WriteAudit(who, summary, SummaryWritten);
      rows := Consolidate(rows[..summary], who, read, summary, now) + [rows[summary]];
      assert Store(rows, audit) == FileSummary(before, who, content, e, read, now) by {
        assert (before.rows + [NewRow(who, content, Some(e), Some(REFLECTION), None, now, read)])[..summary]
               == before.rows;
      }
      LogAll(who, claimed, Consolidated(summary));
    }

    /** Retires exactly the summaries of the batch that were still there, each once, and
        logs one entry for each of them and for each source it freed. */
    method RebuildStaleSummaries(who: Session, batch: seq<Id>, now: Time) returns (retired: seq<Id>, freed: nat)
      modifies this
      ensures State() == Rebuild(old(State()), who, batch, now)
      ensures forall i :: i in retired <==> i in batch && Mutable(old(State()), who, i)
      ensures forall j, k :: 0 <= j < k < |retired| ==> retired[j] != retired[k]
      ensures |audit| == |old(audit)| + |retired| + freed
    {
      retired, freed := [], 0;
      ghost var st := State();
      assert batch[..0] == [];
      for k := 0 to |batch|
        invariant State() == Rebuild(st, who, batch[..k], now)
        invariant forall i :: i in retired <==> i in batch[..k] && Mutable(st, who, i)
        invariant forall i :: Mutable(State(), who, i) <==> Mutable(st, who, i) && i !in batch[..k]
        invariant forall i, j :: 0 <= i < j < |retired| ==> retired[i] != retired[j]
        invariant |audit| == |st.audit| + |retired| + freed
      {
        assert batch[..k + 1][..k] == batch[..k] && batch[..k + 1] == batch[..k] + [batch[k]];
        ghost var before := State();
        var released: seq<Id>;
        var done: bool;
        done, released := RebuildSummary(who, batch[k], now);
        RebuildOneMutable(before, who, batch[k], now);
        if done {
          retired, freed := retired + [batch[k]], freed + |released|;
        }
      }
      assert batch[..|batch|] == batch;
    }

    /** The loop body for one summary. */
    method RebuildSummary(who: Session, summary: Id, now: Time) returns (done: bool, released: seq<Id>)
      modifies this
      ensures State() == RebuildOne(old(State()), who, summary, now)
      ensures done <==> Mutable(old(State()), who, summary)
      ensures |audit| == |old(audit)| + if done then 1 + |released| else 0
    {
      done, released := false, [];
      var reply := RetireStale(who, summary, now);
      if reply == Done {
        done, released := true, Freed(rows, who, summary);
        rows := Free(rows, who, summary);
        LogEachCount(State(), who, released, Unconsolidated(summary));
        LogAll(who, released, Unconsolidated(summary));
      }
    }

    method RetireStale(who: Session, summary: Id, now: Time) returns (reply: Reply)
      modifies this
      ensures reply == if Mutable(old(State()), who, summary) then Done else NotFound
      ensures State() == if Mutable(old(State()), who, summary) then RetireSummary(old(State()), who, summary, now)
                         else old(State())
    {
      if !(summary < |rows| && Visible(rows[summary], who) && Live(rows[summary])) {
        return NotFound;
      }
      rows := rows[summary := rows[summary].(deletedAt := Some(now))];
      WriteAudit(who, summary, StaleRetired);
      reply := Done;
    }
  }
}
