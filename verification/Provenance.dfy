/** Who may change what through capture: the meaning of a dedup decision, the slot
    a user's statement takes over, and the limits on the assistant's own notes. */
module Provenance {
  import opened Common
  import opened Memories
  import opened Effects

  /** Some comparable row reaches the threshold. */
  predicate AnyClose(rows: seq<Row>, who: Session, removed: bool, e: Embedding, cfg: Config) {
    exists j :: 0 <= j < |rows| && Comparable(rows[j], who, removed)
              && cfg.threshold <= cfg.sim(rows[j].embedding.value, e)
  }

  lemma NearestDecides(rows: seq<Row>, who: Session, removed: bool, e: Embedding, cfg: Config, hit: Option<Id>)
    requires IsNearest(rows, who, removed, e, cfg, hit)
    ensures Reaches(rows, hit, e, cfg) <==> AnyClose(rows, who, removed, e, cfg)
  {}

  /** The decision, whichever of equally similar rows the queries return: an
      assistant note is blocked iff a removed row is close; otherwise a candidate is
      matched, and only with a most similar current row, iff a current row is close
      and the match is not a changed value of the candidate's slot. */
  lemma DecisionMeaning(rows: seq<Row>, who: Session, c: Candidate, pick: Pick, cfg: Config)
    requires ValidPick(rows, who, c, pick, cfg)
    ensures var d := Decide(rows, c, pick, cfg);
            var blocked := FromAssistant(c) && c.embedding.Some? && AnyClose(rows, who, true, c.embedding.value, cfg);
            && (d.Block? <==> blocked)
            && (d.Add? <==> !blocked && !(c.embedding.Some? && AnyClose(rows, who, false, c.embedding.value, cfg)
                                          && !ChangesMind(rows[pick.nearest.value], c)))
            && (d.Ignore? ==> FromAssistant(c)) && (d.Repeat? ==> !FromAssistant(c))
            && (d.Ignore? || d.Repeat? ==>
                  && d.near < |rows| && Comparable(rows[d.near], who, false)
                  && forall j :: 0 <= j < |rows| && Comparable(rows[j], who, false) ==>
                       cfg.sim(rows[j].embedding.value, c.embedding.value)
                         <= cfg.sim(rows[d.near].embedding.value, c.embedding.value))
  {
    if c.embedding.Some? {
      if FromAssistant(c) {
        NearestDecides(rows, who, true, c.embedding.value, cfg, pick.tombstone);
      }
      if !IsBlocked(rows, c, pick, cfg) {
        NearestDecides(rows, who, false, c.embedding.value, cfg, pick.nearest);
      }
    }
  }

  /** A stored value takes its slot over: afterwards it is the slot's only current
      occupant, and rows of other slots and other sessions are not superseded. */
  lemma InsertTakesSlot(st: Store, who: Session, c: Candidate, now: Time, i: Id)
    requires Linked(st.rows) && IsSingleValued(SlotOf(c)) && i <= |st.rows|
    ensures var after := InsertCandidate(st, who, c, now);
            && |after.rows| == |st.rows| + 1
            && (Occupies(after.rows[i], who, c.attribute.value) <==> i == |st.rows|)
            && (i < |st.rows| && after.rows[i].supersededBy != st.rows[i].supersededBy ==>
                  after.rows[i].supersededBy == Some(|st.rows|) && Occupies(st.rows[i], who, c.attribute.value))
  {
    InsertRows(st, who, c, now);
  }

  // ---- when the table moves between the two queries ------------------------------------------

  predicate Close(r: Row, e: Embedding, cfg: Config) {
    r.embedding.Some? && cfg.threshold <= cfg.sim(r.embedding.value, e)
  }

  /** The query over removed (or over current) rows saw the row with the vector it has now. */
  predicate SeenBy(queried: seq<Row>, who: Session, removed: bool, rows: seq<Row>, j: Id)
    requires j < |rows|
  {
    j < |queried| && Comparable(queried[j], who, removed) && queried[j].embedding == rows[j].embedding
  }

  /** A row of the session that neither query saw as it is now. */
  predicate Escaped(recalled: seq<Row>, looked: seq<Row>, who: Session, rows: seq<Row>, j: Id)
    requires j < |rows|
  {
    Visible(rows[j], who) && !SeenBy(recalled, who, true, rows, j) && !SeenBy(looked, who, false, rows, j)
  }

  /** A note that neither query stopped is far from every earlier row of its session exactly
      when no close row escaped both. */
  lemma NoteFarExactly(recalled: seq<Row>, looked: seq<Row>, rows: seq<Row>, who: Session, r: Row, cfg: Config)
    requires r.embedding.Some?
    requires !AnyClose(recalled, who, true, r.embedding.value, cfg)
             && !AnyClose(looked, who, false, r.embedding.value, cfg)
    ensures FarFromEarlier(rows + [r], |rows|, who, cfg) <==>
              forall j :: 0 <= j < |rows| && Escaped(recalled, looked, who, rows, j) ==>
                !Close(rows[j], r.embedding.value, cfg)
  {
    var all := rows + [r];
    forall j | 0 <= j < |rows| && Visible(rows[j], who) && Close(rows[j], r.embedding.value, cfg)
      ensures Escaped(recalled, looked, who, rows, j)
    {
      assert j < |recalled| && Comparable(recalled[j], who, true) ==> recalled[j].embedding != rows[j].embedding;
      assert j < |looked| && Comparable(looked[j], who, false) ==> looked[j].embedding != rows[j].embedding;
    }
    assert forall j :: 0 <= j < |rows| ==> all[j] == rows[j];
  }

  /** One table is a later state of the other. */
  predicate Later(before: seq<Row>, after: seq<Row>) {
    |before| <= |after| && forall i :: 0 <= i < |before| ==> Keeps(before[i], after[i])
  }

  predicate RemovedIn(rows: seq<Row>, j: Id) {
    j < |rows| && !Current(rows[j])
  }

  /** Inserted after both queries; or removed at the first and given another vector since; or
      else removed by the second, or given another vector since then. */
  predicate Slipped(recalled: seq<Row>, looked: seq<Row>, rows: seq<Row>, j: Id)
    requires |recalled| <= |looked| && j < |rows|
  {
    || |looked| <= j
    || (if RemovedIn(recalled, j) then recalled[j].embedding != rows[j].embedding
        else RemovedIn(looked, j) || looked[j].embedding != rows[j].embedding)
  }

  /** Removal is for good, so these are the only ways to escape both queries; a row whose
      vector stood throughout escapes by being current at the first and removed at the
      second, and in no other way. */
  lemma EscapedExactly(recalled: seq<Row>, looked: seq<Row>, who: Session, rows: seq<Row>, j: Id)
    requires Later(recalled, looked) && Later(looked, rows)
    requires j < |rows| && Visible(rows[j], who) && rows[j].embedding.Some?
    ensures Escaped(recalled, looked, who, rows, j) <==> Slipped(recalled, looked, rows, j)
    ensures j < |recalled| && recalled[j].embedding == looked[j].embedding == rows[j].embedding ==>
              (Slipped(recalled, looked, rows, j) <==> Current(recalled[j]) && RemovedIn(looked, j))
  {
    if j < |looked| {
      assert Keeps(looked[j], rows[j]);
      if j < |recalled| {
        assert Keeps(recalled[j], looked[j]);
      }
    }
  }

  predicate AllFromAssistant(cs: seq<Candidate>) {
    forall k :: 0 <= k < |cs| ==> FromAssistant(cs[k])
  }

  /** An embedded row added by the assistant is far from every earlier row of its
      session, current or removed. */
  predicate FarFromEarlier(rows: seq<Row>, i: Id, who: Session, cfg: Config)
    requires i < |rows|
  {
    rows[i].embedding.Some? ==>
      forall j :: 0 <= j < i && Visible(rows[j], who) && rows[j].embedding.Some? ==>
        cfg.sim(rows[j].embedding.value, rows[i].embedding.value) < cfg.threshold
  }

  /** What a batch of assistant notes may do: add rows that fill no slot, each with
      one audit entry, and leave every row there was as it was. */
  predicate OnlyNotes(a: Store, b: Store, who: Session, cfg: Config) {
    && |a.rows| <= |b.rows| && b.rows[..|a.rows|] == a.rows
    && (forall i :: |a.rows| <= i < |b.rows| ==>
          && Visible(b.rows[i], who) && Retrievable(b.rows[i])
          && b.rows[i].source == Some(ASSISTANT_NOTE) && b.rows[i].attribute.None?
          && FarFromEarlier(b.rows, i, who, cfg))
    && |b.audit| - |a.audit| == |b.rows| - |a.rows| && a.audit <= b.audit
    && (forall e :: |a.audit| <= e < |b.audit| ==>
          b.audit[e] == Entry(who.subject, who.actor, |a.rows| + e - |a.audit|, Inserted))
  }

  lemma NoteFarFromEarlier(rows: seq<Row>, who: Session, c: Candidate, pick: Pick, cfg: Config, r: Row)
    requires ValidPick(rows, who, c, pick, cfg) && FromAssistant(c) && Decide(rows, c, pick, cfg).Add?
    requires r.embedding == c.embedding
    ensures FarFromEarlier(rows + [r], |rows|, who, cfg)
  {
    DecisionMeaning(rows, who, c, pick, cfg);
    var all := rows + [r];
    if r.embedding.Some? {
      forall j | 0 <= j < |rows| && Visible(all[j], who) && all[j].embedding.Some?
        ensures cfg.sim(all[j].embedding.value, r.embedding.value) < cfg.threshold
      {
        assert all[j] == rows[j];
        assert Comparable(rows[j], who, true) || Comparable(rows[j], who, false);
      }
    }
  }

  lemma NoteOnly(a: Store, st: Store, who: Session, c: Candidate, pick: Pick, cfg: Config, now: Time)
    requires OnlyNotes(a, st, who, cfg) && FromAssistant(c) && ValidPick(st.rows, who, c, pick, cfg)
    ensures OnlyNotes(a, CaptureOne(st, who, c, pick, cfg, now), who, cfg)
  {
    if Decide(st.rows, c, pick, cfg).Add? {
      var n := |st.rows|;
      var row := CandidateRow(who, c, now);
      var after := CaptureOne(st, who, c, pick, cfg, now);
      assert after == Log(Append(st, row), who, n, Inserted);
      NoteFarFromEarlier(st.rows, who, c, pick, cfg, row);
      forall i | |a.rows| <= i < n ensures FarFromEarlier(after.rows, i, who, cfg) {
        assert FarFromEarlier(st.rows, i, who, cfg) && after.rows[i] == st.rows[i];
        assert forall j :: 0 <= j < i ==> after.rows[j] == st.rows[j];
      }
      assert after.rows[..|a.rows|] == st.rows[..|a.rows|];
    } else {
      DecisionMeaning(st.rows, who, c, pick, cfg);
    }
  }

  /** Any batch of assistant notes, of any length: nothing reinforced, superseded,
      revived or put in a slot. */
  lemma {:induction false} AssistantBatch(st: Store, who: Session, cs: seq<Candidate>, picks: seq<Pick>, cfg: Config,
                          now: Time)
    requires AllFromAssistant(cs) && |picks| == |cs| && ValidPicks(st, who, cs, picks, cfg, now)
    ensures OnlyNotes(st, Capture(st, who, cs, picks, cfg, now), who, cfg)
    decreases |cs|
  {
    if cs == [] {
      assert st.rows[..|st.rows|] == st.rows;
    } else {
      var last := |cs| - 1;
      AssistantBatch(st, who, cs[..last], picks[..last], cfg, now);
      NoteOnly(st, Capture(st, who, cs[..last], picks[..last], cfg, now), who, cs[last], picks[last], cfg, now);
    }
  }
}
