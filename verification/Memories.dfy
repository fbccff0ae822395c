/** The `memories` table and the statements that change it.

    A store is the table together with its append-only audit log. A row's id is
    its insertion number, so "inserted later" is `<`. Each SQL statement is one
    function on the whole store; the functions below compose them exactly as
    `store/memories.py`, `jobs/reflection.py` and `api/memories.py` do inside
    one transaction. Row-level security is `Visible`: a session sees and updates
    only rows carrying its own subject and its own actor. */
module Memories {
  import opened Common

  type Id = nat
  type Party = nat
  type Time = int
  type Embedding = v: seq<real> | |v| > 0 witness [0.0]

  datatype Session = Session(subject: Party, actor: Party)

  /** One row. The last two fields are history variables, read by no statement:
      `version` counts content writes, and `folded` records, for a summary, which
      rows its text was written from and at which version of each. */
  datatype Row = Row(
    subject: Party,
    actor: Party,
    content: string,
    embedding: Option<Embedding>,
    source: Option<string>,
    attribute: Option<string>,
    weight: real,
    reinforcements: nat,
    accessedAt: Time,
    deletedAt: Option<Time>,
    supersededAt: Option<Time>,
    supersededBy: Option<Id>,
    consolidatedAt: Option<Time>,
    consolidatedInto: Option<Id>,
    staleAt: Option<Time>,
    archivedAt: Option<Time>,
    decayRun: Option<nat>,
    version: nat,
    folded: map<Id, nat>)

  datatype Event =
    | Inserted
    | Reinforced
    | SummaryWritten
    | SoftDeleted
    | StaleRetired
    | Superseded(successor: Id)
    | MarkedStale(cause: Id)
    | Edited
    | Consolidated(into: Id)
    | Unconsolidated(summary: Id)

  datatype Entry = Entry(subject: Party, actor: Party, memory: Id, event: Event)

  datatype Store = Store(rows: seq<Row>, audit: seq<Entry>)

  /** Capture tunables: the similarity of two embeddings is a parameter. */
  datatype Config = Config(
    sim: (Embedding, Embedding) -> real,
    threshold: real,
    increment: real,
    ceiling: real)

  const EmptyStore := Store([], [])
  const ASSISTANT_NOTE := "assistant_note"
  const REFLECTION := "reflection"

  /** Slots in which a new value contradicts the old one. */
  const SINGLE_VALUED: set<string> := {
    "default_programming_language", "preferred_response_language",
    "preferred_response_format", "preferred_code_comment_style",
    "employer", "job_title", "city_of_residence", "timezone", "preferred_name"}

  predicate IsSingleValued(attribute: Option<string>) {
    attribute.Some? && attribute.value in SINGLE_VALUED
  }

  predicate Visible(r: Row, who: Session) {
    r.subject == who.subject && r.actor == who.actor
  }

  predicate Live(r: Row) {
    r.deletedAt.None?
  }

  /** Neither erased nor replaced. */
  predicate Current(r: Row) {
    Live(r) && r.supersededAt.None?
  }

  /** The filter both retrieval paths apply. */
  predicate Retrievable(r: Row) {
    Current(r) && r.staleAt.None?
  }

  // ---- single statements ----------------------------------------------------

  function NewRow(who: Session, content: string, embedding: Option<Embedding>,
                  source: Option<string>, attribute: Option<string>, now: Time,
                  folded: map<Id, nat>): Row
  {
    Row(who.subject, who.actor, content, embedding, source, attribute, 1.0, 0, now,
        None, None, None, None, None, None, None, None, 0, folded)
  }

  function Append(st: Store, r: Row): Store {
    st.(rows := st.rows + [r])
  }

  function Log(st: Store, who: Session, id: Id, event: Event): Store {
    st.(audit := st.audit + [Entry(who.subject, who.actor, id, event)])
  }

  function ReinforcedRow(r: Row, cfg: Config, now: Time): Row {
    r.(reinforcements := r.reinforcements + 1,
       weight := Min(r.weight + cfg.increment, cfg.ceiling),
       accessedAt := now)
  }

  /** The UPDATE of `reinforce`: it matches nothing once the row is deleted. */
  function Reinforce(st: Store, who: Session, id: Id, cfg: Config, now: Time): Store {
    if id < |st.rows| && Visible(st.rows[id], who) && Live(st.rows[id]) then
      st.(rows := st.rows[id := ReinforcedRow(st.rows[id], cfg, now)])
    else
      st
  }

  /** Which rows a staleness cascade may touch: the owner connection is scoped on
      the subject alone, an application session on subject and actor. */
  predicate InScope(r: Row, who: Session, owner: bool) {
    r.subject == who.subject && (owner || r.actor == who.actor)
  }

  /** Mark the summary that `source` was folded into, once, and audit the mark. */
  function MarkStale(st: Store, who: Session, source: Id, now: Time, owner: bool): Store {
    if source < |st.rows| && InScope(st.rows[source], who, owner) && st.rows[source].consolidatedInto.Some? then
      var m := st.rows[source].consolidatedInto.value;
      if m < |st.rows| && InScope(st.rows[m], who, owner) && Live(st.rows[m]) && st.rows[m].staleAt.None? then
        Log(st.(rows := st.rows[m := st.rows[m].(staleAt := Some(now))]), who, m, MarkedStale(source))
      else
        st
    else
      st
  }

  predicate Occupies(r: Row, who: Session, attribute: string) {
    Visible(r, who) && r.attribute == Some(attribute) && Current(r)
  }

  /** The UPDATE of `supersede_slot`. */
  function Retire(rows: seq<Row>, who: Session, attribute: string, successor: Id, now: Time): (rs: seq<Row>)
    ensures |rs| == |rows|
  {
    seq(|rows|, i requires 0 <= i < |rows| =>
      if i != successor && Occupies(rows[i], who, attribute) then
        rows[i].(supersededBy := Some(successor), supersededAt := Some(now))
      else
        rows[i])
  }

  /** The ids below `n` that satisfy a test, ascending: a RETURNING list. */
  function Matching(n: nat, test: Id -> bool): (ids: seq<Id>)
    ensures forall i: Id :: i in ids <==> i < n && test(i)
    ensures forall j, k :: 0 <= j < k < |ids| ==> ids[j] < ids[k]
  {
    if n == 0 then []
    else
      var below := Matching(n - 1, test);
      assert forall j :: 0 <= j < |below| ==> below[j] in below;
      below + (if test(n - 1) then [n - 1] else [])
  }

  function Occupants(rows: seq<Row>, who: Session, attribute: string, successor: Id): (ids: seq<Id>)
    ensures forall i: Id :: i in ids <==> i < |rows| && i != successor && Occupies(rows[i], who, attribute)
    ensures forall j, k :: 0 <= j < k < |ids| ==> ids[j] < ids[k]
  {
    Matching(|rows|, (i: Id) => i < |rows| && i != successor && Occupies(rows[i], who, attribute))
  }

  // ---- supersession -----------------------------------------------------------

  /** The loop of `supersede_slot` over the rows it has just retired. */
  function CascadeEach(st: Store, who: Session, successor: Id, retired: seq<Id>, now: Time): Store
    decreases |retired|
  {
    if retired == [] then st
    else
      var last := |retired| - 1;
      var before := CascadeEach(st, who, successor, retired[..last], now);
      Log(MarkStale(before, who, retired[last], now, false), who, retired[last], Superseded(successor))
  }

  function SupersedeSlot(st: Store, who: Session, attribute: string, successor: Id, now: Time): Store {
    CascadeEach(st.(rows := Retire(st.rows, who, attribute, successor, now)), who, successor,
                Occupants(st.rows, who, attribute, successor), now)
  }

  // ---- capture ----------------------------------------------------------------

  datatype Candidate = Candidate(
    text: string,
    embedding: Option<Embedding>,
    source: Option<string>,
    attribute: Option<string>)

  /** What the two nearest-neighbour queries returned for one candidate. */
  datatype Pick = Pick(tombstone: Option<Id>, nearest: Option<Id>)

  predicate FromAssistant(c: Candidate) {
    c.source == Some(ASSISTANT_NOTE)
  }

  /** An assistant note never sets a slot. */
  function SlotOf(c: Candidate): Option<string> {
    if FromAssistant(c) then None else c.attribute
  }

  /** Rows a similarity query ranges over: the removed ones or the current ones. */
  predicate Comparable(r: Row, who: Session, removed: bool) {
    Visible(r, who) && r.embedding.Some? && Current(r) == !removed
  }

  /** `hit` is a most similar comparable row, or nothing when there is none.
      The order of equally similar rows is left open, as it is in the query. */
  predicate IsNearest(rows: seq<Row>, who: Session, removed: bool, e: Embedding, cfg: Config, hit: Option<Id>) {
    if hit.None? then
      forall j :: 0 <= j < |rows| ==> !Comparable(rows[j], who, removed)
    else
      && hit.value < |rows|
      && Comparable(rows[hit.value], who, removed)
      && forall j :: 0 <= j < |rows| && Comparable(rows[j], who, removed) ==>
           cfg.sim(rows[j].embedding.value, e) <= cfg.sim(rows[hit.value].embedding.value, e)
  }

  /** The returned row reaches the similarity threshold. */
  predicate Reaches(rows: seq<Row>, hit: Option<Id>, e: Embedding, cfg: Config) {
    && hit.Some? && hit.value < |rows| && rows[hit.value].embedding.Some?
    && cfg.threshold <= cfg.sim(rows[hit.value].embedding.value, e)
  }

  predicate IsBlocked(rows: seq<Row>, c: Candidate, pick: Pick, cfg: Config) {
    FromAssistant(c) && c.embedding.Some? && Reaches(rows, pick.tombstone, c.embedding.value, cfg)
  }

  predicate ValidPick(rows: seq<Row>, who: Session, c: Candidate, pick: Pick, cfg: Config) {
    c.embedding.Some? ==>
      && (FromAssistant(c) ==> IsNearest(rows, who, true, c.embedding.value, cfg, pick.tombstone))
      && (!IsBlocked(rows, c, pick, cfg) ==> IsNearest(rows, who, false, c.embedding.value, cfg, pick.nearest))
  }

  datatype Decision = Block(of: Id) | Ignore(near: Id) | Repeat(near: Id) | Add

  /** A near match in the same single-valued slot with different text is a change
      of mind, not a duplicate. */
  predicate ChangesMind(r: Row, c: Candidate) {
    IsSingleValued(SlotOf(c)) && r.attribute == SlotOf(c) && Strip(r.content) != Strip(c.text)
  }

  function Decide(rows: seq<Row>, c: Candidate, pick: Pick, cfg: Config): Decision {
    if IsBlocked(rows, c, pick, cfg) then
      Block(pick.tombstone.value)
    else if c.embedding.Some? && Reaches(rows, pick.nearest, c.embedding.value, cfg)
              && !ChangesMind(rows[pick.nearest.value], c) then
      if FromAssistant(c) then Ignore(pick.nearest.value) else Repeat(pick.nearest.value)
    else
      Add
  }

  function InsertCandidate(st: Store, who: Session, c: Candidate, now: Time): Store {
    var id := |st.rows|;
    var inserted := Append(st, NewRow(who, c.text, c.embedding, c.source, SlotOf(c), now, map[]));
    var settled := if IsSingleValued(SlotOf(c))
                   then SupersedeSlot(inserted, who, SlotOf(c).value, id, now) else inserted;
    Log(settled, who, id, Inserted)
  }

  /** What a decision does to the store, whenever its statements come to run. */
  function Apply(st: Store, who: Session, c: Candidate, d: Decision, cfg: Config, now: Time): Store {
    match d
    case Block(_) => st
    case Ignore(_) => st
    case Repeat(near) => Log(Reinforce(st, who, near, cfg, now), who, near, Reinforced)
    case Add => InsertCandidate(st, who, c, now)
  }

  /** One candidate with nothing in between its queries and its writes. */
  function CaptureOne(st: Store, who: Session, c: Candidate, pick: Pick, cfg: Config, now: Time): Store {
    Apply(st, who, c, Decide(st.rows, c, pick, cfg), cfg, now)
  }

  /** One capture transaction: candidates in order, each seeing the earlier ones. */
  function Capture(st: Store, who: Session, cs: seq<Candidate>, picks: seq<Pick>, cfg: Config, now: Time): Store
    requires |picks| == |cs|
    decreases |cs|
  {
    if cs == [] then st
    else
      var last := |cs| - 1;
      CaptureOne(Capture(st, who, cs[..last], picks[..last], cfg, now), who, cs[last], picks[last], cfg, now)
  }

  predicate ValidPicks(st: Store, who: Session, cs: seq<Candidate>, picks: seq<Pick>, cfg: Config, now: Time)
    requires |picks| == |cs|
    decreases |cs|
  {
    cs == [] ||
    var last := |cs| - 1;
    && ValidPicks(st, who, cs[..last], picks[..last], cfg, now)
    && ValidPick(Capture(st, who, cs[..last], picks[..last], cfg, now).rows, who, cs[last], picks[last], cfg)
  }

  // ---- user delete and edit: the mutating transaction ------------------------

  predicate Mutable(st: Store, who: Session, id: Id) {
    id < |st.rows| && Visible(st.rows[id], who) && Live(st.rows[id])
  }

  function DeleteRow(st: Store, who: Session, id: Id, now: Time): Store {
    if Mutable(st, who, id) then
      Log(st.(rows := st.rows[id := st.rows[id].(deletedAt := Some(now))]), who, id, SoftDeleted)
    else
      st
  }

  function EditRow(st: Store, who: Session, id: Id, content: string, e: Embedding): Store {
    if Mutable(st, who, id) then
      Log(st.(rows := st.rows[id := st.rows[id].(content := content, embedding := Some(e),
                                                  version := st.rows[id].version + 1)]),
          who, id, Edited)
    else
      st
  }
}
