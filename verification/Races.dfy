/** Where the two-transaction operations leave a gap. A write-up checks deletion
    and consolidation of its sources but writes its summary whatever it finds, and a
    delete invalidates before it mutates. A source that changed, a source already in
    another summary, and a source about to be deleted each lead to a leak from every
    state with such a selection in flight, so no part of the condition on write-ups in
    `Freshness` can be dropped. */
module Races {
  import opened Common
  import opened Memories
  import opened Reflection
  import opened Effects
  import opened Lifecycle
  import opened Integrity
  import opened Freshness

  lemma Extend(env: Env, steps: seq<Step>, step: Step)
    requires Possible(env, steps) && Enabled(env, After(env, steps), step)
    ensures Possible(env, steps + [step])
    ensures After(env, steps + [step]) == Next(env, After(env, steps), step)
  {
    assert (steps + [step])[..|steps|] == steps;
  }

  /** Both transactions of a delete, back to back. */
  function Erase(del: nat, who: Session, id: Id, now: Time): seq<Step> {
    [Invalidate(del, who, id, now)] + [FinishDelete(del, now)]
  }

  lemma EraseSteps(env: Env, sys: System, del: nat, who: Session, id: Id, now: Time)
    requires del !in sys.pending
    ensures Next(env, Next(env, sys, Invalidate(del, who, id, now)), FinishDelete(del, now)) ==
              sys.(store := FullyErased(sys.store, who, id, now))
  {
    assert sys.pending[del := Mutation(who, id)] - {del} == sys.pending;
  }

  lemma EraseRuns(env: Env, steps: seq<Step>, del: nat, who: Session, id: Id, now: Time)
    requires Possible(env, steps) && del !in After(env, steps).pending
    ensures Possible(env, steps + Erase(del, who, id, now))
    ensures After(env, steps + Erase(del, who, id, now)) ==
              After(env, steps).(store := FullyErased(After(env, steps).store, who, id, now))
  {
    var one := steps + [Invalidate(del, who, id, now)];
    Extend(env, steps, Invalidate(del, who, id, now));
    Extend(env, one, FinishDelete(del, now));
    assert steps + Erase(del, who, id, now) == one + [FinishDelete(del, now)];
    EraseSteps(env, After(env, steps), del, who, id, now);
  }

  lemma ErasedRow(st: Store, who: Session, id: Id, now: Time)
    requires Mutable(st, who, id)
    ensures var rows := FullyErased(st, who, id, now).rows;
            && |rows| == |st.rows| && !Live(rows[id]) && Visible(rows[id], who)
            && rows[id].embedding == st.rows[id].embedding
  {}

  /** A delete that runs between a selection and its write-up succeeds, and the
      summary written next quotes the deleted row and can be retrieved. */
  lemma DeleteBeforeWriteUp(env: Env, steps: seq<Step>, run: nat, i: Id, op: nat, content: string, e: Embedding,
                          now: Time)
    returns (leak: seq<Step>)
    requires Possible(env, steps)
    requires run in After(env, steps).selected && op !in After(env, steps).pending
    requires i in After(env, steps).selected[run].read && i < |After(env, steps).store.rows|
    requires Live(After(env, steps).store.rows[i])
    ensures leak == steps + Erase(op, After(env, steps).selected[run].who, i, now) + [WriteUp(run, content, e, now)]
    ensures Possible(env, leak) && !Faithful(After(env, leak).store.rows)
  {
    RunTidy(env, steps);
    var s := After(env, steps).selected[run];
    assert SelectionOk(After(env, steps).store.rows, s);
    EraseRuns(env, steps, op, s.who, i, now);
    ErasedRow(After(env, steps).store, s.who, i, now);
    var gone := steps + Erase(op, s.who, i, now);
    leak := gone + [WriteUp(run, content, e, now)];
    LateWriteUp(env, gone, run, i, content, e, now);
  }

  /** A write-up quotes a row of its cluster that has been deleted, superseded or reworded
      all the same. */
  lemma LateWriteUp(env: Env, steps: seq<Step>, run: nat, i: Id, content: string, e: Embedding, now: Time)
    requires Possible(env, steps) && run in After(env, steps).selected
    requires i in After(env, steps).selected[run].read && i < |After(env, steps).store.rows|
    requires !Unchanged(After(env, steps).store.rows, i, After(env, steps).selected[run].read[i])
    ensures var leak := steps + [WriteUp(run, content, e, now)];
            Possible(env, leak) && !Faithful(After(env, leak).store.rows)
  {
    Extend(env, steps, WriteUp(run, content, e, now));
    var st, s := After(env, steps).store, After(env, steps).selected[run];
    WriteRows(st, s.who, content, e, s.read, now);
    QuotesTheChanged(st.rows, WriteSummary(st, s.who, content, e, s.read, now).rows, s, i, content, e, now);
  }

  lemma QuotesTheChanged(a: seq<Row>, b: seq<Row>, s: Selection, i: Id, content: string, e: Embedding, now: Time)
    requires WriteEffect(a, b, s.who, content, e, s.read, now)
    requires i in s.read && i < |a| && !Unchanged(a, i, s.read[i])
    ensures !Faithful(b)
  {
    assert Retrievable(b[|a|]) && !Unchanged(b, i, s.read[i]);
    assert !FaithfulSummary(b, |a|);
  }

  /** A write-up that runs between the invalidation and the deletion of one of its
      rows folds that row in again, and the deletion then goes through unseen. */
  lemma WriteUpBeforeDelete(env: Env, steps: seq<Step>, run: nat, op: nat, content: string, e: Embedding, now: Time)
    returns (leak: seq<Step>)
    requires Possible(env, steps)
    requires run in After(env, steps).selected && op in After(env, steps).pending
    requires After(env, steps).pending[op].id in After(env, steps).selected[run].read
    requires Mutable(After(env, steps).store, After(env, steps).pending[op].who, After(env, steps).pending[op].id)
    ensures leak == steps + [WriteUp(run, content, e, now)] + [FinishDelete(op, now)]
    ensures Possible(env, leak) && !Faithful(After(env, leak).store.rows)
  {
    var sys := After(env, steps);
    var s, p := sys.selected[run], sys.pending[op];
    var one := steps + [WriteUp(run, content, e, now)];
    Extend(env, steps, WriteUp(run, content, e, now));
    WriteRows(sys.store, s.who, content, e, s.read, now);
    leak := one + [FinishDelete(op, now)];
    Extend(env, one, FinishDelete(op, now));
    var st := After(env, one).store;
    assert Mutable(st, p.who, p.id);
    var rows := After(env, leak).store.rows;
    var m := |sys.store.rows|;
    assert Retrievable(rows[m]) && !Live(rows[p.id]);
    assert !FaithfulSummary(rows, m);
  }

  /** A write-up over a source that another write-up has claimed meanwhile gets no edge from
      it, so a later, uninterrupted delete of that source does not reach its summary. */
  lemma SecondWriteUp(env: Env, steps: seq<Step>, run: nat, i: Id, op: nat, content: string, e: Embedding, now: Time)
    returns (leak: seq<Step>)
    requires Possible(env, steps)
    requires run in After(env, steps).selected && op !in After(env, steps).pending
    requires i in After(env, steps).selected[run].read && i < |After(env, steps).store.rows|
    requires Live(After(env, steps).store.rows[i]) && After(env, steps).store.rows[i].consolidatedInto.Some?
    ensures leak == steps + [WriteUp(run, content, e, now)] + Erase(op, After(env, steps).selected[run].who, i, now)
    ensures Possible(env, leak) && !Faithful(After(env, leak).store.rows)
  {
    RunTidy(env, steps);
    var st, s := After(env, steps).store, After(env, steps).selected[run];
    assert SelectionOk(st.rows, s) && EdgeOk(st.rows, i);
    var one := steps + [WriteUp(run, content, e, now)];
    Extend(env, steps, WriteUp(run, content, e, now));
    RunTidy(env, one);
    RunFoldsBack(env, one);
    leak := one + Erase(op, s.who, i, now);
    EraseRuns(env, one, op, s.who, i, now);
    WriteRows(st, s.who, content, e, s.read, now);
    WrittenUntraced(st.rows, After(env, one).store, s, i, content, e, now);
  }

  lemma WrittenUntraced(a: seq<Row>, st: Store, s: Selection, i: Id, content: string, e: Embedding, now: Time)
    requires WriteEffect(a, st.rows, s.who, content, e, s.read, now) && Tidy(st.rows) && FoldsBack(st.rows)
    requires i in s.read && i < |a| && Live(a[i]) && Visible(a[i], s.who)
    requires a[i].consolidatedAt.Some? && a[i].consolidatedInto.Some? && a[i].consolidatedInto.value < |a|
    ensures !Faithful(FullyErased(st, s.who, i, now).rows)
  {
    assert s.who == Session(st.rows[i].subject, st.rows[i].actor);
    UntracedSurvives(st, |a|, i, now);
  }

  // ---- a concrete run of each ------------------------------------------------------------

  /** The cosine of vectors of length one. */
  function Dot(a: seq<real>, b: seq<real>): real {
    if a == [] || b == [] then 0.0 else a[0] * b[0] + Dot(a[1..], b[1..])
  }

  const User := Session(1, 1)
  const Java: Embedding := [1.0, 0.0]
  const Coding: Embedding := [0.8, 0.6]
  const Halved: real -> real := x => if x <= 0.0 then 1.0 else 1.0 / (1.0 + x)

  /** The shipped settings, but with clusters from two rows. */
  const Demo := Env(Config((a: Embedding, b: Embedding) => Dot(a, b), 0.82, 0.25, 5.0),
                    Decay.Tuning(Halved, 30.0, 3.0, 0.05, 0.1), 25, 2, 8)

  /** The two vectors are of length one and near each other, yet below the threshold. */
  lemma NearNotAlike()
    ensures Dot(Java, Java) == Dot(Coding, Coding) == 1.0 && Dot(Java, Coding) == 0.8
  {
    assert Java[1..] == [0.0] && Coding[1..] == [0.6] && Java[1..][1..] == [] && Coding[1..][1..] == [];
    assert Dot([0.0], [0.0]) == 0.0 && Dot([0.6], [0.6]) == 0.36 && Dot([0.0], [0.6]) == 0.0;
  }

  function Fact(text: string, e: Embedding): Candidate {
    Candidate(text, Some(e), Some("user_statement"), None)
  }

  const First := Fact("prefers Java", Java)
  const Second := Fact("writes code at night", Coding)

  function TwoFacts(): Step {
    CaptureBatch(User, [First, Second], [Pick(None, None), Pick(None, Some(0))], 0)
  }

  /** Two facts below the threshold are captured as two rows. */
  lemma TwoFactsInserted()
    ensures var picks := [Pick(None, None), Pick(None, Some(0))];
            && ValidPicks(EmptyStore, User, [First, Second], picks, Demo.cfg, 0)
            && Capture(EmptyStore, User, [First, Second], picks, Demo.cfg, 0).rows
               == [CandidateRow(User, First, 0), CandidateRow(User, Second, 0)]
  {
    FirstInserted();
    NearNotAlike();
    var p0, p1 := Pick(None, None), Pick(None, Some(0));
    assert [First, Second][..1] == [First] && [p0, p1][..1] == [p0];
    var first := Capture(EmptyStore, User, [First], [p0], Demo.cfg, 0);
    assert first.rows[0].embedding == Some(Java);
    assert Decide(first.rows, Second, p1, Demo.cfg) == Add;
  }

  lemma FirstInserted()
    ensures ValidPicks(EmptyStore, User, [First], [Pick(None, None)], Demo.cfg, 0)
    ensures Capture(EmptyStore, User, [First], [Pick(None, None)], Demo.cfg, 0).rows == [CandidateRow(User, First, 0)]
  {
    var p := Pick(None, None);
    assert [First][..0] == [] && [p][..0] == [];
    assert Capture(EmptyStore, User, [], [], Demo.cfg, 0) == EmptyStore;
    assert ValidPicks(EmptyStore, User, [], [], Demo.cfg, 0) && ValidPick([], User, First, p, Demo.cfg);
    assert Capture(EmptyStore, User, [First], [p], Demo.cfg, 0) == CaptureOne(EmptyStore, User, First, p, Demo.cfg, 0);
  }

  lemma TwoFactsCaptured()
    ensures Possible(Demo, [TwoFacts()])
    ensures var sys := After(Demo, [TwoFacts()]);
            && |sys.store.rows| == 2 && sys.pending == map[] && sys.selected == map[]
            && (forall i :: 0 <= i < 2 ==> IsCandidate(sys.store.rows[i], User) && sys.store.rows[i].version == 0)
  {
    TwoFactsInserted();
    assert [] + [TwoFacts()] == [TwoFacts()];
    Extend(Demo, [], TwoFacts());
  }

  /** Capture two facts; select both; delete the first; write the summary. */
  function ErasedThenQuoted(): seq<Step> {
    [TwoFacts()] + [Select(0, User, {0, 1})] + Erase(0, User, 0, 1)
    + [WriteUp(0, "prefers Java and writes code at night", Java, 1)]
  }

  lemma ErasedThenQuotedLeaks()
    ensures Possible(Demo, ErasedThenQuoted())
    ensures !Faithful(After(Demo, ErasedThenQuoted()).store.rows)
  {
    TwoFactsCaptured();
    SelectBoth(After(Demo, [TwoFacts()]), 0);
    Extend(Demo, [TwoFacts()], Select(0, User, {0, 1}));
    var leak := DeleteBeforeWriteUp(Demo, [TwoFacts()] + [Select(0, User, {0, 1})], 0, 0, 0,
                                    "prefers Java and writes code at night", Java, 1);
    assert leak == ErasedThenQuoted();
  }

  /** Capture two facts; start deleting the first; select both and write the summary;
      finish the delete. */
  function QuotedThenErased(): seq<Step> {
    [TwoFacts()] + [Invalidate(0, User, 0, 1)] + [Select(0, User, {0, 1})]
    + [WriteUp(0, "prefers Java and writes code at night", Java, 1)] + [FinishDelete(0, 1)]
  }

  lemma DeleteBegun() returns (steps: seq<Step>)
    ensures steps == [TwoFacts()] + [Invalidate(0, User, 0, 1)] && Possible(Demo, steps)
    ensures var sys := After(Demo, steps);
            TwoCandidates(sys) && sys.pending == map[0 := Mutation(User, 0)] && sys.selected == map[]
  {
    TwoFactsCaptured();
    steps := [TwoFacts()] + [Invalidate(0, User, 0, 1)];
    Extend(Demo, [TwoFacts()], Invalidate(0, User, 0, 1));
  }

  lemma QuotedThenErasedLeaks()
    ensures Possible(Demo, QuotedThenErased())
    ensures !Faithful(After(Demo, QuotedThenErased()).store.rows)
  {
    var one := DeleteBegun();
    SelectBoth(After(Demo, one), 0);
    Extend(Demo, one, Select(0, User, {0, 1}));
    var leak := WriteUpBeforeDelete(Demo, one + [Select(0, User, {0, 1})], 0, 0,
                                    "prefers Java and writes code at night", Java, 1);
    assert leak == QuotedThenErased();
  }

  /** Capture two facts; two passes select both; both write up; delete the first. */
  function QuotedTwice(): seq<Step> {
    [TwoFacts()] + [Select(0, User, {0, 1})] + [Select(1, User, {0, 1})] + [WriteUp(0, "prefers Java", Java, 1)]
    + [WriteUp(1, "writes code at night, prefers Java", Java, 2)] + Erase(0, User, 0, 2)
  }

  predicate TwoCandidates(sys: System) {
    |sys.store.rows| == 2 && IsCandidate(sys.store.rows[0], User) && IsCandidate(sys.store.rows[1], User)
  }

  lemma SelectBoth(sys: System, run: nat)
    requires TwoCandidates(sys) && run !in sys.selected
    ensures Enabled(Demo, sys, Select(run, User, {0, 1}))
    ensures Next(Demo, sys, Select(run, User, {0, 1})) ==
              sys.(selected := sys.selected[run := Selection(User, Read(sys.store.rows, {0, 1}))])
  {}

  lemma BothSelected() returns (steps: seq<Step>)
    ensures steps == [TwoFacts()] + [Select(0, User, {0, 1})] + [Select(1, User, {0, 1})] && Possible(Demo, steps)
    ensures var sys := After(Demo, steps);
            && TwoCandidates(sys) && sys.pending == map[]
            && var both := Selection(User, Read(sys.store.rows, {0, 1}));
               sys.selected == map[0 := both, 1 := both]
  {
    TwoFactsCaptured();
    assert TwoCandidates(After(Demo, [TwoFacts()]));
    var one := [TwoFacts()] + [Select(0, User, {0, 1})];
    SelectBoth(After(Demo, [TwoFacts()]), 0);
    Extend(Demo, [TwoFacts()], Select(0, User, {0, 1}));
    steps := one + [Select(1, User, {0, 1})];
    SelectBoth(After(Demo, one), 1);
    Extend(Demo, one, Select(1, User, {0, 1}));
  }

  lemma QuotedTwiceLeaks()
    ensures Possible(Demo, QuotedTwice())
    ensures !Faithful(After(Demo, QuotedTwice()).store.rows)
  {
    var two := BothSelected();
    var sys := After(Demo, two);
    assert Claimable(sys.store.rows[0], User);
    Extend(Demo, two, WriteUp(0, "prefers Java", Java, 1));
    WriteRows(sys.store, User, "prefers Java", Java, sys.selected[0].read, 1);
    var leak := SecondWriteUp(Demo, two + [WriteUp(0, "prefers Java", Java, 1)], 1, 0, 0,
                              "writes code at night, prefers Java", Java, 2);
    assert leak == QuotedTwice();
  }
}
