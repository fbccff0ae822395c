/** What a delete that commits between the statements of one capture does. The capture's
    lock is on its subject and a delete's on its memory, so neither waits for the other;
    both runs below start from every reachable state with such a capture in flight. */
module CaptureRaces {
  import opened Common
  import opened Memories
  import opened Effects
  import opened Lifecycle
  import opened Books
  import opened Freshness
  import opened Provenance
  import opened Races

  /** The row a capture decided to reinforce is deleted first: the reinforcement is logged
      and matches nothing, and the trail never balances again. */
  lemma ForgottenThenReinforced(env: Env, steps: seq<Step>, op: nat, del: nat, now: Time) returns (leak: seq<Step>)
    requires Possible(env, steps) && op in After(env, steps).captures && del !in After(env, steps).pending
    requires After(env, steps).captures[op].decision.Some? && After(env, steps).captures[op].decision.value.Repeat?
    requires Mutable(After(env, steps).store, After(env, steps).captures[op].who,
                     After(env, steps).captures[op].decision.value.near)
    ensures var f := After(env, steps).captures[op];
            leak == steps + Erase(del, f.who, f.decision.value.near, now) + [Settle(op, now)]
    ensures Possible(env, leak) && !Balanced(After(env, leak).store)
  {
    var f := After(env, steps).captures[op];
    EraseRuns(env, steps, del, f.who, f.decision.value.near, now);
    ErasedRow(After(env, steps).store, f.who, f.decision.value.near, now);
    var gone := steps + Erase(del, f.who, f.decision.value.near, now);
    leak := gone + [Settle(op, now)];
    Extend(env, gone, Settle(op, now));
    assert leak[..|leak| - 1] == gone && leak[|leak| - 1] == Settle(op, now);
    assert !Timely(After(env, gone), Settle(op, now));
    TrailBalances(env, leak);
  }

  /** A close row is deleted after a note was looked up among the removed rows and before it
      is looked up among the current ones: neither sees it, and unless another current row
      is close the note brings back what was erased. */
  lemma ForgottenThenRestated(env: Env, steps: seq<Step>, op: nat, del: nat, i: Id, nearest: Option<Id>, now: Time)
    returns (leak: seq<Step>)
    requires Possible(env, steps) && op in After(env, steps).captures && del !in After(env, steps).pending
    requires var sys := After(env, steps);
             var f := sys.captures[op];
             && !f.blocked && f.decision.None? && FromAssistant(f.c) && f.c.embedding.Some?
             && Mutable(sys.store, f.who, i) && Close(sys.store.rows[i], f.c.embedding.value, env.cfg)
             && var rows := FullyErased(sys.store, f.who, i, now).rows;
                && IsNearest(rows, f.who, false, f.c.embedding.value, env.cfg, nearest)
                && !AnyClose(rows, f.who, false, f.c.embedding.value, env.cfg)
    ensures leak == steps + Erase(del, After(env, steps).captures[op].who, i, now)
                    + [Match(op, nearest)] + [Settle(op, now)]
    ensures Possible(env, leak)
    ensures var sys := After(env, steps);
            var rows, f := After(env, leak).store.rows, sys.captures[op];
            && rows == FullyErased(sys.store, f.who, i, now).rows + [CandidateRow(f.who, f.c, now)]
            && !FarFromEarlier(rows, |rows| - 1, f.who, env.cfg)
  {
    var f := After(env, steps).captures[op];
    EraseRuns(env, steps, del, f.who, i, now);
    leak := MatchThenSettle(env, steps + Erase(del, f.who, i, now), op, nearest, now);
    ErasedStillNear(After(env, steps).store, f.who, i, f.c, env.cfg, now);
  }

  /** A note that meets no close current row is inserted. */
  lemma MatchThenSettle(env: Env, steps: seq<Step>, op: nat, nearest: Option<Id>, now: Time) returns (more: seq<Step>)
    requires Possible(env, steps) && op in After(env, steps).captures
    requires var f := After(env, steps).captures[op];
             var rows := After(env, steps).store.rows;
             && !f.blocked && f.decision.None? && FromAssistant(f.c) && f.c.embedding.Some?
             && IsNearest(rows, f.who, false, f.c.embedding.value, env.cfg, nearest)
             && !AnyClose(rows, f.who, false, f.c.embedding.value, env.cfg)
    ensures more == steps + [Match(op, nearest)] + [Settle(op, now)] && Possible(env, more)
    ensures var f := After(env, steps).captures[op];
            After(env, more).store.rows == After(env, steps).store.rows + [CandidateRow(f.who, f.c, now)]
  {
    var f, rows := After(env, steps).captures[op], After(env, steps).store.rows;
    Extend(env, steps, Match(op, nearest));
    var looked := steps + [Match(op, nearest)];
    NearestDecides(rows, f.who, false, f.c.embedding.value, env.cfg, nearest);
    assert After(env, looked).captures[op].decision == Some(Add);
    Extend(env, looked, Settle(op, now));
    more := looked + [Settle(op, now)];
  }

  lemma ErasedStillNear(st: Store, who: Session, i: Id, c: Candidate, cfg: Config, now: Time)
    requires Mutable(st, who, i) && c.embedding.Some? && Close(st.rows[i], c.embedding.value, cfg)
    ensures var rows := FullyErased(st, who, i, now).rows;
            !FarFromEarlier(rows + [CandidateRow(who, c, now)], |rows|, who, cfg)
  {
    var rows := FullyErased(st, who, i, now).rows;
    ErasedRow(st, who, i, now);
    assert (rows + [CandidateRow(who, c, now)])[i] == rows[i];
  }

  // ---- a concrete run of each ------------------------------------------------------------

  function Told(): Step {
    CaptureBatch(User, [First], [Pick(None, None)], 0)
  }

  function Echo(): Candidate {
    Candidate("The user prefers Java.", Some(Java), Some(ASSISTANT_NOTE), None)
  }

  lemma OneFactTold()
    ensures Possible(Demo, [Told()])
    ensures var sys := After(Demo, [Told()]);
            sys == System(sys.store, map[], map[], map[]) && sys.store.rows == [CandidateRow(User, First, 0)]
  {
    FirstInserted();
    assert [] + [Told()] == [Told()];
    Extend(Demo, [], Told());
  }

  /** Tell a fact; tell it again, and delete it between the lookup and the UPDATE. */
  function ToldErasedReinforced(): seq<Step> {
    [Told()] + [Recall(0, User, First, None)] + [Match(0, Some(0))]
    + Erase(0, User, 0, 1) + [Settle(0, 1)]
  }

  lemma ToldErasedReinforcedUnbalances()
    ensures Possible(Demo, ToldErasedReinforced()) && !Balanced(After(Demo, ToldErasedReinforced()).store)
  {
    OneFactTold();
    var one := [Told()] + [Recall(0, User, First, None)];
    Extend(Demo, [Told()], Recall(0, User, First, None));
    assert After(Demo, one).store == After(Demo, [Told()]).store;
    var rows := After(Demo, one).store.rows;
    assert rows[0] == CandidateRow(User, First, 0);
    Extend(Demo, one, Match(0, Some(0)));
    var leak := ForgottenThenReinforced(Demo, one + [Match(0, Some(0))], 0, 0, 1);
    assert leak == ToldErasedReinforced();
  }

  /** Tell a fact; the assistant restates it, and it is deleted between the two lookups. */
  function ToldErasedRestated(): seq<Step> {
    [Told()] + [Recall(0, User, Echo(), None)] + Erase(0, User, 0, 1) + [Match(0, None)] + [Settle(0, 1)]
  }

  lemma EchoRecalled() returns (steps: seq<Step>)
    ensures steps == [Told()] + [Recall(0, User, Echo(), None)] && Possible(Demo, steps)
    ensures var sys := After(Demo, steps);
            && sys.store.rows == [CandidateRow(User, First, 0)] && sys.pending == map[]
            && sys.captures == map[0 := Inflight(User, Echo(), false, None, sys.store.rows, [])]
  {
    OneFactTold();
    steps := [Told()] + [Recall(0, User, Echo(), None)];
    assert After(Demo, [Told()]).store.rows[0] == CandidateRow(User, First, 0);
    Extend(Demo, [Told()], Recall(0, User, Echo(), None));
  }

  lemma ToldErasedRestatedResurrects()
    ensures Possible(Demo, ToldErasedRestated())
    ensures var rows := After(Demo, ToldErasedRestated()).store.rows;
            && |rows| == 2 && !Live(rows[0]) && rows[1] == CandidateRow(User, Echo(), 1)
            && !FarFromEarlier(rows, 1, User, Demo.cfg)
  {
    var one := EchoRecalled();
    assert After(Demo, one).store.rows[0] == CandidateRow(User, First, 0);
    ErasedRow(After(Demo, one).store, User, 0, 1);
    var leak := ForgottenThenRestated(Demo, one, 0, 0, 0, None, 1);
    assert leak == ToldErasedRestated();
  }
}
