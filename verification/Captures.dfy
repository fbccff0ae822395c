/** Captures in flight: what a decision taken from an earlier table is still worth when
    its statements run, and that with nothing in between it is the one-transaction
    capture. */
module Captures {
  import opened Common
  import opened Memories
  import opened Effects
  import opened Lifecycle
  import opened Integrity
  import opened Provenance

  /** A decision names a row of its own session, never blocks once the removed rows did
      not, and never reinforces for the assistant. */
  predicate InflightOk(rows: seq<Row>, f: Inflight, cfg: Config) {
    && (f.blocked ==> f.decision.None? && FromAssistant(f.c))
    && (f.decision.Some? ==>
          var d := f.decision.value;
          && !d.Block? && (d.Repeat? ==> !FromAssistant(f.c)) && (d.Ignore? ==> FromAssistant(f.c))
          && (d.Repeat? || d.Ignore? ==> d.near < |rows| && Visible(rows[d.near], f.who)))
    && (FromAssistant(f.c) && f.c.embedding.Some? ==>
          && (!f.blocked ==> !AnyClose(f.recalled, f.who, true, f.c.embedding.value, cfg))
          && (f.decision == Some(Add) ==> !AnyClose(f.looked, f.who, false, f.c.embedding.value, cfg)))
  }

  /** And no two captures of one subject are in flight at once. */
  predicate CapturesOk(env: Env, sys: System) {
    && (forall op :: op in sys.captures ==> InflightOk(sys.store.rows, sys.captures[op], env.cfg))
    && (forall op, other :: op in sys.captures && other in sys.captures && op != other ==>
          sys.captures[op].who.subject != sys.captures[other].who.subject)
  }

  lemma RecallOk(rows: seq<Row>, who: Session, c: Candidate, tombstone: Option<Id>, cfg: Config)
    requires FromAssistant(c) && c.embedding.Some? ==> IsNearest(rows, who, true, c.embedding.value, cfg, tombstone)
    ensures InflightOk(rows, Inflight(who, c, IsBlocked(rows, c, Pick(tombstone, None), cfg), None, rows, []), cfg)
  {
    if FromAssistant(c) && c.embedding.Some? {
      NearestDecides(rows, who, true, c.embedding.value, cfg, tombstone);
    }
  }

  lemma MatchOk(rows: seq<Row>, f: Inflight, nearest: Option<Id>, cfg: Config)
    requires InflightOk(rows, f, cfg) && !f.blocked
    requires f.c.embedding.Some? ==> IsNearest(rows, f.who, false, f.c.embedding.value, cfg, nearest)
    ensures InflightOk(rows, f.(decision := Some(Decide(rows, f.c, Pick(None, nearest), cfg)), looked := rows), cfg)
  {
    if f.c.embedding.Some? {
      NearestDecides(rows, f.who, false, f.c.embedding.value, cfg, nearest);
    }
  }

  lemma StepCaptures(env: Env, sys: System, step: Step)
    requires Enabled(env, sys, step) && Tidy(sys.store.rows) && SelectionsOk(sys) && CapturesOk(env, sys)
    ensures CapturesOk(env, Next(env, sys, step))
  {
    var rows, next := sys.store.rows, Next(env, sys, step);
    StoreTidy(env, sys, step);
    forall op | op in next.captures ensures InflightOk(next.store.rows, next.captures[op], env.cfg) {
      if step.Match? && step.op == op {
        var f := sys.captures[op];
        MatchOk(rows, f, step.nearest, env.cfg);
      } else if step.Recall? && step.op == op {
        RecallOk(rows, step.who, step.c, step.tombstone, env.cfg);
      } else {
        assert InflightOk(rows, sys.captures[op], env.cfg);
      }
    }
  }

  lemma {:induction false} RunCaptures(env: Env, steps: seq<Step>)
    requires Possible(env, steps)
    ensures CapturesOk(env, After(env, steps))
    decreases |steps|
  {
    if steps != [] {
      var init, step := steps[..|steps| - 1], steps[|steps| - 1];
      RunTidy(env, init);
      RunCaptures(env, init);
      StepCaptures(env, After(env, init), step);
    }
  }

  /** Looked up and written with nothing in between, a candidate fares as in one undivided
      step, whichever rows its queries return. */
  lemma UndisturbedIsOneStep(env: Env, sys: System, op: nat, who: Session, c: Candidate, pick: Pick, now: Time)
    requires Enabled(env, sys, Recall(op, who, c, pick.tombstone))
    requires c.embedding.Some? ==> IsNearest(sys.store.rows, who, false, c.embedding.value, env.cfg, pick.nearest)
    ensures var one := Next(env, sys, Recall(op, who, c, pick.tombstone));
            if one.captures[op].blocked then CaptureOne(sys.store, who, c, pick, env.cfg, now) == one.store
            else
              && Enabled(env, one, Match(op, pick.nearest))
              && var two := Next(env, one, Match(op, pick.nearest));
                 Enabled(env, two, Settle(op, now))
                 && Next(env, two, Settle(op, now)) == sys.(store := CaptureOne(sys.store, who, c, pick, env.cfg, now))
  {
    var one := Next(env, sys, Recall(op, who, c, pick.tombstone));
    if !one.captures[op].blocked {
      var two := Next(env, one, Match(op, pick.nearest));
      assert two.captures - {op} == sys.captures;
    }
  }

  /** What an assistant note in flight may do, in every run: leave every row as it was, add
      at most one row, which fills no slot, with one entry, and be far from every earlier
      row exactly when no close row escaped both its queries. */
  lemma NoteSettlesExactly(env: Env, steps: seq<Step>, op: nat, now: Time)
    requires Possible(env, steps) && Enabled(env, After(env, steps), Settle(op, now))
    requires FromAssistant(After(env, steps).captures[op].c)
    ensures var sys := After(env, steps);
            var a, b, f := sys.store, StoreAfter(env, sys, Settle(op, now)), sys.captures[op];
            var n := |a.rows|;
            && n <= |b.rows| <= n + 1 && b.rows[..n] == a.rows
            && b.audit == a.audit + (if |b.rows| == n then [] else [Entry(f.who.subject, f.who.actor, n, Inserted)])
            && (|b.rows| == n + 1 ==>
                  && Visible(b.rows[n], f.who) && Retrievable(b.rows[n])
                  && b.rows[n].source == Some(ASSISTANT_NOTE) && b.rows[n].attribute.None?
                  && (f.c.embedding.Some? ==>
                        (FarFromEarlier(b.rows, n, f.who, env.cfg) <==>
                         forall j :: 0 <= j < n && Escaped(f.recalled, f.looked, f.who, a.rows, j) ==>
                           !Close(a.rows[j], f.c.embedding.value, env.cfg))))
  {
    RunCaptures(env, steps);
    var sys := After(env, steps);
    var a, b, f := sys.store, StoreAfter(env, sys, Settle(op, now)), sys.captures[op];
    assert InflightOk(a.rows, f, env.cfg);
    if f.decision.value.Add? {
      var row := CandidateRow(f.who, f.c, now);
      assert b.rows == a.rows + [row];
      if f.c.embedding.Some? {
        NoteFarExactly(f.recalled, f.looked, a.rows, f.who, row, env.cfg);
      }
    }
  }

  // ---- how a note can come to be near an earlier row ------------------------------------------

  /** What the queries of a capture saw are earlier states of the table. */
  predicate HistoryOk(rows: seq<Row>, f: Inflight) {
    Later(f.recalled, rows) && (f.decision.Some? ==> Later(f.recalled, f.looked) && Later(f.looked, rows))
  }

  lemma HistoryStays(a: seq<Row>, b: seq<Row>, f: Inflight)
    requires HistoryOk(a, f) && Later(a, b)
    ensures HistoryOk(b, f)
  {
    LaterTransitive(f.recalled, a, b);
    if f.decision.Some? {
      LaterTransitive(f.looked, a, b);
    }
  }

  lemma LaterTransitive(a: seq<Row>, b: seq<Row>, c: seq<Row>)
    requires Later(a, b) && Later(b, c)
    ensures Later(a, c)
  {
    forall i | 0 <= i < |a| ensures Keeps(a[i], c[i]) {
      assert Keeps(a[i], b[i]) && Keeps(b[i], c[i]);
    }
  }

  predicate HistoriesOk(sys: System) {
    forall op :: op in sys.captures ==> HistoryOk(sys.store.rows, sys.captures[op])
  }

  lemma StepHistories(env: Env, sys: System, step: Step)
    requires Enabled(env, sys, step) && Tidy(sys.store.rows) && SelectionsOk(sys) && HistoriesOk(sys)
    ensures HistoriesOk(Next(env, sys, step))
  {
    var next := Next(env, sys, step);
    StoreTidy(env, sys, step);
    assert Later(sys.store.rows, next.store.rows);
    forall op | op in next.captures ensures HistoryOk(next.store.rows, next.captures[op]) {
      if op in sys.captures && next.captures[op] == sys.captures[op] {
        HistoryStays(sys.store.rows, next.store.rows, sys.captures[op]);
      }
    }
  }

  lemma {:induction false} RunHistories(env: Env, steps: seq<Step>)
    requires Possible(env, steps)
    ensures HistoriesOk(After(env, steps))
    decreases |steps|
  {
    if steps != [] {
      var init, step := steps[..|steps| - 1], steps[|steps| - 1];
      RunTidy(env, init);
      RunHistories(env, init);
      StepHistories(env, After(env, init), step);
    }
  }

  /** So in every run a note is far from every earlier row of its session if and only if no
      close row slipped between its queries: removed after the first and before the second,
      given its vector after the query that looked for it, or inserted since. */
  lemma NoteFarInRuns(env: Env, steps: seq<Step>, op: nat, now: Time)
    requires Possible(env, steps) && Enabled(env, After(env, steps), Settle(op, now))
    requires var f := After(env, steps).captures[op];
             FromAssistant(f.c) && f.decision == Some(Add) && f.c.embedding.Some?
    ensures var sys := After(env, steps);
            var rows, f := sys.store.rows, sys.captures[op];
            && |f.recalled| <= |f.looked|
            && StoreAfter(env, sys, Settle(op, now)).rows == rows + [CandidateRow(f.who, f.c, now)]
            && (FarFromEarlier(rows + [CandidateRow(f.who, f.c, now)], |rows|, f.who, env.cfg) <==>
                forall j :: 0 <= j < |rows| && Visible(rows[j], f.who) && Slipped(f.recalled, f.looked, rows, j) ==>
                  !Close(rows[j], f.c.embedding.value, env.cfg))
  {
    RunCaptures(env, steps);
    RunHistories(env, steps);
    var sys := After(env, steps);
    var rows, f := sys.store.rows, sys.captures[op];
    assert InflightOk(rows, f, env.cfg) && HistoryOk(rows, f);
    FarUnlessSlipped(f.recalled, f.looked, rows, f.who, CandidateRow(f.who, f.c, now), env.cfg);
  }

  lemma FarUnlessSlipped(recalled: seq<Row>, looked: seq<Row>, rows: seq<Row>, who: Session, r: Row, cfg: Config)
    requires Later(recalled, looked) && Later(looked, rows) && r.embedding.Some?
    requires !AnyClose(recalled, who, true, r.embedding.value, cfg)
             && !AnyClose(looked, who, false, r.embedding.value, cfg)
    ensures FarFromEarlier(rows + [r], |rows|, who, cfg) <==>
              forall j :: 0 <= j < |rows| && Visible(rows[j], who) && Slipped(recalled, looked, rows, j) ==>
                !Close(rows[j], r.embedding.value, cfg)
  {
    NoteFarExactly(recalled, looked, rows, who, r, cfg);
    forall j | 0 <= j < |rows| && Visible(rows[j], who) && Close(rows[j], r.embedding.value, cfg)
      ensures Escaped(recalled, looked, who, rows, j) <==> Slipped(recalled, looked, rows, j)
    {
      EscapedExactly(recalled, looked, who, rows, j);
    }
  }
}
