/** Creating one connection pool per database under interleaved coroutines
    (`store/db.py`, `get_pool`). Control changes hands only where the code awaits, so
    a call is a few atomic segments: up to the lock, up to `pool.open`, and after it. */
module Pool {
  import opened Common

  type Dsn = string

  datatype Status = Opening | Open | Closed
  datatype Pool = Pool(dsn: Dsn, status: Status)

  datatype Phase = Waiting(dsn: Dsn) | Creating(pool: nat) | Returned(pool: nat) | Raised

  /** The module's two dictionaries (`locks` names the holder of each held lock), every
      pool object ever made, and where each call has got to. */
  datatype World = World(pools: map<Dsn, nat>, locks: map<Dsn, nat>, made: seq<Pool>, calls: map<nat, Phase>)

  const Start := World(map[], map[], [], map[])

  datatype Step =
    | Call(c: nat, dsn: Dsn)
    | Acquire(c: nat)
    | Opened(c: nat)
    | OpenFailed(c: nat)
    | Cancelled(c: nat)
    | Shut(dsn: Dsn)

  /** The check made before the lock and again inside it. */
  function Cached(pools: map<Dsn, nat>, made: seq<Pool>, dsn: Dsn): Option<nat> {
    if dsn in pools && pools[dsn] < |made| && made[pools[dsn]].status != Closed then Some(pools[dsn]) else None
  }

  predicate Enabled(w: World, s: Step) {
    match s
    case Call(c, _) => c !in w.calls
    case Acquire(c) => c in w.calls && w.calls[c].Waiting? && w.calls[c].dsn !in w.locks
    case Opened(c) => c in w.calls && w.calls[c].Creating? && w.calls[c].pool < |w.made|
    case OpenFailed(c) => c in w.calls && w.calls[c].Creating? && w.calls[c].pool < |w.made|
    case Cancelled(c) => c in w.calls && w.calls[c].Waiting?
    case Shut(dsn) => Cached(w.pools, w.made, dsn).Some?
  }

  /** The segment that holds the lock: re-check, else make a pool and start opening it. */
  function Locked(w: World, c: nat, dsn: Dsn): World {
    match Cached(w.pools, w.made, dsn)
    case Some(p) => w.(calls := w.calls[c := Returned(p)])
    case None =>
      World(w.pools, w.locks[dsn := c], w.made + [Pool(dsn, Opening)], w.calls[c := Creating(|w.made|)])
  }

  function Next(w: World, s: Step): World
    requires Enabled(w, s)
  {
    match s
    case Call(c, dsn) =>
      (match Cached(w.pools, w.made, dsn)
       case Some(p) => w.(calls := w.calls[c := Returned(p)])
       case None => if dsn in w.locks then w.(calls := w.calls[c := Waiting(dsn)]) else Locked(w, c, dsn))
    case Acquire(c) => Locked(w, c, w.calls[c].dsn)
    case Opened(c) =>
      var p := w.calls[c].pool;
      var dsn := w.made[p].dsn;
      World(w.pools[dsn := p], w.locks - {dsn}, w.made[p := Pool(dsn, Open)], w.calls[c := Returned(p)])
    case OpenFailed(c) =>
      var p := w.calls[c].pool;
      var dsn := w.made[p].dsn;
      World(w.pools, w.locks - {dsn}, w.made[p := Pool(dsn, Closed)], w.calls[c := Raised])
    case Cancelled(c) => w.(calls := w.calls[c := Raised])
    case Shut(dsn) => w.(made := w.made[w.pools[dsn] := w.made[w.pools[dsn]].(status := Closed)])
  }

  predicate Possible(steps: seq<Step>)
    decreases |steps|, 0
  {
    steps == [] ||
    var init := steps[..|steps| - 1];
    Possible(init) && Enabled(After(init), steps[|steps| - 1])
  }

  function After(steps: seq<Step>): World
    requires Possible(steps)
    decreases |steps|, 1
  {
    if steps == [] then Start else Next(After(steps[..|steps| - 1]), steps[|steps| - 1])
  }

  // ---- what every interleaving keeps ---------------------------------------------------

  /** Two pools for one database are never both unclosed. */
  predicate AtMostOne(made: seq<Pool>) {
    forall p, q :: 0 <= p < q < |made| && made[p].dsn == made[q].dsn ==>
      made[p].status == Closed || made[q].status == Closed
  }

  /** An open pool is the recorded one; a pool being opened is in the hands of the
      caller that holds its database's lock. */
  predicate Accounted(w: World, p: nat)
    requires p < |w.made|
  {
    var pool := w.made[p];
    match pool.status
    case Closed => true
    case Open => pool.dsn in w.pools && w.pools[pool.dsn] == p
    case Opening => pool.dsn in w.locks && w.locks[pool.dsn] in w.calls && w.calls[w.locks[pool.dsn]] == Creating(p)
  }

  /** A held lock is held by a caller that is opening a pool for that database. */
  predicate HeldForAPool(w: World, dsn: Dsn)
    requires dsn in w.locks
  {
    && w.locks[dsn] in w.calls && w.calls[w.locks[dsn]].Creating?
    && var p := w.calls[w.locks[dsn]].pool; p < |w.made| && w.made[p] == Pool(dsn, Opening)
  }

  predicate CreatorHoldsLock(w: World, c: nat)
    requires c in w.calls
  {
    w.calls[c].Creating? ==>
      var p := w.calls[c].pool;
      p < |w.made| && w.made[p].status == Opening && w.made[p].dsn in w.locks && w.locks[w.made[p].dsn] == c
  }

  /** What is on record for a database is a pool of that database that finished opening. */
  predicate Recorded(w: World, dsn: Dsn)
    requires dsn in w.pools
  {
    var p := w.pools[dsn];
    p < |w.made| && w.made[p].dsn == dsn && w.made[p].status != Opening
  }

  predicate Sound(w: World) {
    && AtMostOne(w.made)
    && (forall p :: 0 <= p < |w.made| ==> Accounted(w, p))
    && (forall dsn :: dsn in w.locks ==> HeldForAPool(w, dsn))
    && (forall c :: c in w.calls ==> CreatorHoldsLock(w, c))
    && (forall dsn :: dsn in w.pools ==> Recorded(w, dsn))
  }

  lemma LockedSound(w: World, c: nat, dsn: Dsn)
    requires Sound(w) && dsn !in w.locks && (c in w.calls ==> w.calls[c].Waiting?)
    ensures Sound(Locked(w, c, dsn))
  {
    if Cached(w.pools, w.made, dsn).None? {
      NewPoolSound(w, c, dsn);
    } else {
      QuietSound(w, Locked(w, c, dsn), c);
    }
  }

  lemma NoneUnclosed(w: World, dsn: Dsn)
    requires Sound(w) && dsn !in w.locks && Cached(w.pools, w.made, dsn).None?
    ensures forall p :: 0 <= p < |w.made| && w.made[p].dsn == dsn ==> w.made[p].status == Closed
  {
    forall p | 0 <= p < |w.made| && w.made[p].dsn == dsn ensures w.made[p].status == Closed {
      assert Accounted(w, p);
    }
  }

  lemma NewPoolSound(w: World, c: nat, dsn: Dsn)
    requires Sound(w) && dsn !in w.locks && (c in w.calls ==> w.calls[c].Waiting?)
    requires Cached(w.pools, w.made, dsn).None?
    ensures Sound(Locked(w, c, dsn))
  {
    var next := Locked(w, c, dsn);
    NoneUnclosed(w, dsn);
    forall p | 0 <= p < |next.made| ensures Accounted(next, p) {
      assert p < |w.made| ==> Accounted(w, p);
    }
    forall d | d in next.locks ensures HeldForAPool(next, d) {
      assert d in w.locks ==> HeldForAPool(w, d);
    }
    forall k | k in next.calls ensures CreatorHoldsLock(next, k) {
      assert k in w.calls ==> CreatorHoldsLock(w, k);
    }
  }

  lemma OpenedSound(w: World, s: Step)
    requires Sound(w) && Enabled(w, s) && s.Opened?
    ensures Sound(Next(w, s))
  {
    var next := Next(w, s);
    assert CreatorHoldsLock(w, s.c);
    SettledCalls(w, next, s.c);
    forall p | 0 <= p < |next.made| ensures Accounted(next, p) {
      assert Accounted(w, p);
    }
  }

  lemma FailedSound(w: World, s: Step)
    requires Sound(w) && Enabled(w, s) && s.OpenFailed?
    ensures Sound(Next(w, s))
  {
    var next := Next(w, s);
    assert CreatorHoldsLock(w, s.c);
    SettledCalls(w, next, s.c);
    forall p | 0 <= p < |next.made| ensures Accounted(next, p) {
      assert Accounted(w, p);
    }
  }

  /** When a creator settles, the other databases' locks and creators are as they were. */
  lemma SettledCalls(w: World, next: World, c: nat)
    requires Sound(w) && c in w.calls && w.calls[c].Creating? && w.calls[c].pool < |w.made|
    requires var p := w.calls[c].pool;
             && next.locks == w.locks - {w.made[p].dsn} && |next.made| == |w.made|
             && (forall q :: 0 <= q < |w.made| && q != p ==> next.made[q] == w.made[q])
             && c in next.calls && !next.calls[c].Creating? && next.calls == w.calls[c := next.calls[c]]
    ensures forall d :: d in next.locks ==> HeldForAPool(next, d)
    ensures forall k :: k in next.calls ==> CreatorHoldsLock(next, k)
  {
    assert CreatorHoldsLock(w, c);
    forall d | d in next.locks ensures HeldForAPool(next, d) {
      assert HeldForAPool(w, d);
    }
    forall k | k in next.calls ensures CreatorHoldsLock(next, k) {
      assert CreatorHoldsLock(w, k);
    }
  }

  lemma StepSound(w: World, s: Step)
    requires Sound(w) && Enabled(w, s)
    ensures Sound(Next(w, s))
  {
    var next := Next(w, s);
    match s {
      case Call(c, dsn) =>
        if Cached(w.pools, w.made, dsn).None? && dsn !in w.locks {
          LockedSound(w, c, dsn);
        } else {
          QuietSound(w, next, c);
        }
      case Acquire(c) => LockedSound(w, c, w.calls[c].dsn);
      case Opened(_) => OpenedSound(w, s);
      case OpenFailed(_) => FailedSound(w, s);
      case Cancelled(c) => QuietSound(w, next, c);
      case Shut(dsn) =>
        forall p | 0 <= p < |next.made| ensures Accounted(next, p) {
          assert Accounted(w, p);
        }
        forall d | d in next.locks ensures HeldForAPool(next, d) {
          assert HeldForAPool(w, d);
        }
        forall k | k in next.calls ensures CreatorHoldsLock(next, k) {
          assert CreatorHoldsLock(w, k);
        }
    }
  }

  /** A call that neither takes nor gives up the lock changes nothing but its phase. */
  lemma QuietSound(w: World, next: World, c: nat)
    requires Sound(w) && c in next.calls && next == w.(calls := w.calls[c := next.calls[c]])
    requires !next.calls[c].Creating? && (c in w.calls ==> !w.calls[c].Creating?)
    ensures Sound(next)
  {
    forall p | 0 <= p < |next.made| ensures Accounted(next, p) {
      assert Accounted(w, p);
    }
    forall d | d in next.locks ensures HeldForAPool(next, d) {
      assert HeldForAPool(w, d);
    }
    forall k | k in next.calls ensures CreatorHoldsLock(next, k) {
      assert k in w.calls ==> CreatorHoldsLock(w, k);
    }
  }

  lemma {:induction false} RunSound(steps: seq<Step>)
    requires Possible(steps)
    ensures Sound(After(steps))
    decreases |steps|
  {
    if steps != [] {
      var init := steps[..|steps| - 1];
      RunSound(init);
      StepSound(After(init), steps[|steps| - 1]);
    }
  }

  predicate Finished(w: World) {
    forall c :: c in w.calls ==> w.calls[c].Returned? || w.calls[c].Raised?
  }

  /** However calls interleave, and whether their opens succeed, fail or are cancelled:
      one database never has two unclosed pools, and once every call has ended each
      pool is closed or is the one on record. */
  lemma OnePoolNoneLost(steps: seq<Step>)
    requires Possible(steps)
    ensures AtMostOne(After(steps).made)
    ensures Finished(After(steps)) ==>
              forall p :: 0 <= p < |After(steps).made| && After(steps).made[p].status != Closed ==>
                var w := After(steps);
                w.made[p].status == Open && w.made[p].dsn in w.pools && w.pools[w.made[p].dsn] == p
  {
    RunSound(steps);
    var w := After(steps);
    if Finished(w) {
      forall p | 0 <= p < |w.made| && w.made[p].status != Closed
        ensures w.made[p].status == Open && w.made[p].dsn in w.pools && w.pools[w.made[p].dsn] == p
      {
        assert Accounted(w, p);
      }
    }
  }

  /** A call is handed the pool on record for its database, open at that moment. */
  lemma CallerGetsTheOpenPool(steps: seq<Step>, s: Step, c: nat)
    requires Possible(steps) && Enabled(After(steps), s)
    requires c in Next(After(steps), s).calls && Next(After(steps), s).calls[c].Returned?
    requires c in After(steps).calls ==> !After(steps).calls[c].Returned?
    ensures var w := Next(After(steps), s);
            var p := w.calls[c].pool;
            p < |w.made| && w.made[p].status == Open && w.made[p].dsn in w.pools && w.pools[w.made[p].dsn] == p
  {
    RunSound(steps);
    var w := After(steps);
    match s {
      case Call(_, dsn) => assert dsn in w.pools;
      case Acquire(_) => assert w.calls[c].dsn in w.pools;
      case Opened(_) => assert CreatorHoldsLock(w, c);
      case _ =>
    }
  }

  /** No call waits for nothing: the lock is free to take, or its holder is opening a
      pool and will release it whichever way that ends. */
  lemma NobodyWaitsForever(steps: seq<Step>, c: nat)
    requires Possible(steps) && c in After(steps).calls && After(steps).calls[c].Waiting?
    ensures var w := After(steps);
            var dsn := w.calls[c].dsn;
            || Enabled(w, Acquire(c))
            || (exists h :: && Enabled(w, Opened(h)) && Enabled(w, OpenFailed(h))
                            && Enabled(Next(w, Opened(h)), Acquire(c)) && Enabled(Next(w, OpenFailed(h)), Acquire(c)))
  {
    RunSound(steps);
    var w := After(steps);
    var dsn := w.calls[c].dsn;
    if dsn in w.locks {
      var h := w.locks[dsn];
      assert HeldForAPool(w, dsn);
      assert Enabled(w, Opened(h)) && Enabled(w, OpenFailed(h));
      assert h != c;
      assert Enabled(Next(w, Opened(h)), Acquire(c)) && Enabled(Next(w, OpenFailed(h)), Acquire(c));
    }
  }

  // ---- the module dictionaries, updated segment by segment -----------------------------

  class Registry {
    var pools: map<Dsn, nat>
    var locks: map<Dsn, nat>
    var made: seq<Pool>
    var calls: map<nat, Phase>

    function State(): World
      reads this
    {
      World(pools, locks, made, calls)
    }

    constructor ()
      ensures State() == Start
    {
      pools, locks, made, calls := map[], map[], [], map[];
    }

    /** Up to the first await: the cached pool, or the lock, or a place in its queue. */
    method GetPool(c: nat, dsn: Dsn)
      requires Enabled(State(), Call(c, dsn))
      modifies this
      ensures State() == Next(old(State()), Call(c, dsn))
    {
      var cached := Cached(pools, made, dsn);
      if cached.Some? {
        calls := calls[c := Returned(cached.value)];
      } else if dsn in locks {
        calls := calls[c := Waiting(dsn)];
      } else {
        Create(c, dsn);
      }
    }

    method Resume(c: nat)
      requires Enabled(State(), Acquire(c))
      modifies this
      ensures State() == Next(old(State()), Acquire(c))
    {
      Create(c, calls[c].dsn);
    }

    /** Inside the lock, up to `pool.open`. */
    method Create(c: nat, dsn: Dsn)
      requires dsn !in locks
      modifies this
      ensures State() == Locked(old(State()), c, dsn)
    {
      var cached := Cached(pools, made, dsn);
      if cached.Some? {
        calls := calls[c := Returned(cached.value)];
      } else {
        locks := locks[dsn := c];
        made := made + [Pool(dsn, Opening)];
        calls := calls[c := Creating(|made| - 1)];
      }
    }

    /** After `pool.open`: record the pool, or close it and re-raise; either way the lock
        is released on leaving its block. */
    method Settle(c: nat, succeeded: bool)
      requires Enabled(State(), Opened(c))
      modifies this
      ensures State() == Next(old(State()), if succeeded then Opened(c) else OpenFailed(c))
    {
      var p := calls[c].pool;
      var dsn := made[p].dsn;
      if succeeded {
        made := made[p := Pool(dsn, Open)];
        pools := pools[dsn := p];
        calls := calls[c := Returned(p)];
      } else {
        made := made[p := Pool(dsn, Closed)];
        calls := calls[c := Raised];
      }
      locks := locks - {dsn};
    }
  }
}
