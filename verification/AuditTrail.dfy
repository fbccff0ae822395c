/** The audit writer and its same-transaction guard (`store/audit.py`). */
module AuditTrail {
  import opened Common
  import opened Memories
  import opened Reflection

  datatype Action = Write | Read | Delete | Update | Export

  /** What the guard compares: the action and the memory it is about. */
  datatype Key = Key(action: Action, memory: Option<Id>)

  /** One call of `write_audit`; `again` is its `allow_repeat` argument. */
  datatype Emission = Emission(key: Key, again: bool)

  datatype Guard = Guard(txid: nat, seen: set<Key>)

  /** The keys already logged in a transaction; another transaction's are forgotten. */
  function Seen(guard: Option<Guard>, txid: nat): set<Key> {
    if guard.Some? && guard.value.txid == txid then guard.value.seen else {}
  }

  /** The emissions of one transaction that reach the log, in order. */
  function Written(seen: set<Key>, calls: seq<Emission>): seq<Emission>
    decreases |calls|
  {
    if calls == [] then []
    else
      var rest := Written(seen + {calls[0].key}, calls[1..]);
      if calls[0].again || calls[0].key !in seen then [calls[0]] + rest else rest
  }

  predicate Mentions(calls: seq<Emission>, k: Key) {
    exists j :: 0 <= j < |calls| && calls[j].key == k
  }

  function Repeats(calls: seq<Emission>, k: Key): nat {
    if calls == [] then 0 else One(calls[0].key == k && calls[0].again) + Repeats(calls[1..], k)
  }

  function Rows(calls: seq<Emission>, k: Key): nat {
    if calls == [] then 0 else One(calls[0].key == k) + Rows(calls[1..], k)
  }

  /** Exactly one row per action: however a transaction's calls are ordered, each
      declared repeat gets its row, and all undeclared calls for one key together
      get one row if one of them comes first and none otherwise. */
  lemma {:induction false} OneRowPerAction(seen: set<Key>, calls: seq<Emission>, k: Key)
    ensures Rows(Written(seen, calls), k) ==
              Repeats(calls, k) + One(k !in seen && Mentions(calls, k) && !calls[FirstOf(calls, k)].again)
    decreases |calls|
  {
    if calls != [] {
      var first, rest := calls[0], calls[1..];
      OneRowPerAction(seen + {first.key}, rest, k);
      var tail := Written(seen + {first.key}, rest);
      assert ([first] + tail)[1..] == tail;
      if first.key != k {
        MentionsRest(calls, k);
      }
    }
  }

  lemma MentionsRest(calls: seq<Emission>, k: Key)
    requires calls != [] && calls[0].key != k
    ensures Mentions(calls, k) <==> Mentions(calls[1..], k)
  {
    if Mentions(calls, k) {
      var j :| 0 <= j < |calls| && calls[j].key == k;
      assert calls[1..][j - 1] == calls[j];
    }
  }

  /** Where a key first occurs. */
  function FirstOf(calls: seq<Emission>, k: Key): (f: nat)
    requires Mentions(calls, k)
    ensures f < |calls| && calls[f].key == k
    ensures forall j :: 0 <= j < f ==> calls[j].key != k
    decreases |calls|
  {
    if calls[0].key == k then 0
    else
      MentionsRest(calls, k);
      1 + FirstOf(calls[1..], k)
  }

  /** No call is lost when every undeclared one is the first for its key. */
  predicate Distinctly(seen: set<Key>, calls: seq<Emission>) {
    forall j :: 0 <= j < |calls| ==>
      calls[j].again || (calls[j].key !in seen && forall i :: 0 <= i < j ==> calls[i].key != calls[j].key)
  }

  lemma {:induction false} NothingSuppressed(seen: set<Key>, calls: seq<Emission>)
    requires Distinctly(seen, calls)
    ensures Written(seen, calls) == calls
    decreases |calls|
  {
    if calls != [] {
      var rest := calls[1..];
      forall j | 0 <= j < |rest|
        ensures rest[j].again || (rest[j].key !in seen + {calls[0].key}
                                  && forall i :: 0 <= i < j ==> rest[i].key != rest[j].key)
      {
        assert rest[j] == calls[j + 1];
        if !rest[j].again {
          forall i | 0 <= i < j ensures rest[i].key != rest[j].key {
            assert rest[i] == calls[i + 1];
          }
        }
      }
      NothingSuppressed(seen + {calls[0].key}, rest);
    }
  }

  /** The calls of the write-up transaction, none of which declares a repeat. */
  function WriteUpCalls(summary: Id, claimed: seq<Id>): seq<Emission> {
    [Emission(Key(Write, Some(summary)), false)]
    + seq(|claimed|, k requires 0 <= k < |claimed| => Emission(Key(Update, Some(claimed[k])), false))
  }

  /** The write-up's summary row and source rows are all logged: the ids a statement
      returns are distinct, so the guard drops none of them. */
  lemma WriteUpFullyLogged(rows: seq<Row>, who: Session, read: map<Id, nat>)
    ensures Written({}, WriteUpCalls(|rows|, Claimed(rows, who, read))) ==
              WriteUpCalls(|rows|, Claimed(rows, who, read))
  {
    var claimed := Claimed(rows, who, read);
    var calls := WriteUpCalls(|rows|, claimed);
    forall j | 0 <= j < |calls| && !calls[j].again
      ensures forall i :: 0 <= i < j ==> calls[i].key != calls[j].key
    {
      forall i | 0 < i < j ensures calls[i].key != calls[j].key {
        assert claimed[i - 1] < claimed[j - 1];
      }
    }
    NothingSuppressed({}, calls);
  }

  lemma {:induction false} WrittenSnoc(seen: set<Key>, calls: seq<Emission>, e: Emission)
    ensures Written(seen, calls + [e]) ==
              Written(seen, calls) + (if e.again || (e.key !in seen && !Mentions(calls, e.key)) then [e] else [])
    decreases |calls|
  {
    if calls == [] {
      assert calls + [e] == [e] && [e][1..] == [];
    } else {
      assert (calls + [e])[1..] == calls[1..] + [e];
      WrittenSnoc(seen + {calls[0].key}, calls[1..], e);
      if calls[0].key != e.key {
        MentionsRest(calls, e.key);
      }
    }
  }

  /** A connection carries the guard of the transaction that last wrote on it. */
  class Connection {
    var guard: Option<Guard>
    var log: seq<Key>

    constructor ()
      ensures guard == None && log == []
    {
      guard := None;
      log := [];
    }

    /** The id of the row written, or None when the guard dropped it; a row's id is its
        place in the log. `txid` is None when the transaction id could not be read: the
        guard is then off and leaves no trace. */
    method WriteAudit(txid: Option<nat>, key: Key, again: bool) returns (written: Option<nat>)
      modifies this
      ensures written.Some? <==> txid.None? || again || key !in Seen(old(guard), txid.value)
      ensures written.Some? ==> written.value == |old(log)|
      ensures log == old(log) + (if written.Some? then [key] else [])
      ensures txid.None? ==> guard == old(guard)
      ensures txid.Some? ==> guard == Some(Guard(txid.value, Seen(old(guard), txid.value) + {key}))
    {
      if txid.Some? {
        var seen := Seen(guard, txid.value);
        if key in seen && !again {
          assert seen + {key} == seen;
          return None;
        }
        guard := Some(Guard(txid.value, seen + {key}));
      }
      written := Some(|log|);
      log := log + [key];
    }

    /** One call per memory; the ids of the rows actually written come back in order: with
        the guard off one for each memory. */
    method WriteAuditMany(txid: Option<nat>, action: Action, memories: seq<Id>) returns (written: seq<nat>)
      modifies this
      ensures var rows := Reaching(old(guard), txid, CallsFor(action, memories));
              log == old(log) + KeysOf(rows) && written == RowIds(|old(log)|, |rows|)
    {
      written := [];
      ghost var calls, start := CallsFor(action, memories), guard;
      ghost var rows: seq<Emission> := [];
      assert calls[..0] == [];
      for n := 0 to |memories|
        invariant rows == Reaching(start, txid, calls[..n]) && Tracks(start, guard, txid, calls[..n])
        invariant log == old(log) + KeysOf(rows) && written == RowIds(|old(log)|, |rows|)
      {
        ghost var call := calls[n];
        assert calls[..n + 1] == calls[..n] + [call];
        GuardStep(start, guard, txid, calls[..n], call);
        OneMoreRow(rows, call, |old(log)|);
        var row := WriteAudit(txid, Key(action, Some(memories[n])), false);
        if row.Some? {
          written := written + [row.value];
          rows := rows + [call];
        }
      }
      assert calls[..|memories|] == calls;
    }
  }

  function KeysOf(rows: seq<Emission>): seq<Key> {
    seq(|rows|, k requires 0 <= k < |rows| => rows[k].key)
  }

  function RowIds(first: nat, n: nat): seq<nat> {
    seq(n, k requires 0 <= k < n => first + k)
  }

  lemma OneMoreRow(rows: seq<Emission>, e: Emission, first: nat)
    ensures KeysOf(rows + [e]) == KeysOf(rows) + [e.key]
    ensures RowIds(first, |rows| + 1) == RowIds(first, |rows|) + [first + |rows|]
  {}

  /** The calls a transaction gets into the log: all of them when its id cannot be read. */
  function Reaching(guard: Option<Guard>, txid: Option<nat>, calls: seq<Emission>): seq<Emission> {
    if txid.Some? then Written(Seen(guard, txid.value), calls) else calls
  }

  /** The guard now holds the transaction's keys: those of before and those called since. */
  ghost predicate Tracks(before: Option<Guard>, now: Option<Guard>, txid: Option<nat>, calls: seq<Emission>) {
    txid.Some? ==>
      forall key :: key in Seen(now, txid.value) <==> key in Seen(before, txid.value) || Mentions(calls, key)
  }

  lemma GuardStep(before: Option<Guard>, now: Option<Guard>, txid: Option<nat>, calls: seq<Emission>, e: Emission)
    requires Tracks(before, now, txid, calls)
    ensures var through := txid.None? || e.again || e.key !in Seen(now, txid.value);
            Reaching(before, txid, calls + [e]) == Reaching(before, txid, calls) + if through then [e] else []
    ensures txid.Some? ==>
              Tracks(before, Some(Guard(txid.value, Seen(now, txid.value) + {e.key})), txid, calls + [e])
  {
    if txid.Some? {
      WrittenSnoc(Seen(before, txid.value), calls, e);
      MentionsSnoc(calls, e);
    }
  }

  /** One undeclared call per id. */
  function CallsFor(action: Action, ids: seq<Id>): seq<Emission> {
    seq(|ids|, k requires 0 <= k < |ids| => Emission(Key(action, Some(ids[k])), false))
  }

  lemma MentionsSnoc(calls: seq<Emission>, e: Emission)
    ensures forall k :: Mentions(calls + [e], k) <==> Mentions(calls, k) || k == e.key
  {
    forall k | Mentions(calls, k) || k == e.key ensures Mentions(calls + [e], k) {
      if Mentions(calls, k) {
        var j :| 0 <= j < |calls| && calls[j].key == k;
        assert (calls + [e])[j].key == k;
      } else {
        assert (calls + [e])[|calls|].key == k;
      }
    }
  }
}
