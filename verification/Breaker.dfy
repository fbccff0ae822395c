/** The circuit breaker as a protocol (`retrieve/breaker.py`, `retrieve/guarded.py`).
    Every replica runs the same three scripts against one shared record and one
    expiring lock; a script is one atomic step at the time it executes. Calls may
    settle arbitrarily late, on any replica, or never; calls admitted while the
    shared record cannot be reached are admitted blind. Times are reals on one
    monotone clock, and the shared record's failure threshold does not change. */
module Breaker {
  import opened Common

  datatype Circuit = Closed | Open | HalfOpen

  datatype Record = Record(circuit: Circuit, failures: nat, openedAt: real)

  /** The record, if present and readable, and the expiry of the probe lock, if set. */
  datatype Shared = Shared(record: Option<Record>, lock: Option<real>)

  datatype Tuning = Tuning(threshold: nat, cooldown: real, ttl: real)

  datatype Verdict = Blocked | Allowed | Probe

  const Healthy := Record(Closed, 0, 0.0)

  predicate Tuned(t: Tuning) {
    1 <= t.threshold && 0.0 < t.cooldown && 0.0 < t.ttl
  }

  function Decode(sh: Shared): Record {
    if sh.record.Some? then sh.record.value else Healthy
  }

  predicate LockFree(sh: Shared, now: real) {
    sh.lock.None? || sh.lock.value <= now
  }

  // ---- the three scripts --------------------------------------------------------

  function AllowVerdict(sh: Shared, now: real, t: Tuning): Verdict {
    var r := Decode(sh);
    if r.circuit == Closed then Allowed
    else if r.circuit == Open && now - r.openedAt < t.cooldown then Blocked
    else if LockFree(sh, now) then Probe
    else Blocked
  }

  function AllowState(sh: Shared, now: real, t: Tuning): Shared {
    var r := Decode(sh);
    var moved := if r.circuit == Open && now - r.openedAt >= t.cooldown
                 then Some(r.(circuit := HalfOpen)) else sh.record;
    Shared(moved, if AllowVerdict(sh, now, t) == Probe then Some(now + t.ttl) else sh.lock)
  }

  function FailureState(sh: Shared, now: real, t: Tuning, wasProbe: bool): Shared {
    var r := Decode(sh);
    var failures := r.failures + 1;
    if r.circuit == HalfOpen || wasProbe then
      Shared(Some(Record(Open, if failures < t.threshold then t.threshold else failures, now)), None)
    else if failures >= t.threshold then
      Shared(Some(Record(Open, failures, now)), None)
    else
      Shared(Some(Record(r.circuit, failures, r.openedAt)), None)
  }

  predicate SuccessApplies(sh: Shared, wasProbe: bool) {
    wasProbe || Decode(sh).circuit == Closed
  }

  function SuccessState(sh: Shared, wasProbe: bool): Shared {
    if SuccessApplies(sh, wasProbe) then Shared(Some(Healthy), None) else sh
  }

  // ---- what a guarded call reports ---------------------------------------------------

  datatype Outcome = TimedOut | Raised | Cancelled | Returned(attempted: set<string>, degraded: set<string>)

  /** Every path that was attempted degraded. */
  predicate TotalFailure(attempted: set<string>, degraded: set<string>) {
    attempted != {} && degraded != {} && attempted <= degraded
  }

  datatype Report = Succeeded | Failed | Silent

  /** Cancellation is the caller going away and says nothing about the dependency. */
  function ReportOf(o: Outcome): Report {
    match o
    case TimedOut => Failed
    case Raised => Failed
    case Cancelled => Silent
    case Returned(attempted, degraded) => if TotalFailure(attempted, degraded) then Failed else Succeeded
  }

  function Recorded(sh: Shared, now: real, t: Tuning, report: Report, wasProbe: bool): Shared {
    match report
    case Succeeded => SuccessState(sh, wasProbe)
    case Failed => FailureState(sh, now, t, wasProbe)
    case Silent => sh
  }

  // ---- the protocol ---------------------------------------------------------------------

  datatype Call = Call(probe: bool, start: real)

  /** The shared state, the calls in flight on all replicas, the clock, and history:
      the probe admissions so far, the non-blind admissions so far, and the failures
      recorded since the last success that was applied. */
  datatype Fleet = Fleet(shared: Shared, calls: map<nat, Call>, clock: real,
                         probes: seq<real>, admitted: nat, since: nat)

  datatype Step =
    | Admit(call: nat, at: real)
    | AdmitBlind(call: nat, at: real)
    | Settle(call: nat, outcome: Outcome, at: real)
    | Lose(call: nat, at: real)

  const Start := Fleet(Shared(None, None), map[], 0.0, [], 0, 0)

  /** Time never runs backwards; a call is admitted once and settles at most once. A
      call is lost when its replica dies or its report does not reach the record. */
  predicate Enabled(f: Fleet, s: Step) {
    && f.clock <= s.at
    && (s.Admit? || s.AdmitBlind? ==> s.call !in f.calls)
    && (s.Settle? || s.Lose? ==> s.call in f.calls)
  }

  function Next(t: Tuning, f: Fleet, s: Step): Fleet
    requires Enabled(f, s)
  {
    match s
    case Admit(call, at) =>
      var v := AllowVerdict(f.shared, at, t);
      var shared := AllowState(f.shared, at, t);
      if v == Blocked then f.(shared := shared, clock := at)
      else f.(shared := shared, clock := at, calls := f.calls[call := Call(v == Probe, at)],
              probes := if v == Probe then f.probes + [at] else f.probes, admitted := f.admitted + 1)
    case AdmitBlind(call, at) => f.(clock := at, calls := f.calls[call := Call(false, at)])
    case Settle(call, outcome, at) =>
      var report, probe := ReportOf(outcome), f.calls[call].probe;
      f.(shared := Recorded(f.shared, at, t, report, probe), clock := at, calls := f.calls - {call},
         since := if report == Failed then f.since + 1
                  else if report == Succeeded && SuccessApplies(f.shared, probe) then 0 else f.since)
    case Lose(call, at) => f.(clock := at, calls := f.calls - {call})
  }

  predicate Possible(t: Tuning, from: Fleet, steps: seq<Step>)
    decreases |steps|, 0
  {
    steps == [] ||
    var init := steps[..|steps| - 1];
    Possible(t, from, init) && Enabled(After(t, from, init), steps[|steps| - 1])
  }

  function After(t: Tuning, from: Fleet, steps: seq<Step>): Fleet
    requires Possible(t, from, steps)
    decreases |steps|, 1
  {
    if steps == [] then from
    else Next(t, After(t, from, steps[..|steps| - 1]), steps[|steps| - 1])
  }

  // ---- the record as an object the scripts update ------------------------------------------

  class Redis {
    var record: Option<Record>
    var lock: Option<real>

    function State(): Shared
      reads this
    {
      Shared(record, lock)
    }

    constructor ()
      ensures State() == Start.shared
    {
      record, lock := None, None;
    }

    method Persist(circuit: Circuit, failures: nat, openedAt: real)
      modifies this`record
      ensures record == Some(Record(circuit, failures, openedAt))
    {
      record := Some(Record(circuit, failures, openedAt));
    }

    /** SET key value NX PX ttl. */
    method TryLock(now: real, ttl: real) returns (taken: bool)
      modifies this`lock
      ensures taken <==> LockFree(old(State()), now)
      ensures lock == if taken then Some(now + ttl) else old(lock)
    {
      taken := lock.None? || lock.value <= now;
      if taken {
        lock := Some(now + ttl);
      }
    }

    method Allow(now: real, t: Tuning) returns (verdict: Verdict, seen: Circuit)
      modifies this
      ensures verdict == AllowVerdict(old(State()), now, t)
      ensures State() == AllowState(old(State()), now, t)
      ensures seen == Decode(State()).circuit
    {
      var r := Decode(State());
      var state, failures, openedAt := r.circuit, r.failures, r.openedAt;
      if state == Open {
        if now - openedAt >= t.cooldown {
          state := HalfOpen;
          Persist(state, failures, openedAt);
        } else {
          return Blocked, state;
        }
      }
      if state == HalfOpen {
        var taken := TryLock(now, t.ttl);
        return if taken then Probe else Blocked, state;
      }
      return Allowed, state;
    }

    method RecordFailure(now: real, t: Tuning, wasProbe: bool)
      modifies this
      ensures State() == FailureState(old(State()), now, t, wasProbe)
    {
      var r := Decode(State());
      var state, failures, openedAt := r.circuit, r.failures + 1, r.openedAt;
      if state == HalfOpen || wasProbe {
        state := Open;
        openedAt := now;
        if failures < t.threshold {
          failures := t.threshold;
        }
      } else if failures >= t.threshold {
        state := Open;
        openedAt := now;
      }
      Persist(state, failures, openedAt);
      lock := None;
    }

    method RecordSuccess(wasProbe: bool) returns (applied: bool)
      modifies this
      ensures applied <==> SuccessApplies(old(State()), wasProbe)
      ensures State() == SuccessState(old(State()), wasProbe)
    {
      var state := Decode(State()).circuit;
      applied := wasProbe || state == Closed;
      if applied {
        Persist(Closed, 0, 0.0);
        lock := None;
      }
    }
  }

  datatype Reason = OpenCircuit | TimeoutReached | SearchRaised | AllPathsDegraded

  datatype Answer = Candidates | Unavailable(reason: Reason, circuit: Circuit) | Aborted

  /** Why a tried search that failed is reported unavailable. */
  function Why(o: Outcome): Reason
    requires ReportOf(o) == Failed
  {
    match o
    case TimedOut => TimeoutReached
    case Raised => SearchRaised
    case Returned(_, _) => AllPathsDegraded
  }

  /** One guarded retrieval that no other call overlaps, admitted at `start` and settled at
      `end`. With the record out of reach at admission it is admitted blind, with it out of
      reach afterwards its outcome goes unrecorded; either can happen without the other. */
  method GuardedSearch(redis: Redis, admits: bool, records: bool, outcome: Outcome, start: real, end: real, t: Tuning)
    returns (answer: Answer)
    modifies redis
    ensures var before := old(redis.State());
            var v := if admits then AllowVerdict(before, start, t) else Allowed;
            var admitted := if admits then AllowState(before, start, t) else before;
            && (v == Blocked <==> answer.Unavailable? && answer.reason == OpenCircuit)
            && (v == Blocked ==> answer.circuit == Decode(admitted).circuit)
            && redis.State() == (if v == Blocked || !records then admitted
                                 else Recorded(admitted, end, t, ReportOf(outcome), v == Probe))
            && (v != Blocked ==>
                  && (answer.Candidates? <==> ReportOf(outcome) == Succeeded)
                  && (answer.Aborted? <==> ReportOf(outcome) == Silent)
                  && (answer.Unavailable? <==> ReportOf(outcome) == Failed)
                  && (answer.Unavailable? ==>
                        && answer.reason == Why(outcome)
                        && answer.circuit == if records then Decode(redis.State()).circuit else Closed))
  {
    var verdict, circuit := Allowed, Closed;
    if admits {
      verdict, circuit := redis.Allow(start, t);
    }
    if verdict == Blocked {
      return Unavailable(OpenCircuit, circuit);
    }
    var reason;
    match outcome {
      case Cancelled => return Aborted;
      case TimedOut => reason := TimeoutReached;
      case Raised => reason := SearchRaised;
      case Returned(attempted, degraded) =>
        if !TotalFailure(attempted, degraded) {
          if records {
            var _ := redis.RecordSuccess(verdict == Probe);
          }
          return Candidates;
        }
        reason := AllPathsDegraded;
    }
    circuit := Closed;
    if records {
      redis.RecordFailure(end, t, verdict == Probe);
      circuit := Decode(redis.State()).circuit;
    }
    answer := Unavailable(reason, circuit);
  }
}
