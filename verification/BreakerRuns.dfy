/** What holds of the breaker over every run of the fleet. */
module BreakerRuns {
  import opened Common
  import opened Breaker

  function Gap(t: Tuning): real {
    Min(t.cooldown, t.ttl)
  }

  predicate Probed(f: Fleet) {
    f.probes != []
  }

  function LastProbe(f: Fleet): real
    requires Probed(f)
  {
    f.probes[|f.probes| - 1]
  }

  /** How the record, the lock and the last probe fit together. */
  predicate Coherent(t: Tuning, f: Fleet) {
    var r := Decode(f.shared);
    && (f.shared.lock.Some? <==> r.circuit == HalfOpen)
    && (f.shared.lock.Some? ==> Probed(f) && f.shared.lock == Some(LastProbe(f) + t.ttl))
    && (r.circuit == Open && Probed(f) ==> LastProbe(f) <= r.openedAt)
    && (r.circuit == Open ==> r.openedAt <= f.clock)
    && (Probed(f) ==> LastProbe(f) <= f.clock)
  }

  /** The counter, and what the three states say about it. */
  predicate Counted(t: Tuning, f: Fleet) {
    var r := Decode(f.shared);
    if r.circuit == Closed then r.failures < t.threshold && r.failures == f.since
    else t.threshold <= r.failures
  }

  /** Probe admissions are at least a gap apart. */
  predicate Spaced(t: Tuning, probes: seq<real>) {
    forall k :: 0 < k < |probes| ==> probes[k - 1] + Gap(t) <= probes[k]
  }

  predicate Sane(t: Tuning, f: Fleet) {
    Coherent(t, f) && Counted(t, f) && Spaced(t, f.probes)
  }

  /** A probe is admitted no sooner than a gap after the previous one. */
  lemma ProbeWaits(t: Tuning, f: Fleet, at: real)
    requires Tuned(t) && Coherent(t, f) && f.clock <= at && AllowVerdict(f.shared, at, t) == Probe
    ensures Probed(f) ==> LastProbe(f) + Gap(t) <= at
  {}

  lemma StepSane(t: Tuning, f: Fleet, s: Step)
    requires Tuned(t) && Sane(t, f) && Enabled(f, s)
    ensures Sane(t, Next(t, f, s))
  {
    if s.Admit? && AllowVerdict(f.shared, s.at, t) == Probe {
      ProbeWaits(t, f, s.at);
    }
  }

  lemma {:induction false} RunSane(t: Tuning, steps: seq<Step>)
    requires Tuned(t) && Possible(t, Start, steps)
    ensures Sane(t, After(t, Start, steps))
    decreases |steps|
  {
    if steps != [] {
      RunSane(t, steps[..|steps| - 1]);
      StepSane(t, After(t, Start, steps[..|steps| - 1]), steps[|steps| - 1]);
    }
  }

  /** Any two probe admissions of any run, by any replicas, whatever stragglers, late
      probes and deaths it contains, are min(cooldown, lock TTL) apart. */
  lemma {:induction false} ProbesAreSpaced(t: Tuning, steps: seq<Step>, j: nat, k: nat)
    requires Tuned(t) && Possible(t, Start, steps) && j < k < |After(t, Start, steps).probes|
    ensures var probes := After(t, Start, steps).probes;
            probes[j] + Gap(t) <= probes[k]
    decreases k - j
  {
    RunSane(t, steps);
    if j + 1 < k {
      ProbesAreSpaced(t, steps, j, k - 1);
    }
  }

  /** What each stored state means, in every reachable state. */
  lemma StatesMean(t: Tuning, steps: seq<Step>)
    requires Tuned(t) && Possible(t, Start, steps)
    ensures var f := After(t, Start, steps);
            var r := Decode(f.shared);
            && (r.circuit == Closed <==> r.failures < t.threshold)
            && (r.circuit == Closed ==> r.failures == f.since)
            && (f.shared.lock.Some? <==> r.circuit == HalfOpen)
            && (r.circuit == Open && f.probes != [] ==> f.probes[|f.probes| - 1] <= r.openedAt)
  {
    RunSane(t, steps);
  }

  /** A straggler's success, arriving while the circuit is open or probing, changes
      nothing; a probe's success closes it with a clean counter and frees the lock. */
  lemma OnlyEvidenceCloses(t: Tuning, f: Fleet, call: nat, attempted: set<string>, degraded: set<string>, at: real)
    requires Enabled(f, Settle(call, Returned(attempted, degraded), at)) && !TotalFailure(attempted, degraded)
    ensures var after := Next(t, f, Settle(call, Returned(attempted, degraded), at));
            if f.calls[call].probe || Decode(f.shared).circuit == Closed
            then after.shared == Shared(Some(Healthy), None) && after.since == 0
            else after.shared == f.shared && after.since == f.since
  {}

  /** From every reachable state, after max(cooldown, TTL) of silence the next call is
      admitted, even if the replica holding the probe died. */
  lemma NoWedge(t: Tuning, steps: seq<Step>, at: real)
    requires Tuned(t) && Possible(t, Start, steps)
    requires After(t, Start, steps).clock + Max(t.cooldown, t.ttl) <= at
    ensures AllowVerdict(After(t, Start, steps).shared, at, t) != Blocked
  {
    RunSane(t, steps);
  }

  // ---- the outage bound -------------------------------------------------------------------

  /** No probe reports success. */
  predicate Down(t: Tuning, from: Fleet, steps: seq<Step>)
    requires Possible(t, from, steps)
    decreases |steps|
  {
    steps == [] ||
    var init, s := steps[..|steps| - 1], steps[|steps| - 1];
    && Down(t, from, init)
    && (s.Settle? && ReportOf(s.outcome) == Succeeded ==> !After(t, from, init).calls[s.call].probe)
  }

  /** The length of `n` gaps laid end to end. */
  function Gaps(n: nat, gap: real): real {
    if n == 0 then 0.0 else Gaps(n - 1, gap) + gap
  }

  lemma {:induction false} GapsMultiply(n: nat, gap: real)
    ensures Gaps(n, gap) == n as real * gap
  {
    if n > 0 {
      GapsMultiply(n - 1, gap);
      assert n as real * gap == (n - 1) as real * gap + gap;
    }
  }

  /** While down, the circuit stays away from closed, and the calls admitted since it
      opened at `from` have each used up a gap. */
  predicate Rationed(t: Tuning, from: Fleet, f: Fleet) {
    var r, opening := Decode(f.shared), Decode(from.shared).openedAt;
    && Sane(t, f) && r.circuit != Closed && from.admitted <= f.admitted
    && (f.admitted == from.admitted ==> r.circuit == Open && opening <= r.openedAt)
    && (from.admitted < f.admitted ==>
          Probed(f) && opening + Gaps(f.admitted - from.admitted, Gap(t)) <= LastProbe(f))
  }

  lemma StepRationed(t: Tuning, from: Fleet, f: Fleet, s: Step)
    requires Tuned(t) && Rationed(t, from, f) && Enabled(f, s)
    requires s.Settle? && ReportOf(s.outcome) == Succeeded ==> !f.calls[s.call].probe
    ensures Rationed(t, from, Next(t, f, s))
  {
    StepSane(t, f, s);
    if s.Admit? && AllowVerdict(f.shared, s.at, t) == Probe {
      ProbeWaits(t, f, s.at);
    }
  }

  lemma {:induction false} RunRationed(t: Tuning, from: Fleet, steps: seq<Step>)
    requires Tuned(t) && Sane(t, from) && Decode(from.shared).circuit == Open
    requires Possible(t, from, steps) && Down(t, from, steps)
    ensures Rationed(t, from, After(t, from, steps))
    decreases |steps|
  {
    if steps != [] {
      RunRationed(t, from, steps[..|steps| - 1]);
      StepRationed(t, from, After(t, from, steps[..|steps| - 1]), steps[|steps| - 1]);
    }
  }

  lemma {:induction false} ClockCovers(t: Tuning, from: Fleet, steps: seq<Step>)
    requires Possible(t, from, steps)
    ensures from.clock <= After(t, from, steps).clock
    decreases |steps|
  {
    if steps != [] {
      ClockCovers(t, from, steps[..|steps| - 1]);
    }
  }

  lemma OutageGaps(t: Tuning, from: Fleet, steps: seq<Step>)
    requires Tuned(t) && Sane(t, from) && Decode(from.shared).circuit == Open
    requires Possible(t, from, steps) && Down(t, from, steps)
    ensures var f := After(t, from, steps);
            && from.admitted <= f.admitted && Decode(f.shared).circuit != Closed
            && Decode(from.shared).openedAt + Gaps(f.admitted - from.admitted, Gap(t)) <= f.clock
  {
    RunRationed(t, from, steps);
    ClockCovers(t, from, steps);
  }

  /** `n` whole gaps fit into a span of time. */
  predicate Fit(n: nat, gap: real, span: real) {
    n as real * gap <= span
  }

  lemma GapsBound(opening: real, n: nat, gap: real, clock: real)
    requires opening + Gaps(n, gap) <= clock
    ensures Fit(n, gap, clock - opening)
  {
    GapsMultiply(n, gap);
  }

  /** The outage bound: from any reachable state in which the circuit opened at t0, as
      long as no probe succeeds, the calls admitted by time t number at most
      (t - t0) / min(cooldown, TTL). */
  lemma OutageBound(t: Tuning, before: seq<Step>, from: Fleet, steps: seq<Step>, f: Fleet)
    requires Tuned(t) && Possible(t, Start, before) && from == After(t, Start, before)
    requires Decode(from.shared).circuit == Open
    requires Possible(t, from, steps) && Down(t, from, steps) && f == After(t, from, steps)
    ensures from.admitted <= f.admitted && Decode(f.shared).circuit != Closed
    ensures Fit(f.admitted - from.admitted, Gap(t), f.clock - Decode(from.shared).openedAt)
  {
    RunSane(t, before);
    OutageGaps(t, from, steps);
    GapsBound(Decode(from.shared).openedAt, f.admitted - from.admitted, Gap(t), f.clock);
  }

  // ---- single flight -----------------------------------------------------------------------

  /** Every call in flight when a step happens is younger than the timeout. */
  predicate Punctual(t: Tuning, from: Fleet, steps: seq<Step>, timeout: real)
    requires Possible(t, from, steps)
    decreases |steps|
  {
    steps == [] ||
    var init, s := steps[..|steps| - 1], steps[|steps| - 1];
    && Punctual(t, from, init, timeout)
    && forall c :: c in After(t, from, init).calls ==> s.at <= After(t, from, init).calls[c].start + timeout
  }

  predicate SingleFlight(f: Fleet) {
    && (forall c :: c in f.calls && f.calls[c].probe ==> Probed(f) && f.calls[c].start <= LastProbe(f))
    && (forall c, d :: c in f.calls && d in f.calls && f.calls[c].probe && f.calls[d].probe ==> c == d)
  }

  lemma StepSingleFlight(t: Tuning, f: Fleet, s: Step, timeout: real)
    requires Tuned(t) && Sane(t, f) && SingleFlight(f) && Enabled(f, s) && timeout < Gap(t)
    requires forall c :: c in f.calls ==> s.at <= f.calls[c].start + timeout
    ensures SingleFlight(Next(t, f, s))
  {
    if s.Admit? && AllowVerdict(f.shared, s.at, t) == Probe {
      ProbeWaits(t, f, s.at);
      forall c | c in f.calls ensures !f.calls[c].probe {
        assert s.at <= f.calls[c].start + timeout;
      }
    }
  }

  /** If every admitted call settles, or is lost, within a timeout below both the
      cooldown and the lock's TTL, at most one probe is ever in flight. */
  lemma {:induction false} AtMostOneProbe(t: Tuning, steps: seq<Step>, timeout: real)
    requires Tuned(t) && Possible(t, Start, steps) && timeout < Gap(t)
    requires Punctual(t, Start, steps, timeout)
    ensures SingleFlight(After(t, Start, steps))
    decreases |steps|
  {
    if steps != [] {
      var init := steps[..|steps| - 1];
      AtMostOneProbe(t, init, timeout);
      RunSane(t, init);
      StepSingleFlight(t, After(t, Start, init), steps[|steps| - 1], timeout);
    }
  }
}
