/** The circuit breaker of internal/gateway/admission.go: three fields under one mutex. */
module CircuitBreaker {
  import opened Wrappers

  datatype Settings = Settings(threshold: int, openDuration: nat)

  /** openUntil is absent while the breaker is closed. */
  datatype Breaker = Breaker(failures: nat, openUntil: Option<int>, probeActive: bool)

  datatype Verdict = Pass | Probe | Open

  const CLOSED := Breaker(0, None, false)

  function Decide(b: Breaker, k: Settings, now: int): Verdict {
    if k.threshold <= 0 || b.openUntil.None? then Pass
    else if b.openUntil.value > now || b.probeActive then Open
    else Probe
  }

  function Allowed(b: Breaker, k: Settings, now: int): Breaker {
    if Decide(b, k, now).Probe? then b.(probeActive := true) else b
  }

  function Cancelled(b: Breaker, probe: bool): Breaker {
    if probe then b.(probeActive := false) else b
  }

  function Recorded(b: Breaker, k: Settings, failed: bool, now: int): Breaker {
    if k.threshold <= 0 then b
    else if !failed then CLOSED
    else
      var until := if b.failures + 1 >= k.threshold then Some(now + k.openDuration) else b.openUntil;
      Breaker(b.failures + 1, until, false)
  }

  datatype Circuit = Closed | OpenCircuit | HalfOpen

  function Status(b: Breaker, now: int): Circuit {
    if b.openUntil.None? then Closed else if b.openUntil.value > now then OpenCircuit else HalfOpen
  }

  /** The failure count and the deadline tell the same story, and a probe exists only beside a deadline. */
  predicate Consistent(b: Breaker, k: Settings) {
    if k.threshold <= 0 then b == CLOSED
    else (b.failures >= k.threshold <==> b.openUntil.Some?) && (b.probeActive ==> b.openUntil.Some?)
  }

  lemma BreakerStaysConsistent(b: Breaker, k: Settings, now: int, probe: bool, failed: bool)
    requires Consistent(b, k)
    ensures Consistent(Allowed(b, k, now), k)
    ensures Consistent(Cancelled(b, probe), k)
    ensures Consistent(Recorded(b, k, failed, now), k)
  {
  }

  /** A disabled breaker rejects nobody and never changes. */
  lemma DisabledBreakerIsInert(b: Breaker, k: Settings, now: int, failed: bool)
    requires k.threshold <= 0
    ensures Decide(b, k, now).Pass? && Allowed(b, k, now) == b && Recorded(b, k, failed, now) == b
  {
  }

  /** What status reports is what the next caller meets. */
  lemma StatusPredictsAdmission(b: Breaker, k: Settings, now: int)
    requires Consistent(b, k)
    ensures Status(b, now).Closed? <==> Decide(b, k, now).Pass?
    ensures Status(b, now).OpenCircuit? ==> Decide(b, k, now).Open?
    ensures Status(b, now).HalfOpen? ==> (Decide(b, k, now).Open? <==> b.probeActive)
  {
  }

  datatype Recording = Recording(failed: bool, now: int)

  function AfterOutcomes(k: Settings, outcomes: seq<Recording>): Breaker {
    if outcomes == [] then CLOSED
    else
      var last := outcomes[|outcomes|-1];
      Recorded(AfterOutcomes(k, outcomes[..|outcomes|-1]), k, last.failed, last.now)
  }

  /** How many of the last outcomes failed without a success after them. */
  function Streak(outcomes: seq<Recording>): nat {
    if outcomes == [] || !outcomes[|outcomes|-1].failed then 0 else Streak(outcomes[..|outcomes|-1]) + 1
  }

  /** After any outcomes: the breaker is open to nobody exactly while the last threshold ones all failed and the open
      duration since the last of them has not passed; then it lets one caller probe, and one success closes it. */
  lemma {:induction false} OpensAtThreshold(k: Settings, outcomes: seq<Recording>, now: int)
    requires k.threshold > 0
    ensures var b := AfterOutcomes(k, outcomes);
            && b.failures == Streak(outcomes) && !b.probeActive
            && (Streak(outcomes) < k.threshold <==> Decide(b, k, now).Pass?)
            && (Streak(outcomes) >= k.threshold ==>
                  && (Decide(b, k, now).Open? <==> now < outcomes[|outcomes|-1].now + k.openDuration)
                  && (Decide(b, k, now).Probe? <==> now >= outcomes[|outcomes|-1].now + k.openDuration))
            && (Streak(outcomes) < k.threshold ==> b.openUntil.None?)
  {
    if outcomes != [] {
      OpensAtThreshold(k, outcomes[..|outcomes|-1], now);
    }
  }

  /** While the one caller let in to probe is on its way everybody else meets an open breaker, whatever the time; ending
      the probe lets the next one in, and only the end of a probe does. */
  lemma OneProbeAtATime(b: Breaker, k: Settings, now: int, later: int)
    requires Decide(b, k, now).Probe?
    ensures Decide(Allowed(b, k, now), k, later).Open?
    ensures Decide(Cancelled(Allowed(b, k, now), false), k, later).Open?
    ensures now <= later ==> Decide(Cancelled(Allowed(b, k, now), true), k, later).Probe?
  {
  }

  /** The mutex-protected fields. */
  class BreakerState {
    const settings: Settings
    var consecutiveFailures: nat
    var openUntil: Option<int>
    var probeActive: bool

    ghost function Value(): Breaker
      reads this
    {
      Breaker(consecutiveFailures, openUntil, probeActive)
    }

    constructor (settings: Settings)
      ensures this.settings == settings && Value() == CLOSED && Consistent(Value(), settings)
    {
      this.settings := settings;
      consecutiveFailures, openUntil, probeActive := 0, None, false;
    }

    method Allow(now: int) returns (verdict: Verdict)
      modifies this`probeActive
      ensures verdict == Decide(old(Value()), settings, now) && Value() == Allowed(old(Value()), settings, now)
      ensures Consistent(old(Value()), settings) ==> Consistent(Value(), settings)
    {
      if settings.threshold <= 0 {
        return Pass;
      }
      if openUntil.Some? && openUntil.value > now {
        return Open;
      }
      if openUntil.Some? {
        if probeActive {
          return Open;
        }
        probeActive := true;
        return Probe;
      }
      return Pass;
    }

    method CancelProbe(probe: bool)
      modifies this`probeActive
      ensures Value() == Cancelled(old(Value()), probe)
      ensures Consistent(old(Value()), settings) ==> Consistent(Value(), settings)
    {
      if !probe {
        return;
      }
      probeActive := false;
    }

    method RecordOutcome(failed: bool, now: int)
      modifies this
      ensures Value() == Recorded(old(Value()), settings, failed, now)
      ensures Consistent(old(Value()), settings) ==> Consistent(Value(), settings)
    {
      if settings.threshold <= 0 {
        return;
      }
      probeActive := false;
      if !failed {
        consecutiveFailures := 0;
        openUntil := None;
        return;
      }
      consecutiveFailures := consecutiveFailures + 1;
      if consecutiveFailures >= settings.threshold {
        openUntil := Some(now + settings.openDuration);
      }
    }
  }
}
