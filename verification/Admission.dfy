/** The admission controller of internal/gateway/admission.go as interleaved steps: each event is one atomic
    operation of one caller on the slot channel, the waiter channel, the body semaphore or the breaker. */
module Admission {
  import opened Wrappers
  import opened Int64
  import opened CircuitBreaker

  datatype Limits = Limits(maxInFlight: nat, maxQueue: nat, bodyLimit: nat, queueTimeout: nat, breaker: Settings)

  /** Where a caller is, between two of its atomic operations. */
  datatype Pc =
    | TrySlot      // let in by the breaker
    | TryQueue     // no slot free; about to ask for a waiter token
    | AwaitSlot    // holds a waiter token
    | TryBody      // holds a slot
    | AwaitBody    // holds a slot, waits for body budget
    | BodyTaken    // holds slot and budget, not yet counted
    | Admitted     // counted; acquire is about to return the lease
    | Leased       // acquire has returned
    | BodyFreed    // Release: budget returned
    | BodyUncounted
    | SlotFreed    // Release: only the probe is left to end
    | ReturnSlot   // giving up with a slot in hand
    | GiveUp       // giving up; the probe is left to end
    | Failed       // probe ended; acquire is about to return its error
    | Finished

  /** token: a waiter token is still held; acquire gives it back only when it returns. */
  datatype Caller = Caller(pc: Pc, probe: bool, weight: nat, token: bool)

  datatype LogItem = Granted(caller: nat) | ProbeEnded | OutcomeRecorded

  datatype State = State(slots: int, waiters: int, bodyUsed: int, bodyInFlight: int, breaker: Breaker,
                         callers: seq<Caller>, log: seq<LogItem>)

  /** ctx and timer expiry, the semaphore's own queue and the order of callers are the environment's choice. */
  datatype Event =
    | Arrive(now: int, bytes: int)
    | Advance(caller: nat, contended: bool) // the caller's next operation; contended: others wait for body budget
    | Expire(caller: nat)                   // its wait is cancelled or times out
    | Release(caller: nat)                  // Release is called on its lease
    | Outcome(failed: bool, now: int)

  const INITIAL := State(0, 0, 0, 0, CLOSED, [], [])

  /** At least one byte, at most the whole budget. */
  function Weight(bytes: int, limit: nat): nat {
    var w := if bytes < 1 then 1 else bytes;
    if w > limit then limit else w
  }

  function At(s: State, i: nat, c: Caller): State
    requires i < |s.callers|
  {
    s.(callers := s.callers[i := c])
  }

  function EndProbe(s: State, probe: bool): State {
    if probe then s.(breaker := Cancelled(s.breaker, true), log := s.log + [ProbeEnded]) else s
  }

  function Step(s: State, l: Limits, e: Event): State {
    match e
    case Arrive(now, bytes) =>
      var verdict := Decide(s.breaker, l.breaker, now);
      var c := Caller(if verdict.Open? then Finished else TrySlot, verdict.Probe?, Weight(bytes, l.bodyLimit), false);
      s.(breaker := Allowed(s.breaker, l.breaker, now), callers := s.callers + [c],
         log := if verdict.Probe? then s.log + [Granted(|s.callers|)] else s.log)
    case Advance(i, contended) => if i < |s.callers| then AdvanceCaller(s, l, i, contended) else s
    case Expire(i) =>
      if i >= |s.callers| then s
      else if s.callers[i].pc.AwaitSlot? then At(s, i, s.callers[i].(pc := GiveUp))
      else if s.callers[i].pc.AwaitBody? then At(s, i, s.callers[i].(pc := ReturnSlot))
      else s
    case Release(i) =>
      // the once guard: only the first call finds the lease unreleased
      if i < |s.callers| && s.callers[i].pc.Leased?
      then At(s, i, s.callers[i].(pc := BodyFreed)).(bodyUsed := s.bodyUsed - s.callers[i].weight)
      else s
    case Outcome(failed, now) =>
      s.(breaker := Recorded(s.breaker, l.breaker, failed, now),
         log := if l.breaker.threshold > 0 then s.log + [OutcomeRecorded] else s.log)
  }

  function AdvanceCaller(s: State, l: Limits, i: nat, contended: bool): State
    requires i < |s.callers|
  {
    var c := s.callers[i];
    match c.pc
    case TrySlot =>
      if s.slots < l.maxInFlight then At(s, i, c.(pc := TryBody)).(slots := s.slots + 1)
      else At(s, i, c.(pc := if l.queueTimeout > 0 && l.maxQueue > 0 then TryQueue else GiveUp))
    case TryQueue =>
      if s.waiters < l.maxQueue then At(s, i, c.(pc := AwaitSlot, token := true)).(waiters := s.waiters + 1)
      else At(s, i, c.(pc := GiveUp))
    case AwaitSlot =>
      if s.slots < l.maxInFlight then At(s, i, c.(pc := TryBody)).(slots := s.slots + 1) else s
    case TryBody =>
      if s.bodyUsed + c.weight <= l.bodyLimit && !contended
      then At(s, i, c.(pc := BodyTaken)).(bodyUsed := s.bodyUsed + c.weight)
      else At(s, i, c.(pc := if l.queueTimeout == 0 then ReturnSlot else AwaitBody))
    case AwaitBody =>
      if s.bodyUsed + c.weight <= l.bodyLimit
      then At(s, i, c.(pc := BodyTaken)).(bodyUsed := s.bodyUsed + c.weight)
      else s
    case BodyTaken => At(s, i, c.(pc := Admitted)).(bodyInFlight := s.bodyInFlight + c.weight)
    case Admitted => At(s, i, c.(pc := Leased, token := false)).(waiters := s.waiters - (if c.token then 1 else 0))
    case Leased => s
    case BodyFreed => At(s, i, c.(pc := BodyUncounted)).(bodyInFlight := s.bodyInFlight - c.weight)
    case BodyUncounted => At(s, i, c.(pc := SlotFreed)).(slots := s.slots - 1)
    case SlotFreed => EndProbe(At(s, i, c.(pc := Finished)), c.probe)
    case ReturnSlot => At(s, i, c.(pc := GiveUp)).(slots := s.slots - 1)
    case GiveUp => EndProbe(At(s, i, c.(pc := Failed)), c.probe)
    case Failed => At(s, i, c.(pc := Finished, token := false)).(waiters := s.waiters - (if c.token then 1 else 0))
    case Finished => s
  }

  function Run(s: State, l: Limits, events: seq<Event>): State
    decreases |events|
  {
    if events == [] then s else Run(Step(s, l, events[0]), l, events[1..])
  }

  // ---------- Conservation ----------

  datatype Part = Slot | Token | Budget | Counted

  /** What one caller holds of each resource. */
  function Held(c: Caller, part: Part): int {
    match part
    case Slot =>
      if c.pc.TryBody? || c.pc.AwaitBody? || c.pc.BodyTaken? || c.pc.Admitted? || c.pc.Leased? || c.pc.BodyFreed?
         || c.pc.BodyUncounted? || c.pc.ReturnSlot? then 1 else 0
    case Token => if c.token then 1 else 0
    case Budget => if c.pc.BodyTaken? || c.pc.Admitted? || c.pc.Leased? then c.weight else 0
    case Counted => if c.pc.Admitted? || c.pc.Leased? || c.pc.BodyFreed? then c.weight else 0
  }

  function Holding(callers: seq<Caller>, part: Part): seq<int> {
    seq(|callers|, i requires 0 <= i < |callers| => Held(callers[i], part))
  }

  function TotalHeld(callers: seq<Caller>, part: Part): int {
    Sum(Holding(callers, part))
  }

  lemma HeldByNewcomer(callers: seq<Caller>, c: Caller, part: Part)
    ensures TotalHeld(callers + [c], part) == TotalHeld(callers, part) + Held(c, part)
  {
    assert Holding(callers + [c], part) == Holding(callers, part) + [Held(c, part)];
    SumPush(Holding(callers, part), Held(c, part));
  }

  lemma HeldAfterUpdate(callers: seq<Caller>, i: nat, c: Caller, part: Part)
    requires i < |callers|
    ensures TotalHeld(callers[i := c], part) == TotalHeld(callers, part) - Held(callers[i], part) + Held(c, part)
  {
    var before, after := Holding(callers, part), Holding(callers[i := c], part);
    assert before == before[..i] + [before[i]] + before[i+1..];
    assert after == before[..i] + [Held(c, part)] + before[i+1..];
    SumConcat(before[..i] + [before[i]], before[i+1..]);
    SumConcat(before[..i] + [Held(c, part)], before[i+1..]);
    SumPush(before[..i], before[i]);
    SumPush(before[..i], Held(c, part));
  }

  /** Only a caller that has asked for one holds a waiter token, and one that waits for a slot does. */
  predicate TokenPlausible(c: Caller) {
    && (c.pc.AwaitSlot? ==> c.token)
    && (c.token ==> !c.pc.TrySlot? && !c.pc.TryQueue? && !c.pc.Leased? && !c.pc.BodyFreed? && !c.pc.BodyUncounted?
                    && !c.pc.SlotFreed? && !c.pc.Finished?)
  }

  /** Each counter is what the callers hold, and within its bound. */
  ghost predicate Conserved(s: State, l: Limits) {
    && s.slots == TotalHeld(s.callers, Slot) && s.slots <= l.maxInFlight
    && s.waiters == TotalHeld(s.callers, Token) && s.waiters <= l.maxQueue
    && s.bodyUsed == TotalHeld(s.callers, Budget) && s.bodyUsed <= l.bodyLimit
    && s.bodyInFlight == TotalHeld(s.callers, Counted)
    && forall c | c in s.callers :: TokenPlausible(c)
  }

  /** Caller i moves, the others stay, and the counters change by what it took or gave back. */
  ghost predicate Moved(s: State, l: Limits, i: nat, t: State)
    requires i < |s.callers|
  {
    && |t.callers| == |s.callers| && t.callers == s.callers[i := t.callers[i]] && TokenPlausible(t.callers[i])
    && t.slots == s.slots - Held(s.callers[i], Slot) + Held(t.callers[i], Slot) <= l.maxInFlight
    && t.waiters == s.waiters - Held(s.callers[i], Token) + Held(t.callers[i], Token) <= l.maxQueue
    && t.bodyUsed == s.bodyUsed - Held(s.callers[i], Budget) + Held(t.callers[i], Budget) <= l.bodyLimit
    && t.bodyInFlight == s.bodyInFlight - Held(s.callers[i], Counted) + Held(t.callers[i], Counted)
  }

  lemma MovedConserves(s: State, l: Limits, i: nat, t: State)
    requires Conserved(s, l) && i < |s.callers| && Moved(s, l, i, t)
    ensures Conserved(t, l)
  {
    hide TotalHeld;
    hide Held;
    hide TokenPlausible;
    HeldAfterUpdate(s.callers, i, t.callers[i], Slot);
    HeldAfterUpdate(s.callers, i, t.callers[i], Token);
    HeldAfterUpdate(s.callers, i, t.callers[i], Budget);
    HeldAfterUpdate(s.callers, i, t.callers[i], Counted);
  }

  /** Every operation of a caller takes or gives back exactly what it says, on every path. */
  lemma OperationMoves(s: State, l: Limits, i: nat, contended: bool)
    requires i < |s.callers| && TokenPlausible(s.callers[i])
    requires s.slots <= l.maxInFlight && s.waiters <= l.maxQueue && s.bodyUsed <= l.bodyLimit
    ensures Moved(s, l, i, AdvanceCaller(s, l, i, contended))
  {
    var t := AdvanceCaller(s, l, i, contended);
    var c := t.callers[i];
    assert t.callers == s.callers[i := c];
    match s.callers[i].pc {
      case TrySlot => case TryQueue => case AwaitSlot => case TryBody => case AwaitBody => case BodyTaken =>
      case Admitted => case Leased => case BodyFreed => case BodyUncounted => case SlotFreed => case ReturnSlot =>
      case GiveUp => case Failed => case Finished =>
    }
  }

  lemma EndingMoves(s: State, l: Limits, i: nat)
    requires i < |s.callers| && TokenPlausible(s.callers[i])
    requires s.slots <= l.maxInFlight && s.waiters <= l.maxQueue && s.bodyUsed <= l.bodyLimit
    ensures Moved(s, l, i, Step(s, l, Expire(i)))
    ensures Moved(s, l, i, Step(s, l, Release(i)))
  {
    hide AdvanceCaller;
  }

  lemma StepConserves(s: State, l: Limits, e: Event)
    requires Conserved(s, l)
    ensures Conserved(Step(s, l, e), l)
  {
    hide TotalHeld;
    hide AdvanceCaller;
    hide Moved;
    match e {
      case Arrive(now, bytes) =>
        var c := Step(s, l, e).callers[|s.callers|];
        forall part: Part ensures TotalHeld(s.callers + [c], part) == TotalHeld(s.callers, part) {
          HeldByNewcomer(s.callers, c, part);
        }
      case Outcome(failed, now) =>
      case Advance(i, contended) =>
        if i < |s.callers| {
          OperationMoves(s, l, i, contended);
          MovedConserves(s, l, i, Step(s, l, e));
        }
      case Expire(i) =>
        if i < |s.callers| {
          EndingMoves(s, l, i);
          MovedConserves(s, l, i, Step(s, l, e));
        }
      case Release(i) =>
        if i < |s.callers| {
          EndingMoves(s, l, i);
          MovedConserves(s, l, i, Step(s, l, e));
        }
    }
  }

  /** Under every interleaving: each counter equals what the callers hold and never passes its limit. */
  lemma {:induction false} RunConserves(s: State, l: Limits, events: seq<Event>)
    requires Conserved(s, l)
    ensures Conserved(Run(s, l, events), l)
    decreases |events|
  {
    if events != [] {
      StepConserves(s, l, events[0]);
      RunConserves(Step(s, l, events[0]), l, events[1..]);
    }
  }

  lemma {:induction false} NothingHeld(callers: seq<Caller>, part: Part)
    requires forall c | c in callers :: c.pc.Finished? && TokenPlausible(c)
    ensures TotalHeld(callers, part) == 0
  {
    if callers == [] {
      assert Holding(callers, part) == [];
    } else {
      var rest := callers[..|callers|-1];
      assert callers == rest + [callers[|callers|-1]];
      NothingHeld(rest, part);
      HeldByNewcomer(rest, callers[|callers|-1], part);
    }
  }

  /** Once every acquire has returned and every lease is released, nothing is held: no leak on any path. */
  lemma QuiescentMeansEmpty(l: Limits, events: seq<Event>)
    requires forall c | c in Run(INITIAL, l, events).callers :: c.pc.Finished?
    ensures var s := Run(INITIAL, l, events);
            s.slots == 0 && s.waiters == 0 && s.bodyUsed == 0 && s.bodyInFlight == 0
  {
    var s := Run(INITIAL, l, events);
    InitialConserved(l);
    RunConserves(INITIAL, l, events);
    NothingHeld(s.callers, Slot);
    NothingHeld(s.callers, Token);
    NothingHeld(s.callers, Budget);
    NothingHeld(s.callers, Counted);
  }

  lemma InitialConserved(l: Limits)
    ensures Conserved(INITIAL, l)
  {
    assert Holding([], Slot) == [] && Holding([], Token) == [] && Holding([], Budget) == []
        && Holding([], Counted) == [];
  }

  // ---------- Request sizes ----------

  /** What a request of so many bytes holds of the budget: its size, but at least one byte and at most everything. */
  predicate Clipped(weight: int, bytes: int, limit: nat) {
    && (1 <= bytes <= limit ==> weight == bytes)
    && (bytes > limit ==> weight == limit)
    && (bytes < 1 <= limit ==> weight == 1)
    && (limit == 0 ==> weight == 0)
  }

  /** The sizes of the requests of a run, in the order of their arrival, which numbers the callers. */
  function Arrivals(events: seq<Event>): seq<int> {
    if events == [] then [] else (if events[0].Arrive? then [events[0].bytes] else []) + Arrivals(events[1..])
  }

  lemma StepWeighs(s: State, l: Limits, e: Event)
    ensures var t := Step(s, l, e);
            && |t.callers| == |s.callers| + (if e.Arrive? then 1 else 0)
            && (forall i | 0 <= i < |s.callers| :: t.callers[i].weight == s.callers[i].weight)
            && (e.Arrive? ==> Clipped(t.callers[|s.callers|].weight, e.bytes, l.bodyLimit))
  {
    hide AdvanceCaller;
    if e.Advance? && e.caller < |s.callers| {
      OperationWeighs(s, l, e.caller, e.contended);
    }
  }

  lemma OperationWeighs(s: State, l: Limits, i: nat, contended: bool)
    requires i < |s.callers|
    ensures var t := AdvanceCaller(s, l, i, contended);
            && |t.callers| == |s.callers|
            && forall j | 0 <= j < |s.callers| :: t.callers[j].weight == s.callers[j].weight
  {
  }

  lemma {:induction false} RunWeighs(s: State, l: Limits, events: seq<Event>)
    ensures var t, sizes := Run(s, l, events), Arrivals(events);
            && |t.callers| == |s.callers| + |sizes|
            && (forall i | 0 <= i < |s.callers| :: t.callers[i].weight == s.callers[i].weight)
            && (forall i | 0 <= i < |sizes| :: Clipped(t.callers[|s.callers| + i].weight, sizes[i], l.bodyLimit))
    decreases |events|
  {
    hide Step;
    hide Clipped;
    if events != [] {
      var s1, rest := Step(s, l, events[0]), Arrivals(events[1..]);
      var t, sizes := Run(s, l, events), Arrivals(events);
      StepWeighs(s, l, events[0]);
      RunWeighs(s1, l, events[1..]);
      hide Arrivals;
      hide Run;
      var n := |s.callers|;
      assert sizes == (if events[0].Arrive? then [events[0].bytes] else []) + rest;
      forall i | 0 <= i < |sizes| ensures Clipped(t.callers[n + i].weight, sizes[i], l.bodyLimit) {
        if events[0].Arrive? && i > 0 {
          assert sizes[i] == rest[i-1] && n + i == |s1.callers| + (i - 1);
        }
      }
    }
  }

  /** In every run each caller weighs the clipped size of its own request. */
  lemma WeightsAreSizes(l: Limits, events: seq<Event>, i: nat)
    requires i < |Arrivals(events)|
    ensures |Run(INITIAL, l, events).callers| == |Arrivals(events)|
    ensures Clipped(Run(INITIAL, l, events).callers[i].weight, Arrivals(events)[i], l.bodyLimit)
  {
    RunWeighs(INITIAL, l, events);
  }

  lemma {:induction false} HeldNonNegative(callers: seq<Caller>, part: Part)
    ensures 0 <= TotalHeld(callers, part)
  {
    SumNonNegative(Holding(callers, part));
  }

  lemma TwoHold(callers: seq<Caller>, i: nat, j: nat, part: Part)
    requires i < |callers| && j < |callers| && i != j
    ensures Held(callers[i], part) + Held(callers[j], part) <= TotalHeld(callers, part)
  {
    hide TotalHeld;
    var gone := Caller(Finished, false, 0, false);
    HeldAfterUpdate(callers, i, gone, part);
    HeldAfterUpdate(callers[i := gone], j, gone, part);
    HeldNonNegative(callers[i := gone][j := gone], part);
  }

  /** Two requests that together are too large for the body budget never hold leases at the same time. */
  lemma TooLargeTogether(l: Limits, events: seq<Event>, i: nat, j: nat)
    requires i < |Arrivals(events)| && j < |Arrivals(events)| && i != j
    requires 1 <= Arrivals(events)[i] <= l.bodyLimit && 1 <= Arrivals(events)[j] <= l.bodyLimit
    requires Arrivals(events)[i] + Arrivals(events)[j] > l.bodyLimit
    ensures var callers := Run(INITIAL, l, events).callers;
            i < |callers| && j < |callers| && !(callers[i].pc.Leased? && callers[j].pc.Leased?)
  {
    WeightsAreSizes(l, events, i);
    WeightsAreSizes(l, events, j);
    InitialConserved(l);
    RunConserves(INITIAL, l, events);
    TwoHold(Run(INITIAL, l, events).callers, i, j, Budget);
  }

  // ---------- Leases and waiters, counted ----------

  function Leases(callers: seq<Caller>): nat {
    if callers == [] then 0
    else Leases(callers[..|callers|-1]) + (if callers[|callers|-1].pc.Leased? then 1 else 0)
  }

  function LeasedBytes(callers: seq<Caller>): nat {
    if callers == [] then 0
    else
      var last := callers[|callers|-1];
      LeasedBytes(callers[..|callers|-1]) + (if last.pc.Leased? then last.weight else 0)
  }

  function Waiting(callers: seq<Caller>): nat {
    if callers == [] then 0
    else Waiting(callers[..|callers|-1]) + (if callers[|callers|-1].pc.AwaitSlot? then 1 else 0)
  }

  lemma {:induction false} CountedAreHeld(callers: seq<Caller>)
    requires forall c | c in callers :: TokenPlausible(c)
    ensures Leases(callers) <= TotalHeld(callers, Slot) && LeasedBytes(callers) <= TotalHeld(callers, Budget)
    ensures Waiting(callers) <= TotalHeld(callers, Token)
  {
    if callers == [] {
      InitialConserved(Limits(0, 0, 0, 0, Settings(0, 0)));
    } else {
      var rest, last := callers[..|callers|-1], callers[|callers|-1];
      assert callers == rest + [last] && last in callers;
      CountedAreHeld(rest);
      HeldByNewcomer(rest, last, Slot);
      HeldByNewcomer(rest, last, Budget);
      HeldByNewcomer(rest, last, Token);
    }
  }

  /** In every run: at most so many leases, with at most so many bytes, and at most so many callers waiting for a
      slot. */
  lemma WithinLimits(l: Limits, events: seq<Event>)
    ensures var callers := Run(INITIAL, l, events).callers;
            Leases(callers) <= l.maxInFlight && LeasedBytes(callers) <= l.bodyLimit && Waiting(callers) <= l.maxQueue
  {
    InitialConserved(l);
    RunConserves(INITIAL, l, events);
    CountedAreHeld(Run(INITIAL, l, events).callers);
  }

  /** A waiter token is given back only when acquire returns; in particular it is held during the wait for body
      budget. */
  lemma TokenUntilReturn(s: State, l: Limits, i: nat, contended: bool)
    requires i < |s.callers| && s.callers[i].token
    ensures var c := AdvanceCaller(s, l, i, contended).callers[i];
            c.token || c.pc.Leased? || c.pc.Finished?
    ensures Step(s, l, Expire(i)).callers[i].token && Step(s, l, Release(i)).callers[i].token
  {
  }

  // ---------- One caller by itself ----------

  /** So many operations of caller i, with nobody else moving. */
  function Alone(s: State, l: Limits, i: nat, n: nat): State
    decreases n
  {
    if n == 0 then s else Alone(Step(s, l, Advance(i, false)), l, i, n - 1)
  }

  ghost predicate SameCounters(s: State, t: State) {
    t.slots == s.slots && t.waiters == s.waiters && t.bodyUsed == s.bodyUsed && t.bodyInFlight == s.bodyInFlight
  }

  predicate BreakerPasses(s: State, l: Limits) {
    l.breaker.threshold <= 0 || s.breaker.openUntil.None?
  }

  /** With a free slot and enough budget a caller gets its lease. */
  lemma LeasedAtOnce(s: State, l: Limits, now: int, bytes: int, w: nat)
    requires BreakerPasses(s, l) && s.slots < l.maxInFlight
    requires Clipped(w, bytes, l.bodyLimit) && s.bodyUsed + w <= l.bodyLimit
    ensures var i := |s.callers|;
            var t := Alone(Step(s, l, Arrive(now, bytes)), l, i, 4);
            && |t.callers| == i + 1 && t.callers[i] == Caller(Leased, false, w, false)
            && t.slots == s.slots + 1 && t.waiters == s.waiters
            && t.bodyUsed == s.bodyUsed + w && t.bodyInFlight == s.bodyInFlight + w
  {
    var i := |s.callers|;
    var t0 := Step(s, l, Arrive(now, bytes));
    assert t0.callers[i] == Caller(TrySlot, false, w, false);
    var t1 := Step(t0, l, Advance(i, false));
    assert t1.callers[i].pc == TryBody;
    var t2 := Step(t1, l, Advance(i, false));
    assert t2.callers[i].pc == BodyTaken;
    var t3 := Step(t2, l, Advance(i, false));
    assert t3.callers[i].pc == Admitted;
    FourAlone(t0, l, i);
  }

  lemma FourAlone(s: State, l: Limits, i: nat)
    ensures Alone(s, l, i, 3) == Step(Step(Step(s, l, Advance(i, false)), l, Advance(i, false)), l, Advance(i, false))
    ensures Alone(s, l, i, 4) == Step(Alone(s, l, i, 3), l, Advance(i, false))
    ensures Alone(s, l, i, 5) == Step(Alone(s, l, i, 4), l, Advance(i, false))
  {
    hide Step;
    var s1 := Step(s, l, Advance(i, false));
    var s2 := Step(s1, l, Advance(i, false));
    var s3 := Step(s2, l, Advance(i, false));
    var s4 := Step(s3, l, Advance(i, false));
    var s5 := Step(s4, l, Advance(i, false));
    assert Alone(s5, l, i, 0) == s5 && Alone(s4, l, i, 0) == s4 && Alone(s3, l, i, 0) == s3;
    assert Alone(s4, l, i, 1) == s5 && Alone(s3, l, i, 1) == s4 && Alone(s2, l, i, 1) == s3;
    assert Alone(s3, l, i, 2) == s5 && Alone(s2, l, i, 2) == s4 && Alone(s1, l, i, 2) == s3;
    assert Alone(s2, l, i, 3) == s5 && Alone(s1, l, i, 3) == s4;
    assert Alone(s1, l, i, 4) == s5;
  }

  /** Releasing a lease gives everything back and ends its probe; releasing it again does nothing. */
  lemma ReleasedInFull(s: State, l: Limits, i: nat)
    requires i < |s.callers| && s.callers[i].pc.Leased?
    ensures var t := Alone(Step(s, l, Release(i)), l, i, 3);
            && i < |t.callers| && t.callers[i].pc.Finished?
            && t.slots == s.slots - 1 && t.waiters == s.waiters
            && t.bodyUsed == s.bodyUsed - s.callers[i].weight && t.bodyInFlight == s.bodyInFlight - s.callers[i].weight
            && (s.callers[i].probe ==> !t.breaker.probeActive)
            && Step(t, l, Release(i)) == t && Step(Step(s, l, Release(i)), l, Release(i)) == Step(s, l, Release(i))
  {
    var t0 := Step(s, l, Release(i));
    assert t0.callers[i].pc == BodyFreed;
    var t1 := Step(t0, l, Advance(i, false));
    assert t1.callers[i].pc == BodyUncounted;
    var t2 := Step(t1, l, Advance(i, false));
    assert t2.callers[i].pc == SlotFreed;
    FourAlone(t0, l, i);
  }

  /** With all slots taken and no queue to wait in, the caller is turned away and nothing changes. */
  lemma TurnedAwayWithoutQueue(s: State, l: Limits, now: int, bytes: int)
    requires BreakerPasses(s, l) && s.slots >= l.maxInFlight && (l.queueTimeout == 0 || l.maxQueue == 0)
    ensures var i := |s.callers|;
            var t := Alone(Step(s, l, Arrive(now, bytes)), l, i, 3);
            |t.callers| == i + 1 && t.callers[i].pc.Finished? && SameCounters(s, t)
  {
    var i := |s.callers|;
    var t0 := Step(s, l, Arrive(now, bytes));
    var t1 := Step(t0, l, Advance(i, false));
    assert t1.callers[i].pc == GiveUp;
    var t2 := Step(t1, l, Advance(i, false));
    assert t2.callers[i].pc == Failed;
    FourAlone(t0, l, i);
  }

  /** So it is when the queue is full. */
  lemma TurnedAwayByFullQueue(s: State, l: Limits, now: int, bytes: int)
    requires BreakerPasses(s, l) && s.slots >= l.maxInFlight && l.queueTimeout > 0 && s.waiters >= l.maxQueue
    ensures var i := |s.callers|;
            var t := Alone(Step(s, l, Arrive(now, bytes)), l, i, 4);
            |t.callers| == i + 1 && t.callers[i].pc.Finished? && SameCounters(s, t)
  {
    var i := |s.callers|;
    var t0 := Step(s, l, Arrive(now, bytes));
    var t1 := Step(t0, l, Advance(i, false));
    assert t1.callers[i].pc == (if l.maxQueue > 0 then TryQueue else GiveUp);
    var t2 := Step(t1, l, Advance(i, false));
    assert t2.callers[i].pc == (if l.maxQueue > 0 then GiveUp else Failed);
    var t3 := Step(t2, l, Advance(i, false));
    assert t3.callers[i].pc == (if l.maxQueue > 0 then Failed else Finished);
    FourAlone(t0, l, i);
  }

  /** With room in the queue it waits there, holding a token, until a slot is free or its wait ends, and then leaves no
      trace. */
  lemma WaitsInQueue(s: State, l: Limits, now: int, bytes: int)
    requires BreakerPasses(s, l) && s.slots >= l.maxInFlight && l.queueTimeout > 0 && 0 <= s.waiters < l.maxQueue
    ensures var i := |s.callers|;
            var t := Step(Step(Step(s, l, Arrive(now, bytes)), l, Advance(i, false)), l, Advance(i, false));
            && |t.callers| == i + 1 && t.callers[i].pc.AwaitSlot? && t.callers[i].token
            && t.waiters == s.waiters + 1 && t.slots == s.slots
            && Step(t, l, Advance(i, false)) == t
            && Step(t.(slots := l.maxInFlight - 1), l, Advance(i, false)).callers[i] == t.callers[i].(pc := TryBody)
            && (l.maxInFlight > 0 ==> Step(t.(slots := l.maxInFlight - 1), l, Advance(i, false)).slots == l.maxInFlight)
            && var gone := Step(Step(Step(t, l, Expire(i)), l, Advance(i, false)), l, Advance(i, false));
               gone.callers[i].pc.Finished? && SameCounters(s, gone)
  {
    var i := |s.callers|;
    var t0 := Step(s, l, Arrive(now, bytes));
    assert t0.callers[i].pc == TrySlot;
    var t1 := Step(t0, l, Advance(i, false));
    assert t1.callers[i].pc == TryQueue;
    var t := Step(t1, l, Advance(i, false));
    assert t.callers[i].pc == AwaitSlot;
    var t2 := Step(t, l, Expire(i));
    assert t2.callers[i].pc == GiveUp;
    var t3 := Step(t2, l, Advance(i, false));
    assert t3.callers[i].pc == Failed;
  }

  /** With a slot but too little budget it is turned away at once, or waits with its slot; giving up returns the
      slot. */
  lemma TooLittleBudget(s: State, l: Limits, now: int, bytes: int, w: nat)
    requires BreakerPasses(s, l) && s.slots < l.maxInFlight
    requires Clipped(w, bytes, l.bodyLimit) && s.bodyUsed + w > l.bodyLimit
    ensures var i := |s.callers|;
            var t := Step(Step(Step(s, l, Arrive(now, bytes)), l, Advance(i, false)), l, Advance(i, false));
            && |t.callers| == i + 1 && t.slots == s.slots + 1 && t.bodyUsed == s.bodyUsed
            && t.callers[i].pc == (if l.queueTimeout == 0 then ReturnSlot else AwaitBody)
            && (l.queueTimeout == 0 ==>
                  var gone := Alone(t, l, i, 3);
                  gone.callers[i].pc.Finished? && SameCounters(s, gone))
            && (l.queueTimeout > 0 ==>
                  var gone := Alone(Step(t, l, Expire(i)), l, i, 3);
                  && Step(t, l, Advance(i, false)) == t
                  && gone.callers[i].pc.Finished? && SameCounters(s, gone))
  {
    var i := |s.callers|;
    var t0 := Step(s, l, Arrive(now, bytes));
    assert t0.callers[i] == Caller(TrySlot, false, w, false);
    var t1 := Step(t0, l, Advance(i, false));
    assert t1.callers[i].pc == TryBody;
    var t := Step(t1, l, Advance(i, false));
    var u := if l.queueTimeout == 0 then t else Step(t, l, Expire(i));
    assert u.callers[i].pc == ReturnSlot;
    var u1 := Step(u, l, Advance(i, false));
    assert u1.callers[i].pc == GiveUp;
    var u2 := Step(u1, l, Advance(i, false));
    assert u2.callers[i].pc == Failed;
    FourAlone(u, l, i);
  }

  /** A caller that waits for budget takes it as soon as there is enough, up to the last byte. */
  lemma WaiterGetsBudget(s: State, l: Limits, i: nat, contended: bool)
    requires i < |s.callers| && s.callers[i].pc.AwaitBody?
    ensures var t, w := Step(s, l, Advance(i, contended)), s.callers[i].weight;
            && (s.bodyUsed + w <= l.bodyLimit ==>
                  t.callers[i] == s.callers[i].(pc := BodyTaken) && t.bodyUsed == s.bodyUsed + w && t.slots == s.slots)
            && (s.bodyUsed + w > l.bodyLimit ==> t == s)
  {
  }

  /** An open breaker turns callers away before they take anything. */
  lemma TurnedAwayByBreaker(s: State, l: Limits, now: int, bytes: int)
    requires l.breaker.threshold > 0 && s.breaker.openUntil.Some?
    requires s.breaker.openUntil.value > now || s.breaker.probeActive
    ensures var t := Step(s, l, Arrive(now, bytes));
            |t.callers| == |s.callers| + 1 && t.callers[|s.callers|].pc.Finished? && SameCounters(s, t)
                && t.breaker == s.breaker
  {
  }

  // ---------- The breaker over whole runs ----------

  /** The caller has been granted a probe whose end has not run yet. */
  predicate Outstanding(c: Caller) {
    c.probe && !c.pc.Failed? && !c.pc.Finished?
  }

  /** The position of the last grant that no outcome or probe end has followed, if there is one. */
  function OpenGrant(log: seq<LogItem>): Option<nat> {
    if log == [] || !log[|log|-1].Granted? then None else Some(log[|log|-1].caller)
  }

  /** Between two grants there is always a recorded outcome or the end of a probe. */
  ghost predicate GrantsSeparated(log: seq<LogItem>) {
    forall i, j | 0 <= i < j < |log| && log[i].Granted? && log[j].Granted? :: exists k :: i < k < j && !log[k].Granted?
  }

  /** probeActive says that the latest grant is still open; then its caller is still on its way to ending it. */
  ghost predicate BreakerTracked(s: State, l: Limits) {
    && Consistent(s.breaker, l.breaker)
    && (s.breaker.probeActive <==> OpenGrant(s.log).Some?)
    && (s.breaker.probeActive ==>
        OpenGrant(s.log).value < |s.callers| && Outstanding(s.callers[OpenGrant(s.log).value]))
    && GrantsSeparated(s.log)
  }

  lemma LogGrows(log: seq<LogItem>, item: LogItem)
    requires GrantsSeparated(log) && (item.Granted? ==> OpenGrant(log).None?)
    ensures GrantsSeparated(log + [item])
  {
    var longer := log + [item];
    forall i, j | 0 <= i < j < |longer| && longer[i].Granted? && longer[j].Granted?
      ensures exists k :: i < k < j && !longer[k].Granted?
    {
      if j == |log| {
        assert !longer[|log|-1].Granted? && longer[|log|-1] == log[|log|-1];
      } else {
        var k :| i < k < j && !log[k].Granted?;
        assert longer[k] == log[k];
      }
    }
  }

  /** A caller either leaves breaker and log alone and stays on its probe or off it, or ends its own probe. */
  ghost predicate KeepsProbe(s: State, i: nat, t: State)
    requires i < |s.callers|
  {
    && |t.callers| == |s.callers| && t.callers == s.callers[i := t.callers[i]]
    && (|| (t.breaker == s.breaker && t.log == s.log && (Outstanding(s.callers[i]) <==> Outstanding(t.callers[i])))
        || (t.breaker == Cancelled(s.breaker, true) && t.log == s.log + [ProbeEnded]
            && Outstanding(s.callers[i]) && !Outstanding(t.callers[i])))
  }

  lemma OperationKeepsProbe(s: State, l: Limits, i: nat, contended: bool)
    requires i < |s.callers|
    ensures KeepsProbe(s, i, AdvanceCaller(s, l, i, contended))
  {
    var t := AdvanceCaller(s, l, i, contended);
    assert t.callers == s.callers[i := t.callers[i]];
    match s.callers[i].pc {
      case TrySlot => case TryQueue => case AwaitSlot => case TryBody => case AwaitBody => case BodyTaken =>
      case Admitted => case Leased => case BodyFreed => case BodyUncounted => case SlotFreed => case ReturnSlot =>
      case GiveUp => case Failed => case Finished =>
    }
  }

  lemma KeepsProbeTracked(s: State, l: Limits, i: nat, t: State)
    requires BreakerTracked(s, l) && i < |s.callers| && KeepsProbe(s, i, t)
    ensures BreakerTracked(t, l)
  {
    LogGrows(s.log, ProbeEnded);
  }

  lemma StepTracks(s: State, l: Limits, e: Event)
    requires BreakerTracked(s, l)
    ensures BreakerTracked(Step(s, l, e), l)
  {
    hide AdvanceCaller;
    hide GrantsSeparated;
    match e {
      case Arrive(now, bytes) =>
        BreakerStaysConsistent(s.breaker, l.breaker, now, false, false);
        if Decide(s.breaker, l.breaker, now).Probe? {
          LogGrows(s.log, Granted(|s.callers|));
        }
      case Outcome(failed, now) =>
        BreakerStaysConsistent(s.breaker, l.breaker, now, false, failed);
        LogGrows(s.log, OutcomeRecorded);
      case Advance(i, contended) =>
        if i < |s.callers| {
          OperationKeepsProbe(s, l, i, contended);
          KeepsProbeTracked(s, l, i, AdvanceCaller(s, l, i, contended));
        }
      case Expire(i) =>
        if i < |s.callers| {
          KeepsProbeTracked(s, l, i, Step(s, l, e));
        }
      case Release(i) =>
        if i < |s.callers| {
          KeepsProbeTracked(s, l, i, Step(s, l, e));
        }
    }
  }

  /** What every run keeps of the breaker. */
  lemma {:induction false} RunTracks(s: State, l: Limits, events: seq<Event>)
    requires BreakerTracked(s, l)
    ensures BreakerTracked(Run(s, l, events), l)
    decreases |events|
  {
    if events != [] {
      StepTracks(s, l, events[0]);
      RunTracks(Step(s, l, events[0]), l, events[1..]);
    }
  }

  /** From the start: failures reach the threshold exactly when a deadline is set, an active probe has a live
      grantee, and no two grants come without an outcome or a probe end between them. */
  lemma BreakerOverRuns(l: Limits, events: seq<Event>)
    ensures BreakerTracked(Run(INITIAL, l, events), l)
    ensures l.breaker.threshold > 0 ==>
              var b := Run(INITIAL, l, events).breaker;
              && (b.failures >= l.breaker.threshold <==> b.openUntil.Some?)
              && (b.probeActive ==> b.openUntil.Some?)
  {
    RunTracks(INITIAL, l, events);
  }

  /** The breaker never sticks: once every caller is finished, no probe is active. */
  lemma NoStuckProbe(l: Limits, events: seq<Event>)
    requires forall c | c in Run(INITIAL, l, events).callers :: c.pc.Finished?
    ensures !Run(INITIAL, l, events).breaker.probeActive
  {
    BreakerOverRuns(l, events);
    var s := Run(INITIAL, l, events);
    forall i: nat | i < |s.callers| ensures !Outstanding(s.callers[i]) {
      assert s.callers[i] in s.callers;
    }
  }

  // ---------- How many probes can be in flight ----------

  /** At most one caller is on a probe, and the flag says whether one is. */
  ghost predicate SingleProbe(s: State) {
    && (forall i: nat, j: nat | i < j < |s.callers| :: !(Outstanding(s.callers[i]) && Outstanding(s.callers[j])))
    && (s.breaker.probeActive <==> ProbeOut(s))
  }

  ghost predicate ProbeOut(s: State) {
    exists i: nat :: i < |s.callers| && Outstanding(s.callers[i])
  }

  /** The one event that breaks it: an outcome recorded while a probe is still on its way. */
  ghost predicate Overtakes(s: State, l: Limits, e: Event) {
    e.Outcome? && l.breaker.threshold > 0 && ProbeOut(s)
  }

  lemma KeepsProbeSingle(s: State, i: nat, t: State)
    requires SingleProbe(s) && i < |s.callers| && KeepsProbe(s, i, t)
    ensures SingleProbe(t)
  {
    if Outstanding(t.callers[i]) {
      assert t.breaker == s.breaker;
    } else if Outstanding(s.callers[i]) {
      forall j: nat | j < |t.callers| ensures !Outstanding(t.callers[j]) {
        assert j != i ==> t.callers[j] == s.callers[j];
      }
    } else {
      forall j: nat | j < |t.callers| ensures Outstanding(t.callers[j]) <==> Outstanding(s.callers[j]) {
      }
    }
  }

  lemma StepKeepsSingle(s: State, l: Limits, e: Event)
    requires SingleProbe(s) && !Overtakes(s, l, e)
    ensures SingleProbe(Step(s, l, e))
  {
    hide AdvanceCaller;
    match e {
      case Arrive(now, bytes) =>
        var t := Step(s, l, e);
        assert t.callers[..|s.callers|] == s.callers;
        assert Outstanding(t.callers[|s.callers|]) <==> Decide(s.breaker, l.breaker, now).Probe?;
      case Outcome(failed, now) =>
      case Advance(i, contended) =>
        if i < |s.callers| {
          OperationKeepsProbe(s, l, i, contended);
          KeepsProbeSingle(s, i, AdvanceCaller(s, l, i, contended));
        }
      case Expire(i) =>
        if i < |s.callers| {
          KeepsProbeSingle(s, i, Step(s, l, e));
        }
      case Release(i) =>
        if i < |s.callers| {
          KeepsProbeSingle(s, i, Step(s, l, e));
        }
    }
  }

  /** No outcome is recorded in the run while a probe is on its way. */
  ghost predicate NoneOvertaken(s: State, l: Limits, events: seq<Event>)
    decreases |events|
  {
    events != [] ==> !Overtakes(s, l, events[0]) && NoneOvertaken(Step(s, l, events[0]), l, events[1..])
  }

  lemma {:induction false} RunKeepsSingle(s: State, l: Limits, events: seq<Event>)
    requires SingleProbe(s) && NoneOvertaken(s, l, events)
    ensures SingleProbe(Run(s, l, events))
    decreases |events|
  {
    if events != [] {
      StepKeepsSingle(s, l, events[0]);
      RunKeepsSingle(Step(s, l, events[0]), l, events[1..]);
    }
  }

  /** At most one probe is in flight, and the flag says whether one is, in every run in which no outcome is recorded
      while a probe is on its way. */
  lemma AtMostOneProbe(l: Limits, events: seq<Event>)
    requires NoneOvertaken(INITIAL, l, events)
    ensures SingleProbe(Run(INITIAL, l, events))
  {
    RunKeepsSingle(INITIAL, l, events);
  }

  /** So many failures at one moment, then a caller. */
  function Reopening(failures: nat, now: int, arrival: int): seq<Event> {
    if failures == 0 then [Arrive(arrival, 1)] else [Outcome(true, now)] + Reopening(failures - 1, now, arrival)
  }

  lemma {:induction false} ReopeningLetsAnotherIn(s: State, l: Limits, failures: nat, now: int, arrival: int)
    requires l.breaker.threshold > 0 && arrival >= now + l.breaker.openDuration
    requires s.breaker.failures + failures >= l.breaker.threshold && Consistent(s.breaker, l.breaker)
    requires failures > 0
              || (s.breaker.openUntil.Some? && s.breaker.openUntil.value <= arrival && !s.breaker.probeActive)
    ensures var t := Run(s, l, Reopening(failures, now, arrival));
            && |t.callers| == |s.callers| + 1 && t.callers[..|s.callers|] == s.callers
            && Outstanding(t.callers[|s.callers|])
    decreases failures
  {
    var events := Reopening(failures, now, arrival);
    if failures == 0 {
      assert events[1..] == [];
    } else {
      var s1 := Step(s, l, Outcome(true, now));
      assert events[1..] == Reopening(failures - 1, now, arrival);
      BreakerStaysConsistent(s.breaker, l.breaker, now, false, true);
      ReopeningLetsAnotherIn(s1, l, failures - 1, now, arrival);
    }
  }

  /** And that condition is the right one: from every reachable state with a probe on its way, one recorded outcome, be
      it a success or a failure, is enough for some continuation to have two probes in flight. */
  lemma OvertakingAllowsTwo(l: Limits, events: seq<Event>, failed: bool, now: int)
    requires l.breaker.threshold > 0 && ProbeOut(Run(INITIAL, l, events))
    ensures exists more: seq<Event> ::
              && var t := Run(INITIAL, l, events + [Outcome(failed, now)] + more);
              && exists i: nat, j: nat :: i < j < |t.callers| && Outstanding(t.callers[i]) && Outstanding(t.callers[j])
  {
    hide Outstanding;
    hide GrantsSeparated;
    hide AdvanceCaller;
    hide OpenGrant;
    var s := Run(INITIAL, l, events);
    var s1 := Step(s, l, Outcome(failed, now));
    BreakerOverRuns(l, events);
    BreakerStaysConsistent(s.breaker, l.breaker, now, false, failed);
    var more := Reopening(l.breaker.threshold, now, now + l.breaker.openDuration);
    ReopeningLetsAnotherIn(s1, l, l.breaker.threshold, now, now + l.breaker.openDuration);
    var t := Run(s1, l, more);
    RunConcat(INITIAL, l, events + [Outcome(failed, now)], more);
    RunConcat(INITIAL, l, events, [Outcome(failed, now)]);
    assert Run(s, l, [Outcome(failed, now)]) == s1 by {
      assert [Outcome(failed, now)][1..] == [];
    }
    var i: nat :| i < |s.callers| && Outstanding(s.callers[i]);
    assert t.callers[i] == t.callers[..|s.callers|][i];
    assert i < |s.callers| < |t.callers| && Outstanding(t.callers[i]) && Outstanding(t.callers[|s.callers|]);
  }

  lemma {:induction false} RunConcat(s: State, l: Limits, xs: seq<Event>, ys: seq<Event>)
    ensures Run(s, l, xs + ys) == Run(Run(s, l, xs), l, ys)
    decreases |xs|
  {
    if xs == [] {
      assert xs + ys == ys;
    } else {
      assert (xs + ys)[1..] == xs[1..] + ys;
      RunConcat(Step(s, l, xs[0]), l, xs[1..], ys);
    }
  }

  /** Such a run from the start. */
  lemma TwoProbesInFlight()
    ensures exists l: Limits, events: seq<Event> :: l.breaker.threshold > 0 &&
              var s := Run(INITIAL, l, events);
              |s.callers| == 2 && Outstanding(s.callers[0]) && Outstanding(s.callers[1])
  {
    var l := Limits(2, 0, 10, 0, Settings(1, 5));
    var events := [Outcome(true, 0), Arrive(6, 1), Outcome(true, 6), Arrive(12, 1)];
    var s1 := Step(INITIAL, l, Outcome(true, 0));
    var s2 := Step(s1, l, Arrive(6, 1));
    var s3 := Step(s2, l, Outcome(true, 6));
    var s4 := Step(s3, l, Arrive(12, 1));
    assert events[1..] == [Arrive(6, 1), Outcome(true, 6), Arrive(12, 1)];
    assert events[1..][1..] == [Outcome(true, 6), Arrive(12, 1)];
    assert events[1..][1..][1..] == [Arrive(12, 1)];
    assert Run(s3, l, [Arrive(12, 1)]) == s4;
    assert Run(INITIAL, l, events) == s4;
  }

  /** Without a positive threshold the breaker plays no part in any run: it never opens, nobody is put on probe, and
      nobody is turned away by it. */
  lemma {:induction false} DisabledOverRuns(s: State, l: Limits, events: seq<Event>)
    requires l.breaker.threshold <= 0 && s.breaker == CLOSED && s.log == []
    requires forall c | c in s.callers :: !c.probe
    ensures var t := Run(s, l, events);
            t.breaker == CLOSED && t.log == [] && forall c | c in t.callers :: !c.probe
    ensures var t := Run(s, l, events);
            forall now, bytes :: Step(t, l, Arrive(now, bytes)).callers[|t.callers|].pc.TrySlot?
    decreases |events|
  {
    if events != [] {
      DisabledStep(s, l, events[0]);
      DisabledOverRuns(Step(s, l, events[0]), l, events[1..]);
    }
  }

  lemma DisabledStep(s: State, l: Limits, e: Event)
    requires l.breaker.threshold <= 0 && s.breaker == CLOSED && s.log == []
    requires forall c | c in s.callers :: !c.probe
    ensures var t := Step(s, l, e);
            t.breaker == CLOSED && t.log == [] && forall c | c in t.callers :: !c.probe
  {
    if e.Arrive? || e.Outcome? {
      DisabledBreakerIsInert(s.breaker, l.breaker, e.now, e.Outcome? && e.failed);
    }
    if e.Advance? && e.caller < |s.callers| {
      var t := Step(s, l, e);
      assert s.callers[e.caller] in s.callers;
      assert t.callers == s.callers[e.caller := t.callers[e.caller]];
    }
  }
}
