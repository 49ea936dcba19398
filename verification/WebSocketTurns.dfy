/** Turn accounting of one native WebSocket session (internal/app/native_websocket.go). Both pumps run each
    frame handler under one mutex, so a session is a sequence of whole frames, in any interleaving. */
module WebSocketTurns {
  import opened Int64

  // ---------- Frames, as decoded ----------

  /** What identifies a started turn: its request metadata, arrival time and retained body. */
  datatype Start = Start(meta: string, startedAt: int, body: string)

  datatype Prepared =
    | Rejected(meta: string)
    | StartsTurn(meta: string, forwarded: nat)
    | Continues(forwarded: nat)

  datatype DownFrame = DownFrame(size: nat, at: int, body: string, prepared: Prepared)

  datatype Usage = Usage(prompt: int, completion: int, cached: int, cacheWrite: int, reasoning: int, total: int) {
    predicate Valid() {
      Count(prompt) && Count(completion) && Count(cached) && Count(cacheWrite) && Count(reasoning) && Count(total)
    }
  }

  /** A terminal event: the turn key it settles under, and what billing assessed for it. */
  datatype Terminal = Terminal(key: string, usage: Usage, found: bool, nonGenerated: bool, failed: bool,
                               assessedCost: int, assessedComplete: bool)

  datatype Kind = Created | Delta | Final(terminal: Terminal)

  datatype UpFrame = UpFrame(size: nat, at: int, quota: bool, kind: Kind, model: string, generated: bool)

  /** The durable insert: new, already there, or failed. */
  datatype Persisted = Inserted | Duplicate | PersistError

  datatype Reply = Forward | Drop | Fail

  // ---------- The ledger: what the session has started and settled ----------

  /** What is noted of a turn while it is active: the model last named to it, its first frame and first token. */
  datatype Notes = Notes(model: string, first: int, firstToken: int)

  const UNNOTED := Notes("", 0, 0)

  datatype Step = Step(start: Start, request: int, forwarded: int, response: int, notes: Notes)

  datatype Turn = Turn(step: Step, key: string, cost: int, complete: bool, usage: Usage)

  /** starts is the log of every turn begun; queue holds the unsettled ones, the active one first; idle counts
      request bytes that arrived between turns and belong to none. */
  datatype Ledger = Ledger(starts: seq<Start>, accrued: seq<Turn>, queue: seq<Step>,
                           idleRequest: int, idleForwarded: int)
  {
    /** The model name noted of the active turn. */
    function Model(): string {
      if queue == [] then "" else queue[0].notes.model
    }
  }

  datatype Config = Config(realtime: bool, billable: bool, persists: bool)

  function Begin(l: Ledger, s: Step): Ledger {
    l.(starts := l.starts + [s.start], queue := l.queue + [s])
  }

  function Continue(l: Ledger, request: int, forwarded: int): Ledger {
    if l.queue == [] then l.(idleRequest := l.idleRequest + request, idleForwarded := l.idleForwarded + forwarded)
    else
      var s := l.queue[0];
      l.(queue := l.queue[0 := s.(request := s.request + request, forwarded := s.forwarded + forwarded)])
  }

  /** The active turn takes the model name a frame carries, if it carries one. */
  function Named(l: Ledger, model: string): Ledger {
    if l.queue == [] || model == "" then l
    else l.(queue := l.queue[0 := l.queue[0].(notes := l.queue[0].notes.(model := model))])
  }

  function Timed(n: Notes, f: UpFrame): Notes {
    n.(first := if n.first == 0 then f.at else n.first,
       firstToken := if n.firstToken == 0 && f.generated then f.at else n.firstToken)
  }

  function Respond(l: Ledger, f: UpFrame): Ledger
    requires l.queue != []
  {
    var s := l.queue[0];
    l.(queue := l.queue[0 := s.(response := s.response + f.size, notes := Timed(s.notes, f))])
  }

  function Keys(accrued: seq<Turn>): set<string> {
    set t | t in accrued :: t.key
  }

  /** What a terminal is charged: nothing when it reports a failure, nothing when the session is not billable. */
  function Charge(c: Config, t: Terminal): (int, bool) {
    if !c.persists then (0, t.found || t.nonGenerated)
    else if t.failed then (0, true)
    else if c.billable then (t.assessedCost, t.assessedComplete)
    else (0, t.nonGenerated)
  }

  function Settle(l: Ledger, c: Config, t: Terminal): Ledger
    requires l.queue != []
  {
    l.(accrued := l.accrued + [Turn(l.queue[0], t.key, Charge(c, t).0, Charge(c, t).1, t.usage)], queue := l.queue[1..])
  }

  function NextDown(l: Ledger, f: DownFrame): Ledger {
    match f.prepared
    case Rejected(meta) => Begin(l, Step(Start(meta, f.at, f.body), f.size, 0, 0, UNNOTED))
    case StartsTurn(meta, forwarded) => Begin(l, Step(Start(meta, f.at, f.body), f.size, forwarded, 0, UNNOTED))
    case Continues(forwarded) => Continue(l, f.size, forwarded)
  }

  function LastMeta(l: Ledger): string {
    if l.starts == [] then "" else l.starts[|l.starts|-1].meta
  }

  /** A realtime server may open a turn by itself. */
  function Opened(l: Ledger, c: Config, f: UpFrame): Ledger {
    if l.queue == [] && c.realtime && f.kind.Created?
    then Begin(l, Step(Start(LastMeta(l), f.at, ""), 0, 0, 0, UNNOTED)) else l
  }

  /** A frame for the active turn: it may name its model, and unless it replays a terminal it counts. */
  function Heard(l: Ledger, c: Config, f: UpFrame, persisted: Persisted): Ledger
    requires l.queue != []
  {
    var l1 := Named(l, f.model);
    if f.kind.Final? && f.kind.terminal.key in Keys(l1.accrued) then l1
    else
      var l2 := Respond(l1, f);
      if f.kind.Final? && (!c.persists || persisted.Inserted?) then Settle(l2, c, f.kind.terminal) else l2
  }

  function NextUp(l: Ledger, c: Config, f: UpFrame, persisted: Persisted): Ledger {
    if f.quota then l
    else
      var l1 := Opened(l, c, f);
      if l1.queue == [] then l1 else Heard(l1, c, f, persisted)
  }

  // ---------- What every ledger keeps ----------

  function StartsOf(steps: seq<Step>): (r: seq<Start>)
    ensures |r| == |steps| && forall i | 0 <= i < |steps| :: r[i] == steps[i].start
  {
    seq(|steps|, i requires 0 <= i < |steps| => steps[i].start)
  }

  function AccruedSteps(accrued: seq<Turn>): (r: seq<Step>)
    ensures |r| == |accrued| && forall i | 0 <= i < |accrued| :: r[i] == accrued[i].step
  {
    seq(|accrued|, i requires 0 <= i < |accrued| => accrued[i].step)
  }

  /** Turns settle in the order they began, none is lost, and no key settles twice. */
  ghost predicate InOrder(l: Ledger) {
    && l.starts == StartsOf(AccruedSteps(l.accrued) + l.queue)
    && forall i, j | 0 <= i < j < |l.accrued| :: l.accrued[i].key != l.accrued[j].key
  }

  lemma DownKeepsOrder(l: Ledger, f: DownFrame)
    requires InOrder(l)
    ensures InOrder(NextDown(l, f))
  {
    if !f.prepared.Continues? {
      var s := NextDown(l, f).queue[|l.queue|];
      BeginKeepsOrder(l, s);
    }
  }

  lemma BeginKeepsOrder(l: Ledger, s: Step)
    requires InOrder(l)
    ensures InOrder(Begin(l, s))
  {
    assert AccruedSteps(l.accrued) + (l.queue + [s]) == (AccruedSteps(l.accrued) + l.queue) + [s];
  }

  lemma UpKeepsOrder(l: Ledger, c: Config, f: UpFrame, persisted: Persisted)
    requires InOrder(l)
    ensures InOrder(NextUp(l, c, f, persisted))
  {
    if l.queue == [] && c.realtime && f.kind.Created? {
      BeginKeepsOrder(l, Step(Start(LastMeta(l), f.at, ""), 0, 0, 0, UNNOTED));
    }
    var l1 := Opened(l, c, f);
    if l1.queue != [] {
      var l2 := Named(l1, f.model);
      var l3 := Respond(l2, f);
      assert InOrder(l2) && InOrder(l3);
      if f.kind.Final? && f.kind.terminal.key !in Keys(l1.accrued) {
        SettledInOrder(l3, c, f.kind.terminal);
      }
    }
  }

  lemma SettledInOrder(l: Ledger, c: Config, t: Terminal)
    requires InOrder(l) && l.queue != [] && t.key !in Keys(l.accrued)
    ensures InOrder(Settle(l, c, t))
  {
    var m := Settle(l, c, t);
    assert AccruedSteps(m.accrued) + m.queue == AccruedSteps(l.accrued) + l.queue;
    forall i | 0 <= i < |l.accrued| ensures l.accrued[i].key != t.key {
      assert l.accrued[i] in l.accrued;
    }
  }

  // ---------- Whole sessions ----------

  datatype Event = Down(down: DownFrame) | Up(up: UpFrame, persisted: Persisted)

  function Next(l: Ledger, c: Config, e: Event): Ledger {
    match e
    case Down(f) => NextDown(l, f)
    case Up(f, persisted) => NextUp(l, c, f, persisted)
  }

  function Session(l: Ledger, c: Config, events: seq<Event>): Ledger
    decreases |events|
  {
    if events == [] then l else Session(Next(l, c, events[0]), c, events[1..])
  }

  /** In every reachable state: settled ++ active ++ pending is the log of starts, and keys are distinct. */
  lemma {:induction false} SessionInOrder(l: Ledger, c: Config, events: seq<Event>)
    requires InOrder(l)
    ensures InOrder(Session(l, c, events))
    decreases |events|
  {
    if events != [] {
      match events[0] {
        case Down(f) => DownKeepsOrder(l, f);
        case Up(f, persisted) => UpKeepsOrder(l, c, f, persisted);
      }
      SessionInOrder(Next(l, c, events[0]), c, events[1..]);
    }
  }

  /** What is settled stays settled, unchanged, and starts are never rewritten. */
  lemma {:induction false} SettledForGood(l: Ledger, c: Config, events: seq<Event>)
    ensures l.accrued <= Session(l, c, events).accrued && l.starts <= Session(l, c, events).starts
    decreases |events|
  {
    if events != [] {
      SettledForGood(Next(l, c, events[0]), c, events[1..]);
    }
  }

  /** A terminal that already settled, replayed at any later point, can only rename the active turn: no turn begins,
      settles or changes its bytes. It leaves the session as it is exactly when it names no new model. */
  lemma ReplayOnlyRenames(l: Ledger, c: Config, earlier: seq<Event>, f: UpFrame, persisted: Persisted)
    requires f.kind.Final? && f.kind.terminal.key in Keys(l.accrued)
    ensures var now := Session(l, c, earlier);
            var next := NextUp(now, c, f, persisted);
            && next.accrued == now.accrued && next.starts == now.starts && next == Named(now, next.Model())
            && ResponseTotal(next) == ResponseTotal(now) && RequestTotal(next) == RequestTotal(now)
            && ForwardTotal(next) == ForwardTotal(now)
            && (next == now <==> f.quota || now.queue == [] || f.model == "" || f.model == now.Model())
  {
    SettledForGood(l, c, earlier);
    var t :| t in l.accrued && t.key == f.kind.terminal.key;
    var now := Session(l, c, earlier);
    assert t in now.accrued;
    var next := NextUp(now, c, f, persisted);
    if now.queue != [] {
      HeadTotals(now, next.queue[0]);
      assert next.queue == now.queue[0 := next.queue[0]];
    }
  }

  /** The run that shows it: the first turn settles, a second begins, and a replay of the first terminal renames it. */
  lemma ReplayRenames(c: Config, t: Terminal)
    requires t.key == "k"
    ensures var final := Up(UpFrame(1, 1, false, Final(t), "old", false), Inserted);
            var create := Down(DownFrame(1, 2, "", StartsTurn("m", 1)));
            var l := Begin(Ledger([], [], [], 0, 0), Step(Start("m", 0, ""), 1, 1, 0, UNNOTED));
            var now := Session(l, c, [final, create]);
            && now.queue != [] && now.Model() == "" && t.key in Keys(now.accrued)
            && Session(l, c, [final, create, final]).Model() == "old"
  {
    var final := Up(UpFrame(1, 1, false, Final(t), "old", false), Inserted);
    var create := Down(DownFrame(1, 2, "", StartsTurn("m", 1)));
    var l := Begin(Ledger([], [], [], 0, 0), Step(Start("m", 0, ""), 1, 1, 0, UNNOTED));
    var l1 := Next(l, c, final);
    var l2 := Next(l1, c, create);
    assert [final, create][1..] == [create] && [create][1..] == [] && [final, create, final][1..] == [create, final];
    assert [create, final][1..] == [final] && [final][1..] == [];
    assert l1.accrued[0] in l1.accrued;
    assert Session(l1, c, [create]) == l2
        && Session(l1, c, [create, final]) == Session(l2, c, [final]) == Next(l2, c, final);
  }

  /** A turn that waits has received nothing and nothing is noted of it. */
  ghost predicate PendingFresh(l: Ledger) {
    forall i | 1 <= i < |l.queue| :: l.queue[i].response == 0 && l.queue[i].notes == UNNOTED
  }

  /** In every reachable state the waiting turns are untouched; so whichever becomes active starts with no response
      bytes, model or times of the turn before it. */
  lemma {:induction false} SessionPendingFresh(l: Ledger, c: Config, events: seq<Event>)
    requires PendingFresh(l)
    ensures PendingFresh(Session(l, c, events))
    decreases |events|
  {
    if events != [] {
      SessionPendingFresh(Next(l, c, events[0]), c, events[1..]);
    }
  }

  lemma NextTurnStartsFresh(l: Ledger, c: Config, events: seq<Event>, e: Event)
    requires PendingFresh(l)
    ensures var now := Session(l, c, events);
            var next := Next(now, c, e);
            |next.accrued| > |now.accrued| && next.queue != [] ==>
              next.queue[0] == now.queue[1] && next.queue[0].response == 0 && next.queue[0].notes == UNNOTED
  {
    SessionPendingFresh(l, c, events);
  }

  // ---------- Totals ----------

  function Costs(accrued: seq<Turn>): seq<int> {
    seq(|accrued|, i requires 0 <= i < |accrued| => accrued[i].cost)
  }

  function AllComplete(accrued: seq<Turn>): bool {
    forall t | t in accrued :: t.complete
  }

  function Responses(steps: seq<Step>): seq<int> {
    seq(|steps|, i requires 0 <= i < |steps| => steps[i].response)
  }

  function Requests(steps: seq<Step>): seq<int> {
    seq(|steps|, i requires 0 <= i < |steps| => steps[i].request)
  }

  function Forwards(steps: seq<Step>): seq<int> {
    seq(|steps|, i requires 0 <= i < |steps| => steps[i].forwarded)
  }

  function SaturatingAdd(left: int, right: int): int {
    if right > 0 && left > MAX - right then MAX else left + right
  }

  function Merge(total: Usage, u: Usage): Usage {
    Usage(SaturatingAdd(total.prompt, u.prompt), SaturatingAdd(total.completion, u.completion),
          SaturatingAdd(total.cached, u.cached), SaturatingAdd(total.cacheWrite, u.cacheWrite),
          SaturatingAdd(total.reasoning, u.reasoning), SaturatingAdd(total.total, u.total))
  }

  datatype Field = Prompt | Completion | Cached | CacheWrite | Reasoning | Total

  function Amount(u: Usage, field: Field): int {
    match field
    case Prompt => u.prompt
    case Completion => u.completion
    case Cached => u.cached
    case CacheWrite => u.cacheWrite
    case Reasoning => u.reasoning
    case Total => u.total
  }

  function Column(accrued: seq<Turn>, field: Field): seq<int> {
    seq(|accrued|, i requires 0 <= i < |accrued| => Amount(accrued[i].usage, field))
  }

  /** Every field is the exact sum over the settled turns, capped. */
  ghost predicate IsUsageSum(total: Usage, accrued: seq<Turn>) {
    forall field: Field :: Amount(total, field) == Cap(Sum(Column(accrued, field)))
  }

  predicate Charged(accrued: seq<Turn>) {
    forall t | t in accrued :: Count(t.cost) && t.usage.Valid()
  }

  /** Adding one more settled amount to a capped total gives the capped sum. */
  lemma CapPush(s: seq<int>, x: int)
    requires (forall i | 0 <= i < |s| :: 0 <= s[i]) && Count(x)
    ensures SaturatingAdd(Cap(Sum(s)), x) == Cap(Sum(s + [x]))
  {
    SumPush(s, x);
    SumNonNegative(s);
  }

  lemma SettledCost(accrued: seq<Turn>, t: Turn)
    requires Charged(accrued) && Count(t.cost)
    ensures SaturatingAdd(Cap(Sum(Costs(accrued))), t.cost) == Cap(Sum(Costs(accrued + [t])))
  {
    assert Costs(accrued + [t]) == Costs(accrued) + [t.cost];
    CapPush(Costs(accrued), t.cost);
  }

  lemma SettledUsage(total: Usage, accrued: seq<Turn>, t: Turn)
    requires Charged(accrued) && t.usage.Valid() && IsUsageSum(total, accrued)
    ensures IsUsageSum(Merge(total, t.usage), accrued + [t])
  {
    forall field: Field ensures Amount(Merge(total, t.usage), field) == Cap(Sum(Column(accrued + [t], field))) {
      assert Column(accrued + [t], field) == Column(accrued, field) + [Amount(t.usage, field)];
      CapPush(Column(accrued, field), Amount(t.usage, field));
    }
  }

  function ResponseTotal(l: Ledger): int {
    Sum(Responses(AccruedSteps(l.accrued))) + Sum(Responses(l.queue))
  }

  function RequestTotal(l: Ledger): int {
    Sum(Requests(AccruedSteps(l.accrued))) + Sum(Requests(l.queue)) + l.idleRequest
  }

  function ForwardTotal(l: Ledger): int {
    Sum(Forwards(AccruedSteps(l.accrued))) + Sum(Forwards(l.queue)) + l.idleForwarded
  }

  lemma ColumnSums(steps: seq<Step>, more: seq<Step>)
    ensures Sum(Responses(steps + more)) == Sum(Responses(steps)) + Sum(Responses(more))
    ensures Sum(Requests(steps + more)) == Sum(Requests(steps)) + Sum(Requests(more))
    ensures Sum(Forwards(steps + more)) == Sum(Forwards(steps)) + Sum(Forwards(more))
  {
    assert Responses(steps + more) == Responses(steps) + Responses(more);
    assert Requests(steps + more) == Requests(steps) + Requests(more);
    assert Forwards(steps + more) == Forwards(steps) + Forwards(more);
    SumConcat(Responses(steps), Responses(more));
    SumConcat(Requests(steps), Requests(more));
    SumConcat(Forwards(steps), Forwards(more));
  }

  lemma OneStep(s: Step)
    ensures Sum(Responses([s])) == s.response && Sum(Requests([s])) == s.request && Sum(Forwards([s])) == s.forwarded
  {
    assert Responses([s]) == [] + [s.response] && Requests([s]) == [] + [s.request]
        && Forwards([s]) == [] + [s.forwarded];
    SumPush([], s.response);
    SumPush([], s.request);
    SumPush([], s.forwarded);
  }

  lemma BeginTotals(l: Ledger, s: Step)
    ensures ResponseTotal(Begin(l, s)) == ResponseTotal(l) + s.response
    ensures RequestTotal(Begin(l, s)) == RequestTotal(l) + s.request
    ensures ForwardTotal(Begin(l, s)) == ForwardTotal(l) + s.forwarded
  {
    ColumnSums(l.queue, [s]);
    OneStep(s);
  }

  lemma HeadTotals(l: Ledger, s: Step)
    requires l.queue != []
    ensures var m := l.(queue := l.queue[0 := s]);
            && ResponseTotal(m) == ResponseTotal(l) + s.response - l.queue[0].response
            && RequestTotal(m) == RequestTotal(l) + s.request - l.queue[0].request
            && ForwardTotal(m) == ForwardTotal(l) + s.forwarded - l.queue[0].forwarded
  {
    var rest := l.queue[1..];
    assert l.queue == [l.queue[0]] + rest && l.queue[0 := s] == [s] + rest;
    ColumnSums([l.queue[0]], rest);
    ColumnSums([s], rest);
    OneStep(l.queue[0]);
    OneStep(s);
  }

  /** Settling moves a step from the queue to the settled turns; no byte is lost or counted twice. */
  lemma SettleTotals(l: Ledger, c: Config, t: Terminal)
    requires l.queue != []
    ensures var m := Settle(l, c, t);
            ResponseTotal(m) == ResponseTotal(l) && RequestTotal(m) == RequestTotal(l)
                && ForwardTotal(m) == ForwardTotal(l)
  {
    assert l.queue == [l.queue[0]] + l.queue[1..];
    ColumnSums([l.queue[0]], l.queue[1..]);
    ColumnSums(AccruedSteps(l.accrued), [l.queue[0]]);
    assert AccruedSteps(Settle(l, c, t).accrued) == AccruedSteps(l.accrued) + [l.queue[0]];
  }

  // ---------- The accounting record ----------

  datatype Pending = Pending(start: Start, request: int, forwarded: int)

  function AsStep(p: Pending): Step {
    Step(p.start, p.request, p.forwarded, 0, UNNOTED)
  }

  function AsSteps(pending: seq<Pending>): (r: seq<Step>)
    ensures |r| == |pending| && forall i | 0 <= i < |pending| :: r[i] == AsStep(pending[i])
  {
    seq(|pending|, i requires 0 <= i < |pending| => AsStep(pending[i]))
  }

  /** The accounting fields, as one value. */
  datatype Record = Record(turnsSeen: int, accruedNanoUSD: int, pricingComplete: bool, result: Usage,
                           requestBytes: int, forwardedBytes: int, responseBytes: int,
                           currentActive: bool, current: Start,
                           currentRequest: int, currentForwarded: int, currentResponse: int,
                           notes: Notes, pending: seq<Pending>, seenTurns: set<string>)
  {
    function Active(): Step {
      Step(current, currentRequest, currentForwarded, currentResponse, notes)
    }

    function Started(p: Pending): Record {
      this.(currentActive := true, current := p.start, currentRequest := p.request, currentForwarded := p.forwarded,
            currentResponse := 0, notes := UNNOTED)
    }
  }

  ghost predicate Tallied(r: Record, accrued: seq<Turn>) {
    && r.turnsSeen == |accrued|
    && r.seenTurns == Keys(accrued)
    && r.accruedNanoUSD == Cap(Sum(Costs(accrued)))
    && (r.turnsSeen > 0 ==> r.pricingComplete == AllComplete(accrued))
    && IsUsageSum(r.result, accrued)
    && Charged(accrued)
  }

  /** The fields are exactly what the ledger says; the byte counters may already include a frame of the given
      size that the ledger has not seen. */
  ghost predicate Describes(r: Record, l: Ledger, request: int, forwarded: int) {
    && InOrder(l)
    && Tallied(r, l.accrued)
    && l.starts != [] && (!r.currentActive ==> r.current == l.starts[|l.starts|-1])
    && l.queue == (if r.currentActive then [r.Active()] + AsSteps(r.pending) else [])
    && (!r.currentActive ==> r.pending == [])
    && r.responseBytes == ResponseTotal(l)
    && r.requestBytes == RequestTotal(l) + request
    && r.forwardedBytes == ForwardTotal(l) + forwarded
  }

  lemma QueueFacts(r: Record, l: Ledger, request: int, forwarded: int)
    requires Describes(r, l, request, forwarded)
    ensures l.queue == [] <==> !r.currentActive
    ensures r.currentActive ==> l.queue[0] == r.Active()
    ensures r.currentActive ==> l.Model() == r.notes.model
    ensures !r.currentActive ==> LastMeta(l) == r.current.meta
    ensures r.seenTurns == Keys(l.accrued)
  {
  }

  /** The session's response bytes are those of the settled turns and of the active one; pending turns have none. */
  lemma ResponseBytesAccounted(r: Record, l: Ledger)
    requires Describes(r, l, 0, 0)
    ensures r.responseBytes
              == Sum(Responses(AccruedSteps(l.accrued))) + (if r.currentActive then r.currentResponse else 0)
  {
    if r.currentActive {
      var pending := AsSteps(r.pending);
      ColumnSums([r.Active()], pending);
      OneStep(r.Active());
      NoResponses(pending);
    }
  }

  lemma {:induction false} NoResponses(steps: seq<Step>)
    requires forall i | 0 <= i < |steps| :: steps[i].response == 0
    ensures Sum(Responses(steps)) == 0
  {
    if steps != [] {
      NoResponses(steps[..|steps|-1]);
      assert Responses(steps)[..|steps|-1] == Responses(steps[..|steps|-1]);
    }
  }

  predicate Unused(l: Ledger) {
    l.starts == [] && l.accrued == [] && l.queue == [] && l.idleRequest == 0 && l.idleForwarded == 0
  }

  lemma NothingTallied(r: Record, accrued: seq<Turn>)
    requires accrued == []
    requires r.turnsSeen == 0 && r.accruedNanoUSD == 0 && r.result == Usage(0, 0, 0, 0, 0, 0) && r.seenTurns == {}
    ensures Tallied(r, accrued)
  {
    assert forall field: Field :: Column(accrued, field) == [];
  }

  lemma NothingCounted(l: Ledger)
    requires Unused(l)
    ensures InOrder(l) && ResponseTotal(l) == RequestTotal(l) == ForwardTotal(l) == 0
  {
  }

  lemma DescribesFirst(r: Record, l: Ledger, s: Step)
    requires Unused(l) && s.response == 0 && s.notes == UNNOTED
    requires r.turnsSeen == 0 && r.accruedNanoUSD == 0 && r.result == Usage(0, 0, 0, 0, 0, 0) && r.seenTurns == {}
    requires r.currentActive && r.Active() == s && r.pending == []
    requires r.requestBytes == s.request && r.forwardedBytes == s.forwarded && r.responseBytes == 0
    ensures Describes(r, Begin(l, s), 0, 0)
  {
    hide Tallied;
    hide InOrder;
    hide ResponseTotal;
    hide RequestTotal;
    hide ForwardTotal;
    NothingTallied(r, l.accrued);
    NothingCounted(l);
    BeginTotals(l, s);
    BeginKeepsOrder(l, s);
    assert AsSteps(r.pending) == [];
  }

  lemma DescribesBegin(r: Record, l: Ledger, p: Pending)
    requires Describes(r, l, p.request, p.forwarded)
    ensures var next := if r.currentActive then r.(pending := r.pending + [p]) else r.Started(p);
            Describes(next, Begin(l, AsStep(p)), 0, 0)
  {
    hide InOrder;
    hide IsUsageSum;
    hide Charged;
    hide ResponseTotal;
    hide RequestTotal;
    hide ForwardTotal;
    BeginTotals(l, AsStep(p));
    BeginKeepsOrder(l, AsStep(p));
    assert AsSteps(r.pending + [p]) == AsSteps(r.pending) + [AsStep(p)];
    assert AsSteps([]) == [];
  }

  lemma HeadKeepsOrder(l: Ledger, s: Step)
    requires InOrder(l) && l.queue != [] && s.start == l.queue[0].start
    ensures InOrder(l.(queue := l.queue[0 := s]))
  {
  }

  lemma DescribesContinue(r: Record, l: Ledger, request: nat, forwarded: nat)
    requires Describes(r, l, request, forwarded)
    ensures Describes(r.(currentRequest := r.currentRequest + request,
                         currentForwarded := r.currentForwarded + forwarded),
                      Continue(l, request, forwarded), 0, 0)
  {
    hide InOrder;
    hide IsUsageSum;
    hide Charged;
    hide ResponseTotal;
    hide RequestTotal;
    hide ForwardTotal;
    if !r.currentActive {
      IdleTotals(l, request, forwarded);
    } else {
      var s := l.queue[0].(request := l.queue[0].request + request, forwarded := l.queue[0].forwarded + forwarded);
      HeadTotals(l, s);
      HeadKeepsOrder(l, s);
      assert l.queue[0 := s] == [s] + AsSteps(r.pending);
    }
  }

  lemma IdleTotals(l: Ledger, request: nat, forwarded: nat)
    requires InOrder(l) && l.queue == []
    ensures var m := Continue(l, request, forwarded);
            && InOrder(m) && ResponseTotal(m) == ResponseTotal(l)
            && RequestTotal(m) == RequestTotal(l) + request && ForwardTotal(m) == ForwardTotal(l) + forwarded
  {
  }

  lemma DescribesNamed(r: Record, l: Ledger, model: string)
    requires Describes(r, l, 0, 0) && r.currentActive
    ensures Named(l, model).accrued == l.accrued
    ensures Describes(if model == "" then r else r.(notes := r.notes.(model := model)), Named(l, model), 0, 0)
  {
    hide InOrder;
    hide IsUsageSum;
    hide Charged;
    hide ResponseTotal;
    hide RequestTotal;
    hide ForwardTotal;
    if model != "" {
      var s := l.queue[0].(notes := l.queue[0].notes.(model := model));
      HeadTotals(l, s);
      HeadKeepsOrder(l, s);
      assert l.queue[0 := s] == [s] + AsSteps(r.pending);
    }
  }

  lemma DescribesRespond(r: Record, l: Ledger, f: UpFrame)
    requires Describes(r, l, 0, 0) && r.currentActive
    ensures l.queue != [] && Respond(l, f).queue != [] && Respond(l, f).accrued == l.accrued
    ensures Describes(r.(responseBytes := r.responseBytes + f.size, currentResponse := r.currentResponse + f.size,
                         notes := Timed(r.notes, f)), Respond(l, f), 0, 0)
  {
    hide InOrder;
    hide IsUsageSum;
    hide Charged;
    hide ResponseTotal;
    hide RequestTotal;
    hide ForwardTotal;
    var s := l.queue[0].(response := l.queue[0].response + f.size, notes := Timed(l.queue[0].notes, f));
    HeadTotals(l, s);
    HeadKeepsOrder(l, s);
    assert l.queue[0 := s] == [s] + AsSteps(r.pending);
  }

  function TalliedRecord(r: Record, key: string, cost: int, complete: bool, usage: Usage): Record {
    r.(turnsSeen := r.turnsSeen + 1, seenTurns := r.seenTurns + {key},
       accruedNanoUSD := SaturatingAdd(r.accruedNanoUSD, cost),
       pricingComplete := if r.turnsSeen > 0 then r.pricingComplete && complete else complete,
       result := Merge(r.result, usage), currentActive := false)
  }

  /** The next pending turn becomes the active one. */
  function Promoted(r: Record): Record {
    if r.pending == [] then r else r.(pending := r.pending[1..]).Started(r.pending[0])
  }

  function SettledRecord(r: Record, c: Config, t: Terminal): Record {
    Promoted(TalliedRecord(r, t.key, Charge(c, t).0, Charge(c, t).1, t.usage))
  }

  lemma TalliedSettle(r: Record, l: Ledger, c: Config, t: Terminal)
    requires Tallied(r, l.accrued) && l.queue != []
    requires t.usage.Valid() && Count(t.assessedCost)
    ensures Tallied(SettledRecord(r, c, t), Settle(l, c, t).accrued)
  {
    var turn := Turn(l.queue[0], t.key, Charge(c, t).0, Charge(c, t).1, t.usage);
    SettledCost(l.accrued, turn);
    SettledUsage(r.result, l.accrued, turn);
    KeysPush(l.accrued, turn);
    hide Keys;
    hide AllComplete;
  }

  lemma KeysPush(accrued: seq<Turn>, turn: Turn)
    ensures Keys(accrued + [turn]) == Keys(accrued) + {turn.key}
    ensures AllComplete(accrued + [turn]) <==> AllComplete(accrued) && turn.complete
  {
    assert turn in accrued + [turn];
  }

  lemma TalliedKeepsStep(r: Record, c: Config, t: Terminal)
    ensures var m := TalliedRecord(r, t.key, Charge(c, t).0, Charge(c, t).1, t.usage);
            !m.currentActive && m.pending == r.pending && m.current == r.current
            && m.responseBytes == r.responseBytes && m.requestBytes == r.requestBytes
                && m.forwardedBytes == r.forwardedBytes
  {
  }

  lemma DescribesSettle(r: Record, l: Ledger, c: Config, t: Terminal)
    requires Describes(r, l, 0, 0) && r.currentActive && t.key !in r.seenTurns
    requires t.usage.Valid() && Count(t.assessedCost)
    ensures l.queue != [] && Describes(SettledRecord(r, c, t), Settle(l, c, t), 0, 0)
  {
    hide Tallied;
    hide TalliedRecord;
    hide ResponseTotal;
    hide RequestTotal;
    hide ForwardTotal;
    hide Charge;
    TalliedSettle(r, l, c, t);
    TalliedKeepsStep(r, c, t);
    QueueFacts(r, l, 0, 0);
    SettledInOrder(l, c, t);
    SettleTotals(l, c, t);
    SettledQueue(r, l);
    hide InOrder;
  }

  lemma LastStart(l: Ledger)
    requires InOrder(l) && l.queue != []
    ensures l.starts != [] && l.starts[|l.starts|-1] == l.queue[|l.queue|-1].start
  {
    var steps := AccruedSteps(l.accrued) + l.queue;
    assert steps[|steps|-1] == l.queue[|l.queue|-1];
  }

  lemma SettledKeySeen(l: Ledger, c: Config, t: Terminal)
    requires l.queue != []
    ensures t.key in Keys(Settle(l, c, t).accrued)
  {
    var settled := Settle(l, c, t).accrued;
    assert settled[|l.accrued|] in settled;
  }

  /** The pending turns are what is left of the queue; with none, the settled turn was the last one begun. */
  lemma SettledQueue(r: Record, l: Ledger)
    requires Describes(r, l, 0, 0) && r.currentActive
    ensures l.queue != [] && l.queue[1..] == AsSteps(r.pending)
    ensures r.pending == [] ==> r.current == l.starts[|l.starts|-1]
    ensures r.pending != [] ==> AsSteps(r.pending) == [AsStep(r.pending[0])] + AsSteps(r.pending[1..])
  {
    hide Tallied;
    hide ResponseTotal;
    hide RequestTotal;
    hide ForwardTotal;
    hide InOrder;
    LastStart(l);
    var waiting := AsSteps(r.pending);
    assert l.queue == [r.Active()] + waiting;
    if r.pending != [] {
      assert waiting[1..] == AsSteps(r.pending[1..]);
      assert waiting == [waiting[0]] + waiting[1..];
    }
  }

  // ---------- Who pays ----------

  /** A realtime server opens a turn by itself, when none is active. */
  predicate Opens(active: bool, c: Config, f: UpFrame) {
    !f.quota && !active && c.realtime && f.kind.Created?
  }

  /** The frame belongs to a turn, and is not the replay of a terminal. */
  predicate Counts(active: bool, seen: set<string>, c: Config, f: UpFrame) {
    !f.quota && (active || Opens(active, c, f)) && !(f.kind.Final? && f.kind.terminal.key in seen)
  }

  /** The frame is a new terminal of the active turn, and its charge is durable where charges are kept. */
  predicate Settles(active: bool, seen: set<string>, c: Config, f: UpFrame, persisted: Persisted) {
    && !f.quota && active && f.kind.Final? && f.kind.terminal.key !in seen
    && (c.persists ==> persisted.Inserted?)
  }

  /** Only a billable, persisted session pays, and not for a failure. */
  function Due(c: Config, t: Terminal): int {
    if c.persists && c.billable && !t.failed then t.assessedCost else 0
  }

  predicate Complete(c: Config, t: Terminal) {
    if !c.persists then t.found || t.nonGenerated
    else t.failed || (if c.billable then t.assessedComplete else t.nonGenerated)
  }

  /** A frame adds a charge exactly when it settles a turn, and then what is due for it. */
  lemma FrameCost(l: Ledger, c: Config, f: UpFrame, persisted: Persisted)
    ensures
      var next := NextUp(l, c, f, persisted);
      var settles := Settles(l.queue != [], Keys(l.accrued), c, f, persisted);
      && Costs(next.accrued) == Costs(l.accrued) + (if settles then [Due(c, f.kind.terminal)] else [])
      && (AllComplete(next.accrued) <==> AllComplete(l.accrued) && (settles ==> Complete(c, f.kind.terminal)))
  {
    hide Keys;
    hide AllComplete;
    var next := NextUp(l, c, f, persisted);
    if next.accrued != l.accrued {
      var turn := next.accrued[|l.accrued|];
      assert next.accrued == l.accrued + [turn];
      KeysPush(l.accrued, turn);
      assert Costs(next.accrued) == Costs(l.accrued) + [turn.cost];
    }
  }

  /** What a session owes: the assessed cost of every terminal that settles, unless it failed or nobody pays. */
  function Owed(l: Ledger, c: Config, events: seq<Event>): seq<int>
    decreases |events|
  {
    if events == [] then []
    else
      var due := match events[0]
        case Down(_) => []
        case Up(f, persisted) =>
          if Settles(l.queue != [], Keys(l.accrued), c, f, persisted) then [Due(c, f.kind.terminal)] else [];
      due + Owed(Next(l, c, events[0]), c, events[1..])
  }

  /** Over every session the charges are exactly those. With Tallied: the accrued total is their capped sum. */
  lemma {:induction false} SessionCost(l: Ledger, c: Config, events: seq<Event>)
    ensures Costs(Session(l, c, events).accrued) == Costs(l.accrued) + Owed(l, c, events)
    decreases |events|
  {
    hide NextUp;
    hide Settles;
    hide Due;
    if events != [] {
      match events[0] {
        case Down(f) => assert Next(l, c, events[0]).accrued == l.accrued;
        case Up(f, persisted) => FrameCost(l, c, f, persisted);
      }
      SessionCost(Next(l, c, events[0]), c, events[1..]);
    }
  }

  /** A failed terminal is settled free of charge, and leaves the accrued cost and its completeness as they were. */
  lemma FailedTurnIsFree(l: Ledger, c: Config, f: UpFrame, persisted: Persisted)
    requires c.persists && f.kind.Final? && f.kind.terminal.failed
    ensures var next := NextUp(l, c, f, persisted);
            && Sum(Costs(next.accrued)) == Sum(Costs(l.accrued))
            && (AllComplete(next.accrued) <==> AllComplete(l.accrued))
  {
    hide NextUp;
    FrameCost(l, c, f, persisted);
    SumPush(Costs(l.accrued), 0);
    assert Costs(l.accrued) + [] == Costs(l.accrued);
  }

  /** A session that is not billable, or has no durable store, never accrues anything. */
  lemma {:induction false} NothingChargedUnbillable(l: Ledger, c: Config, events: seq<Event>)
    requires !(c.persists && c.billable) && Sum(Costs(l.accrued)) == 0
    ensures Sum(Costs(Session(l, c, events).accrued)) == 0
  {
    SessionCost(l, c, events);
    NothingOwed(l, c, events);
    SumConcat(Costs(l.accrued), Owed(l, c, events));
  }

  lemma {:induction false} NothingOwed(l: Ledger, c: Config, events: seq<Event>)
    requires !(c.persists && c.billable)
    ensures Sum(Owed(l, c, events)) == 0
    decreases |events|
  {
    hide Next;
    hide Settles;
    if events != [] {
      var rest := Owed(Next(l, c, events[0]), c, events[1..]);
      NothingOwed(Next(l, c, events[0]), c, events[1..]);
      SumConcat([0], rest);
      SumConcat([], rest);
      SumPush([], 0);
      assert [] + [0] == [0];
    }
  }

  // ---------- What a frame does to the record ----------

  predicate Adds(total: Usage, before: Usage, u: Usage) {
    && total.prompt == Cap(before.prompt + u.prompt) && total.completion == Cap(before.completion + u.completion)
    && total.cached == Cap(before.cached + u.cached) && total.cacheWrite == Cap(before.cacheWrite + u.cacheWrite)
    && total.reasoning == Cap(before.reasoning + u.reasoning) && total.total == Cap(before.total + u.total)
  }

  /** What an upstream frame does to each counter and to the waiting turns. */
  ghost predicate Moves(r: Record, s: Record, c: Config, f: UpFrame, persisted: Persisted) {
    && s.requestBytes == r.requestBytes && s.forwardedBytes == r.forwardedBytes
    && s.responseBytes == r.responseBytes + (if Counts(r.currentActive, r.seenTurns, c, f) then f.size else 0)
    && if Settles(r.currentActive, r.seenTurns, c, f, persisted) then
         var t := f.kind.terminal;
         && s.turnsSeen == r.turnsSeen + 1 && s.seenTurns == r.seenTurns + {t.key}
         && s.accruedNanoUSD == Cap(r.accruedNanoUSD + Due(c, t))
         && s.pricingComplete == ((r.turnsSeen == 0 || r.pricingComplete) && Complete(c, t))
         && Adds(s.result, r.result, t.usage)
         && (if r.pending == [] then !s.currentActive && s.pending == []
             else && s.currentActive && s.pending == r.pending[1..] && IsStep(s, r.pending[0])
                  && s.notes == Notes("", 0, 0))
       else
         && s.turnsSeen == r.turnsSeen && s.seenTurns == r.seenTurns && s.accruedNanoUSD == r.accruedNanoUSD
         && s.pricingComplete == r.pricingComplete && s.result == r.result && s.pending == r.pending
         && s.currentActive == (r.currentActive || Opens(r.currentActive, c, f))
         && (if Opens(r.currentActive, c, f) then
               && s.current == Start(r.current.meta, f.at, "") && s.currentResponse == f.size
               && s.currentRequest == 0 && s.currentForwarded == 0
             else
               && s.current == r.current && s.currentRequest == r.currentRequest
                   && s.currentForwarded == r.currentForwarded
               && s.currentResponse - r.currentResponse == s.responseBytes - r.responseBytes)
         && (Counts(r.currentActive, r.seenTurns, c, f) ==>
               Noted(s.notes, if Opens(r.currentActive, c, f) then Notes("", 0, 0) else r.notes, f))
  }

  /** The model the frame names, and the times of the first frame and of the first token, are noted once. */
  ghost predicate Noted(s: Notes, r: Notes, f: UpFrame) {
    && s.model == (if f.model != "" then f.model else r.model)
    && s.first == (if r.first == 0 then f.at else r.first)
    && s.firstToken == (if r.firstToken == 0 && f.generated then f.at else r.firstToken)
  }

  /** The active turn is p, and nothing has arrived for it. */
  ghost predicate IsStep(s: Record, p: Pending) {
    s.current == p.start && s.currentRequest == p.request && s.currentForwarded == p.forwarded && s.currentResponse == 0
  }

  /** The record after a frame for the active turn. */
  function HeardRecord(r: Record, c: Config, f: UpFrame, persisted: Persisted): Record {
    var named := if f.model == "" then r.notes else r.notes.(model := f.model);
    if f.kind.Final? && f.kind.terminal.key in r.seenTurns then r.(notes := named)
    else
      var counted := r.(responseBytes := r.responseBytes + f.size, currentResponse := r.currentResponse + f.size,
                        notes := Timed(named, f));
      if f.kind.Final?
          && (!c.persists || persisted.Inserted?) then SettledRecord(counted, c, f.kind.terminal) else counted
  }

  /** What a client frame does to them. */
  ghost predicate Sends(r: Record, s: Record, f: DownFrame) {
    && s.requestBytes == r.requestBytes + f.size
    && s.forwardedBytes == r.forwardedBytes + (if f.prepared.Rejected? then 0 else f.prepared.forwarded)
    && s.responseBytes == r.responseBytes && s.turnsSeen == r.turnsSeen && s.seenTurns == r.seenTurns
    && s.accruedNanoUSD == r.accruedNanoUSD && s.pricingComplete == r.pricingComplete && s.result == r.result
    && match f.prepared
       case Rejected(meta) => Joins(r, s, Pending(Start(meta, f.at, f.body), f.size, 0))
       case StartsTurn(meta, forwarded) => Joins(r, s, Pending(Start(meta, f.at, f.body), f.size, forwarded))
       case Continues(forwarded) =>
         && s.currentActive == r.currentActive && s.current == r.current && s.pending == r.pending
         && s.currentRequest == r.currentRequest + f.size && s.currentForwarded == r.currentForwarded + forwarded
         && s.currentResponse == r.currentResponse
  }

  /** p waits behind the active turn, or is active. */
  ghost predicate Joins(r: Record, s: Record, p: Pending) {
    && s.currentActive
    && if r.currentActive then
         && s.pending == r.pending + [p] && s.current == r.current && s.currentRequest == r.currentRequest
         && s.currentForwarded == r.currentForwarded && s.currentResponse == r.currentResponse
       else s.pending == r.pending && IsStep(s, p)
  }

  lemma JoiningSends(r: Record, f: DownFrame, p: Pending)
    requires match f.prepared
             case Rejected(meta) => p == Pending(Start(meta, f.at, f.body), f.size, 0)
             case StartsTurn(meta, forwarded) => p == Pending(Start(meta, f.at, f.body), f.size, forwarded)
             case Continues(_) => false
    ensures var seen := r.(requestBytes := r.requestBytes + f.size, forwardedBytes := r.forwardedBytes + p.forwarded);
            Sends(r, if seen.currentActive then seen.(pending := seen.pending + [p]) else seen.Started(p), f)
  {
  }

  lemma ContinuingSends(r: Record, f: DownFrame)
    requires f.prepared.Continues?
    ensures var forwarded := f.prepared.forwarded;
            Sends(r, r.(requestBytes := r.requestBytes + f.size, forwardedBytes := r.forwardedBytes + forwarded,
                        currentRequest := r.currentRequest + f.size,
                        currentForwarded := r.currentForwarded + forwarded), f)
  {
  }

  lemma NothingMoves(r: Record, c: Config, f: UpFrame, persisted: Persisted)
    requires f.quota || (!r.currentActive && !Opens(r.currentActive, c, f))
    ensures Moves(r, r, c, f, persisted)
  {
  }

  lemma HeardMoves(r: Record, begun: Record, c: Config, f: UpFrame, persisted: Persisted)
    requires !f.quota && begun.currentActive
    requires begun == if Opens(r.currentActive, c, f) then r.Started(Pending(Start(r.current.meta, f.at, ""), 0, 0))
              else r
    requires f.kind.Final? ==> f.kind.terminal.usage.Valid() && Count(f.kind.terminal.assessedCost)
    requires Count(r.accruedNanoUSD) && r.result.Valid() && 0 <= r.turnsSeen
    ensures Moves(r, HeardRecord(begun, c, f, persisted), c, f, persisted)
  {
  }

  lemma PaysExactly(r: Record, s: Record, c: Config, f: UpFrame, persisted: Persisted)
    requires Moves(r, s, c, f, persisted) && Count(r.accruedNanoUSD)
    ensures s.accruedNanoUSD ==
              if f.kind.Final? && !f.quota && r.currentActive && f.kind.terminal.key !in r.seenTurns
                 && c.persists && persisted.Inserted? && c.billable && !f.kind.terminal.failed
              then if r.accruedNanoUSD + f.kind.terminal.assessedCost > 9_223_372_036_854_775_807
                   then 9_223_372_036_854_775_807 else r.accruedNanoUSD + f.kind.terminal.assessedCost
              else r.accruedNanoUSD
  {
  }

  lemma RunningTotals(r: Record, l: Ledger)
    requires Describes(r, l, 0, 0)
    ensures Count(r.accruedNanoUSD) && r.result.Valid() && 0 <= r.turnsSeen
  {
    assert Tallied(r, l.accrued);
    hide Describes;
    SumNonNegative(Costs(l.accrued));
    RunningUsage(l.accrued, r.result, Prompt);
    RunningUsage(l.accrued, r.result, Completion);
    RunningUsage(l.accrued, r.result, Cached);
    RunningUsage(l.accrued, r.result, CacheWrite);
    RunningUsage(l.accrued, r.result, Reasoning);
    RunningUsage(l.accrued, r.result, Total);
    hide IsUsageSum;
  }

  lemma RunningUsage(accrued: seq<Turn>, total: Usage, field: Field)
    requires Charged(accrued) && IsUsageSum(total, accrued)
    ensures Count(Amount(total, field))
  {
    SumNonNegative(Column(accrued, field));
  }

  /** The session's accounting record. */
  class Accounting {
    const config: Config
    var turnsSeen: int
    var accruedNanoUSD: int
    var pricingComplete: bool
    var result: Usage
    var requestBytes: int
    var forwardedBytes: int
    var responseBytes: int
    var terminalSeen: bool
    var currentActive: bool
    var current: Start
    var currentRequest: int
    var currentForwarded: int
    var currentResponse: int
    var currentModel: string
    var currentFirst: int
    var currentFirstToken: int
    var pending: seq<Pending>
    var seenTurns: set<string>
    ghost var ledger: Ledger

    ghost function Fields(): Record
      reads this
    {
      Record(turnsSeen, accruedNanoUSD, pricingComplete, result, requestBytes, forwardedBytes, responseBytes,
             currentActive, current, currentRequest, currentForwarded, currentResponse,
             Notes(currentModel, currentFirst, currentFirstToken), pending, seenTurns)
    }

    /** Order, keys and every running total are what the ledger says. */
    ghost predicate Valid()
      reads this
    {
      Describes(Fields(), ledger, 0, 0)
    }

    /** The state when the pumps start: the first frame has begun a turn. */
    constructor (config: Config, first: Start, request: nat, forwarded: nat)
      ensures Valid() && this.config == config
      ensures ledger == Begin(Ledger([], [], [], 0, 0), Step(first, request, forwarded, 0, UNNOTED))
    {
      hide Describes;
      this.config := config;
      turnsSeen, accruedNanoUSD, pricingComplete := 0, 0, false;
      result := Usage(0, 0, 0, 0, 0, 0);
      requestBytes, forwardedBytes, responseBytes := request, forwarded, 0;
      terminalSeen, currentActive, current := false, true, first;
      currentRequest, currentForwarded, currentResponse := request, forwarded, 0;
      currentModel, currentFirst, currentFirstToken := "", 0, 0;
      pending, seenTurns := [], {};
      ledger := Begin(Ledger([], [], [], 0, 0), Step(first, request, forwarded, 0, UNNOTED));
      new;
      DescribesFirst(Fields(), Ledger([], [], [], 0, 0), Step(first, request, forwarded, 0, UNNOTED));
    }

    /** The turn begins with counters and notes of its own. */
    method StartStep(p: Pending)
      modifies this`currentActive, this`current, this`currentRequest, this`currentForwarded, this`currentResponse,
               this`currentModel, this`currentFirst, this`currentFirstToken
      ensures currentActive && current == p.start && Fields().notes == UNNOTED
      ensures currentRequest == p.request && currentForwarded == p.forwarded && currentResponse == 0
    {
      currentActive, current := true, p.start;
      currentFirst, currentFirstToken, currentModel := 0, 0, "";
      currentRequest, currentForwarded, currentResponse := p.request, p.forwarded, 0;
    }

    /** Begin now, or queue behind the active turn. */
    method Enqueue(p: Pending)
      requires Describes(Fields(), ledger, p.request, p.forwarded)
      modifies this
      ensures Valid() && ledger == Begin(old(ledger), AsStep(p)) && currentActive
      ensures Fields() == if old(currentActive) then old(Fields()).(pending := old(pending) + [p])
                          else old(Fields()).Started(p)
      ensures accruedNanoUSD == old(accruedNanoUSD) && seenTurns == old(seenTurns) && terminalSeen == old(terminalSeen)
    {
      hide Describes;
      DescribesBegin(Fields(), ledger, p);
      ledger := Begin(ledger, AsStep(p));
      if currentActive {
        pending := pending + [p];
      } else {
        StartStep(p);
      }
    }

    /** One client frame: a rejected or accepted response.create begins a turn, anything else adds to the active one. */
    method DownstreamFrame(f: DownFrame) returns (reply: Reply)
      requires Valid()
      modifies this
      ensures Valid() && ledger == NextDown(old(ledger), f)
      ensures Sends(old(Fields()), Fields(), f)
      ensures reply == if f.prepared.Rejected? then Fail else Forward
      ensures !currentActive ==> Fields().notes == old(Fields()).notes
      ensures accruedNanoUSD == old(accruedNanoUSD) && seenTurns == old(seenTurns)
    {
      hide Describes;
      hide Sends;
      ghost var r := Fields();
      hide Begin;
      hide Continue;
      SeenFrame(Fields(), ledger, f.size, if f.prepared.Rejected? then 0 else f.prepared.forwarded);
      requestBytes := requestBytes + f.size;
      match f.prepared {
        case Rejected(meta) =>
          JoiningSends(r, f, Pending(Start(meta, f.at, f.body), f.size, 0));
          Enqueue(Pending(Start(meta, f.at, f.body), f.size, 0));
          return Fail;
        case StartsTurn(meta, forwarded) =>
          forwardedBytes := forwardedBytes + forwarded;
          JoiningSends(r, f, Pending(Start(meta, f.at, f.body), f.size, forwarded));
          Enqueue(Pending(Start(meta, f.at, f.body), f.size, forwarded));
          return Forward;
        case Continues(forwarded) =>
          forwardedBytes := forwardedBytes + forwarded;
          ContinuingSends(r, f);
          AddToTurn(f.size, forwarded);
          return Forward;
      }
    }

    /** More of the active turn. */
    method AddToTurn(size: nat, forwarded: nat)
      requires Describes(Fields(), ledger, size, forwarded)
      modifies this`currentRequest, this`currentForwarded, this`ledger
      ensures Valid() && ledger == Continue(old(ledger), size, forwarded)
      ensures Fields() == old(Fields()).(currentRequest := old(currentRequest) + size,
                                         currentForwarded := old(currentForwarded) + forwarded)
    {
      hide Describes;
      DescribesContinue(Fields(), ledger, size, forwarded);
      currentRequest := currentRequest + size;
      currentForwarded := currentForwarded + forwarded;
      ledger := Continue(ledger, size, forwarded);
    }

    /** One upstream frame. A terminal settles the active turn once its charge is durable. */
    method UpstreamFrame(f: UpFrame, persisted: Persisted) returns (reply: Reply)
      requires Valid()
      requires f.kind.Final? ==> f.kind.terminal.usage.Valid() && Count(f.kind.terminal.assessedCost)
      modifies this
      ensures Valid() && ledger == NextUp(old(ledger), config, f, persisted)
      // every counter and the waiting turns, after every frame
      ensures Moves(old(Fields()), Fields(), config, f, persisted)
      // in particular the charge: the assessed cost of a new, durable terminal that did not fail, and nothing else
      ensures accruedNanoUSD ==
                if f.kind.Final? && !f.quota && old(currentActive) && f.kind.terminal.key !in old(seenTurns)
                   && config.persists && persisted.Inserted? && config.billable && !f.kind.terminal.failed
                then if old(accruedNanoUSD) + f.kind.terminal.assessedCost > 9_223_372_036_854_775_807
                     then 9_223_372_036_854_775_807 else old(accruedNanoUSD) + f.kind.terminal.assessedCost
                else old(accruedNanoUSD)
      // the model, after every frame: of the active turn what its ledger entry says, otherwise the last one named
      ensures currentModel ==
                if currentActive then ledger.Model()
                else if old(currentActive) && f.model != "" then f.model else old(currentModel)
      ensures terminalSeen == (old(terminalSeen) || (f.kind.Final? && !f.quota && old(currentActive)
                                                     && f.kind.terminal.key !in old(seenTurns)))
      // a replayed terminal touches no field but the model, and not that either exactly when it names no new one
      ensures f.kind.Final? && f.kind.terminal.key in old(seenTurns) ==>
                && Fields() == old(Fields()).(notes := old(Fields()).notes.(model := currentModel))
                && (currentModel == old(currentModel)
                    <==> f.quota || !old(currentActive) || f.model == "" || f.model == old(currentModel))
      // the reply, after every frame: a terminal that settles a turn goes on only once its charge is durable
      ensures reply.Drop? <==> f.quota
      ensures reply.Fail? <==> !f.quota && f.kind.Final? && old(currentActive)
                               && f.kind.terminal.key !in old(seenTurns) && config.persists && persisted.PersistError?
      ensures reply.Fail? ==> ledger.accrued == old(ledger).accrued
      ensures reply.Forward? && f.kind.Final? && old(currentActive) && config.persists ==>
                f.kind.terminal.key in seenTurns || persisted.Duplicate?
    {
      hide Describes;
      hide Begin;
      hide Moves;
      hide Heard;
      ghost var r := Fields();
      QueueFacts(r, ledger, 0, 0);
      RunningTotals(r, ledger);
      if f.quota {
        NothingMoves(r, config, f, persisted);
        return Drop;
      }
      if !currentActive && config.realtime && f.kind.Created? {
        Enqueue(Pending(Start(current.meta, f.at, ""), 0, 0));
      }
      assert ledger == Opened(old(ledger), config, f);
      QueueFacts(Fields(), ledger, 0, 0);
      if !currentActive {
        NothingMoves(r, config, f, persisted);
        return Forward;
      }
      HeardMoves(r, Fields(), config, f, persisted);
      PaysExactly(r, HeardRecord(Fields(), config, f, persisted), config, f, persisted);
      hide HeardRecord;
      reply := ActiveFrame(f, persisted);
    }

    /** A frame while a turn is active. */
    method ActiveFrame(f: UpFrame, persisted: Persisted) returns (reply: Reply)
      requires Valid() && currentActive && ledger.queue != []
      requires f.kind.Final? ==> f.kind.terminal.usage.Valid() && Count(f.kind.terminal.assessedCost)
      modifies this
      ensures Valid() && ledger == Heard(old(ledger), config, f, persisted)
      ensures Fields() == HeardRecord(old(Fields()), config, f, persisted)
      ensures currentModel == if currentActive then ledger.Model() else if f.model != "" then f.model
                else old(currentModel)
      ensures terminalSeen == (old(terminalSeen) || (f.kind.Final? && f.kind.terminal.key !in old(seenTurns)))
      ensures f.kind.Final? && f.kind.terminal.key in old(seenTurns) ==>
                && Fields() == old(Fields()).(notes := old(Fields()).notes.(model := currentModel))
                && (currentModel == old(currentModel) <==> f.model == "" || f.model == old(currentModel))
      ensures !reply.Drop?
      ensures reply.Fail? <==> f.kind.Final? && f.kind.terminal.key !in old(seenTurns) && config.persists
                               && persisted.PersistError?
      ensures reply.Fail? ==> ledger.accrued == old(ledger).accrued
      ensures reply.Forward? && f.kind.Final? && config.persists ==>
                f.kind.terminal.key in seenTurns || persisted.Duplicate?
    {
      hide Describes;
      hide Respond;
      hide Settle;
      hide SettledRecord;
      hide Timed;
      QueueFacts(Fields(), ledger, 0, 0);
      Name(f.model);
      QueueFacts(Fields(), ledger, 0, 0);
      if f.kind.Final? && f.kind.terminal.key in seenTurns {
        return Forward;
      }
      Observe(f);
      QueueFacts(Fields(), ledger, 0, 0);
      if !f.kind.Final? {
        return Forward;
      }
      if config.persists && persisted.PersistError? {
        return Fail;
      }
      if config.persists && persisted.Duplicate? {
        return Forward;
      }
      SettleActive(f.kind.terminal);
      QueueFacts(Fields(), ledger, 0, 0);
      return Forward;
    }

    /** A frame that names a model renames the active turn. */
    method Name(model: string)
      requires Valid() && currentActive
      modifies this`currentModel, this`ledger
      ensures Valid() && ledger == Named(old(ledger), model)
      ensures Fields() == old(Fields()).(notes := old(Fields()).notes.(model := currentModel))
      ensures currentModel == if model == "" then old(currentModel) else model
    {
      hide Describes;
      DescribesNamed(Fields(), ledger, model);
      ledger := Named(ledger, model);
      if model != "" {
        currentModel := model;
      }
    }

    /** The first frame of the turn, its first generated token, and whether a terminal was ever seen. */
    method MarkTimes(f: UpFrame)
      modifies this`currentFirstToken, this`currentFirst, this`terminalSeen
      ensures Fields().notes == Timed(old(Fields()).notes, f)
      ensures terminalSeen == (old(terminalSeen) || f.kind.Final?)
    {
      if currentFirstToken == 0 && f.generated {
        currentFirstToken := f.at;
      }
      if currentFirst == 0 {
        currentFirst := f.at;
      }
      terminalSeen := terminalSeen || f.kind.Final?;
    }

    /** Count the frame towards the active turn and note its first times. */
    method Observe(f: UpFrame)
      requires Valid() && currentActive
      modifies this
      ensures seenTurns == old(seenTurns) && currentActive && currentModel == old(currentModel)
      ensures Fields() == old(Fields()).(responseBytes := old(responseBytes) + f.size,
                                         currentResponse := old(currentResponse) + f.size,
                                         notes := Timed(old(Fields()).notes, f))
      ensures old(ledger).queue != [] && ledger == Respond(old(ledger), f) && Valid()
      ensures ledger.queue != [] && ledger.accrued == old(ledger).accrued
      ensures terminalSeen == (old(terminalSeen) || f.kind.Final?)
    {
      hide Describes;
      hide Respond;
      hide Timed;
      DescribesRespond(Fields(), ledger, f);
      responseBytes, currentResponse := responseBytes + f.size, currentResponse + f.size;
      ledger := Respond(ledger, f);
      MarkTimes(f);
    }

    /** A terminal failure is complete and free, whatever usage it reports. */
    method Assess(t: Terminal) returns (cost: int, complete: bool)
      ensures (cost, complete) == Charge(config, t)
      ensures config.persists && t.failed ==> cost == 0 && complete
      ensures cost != 0 ==> config.persists && config.billable && !t.failed && cost == t.assessedCost
    {
      cost, complete := 0, t.nonGenerated;
      if config.persists {
        if config.billable {
          cost, complete := t.assessedCost, t.assessedComplete;
        }
        if t.failed {
          cost, complete := 0, true;
        }
      } else {
        complete := t.found || t.nonGenerated;
      }
    }

    method SettleActive(t: Terminal)
      requires Valid() && currentActive && t.key !in seenTurns && ledger.queue != []
      requires t.usage.Valid() && Count(t.assessedCost)
      modifies this
      ensures ledger == Settle(old(ledger), config, t)
      ensures Valid() && terminalSeen == old(terminalSeen) && t.key in seenTurns
      ensures Fields() == SettledRecord(old(Fields()), config, t)
      ensures !currentActive ==> currentModel == old(currentModel)
    {
      hide Describes;
      hide Settle;
      hide Merge;
      hide SaturatingAdd;
      hide Count;
      hide Charge;
      hide Promoted;
      hide TalliedRecord;
      DescribesSettle(Fields(), ledger, config, t);
      ledger := Settle(ledger, config, t);
      var cost, complete := Assess(t);
      Tally(t, cost, complete);
      Promote();
      QueueFacts(Fields(), ledger, 0, 0);
      SettledKeySeen(old(ledger), config, t);
    }

    method Tally(t: Terminal, cost: int, complete: bool)
      modifies this`turnsSeen, this`pricingComplete, this`accruedNanoUSD, this`result, this`seenTurns,
          this`currentActive
      ensures Fields() == TalliedRecord(old(Fields()), t.key, cost, complete, t.usage)
    {
      hide SaturatingAdd;
      hide Merge;
      turnsSeen, pricingComplete := turnsSeen + 1, if turnsSeen > 0 then pricingComplete && complete else complete;
      accruedNanoUSD, result := SaturatingAdd(accruedNanoUSD, cost), Merge(result, t.usage);
      seenTurns, currentActive := seenTurns + {t.key}, false;
    }

    method Promote()
      modifies this
      ensures Fields() == Promoted(old(Fields()))
      ensures terminalSeen == old(terminalSeen) && ledger == old(ledger)
      ensures if old(pending) == [] then currentModel == old(currentModel) else currentActive
    {
      if pending != [] {
        var next := pending[0];
        pending := pending[1..];
        StartStep(next);
      }
    }
  }

  lemma SeenFrame(r: Record, l: Ledger, request: nat, forwarded: nat)
    requires Describes(r, l, 0, 0)
    ensures Describes(r.(requestBytes := r.requestBytes + request, forwardedBytes := r.forwardedBytes + forwarded),
                      l, request, forwarded)
  {
  }
}
