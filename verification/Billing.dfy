/** The usage fold of internal/billing/usage.go, over already decoded events. */
module Billing {
  import opened Int64

  /** One decoded usage object; absent or non-positive numbers are 0. explicitCache says that the event names
      its cache reads or writes outside the input count. */
  datatype RawUsage = RawUsage(inputTokens: int, promptTokens: int,
                               cachedTokens: int, cacheReadInput: int,
                               inputDetailsCached: int, promptDetailsCached: int,
                               cacheCreationInput: int, cacheWriteTokens: int,
                               inputDetailsWrite: int, promptDetailsWrite: int,
                               explicitCache: bool,
                               outputTokens: int, completionTokens: int, totalTokens: int,
                               reasoningTokens: int, outputDetailsReasoning: int,
                               inputImageTokens: int, inputDetailsImage: int,
                               cachedImageTokens: int, inputDetailsCachedImage: int, cachedDetailsImage: int,
                               outputImageTokens: int, outputDetailsImage: int, imageGeneration: bool)

  datatype Usage = Usage(prompt: int, completion: int, total: int, cached: int, cacheWrite: int, reasoning: int,
                         imageInput: int, cachedImageInput: int, imageOutput: int)

  const ZERO := Usage(0, 0, 0, 0, 0, 0, 0, 0, 0)

  function MaxInt(values: seq<int>): int {
    if values == [] then 0 else Max(MaxInt(values[..|values|-1]), values[|values|-1])
  }

  function SaturatingSum(values: seq<int>): int {
    if values == [] then 0
    else
      var sum, value := SaturatingSum(values[..|values|-1]), values[|values|-1];
      if value <= 0 then sum else if sum > MAX - value then MAX else sum + value
  }

  /** The counters one event contributes. */
  function Contribution(e: RawUsage): Usage {
    var input := MaxInt([e.inputTokens, e.promptTokens]);
    var cacheRead := MaxInt([e.cachedTokens, e.cacheReadInput, e.inputDetailsCached, e.promptDetailsCached]);
    var cacheWrite := MaxInt([e.cacheCreationInput, e.cacheWriteTokens, e.inputDetailsWrite, e.promptDetailsWrite]);
    var imageOutput := MaxInt([e.outputImageTokens, e.outputDetailsImage]);
    Usage(if e.explicitCache then SaturatingSum([input, cacheRead]) else input,
          MaxInt([e.outputTokens, e.completionTokens]), e.totalTokens, cacheRead, cacheWrite,
          MaxInt([e.reasoningTokens, e.outputDetailsReasoning]),
          MaxInt([e.inputImageTokens, e.inputDetailsImage]),
          MaxInt([e.cachedImageTokens, e.inputDetailsCachedImage, e.cachedDetailsImage]),
          if imageOutput == 0 && e.imageGeneration then e.outputTokens else imageOutput)
  }

  datatype Field = Prompt | Completion | Total | Cached | CacheWrite | Reasoning | ImageInput | CachedImageInput
      | ImageOutput

  function Amount(u: Usage, field: Field): int {
    match field
    case Prompt => u.prompt
    case Completion => u.completion
    case Total => u.total
    case Cached => u.cached
    case CacheWrite => u.cacheWrite
    case Reasoning => u.reasoning
    case ImageInput => u.imageInput
    case CachedImageInput => u.cachedImageInput
    case ImageOutput => u.imageOutput
  }

  /** Join: the larger of each field, from zero up. */
  function Join(a: Usage, b: Usage): Usage {
    Usage(MaxInt([a.prompt, b.prompt]), MaxInt([a.completion, b.completion]), MaxInt([a.total, b.total]),
          MaxInt([a.cached, b.cached]), MaxInt([a.cacheWrite, b.cacheWrite]), MaxInt([a.reasoning, b.reasoning]),
          MaxInt([a.imageInput, b.imageInput]), MaxInt([a.cachedImageInput, b.cachedImageInput]),
          MaxInt([a.imageOutput, b.imageOutput]))
  }

  /** The last step of parsing: total covers prompt, cache writes and completion. */
  function Lifted(u: Usage): Usage {
    u.(total := MaxInt([u.total, SaturatingSum([u.prompt, u.cacheWrite, u.completion])]))
  }

  /** m is the least upper bound of 0 and the field over the events. */
  ghost predicate IsMaximum(m: int, events: seq<RawUsage>, field: Field) {
    && 0 <= m && (forall e | e in events :: Amount(Contribution(e), field) <= m)
    && (m == 0 || exists e | e in events :: Amount(Contribution(e), field) == m)
  }

  lemma Max2(a: int, b: int)
    ensures MaxInt([a, b]) == Max(Max(0, a), b)
  {
    assert [a, b][..1] == [a] && [a][..0] == [];
    assert MaxInt([a]) == Max(MaxInt([]), a);
  }

  lemma JoinAmount(a: Usage, b: Usage, field: Field)
    ensures Amount(Join(a, b), field) == Max(Max(0, Amount(a, field)), Amount(b, field))
  {
    Max2(Amount(a, field), Amount(b, field));
  }

  /** Every counter is the maximum over the events, and the total is lifted at the end. */
  ghost predicate IsParse(result: Usage, events: seq<RawUsage>) {
    exists joined: Usage ::
      result == Lifted(joined) && forall field: Field :: IsMaximum(Amount(joined, field), events, field)
  }

  /** The events read into one result; the order of the source's own reads within a payload is the order given. */
  method ParseResponse(events: seq<RawUsage>) returns (result: Usage)
    ensures IsParse(result, events)
  {
    result := ZERO;
    for i := 0 to |events|
      invariant forall field: Field :: IsMaximum(Amount(result, field), events[..i], field)
    {
      ghost var before := result;
      result := Join(result, Contribution(events[i]));
      forall field: Field ensures IsMaximum(Amount(result, field), events[..i+1], field) {
        JoinAmount(before, Contribution(events[i]), field);
        MaximumPush(Amount(before, field), events[..i], events[i], field);
        assert events[..i+1] == events[..i] + [events[i]];
      }
    }
    assert events[..|events|] == events;
    result := Lifted(result);
  }

  lemma MaximumPush(m: int, events: seq<RawUsage>, e: RawUsage, field: Field)
    requires IsMaximum(m, events, field)
    ensures IsMaximum(Max(Max(0, m), Amount(Contribution(e), field)), events + [e], field)
  {
    var amount := Amount(Contribution(e), field);
    hide Contribution;
    hide Amount;
    assert e in events + [e];
    if amount <= m && m != 0 {
      var x :| x in events && Amount(Contribution(x), field) == m;
      assert x in events + [e];
    }
  }

  lemma MaximumIsUnique(m: int, n: int, xs: seq<RawUsage>, ys: seq<RawUsage>, field: Field)
    requires IsMaximum(m, xs, field) && IsMaximum(n, ys, field)
    requires forall e | e in xs :: e in ys
    ensures m <= n
  {
    hide Contribution;
    hide Amount;
  }

  lemma SumMonotone(a: int, b: int, c: int, x: int, y: int, z: int)
    requires 0 <= a <= x && 0 <= b <= y && 0 <= c <= z
    requires x <= MAX && y <= MAX && z <= MAX
    ensures SaturatingSum([a, b, c]) == Cap(a + b + c)
    ensures SaturatingSum([a, b, c]) <= SaturatingSum([x, y, z])
  {
    ThreeSum(a, b, c);
    ThreeSum(x, y, z);
  }

  lemma ThreeSum(a: int, b: int, c: int)
    requires Count(a) && Count(b) && Count(c)
    ensures SaturatingSum([a, b, c]) == Cap(a + b + c)
  {
    assert [a, b, c][..2] == [a, b] && [a, b][..1] == [a] && [a][..0] == [];
    assert SaturatingSum([a]) == a;
    assert SaturatingSum([a, b]) == Cap(a + b);
  }

  predicate Bounded(u: Usage) {
    Count(u.prompt) && Count(u.completion) && Count(u.cacheWrite)
  }

  lemma LiftMonotone(u: Usage, v: Usage)
    requires Bounded(u) && Bounded(v) && forall field: Field :: Amount(u, field) <= Amount(v, field)
    ensures forall field: Field :: Amount(Lifted(u), field) <= Amount(Lifted(v), field)
  {
    assert Amount(u, Prompt) <= Amount(v, Prompt) && Amount(u, Completion) <= Amount(v, Completion);
    assert Amount(u, CacheWrite) <= Amount(v, CacheWrite) && Amount(u, Total) <= Amount(v, Total);
    SumMonotone(u.prompt, u.cacheWrite, u.completion, v.prompt, v.cacheWrite, v.completion);
    Max2(u.total, SaturatingSum([u.prompt, u.cacheWrite, u.completion]));
    Max2(v.total, SaturatingSum([v.prompt, v.cacheWrite, v.completion]));
    forall field: Field ensures Amount(Lifted(u), field) <= Amount(Lifted(v), field) {
      assert field != Total ==>
          Amount(Lifted(u), field) == Amount(u, field) && Amount(Lifted(v), field) == Amount(v, field);
    }
  }

  /** Events reporting word-sized counters. */
  ghost predicate Counters(events: seq<RawUsage>) {
    forall e | e in events :: Bounded(Contribution(e))
  }

  lemma JoinedBounded(joined: Usage, events: seq<RawUsage>)
    requires Counters(events) && forall field: Field :: IsMaximum(Amount(joined, field), events, field)
    ensures Bounded(joined)
  {
    hide Contribution;
    assert IsMaximum(Amount(joined, Prompt), events, Prompt)
        && IsMaximum(Amount(joined, Completion), events, Completion)
      && IsMaximum(Amount(joined, CacheWrite), events, CacheWrite);
  }

  /** More events never lower a counter. */
  lemma ExtraEventsNeverLower(u: Usage, xs: seq<RawUsage>, v: Usage, ys: seq<RawUsage>)
    requires IsParse(u, xs) && IsParse(v, ys) && Counters(ys)
    requires forall e | e in xs :: e in ys
    ensures forall field: Field :: Amount(u, field) <= Amount(v, field)
  {
    hide Contribution;
    var a :| u == Lifted(a) && forall field: Field :: IsMaximum(Amount(a, field), xs, field);
    var b :| v == Lifted(b) && forall field: Field :: IsMaximum(Amount(b, field), ys, field);
    forall field: Field ensures Amount(a, field) <= Amount(b, field) {
      MaximumIsUnique(Amount(a, field), Amount(b, field), xs, ys, field);
    }
    JoinedBounded(a, xs);
    JoinedBounded(b, ys);
    LiftMonotone(a, b);
  }

  /** Only the set of events matters: reordering, replaying or reading them twice gives the same usage. */
  lemma OrderAndRepetitionDoNotMatter(u: Usage, xs: seq<RawUsage>, v: Usage, ys: seq<RawUsage>)
    requires IsParse(u, xs) && IsParse(v, ys) && Counters(xs)
    requires forall e :: e in xs <==> e in ys
    ensures u == v
  {
    ExtraEventsNeverLower(u, xs, v, ys);
    ExtraEventsNeverLower(v, ys, u, xs);
    assert forall field: Field :: Amount(u, field) == Amount(v, field);
    assert Amount(u, Prompt) == Amount(v, Prompt) && Amount(u, Completion) == Amount(v, Completion)
        && Amount(u, Total) == Amount(v, Total);
    assert Amount(u, Cached) == Amount(v, Cached) && Amount(u, CacheWrite) == Amount(v, CacheWrite);
    assert Amount(u, Reasoning) == Amount(v, Reasoning) && Amount(u, ImageInput) == Amount(v, ImageInput);
    assert Amount(u, CachedImageInput) == Amount(v, CachedImageInput)
        && Amount(u, ImageOutput) == Amount(v, ImageOutput);
  }

  /** m is the larger of 0 and the counter over the events. */
  ghost predicate IsLargest(m: int, events: seq<RawUsage>, counter: Usage -> int) {
    && 0 <= m && (forall e | e in events :: counter(Contribution(e)) <= m)
    && (m == 0 || exists e | e in events :: counter(Contribution(e)) == m)
  }

  /** Counter by counter: each but the total is the largest that any event contributed. */
  lemma CountersAreLargest(u: Usage, events: seq<RawUsage>)
    requires IsParse(u, events)
    ensures IsLargest(u.prompt, events, (c: Usage) => c.prompt)
    ensures IsLargest(u.completion, events, (c: Usage) => c.completion)
    ensures IsLargest(u.cached, events, (c: Usage) => c.cached)
    ensures IsLargest(u.cacheWrite, events, (c: Usage) => c.cacheWrite)
    ensures IsLargest(u.reasoning, events, (c: Usage) => c.reasoning)
    ensures IsLargest(u.imageInput, events, (c: Usage) => c.imageInput)
    ensures IsLargest(u.cachedImageInput, events, (c: Usage) => c.cachedImageInput)
    ensures IsLargest(u.imageOutput, events, (c: Usage) => c.imageOutput)
  {
    hide Contribution;
    var joined :| u == Lifted(joined) && forall field: Field :: IsMaximum(Amount(joined, field), events, field);
    OneCounter(joined, events, Prompt, (c: Usage) => c.prompt);
    OneCounter(joined, events, Completion, (c: Usage) => c.completion);
    OneCounter(joined, events, Cached, (c: Usage) => c.cached);
    OneCounter(joined, events, CacheWrite, (c: Usage) => c.cacheWrite);
    OneCounter(joined, events, Reasoning, (c: Usage) => c.reasoning);
    OneCounter(joined, events, ImageInput, (c: Usage) => c.imageInput);
    OneCounter(joined, events, CachedImageInput, (c: Usage) => c.cachedImageInput);
    OneCounter(joined, events, ImageOutput, (c: Usage) => c.imageOutput);
  }

  lemma OneCounter(joined: Usage, events: seq<RawUsage>, field: Field, counter: Usage -> int)
    requires IsMaximum(Amount(joined, field), events, field) && forall c :: counter(c) == Amount(c, field)
    ensures IsLargest(counter(joined), events, counter)
  {
    hide Contribution;
    hide Amount;
    if counter(joined) != 0 {
      var e :| e in events && Amount(Contribution(e), field) == counter(joined);
      assert counter(Contribution(e)) == counter(joined);
    }
  }

  /** The total is exactly the larger of the reported totals and of what is billed separately, saturating. */
  lemma TotalCovers(u: Usage, events: seq<RawUsage>)
    requires IsParse(u, events) && Counters(events)
    ensures Cap(u.prompt + u.cacheWrite + u.completion) <= u.total
    ensures u.total == Cap(u.prompt + u.cacheWrite + u.completion) || exists e | e in events :: e.totalTokens == u.total
    ensures (forall e | e in events :: e.totalTokens <= u.total)
  {
    var joined :| u == Lifted(joined) && forall field: Field :: IsMaximum(Amount(joined, field), events, field);
    JoinedBounded(joined, events);
    ThreeSum(joined.prompt, joined.cacheWrite, joined.completion);
    Max2(joined.total, SaturatingSum([joined.prompt, joined.cacheWrite, joined.completion]));
    assert IsMaximum(Amount(joined, Total), events, Total);
    forall e | e in events ensures e.totalTokens <= u.total {
      assert Amount(Contribution(e), Total) == e.totalTokens;
    }
    if u.total != Cap(u.prompt + u.cacheWrite + u.completion) {
      var e :| e in events && Amount(Contribution(e), Total) == joined.total;
      assert e.totalTokens == u.total;
    }
  }

  ghost predicate LargestOf(m: int, values: seq<int>) {
    0 <= m && (forall v | v in values :: v <= m) && (m == 0 || m in values)
  }

  lemma {:induction false} MaxIntIsLargest(values: seq<int>)
    ensures LargestOf(MaxInt(values), values)
  {
    if values != [] {
      MaxIntIsLargest(values[..|values|-1]);
      assert values == values[..|values|-1] + [values[|values|-1]];
    }
  }

  /** Each counter is the largest of the names providers use for it. Where cache reads are reported outside the
      input, the prompt counts both, so that the cached part never exceeds it. */
  lemma ProviderNamesAgree(e: RawUsage)
    requires Count(e.inputTokens) && Count(e.promptTokens)
    requires Count(e.cachedTokens) && Count(e.cacheReadInput) && Count(e.inputDetailsCached)
              && Count(e.promptDetailsCached)
    ensures var u := Contribution(e);
            && LargestOf(u.completion, [e.outputTokens, e.completionTokens])
            && LargestOf(u.cached, [e.cachedTokens, e.cacheReadInput, e.inputDetailsCached, e.promptDetailsCached])
            && LargestOf(u.cacheWrite,
                [e.cacheCreationInput, e.cacheWriteTokens, e.inputDetailsWrite, e.promptDetailsWrite])
            && LargestOf(u.reasoning, [e.reasoningTokens, e.outputDetailsReasoning])
            && LargestOf(u.imageInput, [e.inputImageTokens, e.inputDetailsImage])
            && LargestOf(u.cachedImageInput, [e.cachedImageTokens, e.inputDetailsCachedImage, e.cachedDetailsImage])
            && (e.outputImageTokens > 0 || e.outputDetailsImage > 0 || !e.imageGeneration ==>
                  LargestOf(u.imageOutput, [e.outputImageTokens, e.outputDetailsImage]))
            && (e.outputImageTokens <= 0 && e.outputDetailsImage <= 0 && e.imageGeneration ==>
                  u.imageOutput == e.outputTokens)
            && u.total == e.totalTokens
            && (!e.explicitCache ==> LargestOf(u.prompt, [e.inputTokens, e.promptTokens]))
            && (e.explicitCache ==> u.cached <= u.prompt && Max(e.inputTokens, e.promptTokens) <= u.prompt
                                    && u.prompt == Cap(Max(e.inputTokens, e.promptTokens) + u.cached))
  {
    var cached := [e.cachedTokens, e.cacheReadInput, e.inputDetailsCached, e.promptDetailsCached];
    MaxIntIsLargest([e.outputTokens, e.completionTokens]);
    MaxIntIsLargest(cached);
    MaxIntIsLargest([e.cacheCreationInput, e.cacheWriteTokens, e.inputDetailsWrite, e.promptDetailsWrite]);
    MaxIntIsLargest([e.reasoningTokens, e.outputDetailsReasoning]);
    MaxIntIsLargest([e.inputImageTokens, e.inputDetailsImage]);
    MaxIntIsLargest([e.cachedImageTokens, e.inputDetailsCachedImage, e.cachedDetailsImage]);
    Max2(e.outputImageTokens, e.outputDetailsImage);
    MaxIntIsLargest([e.outputImageTokens, e.outputDetailsImage]);
    MaxIntIsLargest([e.inputTokens, e.promptTokens]);
    Max2(e.inputTokens, e.promptTokens);
    TwoSum(MaxInt([e.inputTokens, e.promptTokens]), MaxInt(cached));
  }

  lemma TwoSum(a: int, b: int)
    requires Count(a) && Count(b)
    ensures SaturatingSum([a, b]) == Cap(a + b)
  {
    assert [a, b][..1] == [a] && [a][..0] == [];
    assert SaturatingSum([a]) == a;
  }
}
