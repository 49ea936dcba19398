/** The saturating request cost of internal/pricing/cost.go. */
module Pricing {
  import opened Int64

  const MIN := -0x8000_0000_0000_0000

  predicate Word(n: int) {
    MIN <= n <= MAX
  }

  datatype Usage = Usage(prompt: int, completion: int, cached: int, cacheWrite: int, reasoning: int, total: int,
                         imageInput: int, cachedImageInput: int, imageOutput: int)
  {
    predicate Valid() {
      Word(prompt) && Word(completion) && Word(cached) && Word(cacheWrite) && Word(reasoning) && Word(total)
      && Word(imageInput) && Word(cachedImageInput) && Word(imageOutput)
    }
  }

  /** Nano dollars per token. */
  datatype Price = Price(input: int, cachedInput: int, imageInput: int, cachedImageInput: int,
                         output: int, imageOutput: int, cacheWrite: int, reasoning: int)
  {
    predicate Valid() {
      Word(input) && Word(cachedInput) && Word(imageInput) && Word(cachedImageInput)
      && Word(output) && Word(imageOutput) && Word(cacheWrite) && Word(reasoning)
    }
  }

  function SaturatingMultiply(left: int, right: int): int {
    if left <= 0 || right <= 0 then 0 else if left > MAX / right then MAX else left * right
  }

  function SaturatingAdd(left: int, right: int): int {
    if left >= MAX - right then MAX else left + right
  }

  /** Subtraction of two words, wrapping around. */
  function Minus(a: int, b: int): int {
    if a - b > MAX then a - b + 2 * MIN else if a - b < MIN then a - b - 2 * MIN else a - b
  }

  predicate ReasoningIncluded(u: Usage) {
    u.total <= u.prompt || Minus(u.total, u.prompt) <= u.completion
  }

  /** The token counts the eight rates apply to. */
  datatype Buckets = Buckets(uncachedText: int, cachedText: int, uncachedImage: int, cachedImage: int,
                             completion: int, imageOutput: int, cacheWrite: int, reasoning: int)

  function Split(u: Usage): Buckets {
    var imageInput := Min(Max(0, u.imageInput), Max(0, u.prompt));
    var cachedInput := Min(Max(0, u.cached), Max(0, u.prompt));
    var cachedImage := Min(Max(0, u.cachedImageInput), Min(imageInput, cachedInput));
    var textInput := Max(0, u.prompt - imageInput);
    var cachedText := Min(textInput, Max(0, cachedInput - cachedImage));
    var imageOutput := Min(Max(0, u.imageOutput), Max(0, u.completion));
    var completion := Max(0, u.completion - imageOutput);
    var reasoning := Max(0, u.reasoning);
    Buckets(Max(0, textInput - cachedText), cachedText, Max(0, imageInput - cachedImage), cachedImage,
            if reasoning > 0 && ReasoningIncluded(u) then Max(0, completion - reasoning) else completion,
            imageOutput, Max(0, u.cacheWrite), reasoning)
  }

  function Tokens(b: Buckets): seq<int> {
    [b.uncachedText, b.cachedText, b.uncachedImage, b.cachedImage, b.completion, b.imageOutput, b.cacheWrite,
        b.reasoning]
  }

  function Rates(p: Price): seq<int> {
    [p.input, p.cachedInput, p.imageInput, p.cachedImageInput, p.output, p.imageOutput, p.cacheWrite, p.reasoning]
  }

  /** The unbounded product; a negative rate or count charges nothing. */
  function Charge(tokens: int, rate: int): int {
    Max(0, tokens) * Max(0, rate)
  }

  function Charges(tokens: seq<int>, rates: seq<int>): (r: seq<int>)
    requires |tokens| == |rates|
    ensures |r| == |tokens| && forall i | 0 <= i < |r| :: r[i] == Charge(tokens[i], rates[i])
  {
    seq(|tokens|, i requires 0 <= i < |tokens| => Charge(tokens[i], rates[i]))
  }

  /** The exact cost, in unbounded arithmetic. */
  function ExactCost(p: Price, u: Usage): int {
    Sum(Charges(Tokens(Split(u)), Rates(p)))
  }

  lemma TimesMonotone(a: int, b: int, n: int)
    requires a <= b && 0 <= n
    ensures a * n <= b * n
  {
  }

  lemma MultiplyIsCapped(left: int, right: int)
    requires left <= MAX && right <= MAX
    ensures SaturatingMultiply(left, right) == Cap(Charge(left, right))
  {
    if left > 0 && right > 0 {
      var q := MAX / right;
      assert q * right <= MAX < q * right + right;
      if left > q {
        TimesMonotone(q + 1, left, right);
        assert (q + 1) * right == q * right + right;
      } else {
        TimesMonotone(left, q, right);
      }
      assert Charge(left, right) == left * right;
    } else {
      ZeroCharge(left, right);
    }
  }

  lemma ZeroCharge(left: int, right: int)
    requires left <= 0 || right <= 0
    ensures Charge(left, right) == 0
  {
  }

  lemma ChargeNonNegative(tokens: int, rate: int)
    ensures 0 <= Charge(tokens, rate)
  {
  }

  lemma AddIsCapped(sum: int, x: int)
    requires 0 <= sum && 0 <= x
    ensures SaturatingAdd(Cap(sum), Cap(x)) == Cap(sum + x)
  {
  }

  /** For every word-sized usage and price, negative ones included: the exact sum, or the largest word. */
  method CostNanoUSD(p: Price, u: Usage) returns (cost: int)
    requires p.Valid() && u.Valid()
    ensures cost == Cap(ExactCost(p, u)) && 0 <= cost <= MAX
    ensures
      var b := Split(u);
      var exact := b.uncachedText * Max(0, p.input) + b.cachedText * Max(0, p.cachedInput)
                   + b.uncachedImage * Max(0, p.imageInput) + b.cachedImage * Max(0, p.cachedImageInput)
                   + b.completion * Max(0, p.output) + b.imageOutput * Max(0, p.imageOutput)
                   + b.cacheWrite * Max(0, p.cacheWrite) + b.reasoning * Max(0, p.reasoning);
      cost == if exact > 9_223_372_036_854_775_807 then 9_223_372_036_854_775_807 else exact
  {
    EachAtItsRate(p, u);
    var tokens, rates := Tokens(Split(u)), Rates(p);
    ghost var charges := Charges(tokens, rates);
    forall i | 0 <= i < 8 ensures tokens[i] <= MAX && rates[i] <= MAX && 0 <= charges[i] {
      ChargeNonNegative(tokens[i], rates[i]);
    }
    assert |tokens| == |rates| == 8;
    hide Tokens;
    hide Rates;
    hide Split;
    hide Charge;
    cost := 0;
    for i := 0 to 8
      invariant cost == Cap(Sum(charges[..i])) && 0 <= Sum(charges[..i])
    {
      MultiplyIsCapped(tokens[i], rates[i]);
      AddIsCapped(Sum(charges[..i]), charges[i]);
      SumPush(charges[..i], charges[i]);
      assert charges[..i] + [charges[i]] == charges[..i+1];
      cost := SaturatingAdd(cost, SaturatingMultiply(tokens[i], rates[i]));
    }
    assert charges[..8] == charges;
  }

  /** Each bucket is charged at its own rate. */
  lemma EachAtItsRate(p: Price, u: Usage)
    ensures var b := Split(u);
            ExactCost(p, u)
            == b.uncachedText * Max(0, p.input) + b.cachedText * Max(0, p.cachedInput)
               + b.uncachedImage * Max(0, p.imageInput) + b.cachedImage * Max(0, p.cachedImageInput)
               + b.completion * Max(0, p.output) + b.imageOutput * Max(0, p.imageOutput)
               + b.cacheWrite * Max(0, p.cacheWrite) + b.reasoning * Max(0, p.reasoning)
  {
    InputPartition(u);
    InputBuckets(u);
    OutputBuckets(u);
    ExactCostSplit(p, u);
  }

  // ---------- What the split promises ----------

  /** The input buckets, from the counters alone: images first take their share of the prompt, cached images are those
      both cached and within it, and the rest of the cached tokens are text as far as there is text. */
  lemma InputBuckets(u: Usage)
    ensures
      var b := Split(u);
      var prompt, cached := Max(0, u.prompt), Min(Max(0, u.cached), Max(0, u.prompt));
      var images := Min(Max(0, u.imageInput), prompt);
      && b.cachedImage == Min(Max(0, u.cachedImageInput), Min(images, cached))
      && b.uncachedImage == images - b.cachedImage
      && b.cachedText == Min(prompt - images, cached - b.cachedImage)
      && b.uncachedText == prompt - images - b.cachedText
    ensures u.imageInput <= 0 ==> Split(u).cachedText == Min(Max(0, u.cached), Max(0, u.prompt))
                                  && Split(u).cachedImage == Split(u).uncachedImage == 0
    ensures u.cached <= 0 ==> Split(u).cachedText == Split(u).cachedImage == 0
  {
  }

  /** The output buckets: images within the completion, reasoning taken out of the rest if the total, as a word, leaves
      no
      room for it beside the completion, and cache writes. */
  lemma OutputBuckets(u: Usage)
    ensures
      var b := Split(u);
      var text := Max(0, u.completion) - Min(Max(0, u.imageOutput), Max(0, u.completion));
      var rest := u.total - u.prompt;
      var included := rest <= 0
          || (if rest <= 9_223_372_036_854_775_807 then rest else rest - 0x1_0000_0000_0000_0000) <= u.completion;
      && b.imageOutput == Min(Max(0, u.imageOutput), Max(0, u.completion))
      && b.reasoning == Max(0, u.reasoning)
      && b.completion == (if included then Max(0, text - Max(0, u.reasoning)) else text)
      && b.cacheWrite == Max(0, u.cacheWrite)
  {
  }

  /** The four input buckets are non-negative and partition the prompt; image and text keep to their share, and no
      more tokens get the cached rate than were cached. */
  lemma InputPartition(u: Usage)
    ensures var b := Split(u);
            && 0 <= b.uncachedText && 0 <= b.cachedText && 0 <= b.uncachedImage && 0 <= b.cachedImage
            && b.uncachedText + b.cachedText + b.uncachedImage + b.cachedImage == Max(0, u.prompt)
            && b.uncachedImage + b.cachedImage == Min(Max(0, u.imageInput), Max(0, u.prompt))
            && b.cachedText + b.cachedImage <= Min(Max(0, u.cached), Max(0, u.prompt))
  {
  }

  /** The output buckets never charge fewer tokens than were completed, and exactly those when the reasoning
      tokens are part of them. */
  lemma OutputCovers(u: Usage)
    ensures var b := Split(u);
            && 0 <= b.completion && 0 <= b.imageOutput && 0 <= b.reasoning
            && Max(0, u.completion) <= b.completion + b.imageOutput + b.reasoning
            && (ReasoningIncluded(u) && b.reasoning <= Max(0, u.completion) - b.imageOutput ==>
                  b.completion + b.imageOutput + b.reasoning == Max(0, u.completion))
            && (!ReasoningIncluded(u) ==>
                b.completion + b.imageOutput + b.reasoning == Max(0, u.completion) + Max(0, u.reasoning))
  {
  }

  /** Moving tokens from a dearer to a cheaper rate never raises the charge. */
  lemma ShiftSaves(total: int, fewer: int, more: int, dear: int, cheap: int)
    requires 0 <= fewer <= more <= total && cheap <= dear
    ensures Charge(total - more, dear) + Charge(more, cheap) <= Charge(total - fewer, dear) + Charge(fewer, cheap)
  {
    var d, c := Max(0, dear), Max(0, cheap);
    assert (more - fewer) * (d - c) >= 0;
    assert (total - fewer) * d + fewer * c - ((total - more) * d + more * c) == (more - fewer) * (d - c);
  }

  function PairCost(u: Usage, p: Price): int {
    var b := Split(u);
    Charge(b.uncachedText, p.input) + Charge(b.cachedText, p.cachedInput)
    + (Charge(b.uncachedImage, p.imageInput) + Charge(b.cachedImage, p.cachedImageInput))
  }

  lemma ExactCostSplit(p: Price, u: Usage)
    ensures var b := Split(u);
            ExactCost(p, u) == PairCost(u, p) + Charge(b.completion, p.output) + Charge(b.imageOutput, p.imageOutput)
                               + Charge(b.cacheWrite, p.cacheWrite) + Charge(b.reasoning, p.reasoning)
  {
    var b := Split(u);
    hide Split;
    hide Charge;
    var c := Charges(Tokens(b), Rates(p));
    assert c == [c[0], c[1], c[2], c[3], c[4], c[5], c[6], c[7]];
    SumOfEight(c[0], c[1], c[2], c[3], c[4], c[5], c[6], c[7]);
  }

  lemma SumOfEight(a: int, b: int, c: int, d: int, e: int, f: int, g: int, h: int)
    ensures Sum([a, b, c, d, e, f, g, h]) == a + b + c + d + e + f + g + h
  {
    SumPush([], a);
    SumPush([a], b);
    SumPush([a, b], c);
    SumPush([a, b, c], d);
    SumPush([a, b, c, d], e);
    SumPush([a, b, c, d, e], f);
    SumPush([a, b, c, d, e, f], g);
    SumPush([a, b, c, d, e, f, g], h);
    assert [] + [a] == [a] && [a] + [b] == [a, b] && [a, b] + [c] == [a, b, c] && [a, b, c] + [d] == [a, b, c, d];
    assert [a, b, c, d] + [e] == [a, b, c, d, e] && [a, b, c, d, e] + [f] == [a, b, c, d, e, f];
    assert [a, b, c, d, e, f] + [g] == [a, b, c, d, e, f, g] && [a, b, c, d, e, f, g] + [h] == [a, b, c, d, e, f, g, h];
  }

  /** More cached tokens never cost more, when the cached rates do not exceed the uncached ones. */
  lemma CostFallsWithCaching(p: Price, u: Usage, more: int)
    requires u.cached <= more && p.cachedInput <= p.input && p.cachedImageInput <= p.imageInput
    ensures Cap(ExactCost(p, u.(cached := more))) <= Cap(ExactCost(p, u))
  {
    var v := u.(cached := more);
    var b, c := Split(u), Split(v);
    InputPartition(u);
    InputPartition(v);
    ShiftSaves(b.uncachedText + b.cachedText, b.cachedText, c.cachedText, p.input, p.cachedInput);
    ShiftSaves(b.uncachedImage + b.cachedImage, b.cachedImage, c.cachedImage, p.imageInput, p.cachedImageInput);
    assert c.uncachedText + c.cachedText == b.uncachedText + b.cachedText;
    ExactCostSplit(p, u);
    ExactCostSplit(p, v);
  }
}
