/** Saturating 64-bit arithmetic, against unbounded sums. */
module Int64 {

  const MAX := 0x7fff_ffff_ffff_ffff

  /** The exact value, or the largest int64 when it does not fit. */
  function Cap(n: int): (r: int)
    ensures r <= 9_223_372_036_854_775_807 && (n <= 9_223_372_036_854_775_807 ==> r == n)
    ensures n > 9_223_372_036_854_775_807 ==> r == 9_223_372_036_854_775_807
  {
    if n > MAX then MAX else n
  }

  function Max(left: int, right: int): (r: int)
    ensures r >= left && r >= right && (r == left || r == right)
  {
    if left > right then left else right
  }

  function Min(left: int, right: int): (r: int)
    ensures r <= left && r <= right && (r == left || r == right)
  {
    if left < right then left else right
  }

  predicate Count(n: int) {
    0 <= n <= MAX
  }

  function Sum(s: seq<int>): int {
    if s == [] then 0 else Sum(s[..|s|-1]) + s[|s|-1]
  }

  lemma SumPush(s: seq<int>, x: int)
    ensures Sum(s + [x]) == Sum(s) + x
  {
    assert (s + [x])[..|s|] == s;
  }

  lemma {:induction false} SumConcat(s: seq<int>, t: seq<int>)
    ensures Sum(s + t) == Sum(s) + Sum(t)
  {
    if t == [] {
      assert s + t == s;
    } else {
      assert (s + t)[..|s + t|-1] == s + t[..|t|-1];
      SumConcat(s, t[..|t|-1]);
    }
  }

  lemma {:induction false} SumNonNegative(s: seq<int>)
    requires forall i | 0 <= i < |s| :: 0 <= s[i]
    ensures 0 <= Sum(s)
  {
    if s != [] {
      SumNonNegative(s[..|s|-1]);
    }
  }
}
