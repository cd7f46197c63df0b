/**
 The mod-11 check digits of CNPJs (internal/foundation/cnpj/cnpj.go) and access keys
 (internal/dfe/accesskey.go): two ways to weigh characters, one digit, and what it detects.
 */
module CheckDigits {

  const FIRST_WEIGHTS: seq<nat> := [5, 4, 3, 2, 9, 8, 7, 6, 5, 4, 3, 2]
  const SECOND_WEIGHTS: seq<nat> := [6, 5, 4, 3, 2, 9, 8, 7, 6, 5, 4, 3, 2]

  /** Digits and upper-case letters, the characters a CNPJ or an access key may hold. */
  predicate KeyChar(c: char) {
    IsDigit(c) || IsLetter(c)
  }

  predicate IsDigit(c: char) { '0' <= c <= '9' }

  predicate IsLetter(c: char) { 'A' <= c <= 'Z' }

  predicate KeyText(s: string) {
    forall i :: 0 <= i < |s| ==> KeyChar(s[i])
  }

  predicate Digits(s: string) {
    forall i :: 0 <= i < |s| ==> IsDigit(s[i])
  }

  /** A character is worth its ASCII code minus 48: digits 0 to 9, letters 17 to 42. */
  function Value(c: char): (v: nat)
    requires KeyChar(c)
    ensures v <= 42 && (IsDigit(c) ==> v <= 9)
  {
    c as int - '0' as int
  }

  /** The sum of the first n weighted characters. */
  function WeightedSum(s: string, weights: seq<nat>, n: nat): nat
    requires KeyText(s) && n <= |s| && |s| <= |weights|
  {
    if n == 0 then 0 else WeightedSum(s, weights, n - 1) + Value(s[n - 1]) * weights[n - 1]
  }

  function DigitOf(sum: nat): (d: nat)
    ensures d <= 9
  {
    if sum % 11 < 2 then 0 else 11 - sum % 11
  }

  /** A check digit completes its sum to a multiple of 11; a sum one above a multiple cannot be, and takes 0. */
  predicate Completes(sum: nat, d: nat) {
    d <= 9 && if sum % 11 == 1 then d == 0 else (sum + d) % 11 == 0
  }

  /** There is exactly one such digit, and it is the one computed. */
  lemma DigitCompletes(sum: nat, d: nat)
    ensures Completes(sum, d) <==> d == DigitOf(sum)
  {
    assert (sum + d) % 11 == (sum % 11 + d) % 11;
  }

  method CalculateCheckDigit(base: string, weights: seq<nat>) returns (d: nat)
    requires KeyText(base) && |base| <= |weights|
    ensures d == DigitOf(WeightedSum(base, weights, |base|))
  {
    var sum := 0;
    for i := 0 to |base|
      invariant sum == WeightedSum(base, weights, i)
    {
      sum := sum + Value(base[i]) * weights[i];
    }
    var remainder := sum % 11;
    if remainder < 2 {
      return 0;
    }
    return 11 - remainder;
  }

  // ----- the cycling weight of access keys -----

  /** The weight of position i in a base of n characters: 2 to 9, repeating from the right. */
  function CycleWeight(n: nat, i: nat): nat
    requires i < n
  {
    2 + (n - 1 - i) % 8
  }

  function CycleWeights(n: nat): (w: seq<nat>)
    ensures |w| == n && forall i :: 0 <= i < n ==> w[i] == CycleWeight(n, i)
  {
    seq(n, i requires 0 <= i < n => CycleWeight(n, i))
  }

  /** The sum over positions n and up, the part the right-to-left loop has seen. */
  function SuffixSum(s: string, weights: seq<nat>, n: nat): nat
    requires KeyText(s) && n <= |s| && |s| <= |weights|
    decreases |s| - n
  {
    if n == |s| then 0 else Value(s[n]) * weights[n] + SuffixSum(s, weights, n + 1)
  }

  lemma {:induction false} SumsMeet(s: string, weights: seq<nat>, n: nat)
    requires KeyText(s) && n <= |s| && |s| <= |weights|
    ensures WeightedSum(s, weights, n) + SuffixSum(s, weights, n) == WeightedSum(s, weights, |s|)
    decreases |s| - n
  {
    if n < |s| {
      SumsMeet(s, weights, n + 1);
    }
  }

  /** What the digit of a base is, whichever loop computes it. */
  function KeyDigit(base: string): (d: nat)
    requires KeyText(base)
    ensures d <= 9
  {
    DigitOf(WeightedSum(base, CycleWeights(|base|), |base|))
  }

  lemma NextWeight(k: nat)
    ensures 2 + (k + 1) % 8 == if 2 + k % 8 == 9 then 2 else 2 + k % 8 + 1
  {
  }

  method AccessKeyCheckDigit(base: string) returns (d: nat)
    requires KeyText(base)
    ensures d == KeyDigit(base)
  {
    ghost var weights := CycleWeights(|base|);
    var sum := 0;
    var weight := 2;
    var i := |base| - 1;
    while i >= 0
      invariant -1 <= i < |base|
      invariant sum == SuffixSum(base, weights, i + 1)
      invariant weight == 2 + (|base| - 1 - i) % 8
    {
      NextWeight(|base| - 1 - i);
      assert weight == weights[i];
      assert SuffixSum(base, weights, i) == Value(base[i]) * weights[i] + SuffixSum(base, weights, i + 1);
      sum := sum + Value(base[i]) * weight;
      weight := weight + 1;
      if weight > 9 {
        weight := 2;
      }
      i := i - 1;
    }
    SumsMeet(base, weights, 0);
    var remainder := sum % 11;
    if remainder < 2 {
      return 0;
    }
    return 11 - remainder;
  }

  lemma {:induction false} SameWeightsSameSum(s: string, a: seq<nat>, b: seq<nat>, n: nat)
    requires KeyText(s) && n <= |s| && |s| <= |a| && |s| <= |b| && a[..n] == b[..n]
    ensures WeightedSum(s, a, n) == WeightedSum(s, b, n)
  {
    if n > 0 {
      assert a[..n][n - 1] == b[..n][n - 1];
      assert a[..n - 1] == a[..n][..n - 1] && b[..n - 1] == b[..n][..n - 1];
      SameWeightsSameSum(s, a, b, n - 1);
    }
  }

  /** The CNPJ tables are the cycle at lengths 12 and 13, so both rules give every base one digit. */
  lemma TablesAreTheCycle(base: string)
    requires KeyText(base)
    ensures |base| == 12 ==> DigitOf(WeightedSum(base, FIRST_WEIGHTS, 12)) == KeyDigit(base)
    ensures |base| == 13 ==> DigitOf(WeightedSum(base, SECOND_WEIGHTS, 13)) == KeyDigit(base)
  {
    hide WeightedSum, DigitOf;
    TwelveWeights();
    ThirteenWeights();
  }

  lemma TwelveWeights()
    ensures CycleWeights(12) == FIRST_WEIGHTS
  {
  }

  lemma ThirteenWeights()
    ensures CycleWeights(13) == SECOND_WEIGHTS
  {
  }

  // ----- what the digit detects -----

  lemma {:induction false} ChangeOne(a: string, b: string, weights: seq<nat>, i: nat, n: nat)
    requires KeyText(a) && KeyText(b) && |a| == |b| <= |weights| && i < n <= |a|
    requires forall j :: 0 <= j < |a| && j != i ==> a[j] == b[j]
    ensures WeightedSum(b, weights, n) - WeightedSum(a, weights, n) == (Value(b[i]) - Value(a[i])) * weights[i]
  {
    if n == i + 1 {
      SamePrefix(a, b, weights, i);
      assert Value(b[i]) * weights[i] - Value(a[i]) * weights[i] == (Value(b[i]) - Value(a[i])) * weights[i];
    } else {
      ChangeOne(a, b, weights, i, n - 1);
    }
  }

  lemma {:induction false} SamePrefix(a: string, b: string, weights: seq<nat>, n: nat)
    requires KeyText(a) && KeyText(b) && |a| == |b| <= |weights| && n <= |a|
    requires forall j :: 0 <= j < n ==> a[j] == b[j]
    ensures WeightedSum(a, weights, n) == WeightedSum(b, weights, n)
  {
    if n > 0 {
      SamePrefix(a, b, weights, n - 1);
    }
  }

  /** No product of a digit difference and a weight is a multiple of 11. */
  lemma NoMultipleOf11(d: int, w: int)
    requires -9 <= d <= 9 && d != 0 && 1 <= w <= 9
    ensures (d * w) % 11 != 0
  {
    if d == 1 {} else if d == 2 {} else if d == 3 {} else if d == 4 {} else if d == 5 {}
    else if d == 6 {} else if d == 7 {} else if d == 8 {} else if d == 9 {}
    else if d == -1 {} else if d == -2 {} else if d == -3 {} else if d == -4 {} else if d == -5 {}
    else if d == -6 {} else if d == -7 {} else if d == -8 {} else {}
  }

  predicate Blind(s: nat, t: nat) {
    (s % 11 == 0 && t % 11 == 1) || (s % 11 == 1 && t % 11 == 0)
  }

  /** Different remainders give one digit exactly when they are 0 and 1. */
  lemma DigitsCollide(s: nat, t: nat)
    requires (t - s) % 11 != 0
    ensures DigitOf(s) == DigitOf(t) <==> Blind(s, t)
  {
    assert s % 11 != t % 11;
  }

  function KeySum(base: string): nat
    requires KeyText(base)
  {
    WeightedSum(base, CycleWeights(|base|), |base|)
  }

  /** One wrong digit goes undetected exactly when the two sums are 0 and 1 modulo 11. */
  lemma OneWrongDigit(a: string, b: string, i: nat)
    requires Digits(a) && Digits(b) && |a| == |b| && i < |a| && a[i] != b[i]
    requires forall j :: 0 <= j < |a| && j != i ==> a[j] == b[j]
    ensures KeyDigit(a) == KeyDigit(b) <==> Blind(KeySum(a), KeySum(b))
  {
    var weights := CycleWeights(|a|);
    ChangeOne(a, b, weights, i, |a|);
    NoMultipleOf11(Value(b[i]) - Value(a[i]), weights[i]);
    DigitsCollide(KeySum(a), KeySum(b));
  }

  lemma Factor(x: int, y: int, v: int, w: int)
    ensures (y - x) * v + (x - y) * w == (y - x) * (v - w)
  {
  }

  lemma SwapDifference(a: string, b: string, weights: seq<nat>, i: nat)
    requires Digits(a) && Digits(b) && i + 1 < |a| == |b| == |weights|
    requires b[i] == a[i + 1] && b[i + 1] == a[i] && forall j :: 0 <= j < |a| && j != i && j != i + 1 ==> b[j] == a[j]
    ensures WeightedSum(b, weights, |b|) - WeightedSum(a, weights, |a|)
         == (Value(a[i + 1]) - Value(a[i])) * (weights[i] as int - weights[i + 1] as int)
  {
    var m := a[i := a[i + 1]];
    ChangeOne(a, m, weights, i, |a|);
    ChangeOne(m, b, weights, i + 1, |a|);
    Factor(Value(a[i]), Value(a[i + 1]), weights[i], weights[i + 1]);
  }

  /** Neighbouring weights differ by 1, or by 7 where the cycle restarts. */
  lemma NeighbourWeights(n: nat, i: nat)
    requires i + 1 < n
    ensures CycleWeight(n, i) - CycleWeight(n, i + 1) == 1 || CycleWeight(n, i) - CycleWeight(n, i + 1) == -7
  {
  }

  /** Two swapped neighbours go undetected exactly when the two sums are 0 and 1 modulo 11. */
  lemma SwappedNeighbours(a: string, b: string, i: nat)
    requires Digits(a) && Digits(b) && i + 1 < |a| == |b| && a[i] != a[i + 1]
    requires b[i] == a[i + 1] && b[i + 1] == a[i] && forall j :: 0 <= j < |a| && j != i && j != i + 1 ==> b[j] == a[j]
    ensures KeyDigit(a) == KeyDigit(b) <==> Blind(KeySum(a), KeySum(b))
  {
    SwapDifference(a, b, CycleWeights(|a|), i);
    NeighbourWeights(|a|, i);
    var d := Value(a[i + 1]) - Value(a[i]);
    NoMultipleOf11(d, 1);
    NoMultipleOf11(-d, 7);
    assert d * -7 == -d * 7;
    DigitsCollide(KeySum(a), KeySum(b));
  }
}
