/**
 * `Math.round(k / n * 100)`, the progress percentage the extension reports
 * in several places, in exact integer arithmetic: rounding half up is
 * `floor(k / n * 100 + 1/2) = floor((200 k + n) / 2 n)`.
 */
module Progress {

  function RoundPercent(k: nat, n: nat): nat
    requires n > 0
  {
    (200 * k + n) / (2 * n)
  }

  lemma MulMono(a: int, b: int, d: nat)
    requires a <= b
    ensures a * d <= b * d
  {
    assert b * d - a * d == (b - a) * d;
  }

  /** Floor division is pinned down by the interval its quotient falls in. */
  lemma DivUnique(x: nat, d: nat, q: nat)
    requires d > 0 && q * d <= x < q * d + d
    ensures x / d == q
  {
    var p := x / d;
    assert x == p * d + x % d;
    if p > q {
      MulMono(q + 1, p, d);
    } else if p < q {
      MulMono(p + 1, q, d);
    }
  }

  lemma DivMono(x: nat, y: nat, d: nat)
    requires d > 0 && x <= y
    ensures x / d <= y / d
  {
    var p, q := x / d, y / d;
    assert x == p * d + x % d && y == q * d + y % d;
    if p > q {
      MulMono(q + 1, p, d);
    }
  }

  /** A completed count reads 100 and nothing done reads 0. */
  lemma PercentEnds(n: nat)
    requires n > 0
    ensures RoundPercent(n, n) == 100
    ensures RoundPercent(0, n) == 0
  {
    DivUnique(200 * n + n, 2 * n, 100);
    DivUnique(n, 2 * n, 0);
  }

  /** More work done never reports a smaller percentage. */
  lemma PercentMonotone(j: nat, k: nat, n: nat)
    requires n > 0 && j <= k
    ensures RoundPercent(j, n) <= RoundPercent(k, n)
  {
    DivMono(200 * j + n, 200 * k + n, 2 * n);
  }

  /** Percentages of a count that does not exceed the total stay within 0..100. */
  lemma PercentBounded(k: nat, n: nat)
    requires n > 0 && k <= n
    ensures RoundPercent(k, n) <= 100
  {
    PercentMonotone(k, n, n);
    PercentEnds(n);
  }

  /** The percentage shown before each of `n` items in turn: `round((i + 1) / n * 100)`. */
  function Percentages(n: nat): (ps: seq<nat>)
    ensures |ps| == n
    ensures forall i :: 0 <= i < n ==> ps[i] == RoundPercent(i + 1, n)
  {
    seq(n, i requires 0 <= i < n => RoundPercent(i + 1, n))
  }

  /** The shown percentages never decrease, stay within 0..100, and the last is 100. */
  lemma PercentagesRise(n: nat)
    requires n > 0
    ensures forall i, j :: 0 <= i <= j < n ==> Percentages(n)[i] <= Percentages(n)[j] <= 100
    ensures Percentages(n)[n - 1] == 100
  {
    forall i, j | 0 <= i <= j < n
      ensures Percentages(n)[i] <= Percentages(n)[j] <= 100
    {
      PercentMonotone(i + 1, j + 1, n);
      PercentBounded(j + 1, n);
    }
    PercentEnds(n);
  }
}
