/** Reference definitions over a whole sample stream: the minimum, maximum, sum
    and sum of squares that the single-pass accumulators must agree with, and
    the algebra of Welford's update. */
module Samples {

  function MinOf(xs: seq<int>): (m: int)
    requires |xs| > 0
    ensures m in xs
    ensures forall i :: 0 <= i < |xs| ==> m <= xs[i]
  {
    if |xs| == 1 then xs[0]
    else
      var m := MinOf(xs[..|xs| - 1]);
      if xs[|xs| - 1] < m then xs[|xs| - 1] else m
  }

  function MaxOf(xs: seq<int>): (m: int)
    requires |xs| > 0
    ensures m in xs
    ensures forall i :: 0 <= i < |xs| ==> xs[i] <= m
  {
    if |xs| == 1 then xs[0]
    else
      var m := MaxOf(xs[..|xs| - 1]);
      if xs[|xs| - 1] > m then xs[|xs| - 1] else m
  }

  function MinOfR(xs: seq<real>): (m: real)
    requires |xs| > 0
    ensures m in xs
    ensures forall i :: 0 <= i < |xs| ==> m <= xs[i]
  {
    if |xs| == 1 then xs[0]
    else
      var m := MinOfR(xs[..|xs| - 1]);
      if xs[|xs| - 1] < m then xs[|xs| - 1] else m
  }

  function MaxOfR(xs: seq<real>): (m: real)
    requires |xs| > 0
    ensures m in xs
    ensures forall i :: 0 <= i < |xs| ==> xs[i] <= m
  {
    if |xs| == 1 then xs[0]
    else
      var m := MaxOfR(xs[..|xs| - 1]);
      if xs[|xs| - 1] > m then xs[|xs| - 1] else m
  }

  /** The samples of a duration stream as reals (Go's `float64(d)`). */
  function Reals(xs: seq<int>): (r: seq<real>)
    ensures |r| == |xs|
    ensures forall i :: 0 <= i < |xs| ==> r[i] == xs[i] as real
  {
    if xs == [] then [] else Reals(xs[..|xs| - 1]) + [xs[|xs| - 1] as real]
  }

  lemma RealsSnoc(xs: seq<int>, x: int)
    ensures Reals(xs + [x]) == Reals(xs) + [x as real]
  {
    assert (xs + [x])[..|xs|] == xs;
  }

  function Sum(xs: seq<real>): real {
    if xs == [] then 0.0 else Sum(xs[..|xs| - 1]) + xs[|xs| - 1]
  }

  function SumSq(xs: seq<real>): real {
    if xs == [] then 0.0 else SumSq(xs[..|xs| - 1]) + xs[|xs| - 1] * xs[|xs| - 1]
  }

  /** The two-pass textbook quantity: the sum of squared deviations from `c`. */
  function SumSqDev(xs: seq<real>, c: real): real {
    if xs == [] then 0.0 else SumSqDev(xs[..|xs| - 1], c) + (xs[|xs| - 1] - c) * (xs[|xs| - 1] - c)
  }

  lemma SnocPrefix<T>(xs: seq<T>, x: T)
    ensures (xs + [x])[..|xs|] == xs && (xs + [x])[|xs|] == x
  {
  }

  /** The sum of squared deviations expands into the single-pass sums. */
  lemma {:induction false} SumSqDevExpand(xs: seq<real>, c: real)
    ensures SumSqDev(xs, c) == SumSq(xs) - 2.0 * c * Sum(xs) + (|xs| as real) * c * c
  {
    if xs != [] {
      var init, x := xs[..|xs| - 1], xs[|xs| - 1];
      SumSqDevExpand(init, c);
      var n := |init| as real;
      assert SumSqDev(xs, c) == SumSqDev(init, c) + (x - c) * (x - c);
      assert SumSq(xs) == SumSq(init) + x * x;
      assert Sum(xs) == Sum(init) + x;
      assert (x - c) * (x - c) == x * x - 2.0 * c * x + c * c;
      assert (|xs| as real) * c * c == n * c * c + c * c;
      assert 2.0 * c * Sum(xs) == 2.0 * c * Sum(init) + 2.0 * c * x;
    }
  }

  /** The running sums of a sample stream kept by Welford's algorithm. */
  ghost predicate WelfordInv(m: real, s: real, xs: seq<real>) {
    && m * (|xs| as real) == Sum(xs)
    && s == SumSq(xs) - m * m * (|xs| as real)
  }

  lemma SnocSums(xs: seq<real>, x: real)
    ensures Sum(xs + [x]) == Sum(xs) + x
    ensures SumSq(xs + [x]) == SumSq(xs) + x * x
  {
    SnocPrefix(xs, x);
  }

  /** Welford's new mean after the `n`-th sample `x` (`n` counts `x`). */
  function NextMean(m: real, n: nat, x: real): real
    requires n > 0
  {
    m + (x - m) / (n as real)
  }

  /** Welford's new sum of squared deviations, from the old and the new mean. */
  function NextS(s: real, m: real, m': real, x: real): real {
    s + (x - m) * (x - m')
  }

  /** One step of Welford's algorithm keeps `mean * n == sum` and
      `s == sum of squares - n * mean^2` (data.go:143-147). */
  lemma WelfordStep(nr: real, m: real, s: real, sum: real, sq: real, x: real, m': real, s': real)
    requires nr >= 0.0
    requires m * nr == sum
    requires s == sq - m * m * nr
    requires m' == m + (x - m) / (nr + 1.0)
    requires s' == s + (x - m) * (x - m')
    ensures m' * (nr + 1.0) == sum + x
    ensures s' == (sq + x * x) - m' * m' * (nr + 1.0)
  {
    var k := nr + 1.0;
    assert (x - m) / k * k == x - m;
    assert m' * k == m * k + (x - m);
    assert m' * k == sum + x;
    assert (x - m') * k == x * k - m' * k;
    assert (x - m') * k == (x - m) * nr;
    var rhs := (sq + x * x) - m' * m' * k;
    assert s' * k == rhs * k by {
      calc {
        s' * k;
        s * k + (x - m) * ((x - m') * k);
        s * k + (x - m) * (x - m) * nr;
        (sq - m * m * nr) * (nr + 1.0) + (x - m) * (x - m) * nr;
        sq * k + x * x * nr - m * m * nr * nr - 2.0 * x * m * nr;
        sq * k + x * x * k - (m * nr + x) * (m * nr + x);
        sq * k + x * x * k - (m' * k) * (m' * k);
        rhs * k;
      }
    }
    CancelPositive(s', rhs, k);
  }

  /** Welford's update of `mean` and `s` for a new sample `x` (data.go:143-147)
      keeps the running sums of the extended stream. */
  lemma WelfordSnoc(m: real, s: real, xs: seq<real>, x: real)
    requires WelfordInv(m, s, xs)
    ensures var m' := NextMean(m, |xs| + 1, x);
            WelfordInv(m', NextS(s, m, m', x), xs + [x])
  {
    var m' := NextMean(m, |xs| + 1, x);
    var s' := NextS(s, m, m', x);
    var nr := |xs| as real;
    assert |xs + [x]| as real == nr + 1.0;
    SnocSums(xs, x);
    WelfordStep(nr, m, s, Sum(xs), SumSq(xs), x, m', s');
  }

  lemma CancelPositive(a: real, b: real, k: real)
    requires k > 0.0 && a * k == b * k
    ensures a == b
  {
  }

  lemma MeanIsQuotient(m: real, n: nat, sum: real)
    requires n > 0 && m * (n as real) == sum
    ensures m == sum / (n as real)
  {
  }

  /** With `mean * n == sum`, Welford's `s` equals the two-pass sum of squared
      deviations from the mean. */
  lemma TwoPass(xs: seq<real>, m: real, s: real)
    requires WelfordInv(m, s, xs)
    ensures s == SumSqDev(xs, m)
  {
    SumSqDevExpand(xs, m);
  }

  /** For a nonempty stream, Welford's `mean` is the arithmetic mean and `s`
      the sum of squared deviations from it. */
  lemma WelfordIsTwoPass(m: real, s: real, xs: seq<real>)
    requires WelfordInv(m, s, xs) && |xs| > 0
    ensures m == Sum(xs) / (|xs| as real)
    ensures s == SumSqDev(xs, m)
  {
    TwoPass(xs, m, s);
    MeanIsQuotient(m, |xs|, Sum(xs));
  }
}
