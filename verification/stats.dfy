/** The earlier duration accumulator of stats.go: a count, the extremes and
    Welford's running mean and sum of squared deviations, updated in place
    sample by sample. The samples pushed so far are kept as a ghost field,
    against which `Valid` states what the fields summarize. */
module Stats {
  import opened Samples

  /** Go's conversion of a float64 to an integer type: truncation toward
      zero. */
  function Truncate(x: real): (r: int)
    ensures x >= 0.0 ==> r as real <= x < r as real + 1.0
    ensures x < 0.0 ==> r as real - 1.0 < x <= r as real
  {
    if x >= 0.0 then x.Floor else -((-x).Floor)
  }

  /** `n`, `min`, `max`, `mean` and `s` are the count, the extremes and
      Welford's exact running sums of the stream `xs`. */
  ghost predicate Summarizes(xs: seq<int>, n: nat, min: int, max: int, mean: real, s: real) {
    && n == |xs|
    && (n > 0 ==> min == MinOf(xs) && max == MaxOf(xs))
    && WelfordInv(mean, s, Reals(xs))
  }

  /** Welford's step and the updated extremes summarize the extended stream. */
  lemma {:induction false} PushStep(
    xs: seq<int>, n: nat, min: int, max: int, mean: real, s: real, d: int,
    n': nat, min': int, max': int, mean': real, s': real)
    requires Summarizes(xs, n, min, max, mean, s)
    requires n' == n + 1
    requires min' == if n == 0 || d < min then d else min
    requires max' == if n == 0 || d > max then d else max
    requires mean' == NextMean(mean, n', d as real) && s' == NextS(s, mean, mean', d as real)
    ensures Summarizes(xs + [d], n', min', max', mean', s')
  {
    var ys := xs + [d];
    SnocPrefix(xs, d);
    if xs != [] {
      assert MinOf(ys) == if d < MinOf(xs) then d else MinOf(xs);
      assert MaxOf(ys) == if d > MaxOf(xs) then d else MaxOf(xs);
    }
    RealsSnoc(xs, d);
    WelfordSnoc(mean, s, Reals(xs), d as real);
  }

  /** The `DurationData` of stats.go:10-17, renamed here to keep it apart
      from the accumulator of data.go, and without the unused field `m`.
      Durations are nanoseconds. */
  class DurationStats {
    var N: nat
    var Min: int
    var Max: int
    var s: real
    var mean: real
    ghost var Samples: seq<int>

    /** The fields summarize the samples pushed so far: their number, their
        minimum and maximum once there is one, and Welford's exact running
        sums, with the mean still 0 before the first sample. */
    ghost predicate Valid()
      reads this
    {
      Summarizes(Samples, N, Min, Max, mean, s) && (N == 0 ==> mean == 0.0)
    }

    /** Go's zero value: no samples. */
    constructor ()
      ensures Valid() && Samples == []
      ensures N == 0 && Min == 0 && Max == 0 && mean == 0.0 && s == 0.0
    {
      N, Min, Max, s, mean := 0, 0, 0, 0.0, 0.0;
      Samples := [];
    }

    /** stats.go:19-36: the first sample sets both extremes, each later one
        may only lower `Min` or raise `Max`; then the count and Welford's
        update of `mean` and `s`. */
    method Push(d: int)
      requires Valid()
      modifies this
      ensures Valid() && Samples == old(Samples) + [d]
      ensures N == old(N) + 1
      ensures old(N) == 0 ==> Min == d && Max == d
      ensures old(N) > 0 ==> Min == (if d < old(Min) then d else old(Min))
      ensures old(N) > 0 ==> Max == (if d > old(Max) then d else old(Max))
      ensures mean == NextMean(old(mean), N, d as real)
      ensures s == NextS(old(s), old(mean), mean, d as real)
    {
      ghost var xs, n, min, max, s0 := Samples, N, Min, Max, s;
      if N == 0 {
        Min := d;
        Max := d;
      } else {
        if d < Min {
          Min := d;
        }
        if d > Max {
          Max := d;
        }
      }
      N := N + 1;
      var om := mean;
      var fd := d as real;
      mean := NextMean(om, N, fd);
      s := NextS(s, om, mean, fd);
      Samples := Samples + [d];
      PushStep(xs, n, min, max, om, s0, d, N, Min, Max, mean, s);
    }

    /** stats.go:38-40: "no samples", which a stream of zero-valued samples
        is not. */
    function IsZero(): (z: bool)
      reads this
      ensures Valid() ==> (z <==> Samples == [])
    {
      N == 0
    }

    /** stats.go:42-44: the mean truncated toward zero, 0 for no samples. */
    function Mean(): (r: int)
      reads this
      ensures Valid() && N == 0 ==> r == 0
      ensures Valid() && N > 0 ==> r == Truncate(Sum(Reals(Samples)) / (N as real))
    {
      MeanOfSamples(this);
      Truncate(mean)
    }

    /** stats.go:46-51: the sample variance, `s / (N - 1)`, and 0 for fewer
        than two samples. */
    function Variance(): (v: real)
      reads this
      ensures N <= 1 ==> v == 0.0
      ensures Valid() && N > 1 ==> v == SumSqDev(Reals(Samples), mean) / ((N - 1) as real)
    {
      VarianceOfSamples(this);
      if N > 1 then s / ((N - 1) as real) else 0.0
    }
  }

  /** For a nonempty accumulator, `mean` is the arithmetic mean of the
      samples. */
  lemma MeanOfSamples(a: DurationStats)
    ensures a.Valid() && a.N > 0 ==> a.mean == Sum(Reals(a.Samples)) / (a.N as real)
  {
    if a.Valid() && a.N > 0 {
      WelfordIsTwoPass(a.mean, a.s, Reals(a.Samples));
    }
  }

  /** `s` is the sum of squared deviations of the samples from their mean. */
  lemma VarianceOfSamples(a: DurationStats)
    ensures a.Valid() && a.N > 0 ==> a.s == SumSqDev(Reals(a.Samples), a.mean)
  {
    if a.Valid() && a.N > 0 {
      WelfordIsTwoPass(a.mean, a.s, Reals(a.Samples));
    }
  }

  /** Once there is a sample, `Min <= Max`, every sample lies between them and
      both are samples. */
  lemma ExtremesBracketSamples(a: DurationStats)
    requires a.Valid() && a.N > 0
    ensures a.Min <= a.Max
    ensures forall i :: 0 <= i < |a.Samples| ==> a.Min <= a.Samples[i] <= a.Max
    ensures a.Min in a.Samples && a.Max in a.Samples
  {
    assert a.Samples[0] in a.Samples;
  }
}
