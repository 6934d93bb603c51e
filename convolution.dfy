/**
  The numeric part of compute_convolution and compute_correlation: the full
  linear convolution and cross-correlation sums (`np.convolve` and
  `np.correlate` in 'full' mode), the index origins of their results, the
  `dt` scaling of continuous mode, the correlation peak set, and the maximum
  and first arg-maximum reported at the end of an animation.
*/
module Convolution {
  import opened Signals

  function Min(a: int, b: int): int {
    if a <= b then a else b
  }

  function Max(a: int, b: int): int {
    if a <= b then b else a
  }

  // ---------------------------------------------------------------------------
  // The convolution sum

  /** One product of the convolution sum for output position n: x[k]·h[n−k] when both samples exist, 0 otherwise. */
  function Term(x: seq<real>, h: seq<real>, n: int, k: int): real {
    if 0 <= k < |x| && 0 <= n - k < |h| then x[k] * h[n - k] else 0.0
  }

  /** Σ_{lo <= k < hi} Term(x, h, n, k). */
  function Sum(x: seq<real>, h: seq<real>, n: int, lo: int, hi: int): real
    decreases hi - lo
  {
    if hi <= lo then 0.0 else Term(x, h, n, lo) + Sum(x, h, n, lo + 1, hi)
  }

  /** y[n] = Σ_k x[k]·h[n−k], k ranging over the input positions for which h[n−k] exists. */
  function ConvAt(x: seq<real>, h: seq<real>, n: int): real {
    Sum(x, h, n, 0, |x|)
  }

  /** `np.convolve(x, h, mode='full')`; numpy rejects an empty operand. */
  function Convolve(x: seq<real>, h: seq<real>): (y: seq<real>)
    requires |x| > 0 && |h| > 0
    ensures |y| == |x| + |h| - 1
  {
    seq(|x| + |h| - 1, n => ConvAt(x, h, n))
  }

  lemma {:induction false} SumSplit(x: seq<real>, h: seq<real>, n: int, lo: int, mid: int, hi: int)
    requires lo <= mid <= hi
    ensures Sum(x, h, n, lo, hi) == Sum(x, h, n, lo, mid) + Sum(x, h, n, mid, hi)
    decreases mid - lo
  {
    if lo < mid {
      SumSplit(x, h, n, lo + 1, mid, hi);
    }
  }

  lemma {:induction false} SumZero(x: seq<real>, h: seq<real>, n: int, lo: int, hi: int)
    requires forall k :: lo <= k < hi ==> Term(x, h, n, k) == 0.0
    ensures Sum(x, h, n, lo, hi) == 0.0
    decreases hi - lo
  {
    if lo < hi {
      SumZero(x, h, n, lo + 1, hi);
    }
  }

  /** When every term outside [a, b) vanishes, the sum over [lo, hi) is the sum over [a, b). */
  lemma SumRestrict(x: seq<real>, h: seq<real>, n: int, lo: int, hi: int, a: int, b: int)
    requires lo <= a <= b <= hi
    requires forall k :: lo <= k < a ==> Term(x, h, n, k) == 0.0
    requires forall k :: b <= k < hi ==> Term(x, h, n, k) == 0.0
    ensures Sum(x, h, n, lo, hi) == Sum(x, h, n, a, b)
  {
    SumSplit(x, h, n, lo, a, hi);
    SumSplit(x, h, n, a, b, hi);
    SumZero(x, h, n, lo, a);
    SumZero(x, h, n, b, hi);
  }

  /** Summing x[k]·h[n−k] over k in [lo, hi) is summing h[j]·x[n−j] over j = n−k in (n−hi, n−lo]. */
  lemma {:induction false} SumSwap(x: seq<real>, h: seq<real>, n: int, lo: int, hi: int)
    ensures Sum(x, h, n, lo, hi) == Sum(h, x, n, n - hi + 1, n - lo + 1)
    decreases hi - lo
  {
    if lo < hi {
      SumSwap(x, h, n, lo + 1, hi);
      SumSplit(h, x, n, n - hi + 1, n - lo, n - lo + 1);
      assert Sum(h, x, n, n - lo, n - lo + 1) == Term(h, x, n, n - lo);
      assert Term(x, h, n, lo) == Term(h, x, n, n - lo);
    }
  }

  /** Convolution is commutative, sample by sample. */
  lemma ConvAtCommutes(x: seq<real>, h: seq<real>, n: int)
    requires 0 <= n < |x| + |h| - 1
    ensures ConvAt(x, h, n) == ConvAt(h, x, n)
  {
    SumSwap(x, h, n, 0, |x|);
    var a, b := Max(0, n - |x| + 1), Min(|h|, n + 1);
    SumRestrict(h, x, n, n - |x| + 1, n + 1, a, b);
    SumRestrict(h, x, n, 0, |h|, a, b);
  }

  /** `np.convolve(x, h)` and `np.convolve(h, x)` are the same sequence. */
  lemma ConvolveCommutes(x: seq<real>, h: seq<real>)
    requires |x| > 0 && |h| > 0
    ensures Convolve(x, h) == Convolve(h, x)
  {
    forall n | 0 <= n < |x| + |h| - 1
      ensures Convolve(x, h)[n] == Convolve(h, x)[n]
    {
      ConvAtCommutes(x, h, n);
    }
  }

  /** The first output sample is x[0]·h[0] and the last is x[last]·h[last]: only one product overlaps at either end. */
  lemma ConvolveEnds(x: seq<real>, h: seq<real>)
    requires |x| > 0 && |h| > 0
    ensures Convolve(x, h)[0] == x[0] * h[0]
    ensures Convolve(x, h)[|x| + |h| - 2] == x[|x| - 1] * h[|h| - 1]
  {
    SumRestrict(x, h, 0, 0, |x|, 0, 1);
    var n := |x| + |h| - 2;
    SumRestrict(x, h, n, 0, |x|, |x| - 1, |x|);
    assert Sum(x, h, n, |x| - 1, |x|) == Term(x, h, n, |x| - 1);
  }

  // ---------------------------------------------------------------------------
  // The correlation sum

  /** `h[::-1]` */
  function Reverse(s: seq<real>): (r: seq<real>)
    ensures |r| == |s|
    ensures forall k :: 0 <= k < |s| ==> r[k] == s[|s| - 1 - k]
  {
    seq(|s|, k requires 0 <= k < |s| => s[|s| - 1 - k])
  }

  lemma ReverseReverse(s: seq<real>)
    ensures Reverse(Reverse(s)) == s
  {
  }

  /**
    One product of numpy's correlation sum c_m = Σ_i x[i + m − (|h| − 1)]·h[i],
    written over the input position j = i + m − (|h| − 1): x[j]·h[j − m + |h| − 1].
  */
  function CorrTerm(x: seq<real>, h: seq<real>, m: int, j: int): real {
    var i := j - m + |h| - 1;
    if 0 <= j < |x| && 0 <= i < |h| then x[j] * h[i] else 0.0
  }

  function CorrSum(x: seq<real>, h: seq<real>, m: int, lo: int, hi: int): real
    decreases hi - lo
  {
    if hi <= lo then 0.0 else CorrTerm(x, h, m, lo) + CorrSum(x, h, m, lo + 1, hi)
  }

  /** `np.correlate(x, h, mode='full')`: lag m − (|h| − 1) at output position m. */
  function Correlate(x: seq<real>, h: seq<real>): (c: seq<real>)
    requires |x| > 0 && |h| > 0
    ensures |c| == |x| + |h| - 1
  {
    seq(|x| + |h| - 1, m => CorrSum(x, h, m, 0, |x|))
  }

  lemma {:induction false} CorrSumIsConvSum(x: seq<real>, h: seq<real>, m: int, lo: int, hi: int)
    ensures CorrSum(x, h, m, lo, hi) == Sum(x, Reverse(h), m, lo, hi)
    decreases hi - lo
  {
    if lo < hi {
      CorrSumIsConvSum(x, h, m, lo + 1, hi);
      assert CorrTerm(x, h, m, lo) == Term(x, Reverse(h), m, lo);
    }
  }

  /** Correlating with h is convolving with h reversed. */
  lemma CorrelateIsConvolveReversed(x: seq<real>, h: seq<real>)
    requires |x| > 0 && |h| > 0
    ensures Correlate(x, h) == Convolve(x, Reverse(h))
  {
    forall m | 0 <= m < |x| + |h| - 1
      ensures Correlate(x, h)[m] == Convolve(x, Reverse(h))[m]
    {
      CorrSumIsConvSum(x, h, m, 0, |x|);
    }
  }

  // ---------------------------------------------------------------------------
  // Results with their positions

  /** `values * dt` */
  function Scale(y: seq<real>, dt: real): (r: seq<real>)
    ensures |r| == |y|
    ensures forall n :: 0 <= n < |y| ==> r[n] == y[n] * dt
  {
    seq(|y|, n requires 0 <= n < |y| => y[n] * dt)
  }

  /** The sampling step of a continuous signal, taken from its first two times. */
  function StepOf(x: Signal): real
    requires |x.indices| >= 2
  {
    x.indices[1] - x.indices[0]
  }

  /** compute_convolution in discrete mode: the full convolution, indexed from x's origin plus h's origin. */
  function DiscreteConvolution(x: Signal, h: Signal): (r: Signal)
    requires x.Valid() && h.Valid() && |x.values| > 0 && |h.values| > 0
    ensures r.Valid() && |r.values| == |x.values| + |h.values| - 1
    ensures r.values == Convolve(x.values, h.values)
    ensures forall n :: 0 <= n < |r.indices| ==> r.indices[n] == x.indices[0] + h.indices[0] + n as real
  {
    var y := Convolve(x.values, h.values);
    Signal(y, Ramp(x.indices[0] + h.indices[0], 1.0, |y|))
  }

  /**
    compute_convolution in continuous mode: every sample of the full
    convolution times dt, at the times `np.arange(o, o + len·dt, dt)[:len]`
    where o is the sum of the two signals' first times.
  */
  function ContinuousConvolution(x: Signal, h: Signal): (r: Signal)
    requires x.Valid() && h.Valid() && |x.values| >= 2 && |h.values| > 0 && StepOf(x) != 0.0
    ensures r.Valid() && |r.values| == |x.values| + |h.values| - 1
    ensures forall n :: 0 <= n < |r.values| ==> r.values[n] == Convolve(x.values, h.values)[n] * StepOf(x)
    ensures r.indices == Ramp(x.indices[0] + h.indices[0], StepOf(x), |r.values|)
  {
    var dt := StepOf(x);
    var y := Scale(Convolve(x.values, h.values), dt);
    var start := x.indices[0] + h.indices[0];
    var len: nat := |y|;
    ArangeExact(start, len, dt);
    var t := Arange(start, start + len as real * dt, dt);
    assert t[..Min(|t|, |y|)] == t;
    Signal(y, t[..Min(|t|, |y|)])
  }

  /** compute_correlation in discrete mode: the full correlation, indexed from x's origin minus h's last index. */
  function DiscreteCorrelation(x: Signal, h: Signal): (r: Signal)
    requires x.Valid() && h.Valid() && |x.values| > 0 && |h.values| > 0
    ensures r.Valid() && |r.values| == |x.values| + |h.values| - 1
    ensures r.values == Correlate(x.values, h.values)
    ensures forall n :: 0 <= n < |r.indices| ==> r.indices[n] == x.indices[0] - h.indices[|h.indices| - 1] + n as real
  {
    var c := Correlate(x.values, h.values);
    Signal(c, Ramp(x.indices[0] - h.indices[|h.indices| - 1], 1.0, |c|))
  }

  /**
    compute_correlation in continuous mode: the correlation times dt, at the
    times `np.arange(o, o + len·dt, dt)[:len]` where o is x's first time
    minus h's last time.
  */
  function ContinuousCorrelation(x: Signal, h: Signal): (r: Signal)
    requires x.Valid() && h.Valid() && |x.values| >= 2 && |h.values| > 0 && StepOf(x) != 0.0
    ensures r.Valid() && |r.values| == |x.values| + |h.values| - 1
    ensures forall n :: 0 <= n < |r.values| ==> r.values[n] == Correlate(x.values, h.values)[n] * StepOf(x)
    ensures r.indices == Ramp(x.indices[0] - h.indices[|h.indices| - 1], StepOf(x), |r.values|)
  {
    var dt := StepOf(x);
    var c := Scale(Correlate(x.values, h.values), dt);
    var start := x.indices[0] - h.indices[|h.indices| - 1];
    var len: nat := |c|;
    ArangeExact(start, len, dt);
    var t := Arange(start, start + len as real * dt, dt);
    assert t[..Min(|t|, |c|)] == t;
    Signal(c, t[..Min(|t|, |c|)])
  }

  /**
    For two parsed discrete signals starting at x0 and h0, the convolution
    starts at x0 + h0 and the correlation at x0 − (h0 + |h| − 1), both with
    unit steps.
  */
  lemma DiscreteOrigins(x: Signal, h: Signal, x0: int, h0: int)
    requires x.Valid() && h.Valid() && |x.values| > 0 && |h.values| > 0
    requires x.indices == Ramp(x0 as real, 1.0, |x.values|) && h.indices == Ramp(h0 as real, 1.0, |h.values|)
    ensures DiscreteConvolution(x, h).indices == Ramp((x0 + h0) as real, 1.0, |x.values| + |h.values| - 1)
    ensures DiscreteCorrelation(x, h).indices == Ramp((x0 - h0 - |h.values| + 1) as real, 1.0, |x.values| + |h.values| - 1)
  {
  }

  /**
    Continuous results for two signals sampled every dt from x0 and h0: the
    convolution's sample n sits at x0 + h0 + n·dt, the correlation's at
    x0 − (h0 + (|h| − 1)·dt) + n·dt, and both are scaled by dt.
  */
  lemma ContinuousOrigins(x: Signal, h: Signal, x0: real, h0: real, dt: real)
    requires x.Valid() && h.Valid() && |x.values| >= 2 && |h.values| > 0 && dt != 0.0
    requires x.indices == Ramp(x0, dt, |x.values|) && h.indices == Ramp(h0, dt, |h.values|)
    ensures StepOf(x) == dt
    ensures var r := ContinuousConvolution(x, h);
            forall n :: 0 <= n < |r.indices| ==>
              r.indices[n] == x0 + h0 + n as real * dt && r.values[n] == Convolve(x.values, h.values)[n] * dt
    ensures var r := ContinuousCorrelation(x, h);
            forall n :: 0 <= n < |r.indices| ==>
              r.indices[n] == x0 - (h0 + (|h.values| - 1) as real * dt) + n as real * dt
              && r.values[n] == Correlate(x.values, h.values)[n] * dt
  {
    assert x.indices[1] == x0 + dt;
  }

  // ---------------------------------------------------------------------------
  // Peaks, maximum and arg-maximum

  /** `np.max(np.abs(c))` */
  function MaxAbs(c: seq<real>): (m: real)
    requires |c| > 0
    ensures forall k :: 0 <= k < |c| ==> Abs(c[k]) <= m
    ensures exists k :: 0 <= k < |c| && Abs(c[k]) == m
    decreases |c|
  {
    if |c| == 1 then Abs(c[0])
    else
      var m := MaxAbs(c[..|c| - 1]);
      if Abs(c[|c| - 1]) > m then Abs(c[|c| - 1]) else m
  }

  /** `np.where(np.abs(c[from:]) > threshold)[0] + from`: the qualifying positions in increasing order. */
  function Above(c: seq<real>, threshold: real, from: nat): (ps: seq<nat>)
    requires from <= |c|
    ensures forall i :: 0 <= i < |ps| ==> from <= ps[i] < |c| && Abs(c[ps[i]]) > threshold
    ensures forall p :: from <= p < |c| && Abs(c[p]) > threshold ==> p in ps
    ensures forall i, j :: 0 <= i < j < |ps| ==> ps[i] < ps[j]
    decreases |c| - from
  {
    if from == |c| then []
    else if Abs(c[from]) > threshold then [from] + Above(c, threshold, from + 1)
    else Above(c, threshold, from + 1)
  }

  /** No qualifying sample, no position. */
  lemma {:induction false} AboveNone(c: seq<real>, threshold: real, from: nat)
    requires from <= |c|
    requires forall p :: from <= p < |c| ==> Abs(c[p]) <= threshold
    ensures Above(c, threshold, from) == []
    decreases |c| - from
  {
    if from < |c| {
      AboveNone(c, threshold, from + 1);
    }
  }

  /** The fraction of the largest magnitude a sample must exceed to be marked as a peak. */
  const PeakRatio: real := 0.7

  /** The peak positions compute_correlation marks: magnitude strictly above 0.7 of the largest magnitude. */
  function Peaks(c: seq<real>): (ps: seq<nat>)
    requires |c| > 0
    ensures forall i :: 0 <= i < |ps| ==> ps[i] < |c| && Abs(c[ps[i]]) > PeakRatio * MaxAbs(c)
  {
    Above(c, PeakRatio * MaxAbs(c), 0)
  }

  /**
    The peak set is exactly the positions whose magnitude exceeds 0.7 of the
    largest, listed once each in increasing order; every position attaining
    the largest magnitude is a peak when that magnitude is positive, and an
    all-zero result has no peak because the comparison is strict.
  */
  lemma PeaksMeaning(c: seq<real>)
    requires |c| > 0
    ensures forall p: nat :: p in Peaks(c) <==> p < |c| && Abs(c[p]) > PeakRatio * MaxAbs(c)
    ensures forall i, j :: 0 <= i < j < |Peaks(c)| ==> Peaks(c)[i] < Peaks(c)[j]
    ensures MaxAbs(c) > 0.0 ==> forall p :: 0 <= p < |c| && Abs(c[p]) == MaxAbs(c) ==> p in Peaks(c)
    ensures MaxAbs(c) > 0.0 ==> |Peaks(c)| > 0
    ensures (forall k :: 0 <= k < |c| ==> c[k] == 0.0) ==> Peaks(c) == []
  {
    var ps := Peaks(c);
    if MaxAbs(c) > 0.0 {
      var k :| 0 <= k < |c| && Abs(c[k]) == MaxAbs(c);
      assert k in ps;
    }
    if forall k :: 0 <= k < |c| ==> c[k] == 0.0 {
      AboveNone(c, PeakRatio * MaxAbs(c), 0);
    }
  }

  /** `corr_indices[peaks]`: the positions of the peaks on the result's index axis. */
  function PeakLags(r: Signal, ps: seq<nat>): (lags: seq<real>)
    requires forall i :: 0 <= i < |ps| ==> ps[i] < |r.indices|
    ensures |lags| == |ps|
    ensures forall i :: 0 <= i < |ps| ==> lags[i] == r.indices[ps[i]]
  {
    seq(|ps|, i requires 0 <= i < |ps| => r.indices[ps[i]])
  }

  /** `c[peaks]`: the samples at the given positions. */
  function Pick(c: seq<real>, ps: seq<nat>): (vs: seq<real>)
    requires forall i :: 0 <= i < |ps| ==> ps[i] < |c|
    ensures |vs| == |ps|
    ensures forall i :: 0 <= i < |ps| ==> vs[i] == c[ps[i]]
  {
    seq(|ps|, i requires 0 <= i < |ps| => c[ps[i]])
  }

  /** `np.max(y)` */
  function MaxValue(y: seq<real>): (m: real)
    requires |y| > 0
    ensures forall k :: 0 <= k < |y| ==> y[k] <= m
    ensures exists k :: 0 <= k < |y| && y[k] == m
    decreases |y|
  {
    if |y| == 1 then y[0]
    else
      var m := MaxValue(y[..|y| - 1]);
      if y[|y| - 1] > m then y[|y| - 1] else m
  }

  /** `np.argmax(y)`: a position of the largest sample, the first one on ties. */
  function ArgMax(y: seq<real>): (i: nat)
    requires |y| > 0
    ensures i < |y|
    ensures forall k :: 0 <= k < |y| ==> y[k] <= y[i]
    ensures forall k :: 0 <= k < i ==> y[k] < y[i]
    decreases |y|
  {
    if |y| == 1 then 0
    else
      var j := ArgMax(y[..|y| - 1]);
      if y[|y| - 1] > y[j] then |y| - 1 else j
  }

  /** The reported maximum sits at the reported position, and no earlier position holds it. */
  lemma MaxAtArgMax(y: seq<real>)
    requires |y| > 0
    ensures y[ArgMax(y)] == MaxValue(y)
    ensures forall k :: 0 <= k < |y| && y[k] == MaxValue(y) ==> ArgMax(y) <= k
  {
  }
}
