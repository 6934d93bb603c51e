/**
  What run_enhanced_animation computes for each frame: the flipped impulse
  and the positions it is shifted to, the overlap with the input (discrete
  mode), the revealed prefix of the output, the progress fraction and the
  pause before the next frame; the final report; and how many frames a run
  draws when other callers clear `animation_running` between checks.
*/
module Animation {
  import opened Wrappers
  import opened Signals
  import opened Convolution

  /** The two selectable animation qualities. */
  datatype Quality = Standard | High

  /** `quality_speeds[quality]`: the divisor applied to the speed setting. */
  function QualityFactor(q: Quality): real {
    match q
    case Standard => 1.2
    case High => 0.5
  }

  /** `adjusted_speed`: the pause after each frame, in milliseconds. */
  function FrameDelay(speed: int, q: Quality): real {
    speed as real / QualityFactor(q)
  }

  /**
    The pause is five sixths of the speed setting in standard quality and
    twice the speed setting in high quality, so high quality runs slower
    for any positive setting.
  */
  lemma FrameDelayValues(speed: int)
    ensures FrameDelay(speed, Standard) == speed as real * 5.0 / 6.0
    ensures FrameDelay(speed, High) == 2.0 * speed as real
    ensures speed > 0 ==> FrameDelay(speed, High) > FrameDelay(speed, Standard)
  {
  }

  /** What the frame loop reads from the studio's fields. */
  datatype Scene = Scene(mode: Mode, inputIndices: seq<real>, impulse: seq<real>, output: seq<real>,
                         outputIndices: seq<real>, speed: int, quality: Quality)
  {
    /**
      The loop reads the first input position (and the second in continuous
      mode), the impulse's first and last shifted positions, one output
      position per output sample, and at the end the maximum of a non-empty
      output.
    */
    predicate Valid() {
      && |inputIndices| >= (if mode == Continuous then 2 else 1)
      && |impulse| > 0
      && |output| > 0
      && |outputIndices| >= |output|
    }

    /** The distance between neighbouring positions: 1 in discrete mode, the input's dt in continuous mode. */
    function Step(): real
      requires Valid()
    {
      if mode == Discrete then 1.0 else inputIndices[1] - inputIndices[0]
    }
  }

  /**
    `np.arange(length) * step + shift` with `shift = origin − (length − 1)·step + i·step`:
    the positions of the flipped impulse at frame i.
  */
  function ShiftedIndices(origin: real, length: nat, step: real, i: nat): (r: seq<real>)
    ensures |r| == length
  {
    var shift := origin - (length - 1) as real * step + i as real * step;
    seq(length, j => j as real * step + shift)
  }

  function RMax(a: real, b: real): real {
    if a >= b then a else b
  }

  function RMin(a: real, b: real): real {
    if a <= b then a else b
  }

  datatype Interval = Interval(lo: real, hi: real)

  /**
    The highlighted overlap: in discrete mode, from the larger first position
    to the smaller last position of the input and the shifted impulse, when
    that interval is not empty; nothing in continuous mode.
  */
  function OverlapAt(s: Scene, shifted: seq<real>): Option<Interval>
    requires s.Valid() && |shifted| > 0
  {
    if s.mode == Discrete then
      var lo := RMax(s.inputIndices[0], shifted[0]);
      var hi := RMin(s.inputIndices[|s.inputIndices| - 1], shifted[|shifted| - 1]);
      if lo <= hi then Some(Interval(lo, hi)) else None
    else None
  }

  /** `(i + 1) / len(output_signal)` */
  function Progress(i: nat, n: nat): real
    requires n > 0
  {
    (i + 1) as real / n as real
  }

  /** Everything one frame draws. */
  datatype Frame = Frame(index: nat, impulseIndices: seq<real>, impulseValues: seq<real>,
                         overlap: Option<Interval>, outputIndices: seq<real>, outputValues: seq<real>,
                         progress: real, delay: real)

  /** Frame i of a run. */
  function FrameAt(s: Scene, i: nat): Frame
    requires s.Valid() && i < |s.output|
  {
    var shifted := ShiftedIndices(s.inputIndices[0], |s.impulse|, s.Step(), i);
    Frame(i, shifted, Reverse(s.impulse), OverlapAt(s, shifted),
          s.outputIndices[..i + 1], s.output[..i + 1],
          Progress(i, |s.output|), FrameDelay(s.speed, s.quality))
  }

  /** The final report: the whole output, its maximum and where the maximum first occurs. */
  datatype Final = Final(indices: seq<real>, values: seq<real>, maxValue: real, maxIndex: nat, maxTime: real)

  function FinalAt(s: Scene): (f: Final)
    requires s.Valid()
    ensures f.indices == s.outputIndices && f.values == s.output
    ensures f.maxIndex < |s.output| && s.output[f.maxIndex] == f.maxValue
    ensures forall k :: 0 <= k < |s.output| ==> s.output[k] <= f.maxValue
    ensures forall k :: 0 <= k < f.maxIndex ==> s.output[k] < f.maxValue
    ensures f.maxTime == s.outputIndices[f.maxIndex]
  {
    MaxAtArgMax(s.output);
    var k := ArgMax(s.output);
    Final(s.outputIndices, s.output, MaxValue(s.output), k, s.outputIndices[k])
  }

  // ---------------------------------------------------------------------------
  // Frame geometry

  /**
    At frame i the impulse is drawn reversed, at positions one step apart
    whose last one is the input's first position plus i steps, whatever
    the impulse's own start index was.
  */
  lemma FrameGeometry(s: Scene, i: nat)
    requires s.Valid() && i < |s.output|
    ensures var f, L, x0, d := FrameAt(s, i), |s.impulse|, s.inputIndices[0], s.Step();
            && f.index == i
            && |f.impulseIndices| == |f.impulseValues| == L
            && (forall j :: 0 <= j < L ==> f.impulseValues[j] == s.impulse[L - 1 - j])
            && (forall j :: 0 <= j < L ==> f.impulseIndices[j] == x0 + (j - (L - 1) + i) as real * d)
            && f.impulseIndices[L - 1] == x0 + i as real * d
  {
    var L, x0, d := |s.impulse|, s.inputIndices[0], s.Step();
    var f, sh := FrameAt(s, i), ShiftedIndices(x0, L, d, i);
    assert f.impulseIndices == sh && f.impulseValues == Reverse(s.impulse);
    ShiftedClosed(x0, L, d, i);
  }

  /** From one frame to the next the drawn impulse moves one step right. */
  lemma FrameAdvances(s: Scene, i: nat)
    requires s.Valid() && i + 1 < |s.output|
    ensures var L, d := |s.impulse|, s.Step();
            forall j :: 0 <= j < L ==> FrameAt(s, i + 1).impulseIndices[j] == FrameAt(s, i).impulseIndices[j] + d
  {
    var L, x0, d := |s.impulse|, s.inputIndices[0], s.Step();
    assert FrameAt(s, i).impulseIndices == ShiftedIndices(x0, L, d, i);
    assert FrameAt(s, i + 1).impulseIndices == ShiftedIndices(x0, L, d, i + 1);
    ShiftedMoves(x0, L, d, i);
  }

  /** The impulse positions at frame i, in closed form. */
  lemma ShiftedClosed(origin: real, length: nat, step: real, i: nat)
    ensures var sh := ShiftedIndices(origin, length, step, i);
            && (forall j :: 0 <= j < length ==> sh[j] == origin + (j - (length - 1) + i) as real * step)
            && (length > 0 ==> sh[length - 1] == origin + i as real * step)
  {
    var sh := ShiftedIndices(origin, length, step, i);
    forall j | 0 <= j < length
      ensures sh[j] == origin + (j - (length - 1) + i) as real * step
    {
      ShiftedAt(origin, length, step, i, j);
    }
  }

  /** From one frame to the next every impulse position moves one step. */
  lemma ShiftedMoves(origin: real, length: nat, step: real, i: nat)
    ensures forall j :: 0 <= j < length ==>
              ShiftedIndices(origin, length, step, i + 1)[j] == ShiftedIndices(origin, length, step, i)[j] + step
  {
    forall j | 0 <= j < length
      ensures ShiftedIndices(origin, length, step, i + 1)[j] == ShiftedIndices(origin, length, step, i)[j] + step
    {
      ShiftStep(i as real, step);
    }
  }

  /** Position j of the impulse at frame i. */
  lemma ShiftedAt(origin: real, length: nat, step: real, i: nat, j: nat)
    requires j < length
    ensures ShiftedIndices(origin, length, step, i)[j] == origin + (j - (length - 1) + i) as real * step
  {
    var a, b, c := j as real, (length - 1) as real, i as real;
    assert (j - (length - 1) + i) as real == a - b + c;
    assert (a - b + c) * step == a * step - b * step + c * step;
  }

  lemma ShiftStep(a: real, d: real)
    ensures (a + 1.0) * d == a * d + d
  {
  }

  /**
    Discrete overlap: with the input at the consecutive positions
    x0 .. x0+|x|−1, the overlap at frame i is present exactly for the frames
    0 <= i < |x| + L − 1, which are all the frames of a full convolution,
    and it spans [max(x0, x0 − (L−1) + i), min(x0 + |x| − 1, x0 + i)].
  */
  lemma DiscreteOverlap(s: Scene, x0: int, i: nat)
    requires s.Valid() && s.mode == Discrete && i < |s.output|
    requires s.inputIndices == Ramp(x0 as real, 1.0, |s.inputIndices|)
    ensures var L, nx := |s.impulse|, |s.inputIndices|;
            FrameAt(s, i).overlap.Some? <==> i < nx + L - 1
    ensures var L, nx := |s.impulse|, |s.inputIndices|;
            i < nx + L - 1 ==>
              FrameAt(s, i).overlap == Some(Interval(RMax(x0 as real, (x0 - (L - 1) + i) as real),
                                                     RMin((x0 + nx - 1) as real, (x0 + i) as real)))
  {
    var L := |s.impulse|;
    FrameGeometry(s, i);
    var f := FrameAt(s, i);
    assert f.impulseIndices[0] == (x0 - (L - 1) + i) as real;
    assert f.impulseIndices[L - 1] == (x0 + i) as real;
  }

  /**
    A highlighted overlap only occurs in discrete mode, passes the
    `overlap_start <= overlap_end` guard, and lies within both the input's
    span and the shifted impulse's span.
  */
  lemma OverlapWithinSpans(s: Scene, shifted: seq<real>)
    requires s.Valid() && |shifted| > 0
    ensures var o := OverlapAt(s, shifted);
            o.Some? ==>
              && s.mode == Discrete && o.value.lo <= o.value.hi
              && s.inputIndices[0] <= o.value.lo && shifted[0] <= o.value.lo
              && o.value.hi <= s.inputIndices[|s.inputIndices| - 1] && o.value.hi <= shifted[|shifted| - 1]
  {
  }

  /** Every frame of a discrete run over a full convolution highlights a non-empty overlap. */
  lemma OverlapNeverEmpty(s: Scene, x0: int)
    requires s.Valid() && s.mode == Discrete
    requires s.inputIndices == Ramp(x0 as real, 1.0, |s.inputIndices|)
    requires |s.output| == |s.inputIndices| + |s.impulse| - 1
    ensures forall i :: 0 <= i < |s.output| ==>
              FrameAt(s, i).overlap.Some? && FrameAt(s, i).overlap.value.lo <= FrameAt(s, i).overlap.value.hi
  {
    forall i | 0 <= i < |s.output|
      ensures FrameAt(s, i).overlap.Some?
    {
      DiscreteOverlap(s, x0, i);
    }
  }

  // ---------------------------------------------------------------------------
  // Reveal buffer and progress

  /**
    The revealed output after frame i is the first i+1 samples; each frame
    reveals exactly the next sample; the progress fraction grows strictly
    from frame to frame, stays in (0, 1] and reaches 1 exactly on the last frame.
  */
  lemma RevealAndProgress(s: Scene, i: nat)
    requires s.Valid() && i < |s.output|
    ensures var f, n := FrameAt(s, i), |s.output|;
            && |f.outputValues| == |f.outputIndices| == i + 1
            && (forall k :: 0 <= k <= i ==> f.outputValues[k] == s.output[k] && f.outputIndices[k] == s.outputIndices[k])
            && 0.0 < f.progress <= 1.0
            && (f.progress == 1.0 <==> i == n - 1)
            && (i + 1 < n ==> FrameAt(s, i + 1).outputValues == f.outputValues + [s.output[i + 1]])
            && (i + 1 < n ==> f.progress < FrameAt(s, i + 1).progress)
  {
    var n := |s.output|;
    Fraction((i + 1) as real, n as real);
    if i + 1 < n {
      assert s.output[..i + 2] == s.output[..i + 1] + [s.output[i + 1]];
      ProgressGrows(i, n);
    }
    if Progress(i, n) == 1.0 {
      assert (i + 1) as real == Progress(i, n) * n as real;
    }
  }

  lemma ProgressGrows(i: nat, n: nat)
    requires i + 1 < n
    ensures Progress(i, n) < Progress(i + 1, n)
  {
    var a, b := Progress(i, n), Progress(i + 1, n);
    assert a * n as real == (i + 1) as real;
    assert b * n as real == (i + 2) as real;
    assert (b - a) * n as real == 1.0;
  }

  // ---------------------------------------------------------------------------
  // Cancellation

  /** The first of the checks from..n−1 that finds the flag cleared, or n when none does. */
  function FirstCleared(cleared: seq<bool>, from: nat, n: nat): (m: nat)
    requires from <= n < |cleared|
    ensures from <= m <= n
    ensures forall k :: from <= k < m ==> !cleared[k]
    ensures m < n ==> cleared[m]
    decreases n - from
  {
    if from == n then n
    else if cleared[from] then from
    else FirstCleared(cleared, from + 1, n)
  }

  /**
    The number of frames a run of n frames draws: `cleared[k]` says that
    another caller cleared `animation_running` before check k (checks 0..n−1
    precede the frames, check n precedes the final report), and `running` is
    the flag's value when the loop starts.
  */
  function FramesRun(running: bool, cleared: seq<bool>, n: nat): (m: nat)
    requires n < |cleared|
    ensures m <= n
    ensures m > 0 ==> running
    ensures forall k :: 0 <= k < m ==> !cleared[k]
    ensures m < n ==> !running || cleared[m]
  {
    if running then FirstCleared(cleared, 0, n) else 0
  }

  /** Whether the final report is drawn: the flag survives every check, the one after the last frame included. */
  predicate Completes(running: bool, cleared: seq<bool>, n: nat)
    requires n < |cleared|
  {
    running && forall k :: 0 <= k <= n ==> !cleared[k]
  }

  /** A count of frames with the properties of FramesRun is FramesRun. */
  lemma FramesRunUnique(running: bool, cleared: seq<bool>, n: nat, i: nat)
    requires n < |cleared| && i <= n
    requires i > 0 ==> running
    requires forall k :: 0 <= k < i ==> !cleared[k]
    requires i < n ==> !running || cleared[i]
    ensures i == FramesRun(running, cleared, n)
  {
  }

  /**
    A flag found cleared at the check before frame k stops the run: no
    frame k or later is drawn and no final report follows. A run with no
    clearing draws every frame and the final report.
  */
  lemma CancellationStops(running: bool, cleared: seq<bool>, n: nat, k: nat)
    requires n < |cleared| && k <= n
    requires !running || cleared[k]
    ensures FramesRun(running, cleared, n) <= k
    ensures !Completes(running, cleared, n)
  {
  }

  lemma UninterruptedRunCompletes(running: bool, cleared: seq<bool>, n: nat)
    requires n < |cleared|
    requires running && forall k :: 0 <= k <= n ==> !cleared[k]
    ensures FramesRun(running, cleared, n) == n
    ensures Completes(running, cleared, n)
  {
  }
}
