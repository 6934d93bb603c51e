/**
  The studio window's state and the operations that change it: the two
  parsers that fill the signal fields, compute_convolution and
  compute_correlation, the start of an animation, the frame loop that the
  animation thread runs, and reset_all. Plotting is recorded as a log of
  what each operation draws, in order.
*/
module Studio {
  import opened Wrappers
  import opened Signals
  import opened Convolution
  import opened Animation

  /** What an operation puts on the canvas. */
  datatype Render =
    | SetupDrawn(inputIndices: seq<real>, inputValues: seq<real>)
    | FrameDrawn(frame: Frame)
    | FinalDrawn(result: Final)
    | CorrelationDrawn(indices: seq<real>, values: seq<real>, peakIndices: seq<real>, peakValues: seq<real>)
    | Cleared

  /** The frames 0..m−1 of a run, in the order they are drawn. */
  function FrameLog(s: Scene, m: nat): (log: seq<Render>)
    requires s.Valid() && m <= |s.output|
    ensures |log| == m
    ensures forall k :: 0 <= k < m ==> log[k] == FrameDrawn(FrameAt(s, k))
  {
    seq(m, k requires 0 <= k < m => FrameDrawn(FrameAt(s, k)))
  }

  /** The log of m+1 frames extends the log of m frames by frame m. */
  lemma FrameLogGrows(s: Scene, m: nat)
    requires s.Valid() && m < |s.output|
    ensures FrameLog(s, m + 1) == FrameLog(s, m) + [FrameDrawn(FrameAt(s, m))]
  {
  }

  /** The signals the parser of the given mode yields. */
  function Parsed(mode: Mode, d: DiscreteEntries, c: ContinuousEntries): Option<(Signal, Signal)>
  {
    if mode == Discrete then Signals.ParseDiscreteSignals(d) else Signals.ParseContinuousSignals(c)
  }

  /**
    A successful parse yields two signals with one position per sample; a
    discrete parse yields non-empty ones, and the input of a continuous one
    is sampled every 0.02.
  */
  lemma ParsedShape(mode: Mode, d: DiscreteEntries, c: ContinuousEntries)
    requires Parsed(mode, d, c).Some?
    ensures var (x, h) := Parsed(mode, d, c).value;
            && x.Valid() && h.Valid()
            && (mode == Discrete ==> |x.values| > 0 && |h.values| > 0)
            && (mode == Continuous && |x.values| >= 2 ==> StepOf(x) == DefaultDt)
  {
    if mode == Discrete {
      ParseDiscreteMeaning(d);
    } else {
      ParseContinuousMeaning(c);
    }
  }

  /**
    Whether the arithmetic after a successful parse goes through: np.convolve
    and np.correlate need two non-empty signals, and in continuous mode dt is
    read from the input's first two positions and must be non-zero for
    `np.arange`.
  */
  predicate Computable(mode: Mode, x: Signal, h: Signal)
    requires x.Valid()
  {
    |x.values| > 0 && |h.values| > 0 && (mode == Continuous ==> |x.values| >= 2 && StepOf(x) != 0.0)
  }

  /** The output compute_convolution stores. */
  function ConvolutionResult(mode: Mode, x: Signal, h: Signal): (r: Signal)
    requires x.Valid() && h.Valid() && Computable(mode, x, h)
    ensures r.Valid() && |r.values| == |x.values| + |h.values| - 1
  {
    if mode == Discrete then DiscreteConvolution(x, h) else ContinuousConvolution(x, h)
  }

  /** The correlation compute_correlation draws. */
  function CorrelationResult(mode: Mode, x: Signal, h: Signal): (r: Signal)
    requires x.Valid() && h.Valid() && Computable(mode, x, h)
    ensures r.Valid() && |r.values| == |x.values| + |h.values| - 1
  {
    if mode == Discrete then DiscreteCorrelation(x, h) else ContinuousCorrelation(x, h)
  }

  /**
    The correlation plot: the whole curve, and a marker at each peak
    position, placed at that position's lag with that position's value.
  */
  function CorrelationPlot(r: Signal): (p: Render)
    requires r.Valid() && |r.values| > 0
    ensures p.CorrelationDrawn? && p.indices == r.indices && p.values == r.values
    ensures |p.peakIndices| == |p.peakValues| == |Peaks(r.values)|
    ensures forall k :: 0 <= k < |p.peakValues| ==>
              p.peakIndices[k] == r.indices[Peaks(r.values)[k]] && p.peakValues[k] == r.values[Peaks(r.values)[k]]
  {
    var ps := Peaks(r.values);
    CorrelationDrawn(r.indices, r.values, PeakLags(r, ps), Pick(r.values, ps))
  }

  /**
    What compute_correlation draws once the signals are stored: the
    correlation plot with its peak markers when the arithmetic goes through,
    nothing when it raises.
  */
  function CorrelationDrawing(mode: Mode, x: Signal, h: Signal): (log: seq<Render>)
    requires x.Valid() && h.Valid()
    ensures |log| <= 1
    ensures |log| == 1 <==> Computable(mode, x, h)
    ensures Computable(mode, x, h) ==> log[0] == CorrelationPlot(CorrelationResult(mode, x, h))
  {
    if Computable(mode, x, h) then [CorrelationPlot(CorrelationResult(mode, x, h))] else []
  }

  class ConvolutionGUI {
    var mode: Mode
    var inputSignal: Option<seq<real>>
    var inputIndices: Option<seq<real>>
    var impulseResponse: Option<seq<real>>
    var impulseIndices: Option<seq<real>>
    var outputSignal: Option<seq<real>>
    var outputIndices: Option<seq<real>>
    var animationRunning: bool
    var animationSpeed: int
    var animationQuality: Quality
    var currentFrame: int
    var totalFrames: int
    /** Everything drawn so far, oldest first. */
    ghost var rendered: seq<Render>

    /** The state a fresh window starts in. */
    constructor ()
      ensures mode == Discrete
      ensures inputSignal == None && impulseResponse == None && inputIndices == None && impulseIndices == None
      ensures outputSignal == None && outputIndices == None
      ensures !animationRunning && animationSpeed == 150 && animationQuality == High
      ensures currentFrame == 0 && totalFrames == 0
      ensures rendered == []
    {
      mode := Discrete;
      inputSignal, impulseResponse, inputIndices, impulseIndices := None, None, None, None;
      outputSignal, outputIndices := None, None;
      animationRunning, animationSpeed, animationQuality := false, 150, High;
      currentFrame, totalFrames := 0, 0;
      rendered := [];
    }

    /** Everything the frame loop reads is present and shaped as compute_convolution leaves it. */
    predicate Ready()
      reads this
    {
      && inputIndices.Some? && impulseResponse.Some? && outputSignal.Some? && outputIndices.Some?
      && Scene(mode, inputIndices.value, impulseResponse.value, outputSignal.value,
               outputIndices.value, animationSpeed, animationQuality).Valid()
    }

    function CurrentScene(): (s: Scene)
      reads this
      requires Ready()
      ensures s.Valid()
    {
      Scene(mode, inputIndices.value, impulseResponse.value, outputSignal.value,
            outputIndices.value, animationSpeed, animationQuality)
    }

    /** Whether a parse succeeded and the signal fields hold the two signals it yielded. */
    predicate Stored(p: Option<(Signal, Signal)>)
      reads this`inputSignal, this`inputIndices, this`impulseResponse, this`impulseIndices
    {
      && p.Some?
      && inputSignal == Some(p.value.0.values) && inputIndices == Some(p.value.0.indices)
      && impulseResponse == Some(p.value.1.values) && impulseIndices == Some(p.value.1.indices)
    }

    /** Both signals are present, each with one position per sample. */
    predicate HasSignals()
      reads this`inputSignal, this`inputIndices, this`impulseResponse, this`impulseIndices
    {
      && inputSignal.Some? && inputIndices.Some? && impulseResponse.Some? && impulseIndices.Some?
      && |inputSignal.value| == |inputIndices.value| && |impulseResponse.value| == |impulseIndices.value|
    }

    function Input(): (x: Signal)
      reads this`inputSignal, this`inputIndices, this`impulseResponse, this`impulseIndices
      requires HasSignals()
      ensures x.Valid()
    {
      Signal(inputSignal.value, inputIndices.value)
    }

    function Impulse(): (h: Signal)
      reads this`inputSignal, this`inputIndices, this`impulseResponse, this`impulseIndices
      requires HasSignals()
      ensures h.Valid()
    {
      Signal(impulseResponse.value, impulseIndices.value)
    }

    /**
      What compute_convolution leaves behind once the signals are stored:
      when the arithmetic goes through, the convolution of the stored signals
      and its positions in the output fields, the animation started on it
      and the input drawn, with everything the frame loop reads in place;
      when it raises, the output, the flag, the frame counters and the canvas
      as they were.
    */
    ghost predicate ConvolutionStored(oldOutput: Option<seq<real>>, oldOutputIndices: Option<seq<real>>,
                                      oldRunning: bool, oldFrame: int, oldTotal: int, oldRendered: seq<Render>)
      reads this
      requires HasSignals()
    {
      var x, h := Input(), Impulse();
      if Computable(mode, x, h) then
        var r := ConvolutionResult(mode, x, h);
        && outputSignal == Some(r.values) && outputIndices == Some(r.indices)
        && animationRunning && currentFrame == 0 && totalFrames == |r.values|
        && rendered == oldRendered + [SetupDrawn(x.indices, x.values)]
        && Ready()
      else
        && outputSignal == oldOutput && outputIndices == oldOutputIndices
        && animationRunning == oldRunning && currentFrame == oldFrame && totalFrames == oldTotal
        && rendered == oldRendered
    }

    /** The assignments a successful parse ends with. */
    method Store(p: Option<(Signal, Signal)>)
      requires p.Some?
      modifies this`inputSignal, this`inputIndices, this`impulseResponse, this`impulseIndices
      ensures Stored(p)
    {
      inputSignal, inputIndices := Some(p.value.0.values), Some(p.value.0.indices);
      impulseResponse, impulseIndices := Some(p.value.1.values), Some(p.value.1.indices);
    }

    /** parse_discrete_signals: on success both signals are stored; on failure nothing changes. */
    method ParseDiscreteSignals(e: DiscreteEntries) returns (ok: bool)
      modifies this`inputSignal, this`inputIndices, this`impulseResponse, this`impulseIndices
      ensures ok <==> Signals.ParseDiscreteSignals(e).Some?
      ensures ok ==> Stored(Signals.ParseDiscreteSignals(e))
      ensures !ok ==> unchanged(this)
    {
      var p := Signals.ParseDiscreteSignals(e);
      ok := p.Some?;
      if ok {
        Store(p);
      }
    }

    /** parse_continuous_signals: on success both sampled waveforms are stored; on failure nothing changes. */
    method ParseContinuousSignals(e: ContinuousEntries) returns (ok: bool)
      modifies this`inputSignal, this`inputIndices, this`impulseResponse, this`impulseIndices
      ensures ok <==> Signals.ParseContinuousSignals(e).Some?
      ensures ok ==> Stored(Signals.ParseContinuousSignals(e))
      ensures !ok ==> unchanged(this)
    {
      var p := Signals.ParseContinuousSignals(e);
      ok := p.Some?;
      if ok {
        Store(p);
      }
    }

    /** Parses with the parser of the current mode. */
    method ParseCurrent(d: DiscreteEntries, c: ContinuousEntries) returns (ok: bool)
      modifies this`inputSignal, this`inputIndices, this`impulseResponse, this`impulseIndices
      ensures ok <==> Parsed(mode, d, c).Some?
      ensures ok ==> Stored(Parsed(mode, d, c)) && HasSignals()
      ensures ok && mode == Discrete ==> |inputSignal.value| > 0 && |impulseResponse.value| > 0
      ensures !ok ==> unchanged(this)
    {
      if mode == Discrete {
        ok := ParseDiscreteSignals(d);
      } else {
        ok := ParseContinuousSignals(c);
      }
      if ok {
        ParsedShape(mode, d, c);
      }
    }

    /**
      compute_convolution: parse; stop on a failed parse; otherwise store the
      convolution and its positions and start the animation, unless the
      arithmetic raises first.
    */
    method ComputeConvolution(d: DiscreteEntries, c: ContinuousEntries)
      modifies this`inputSignal, this`inputIndices, this`impulseResponse, this`impulseIndices
      modifies this`outputSignal, this`outputIndices, this`animationRunning, this`currentFrame
      modifies this`totalFrames, this`rendered
      ensures Parsed(mode, d, c).None? ==> unchanged(this)
      ensures Parsed(mode, d, c).Some? ==>
                && Stored(Parsed(mode, d, c)) && HasSignals()
                && ConvolutionStored(old(outputSignal), old(outputIndices), old(animationRunning),
                                     old(currentFrame), old(totalFrames), old(rendered))
    {
      var ok := ParseCurrent(d, c);
      if ok {
        ConvolveStored();
      }
    }

    /** The part of compute_convolution after a successful parse. */
    method ConvolveStored()
      requires HasSignals()
      modifies this`outputSignal, this`outputIndices, this`animationRunning, this`currentFrame
      modifies this`totalFrames, this`rendered
      ensures HasSignals() && Input() == old(Input()) && Impulse() == old(Impulse())
      ensures ConvolutionStored(old(outputSignal), old(outputIndices), old(animationRunning),
                                old(currentFrame), old(totalFrames), old(rendered))
    {
      var x, h := Input(), Impulse();
      if Computable(mode, x, h) {
        var r := ConvolutionResult(mode, x, h);
        outputSignal, outputIndices := Some(r.values), Some(r.indices);
        AnimateConvolutionEnhanced();
      }
    }

    /**
      compute_correlation: parse; stop on a failed parse; otherwise draw the
      correlation with a marker on each of its peaks. The output fields and
      the animation are left alone.
    */
    method ComputeCorrelation(d: DiscreteEntries, c: ContinuousEntries)
      modifies this`inputSignal, this`inputIndices, this`impulseResponse, this`impulseIndices, this`rendered
      ensures Parsed(mode, d, c).None? ==> unchanged(this)
      ensures Parsed(mode, d, c).Some? ==>
                && Stored(Parsed(mode, d, c)) && HasSignals()
                && rendered == old(rendered) + CorrelationDrawing(mode, Input(), Impulse())
    {
      var ok := ParseCurrent(d, c);
      if ok {
        CorrelateStored();
      }
    }

    /** The part of compute_correlation after a successful parse. */
    method CorrelateStored()
      requires HasSignals()
      modifies this`rendered
      ensures rendered == old(rendered) + CorrelationDrawing(mode, Input(), Impulse())
    {
      var x, h := Input(), Impulse();
      if Computable(mode, x, h) {
        rendered := rendered + [CorrelationPlot(CorrelationResult(mode, x, h))];
      }
    }

    /**
      animate_convolution_enhanced: mark the animation running, reset the
      frame counter, size it to the output, and draw the input. The thread it
      starts runs RunEnhancedAnimation.
    */
    method AnimateConvolutionEnhanced()
      requires inputSignal.Some? && inputIndices.Some? && outputSignal.Some?
      modifies this`animationRunning, this`currentFrame, this`totalFrames, this`rendered
      ensures animationRunning && currentFrame == 0 && totalFrames == |outputSignal.value|
      ensures rendered == old(rendered) + [SetupDrawn(inputIndices.value, inputSignal.value)]
    {
      animationRunning := true;
      currentFrame := 0;
      totalFrames := |outputSignal.value|;
      rendered := rendered + [SetupDrawn(inputIndices.value, inputSignal.value)];
    }

    /**
      run_enhanced_animation. Before each frame, and once more before the
      final report, the loop reads `animation_running`; `cleared[k]` says
      whether another caller cleared it before check k. The loop draws frames
      0, 1, ... in order until a check finds the flag cleared, draws the
      final report only when every check found it set, and leaves it cleared.
    */
    method RunEnhancedAnimation(cleared: seq<bool>)
      requires Ready()
      requires |cleared| == |outputSignal.value| + 1
      modifies this`animationRunning, this`currentFrame, this`rendered
      ensures Ready()
      ensures var s, running := CurrentScene(), old(animationRunning);
              var n := |s.output|;
              var m := FramesRun(running, cleared, n);
              && rendered == old(rendered) + FrameLog(s, m)
                   + (if Completes(running, cleared, n) then [FinalDrawn(FinalAt(s))] else [])
              && currentFrame == (if m == 0 then old(currentFrame) else m - 1)
              && !animationRunning
    {
      var s := CurrentScene();
      var n := |outputSignal.value|;
      var flipped := Reverse(impulseResponse.value);
      var outputValues: seq<real> := [];
      ghost var running := animationRunning;
      var i := 0;
      while i < n
        invariant 0 <= i <= n
        invariant animationRunning == running
        invariant i > 0 ==> running
        invariant forall k :: 0 <= k < i ==> !cleared[k]
        invariant outputValues == s.output[..i]
        invariant currentFrame == if i == 0 then old(currentFrame) else i - 1
        invariant rendered == old(rendered) + FrameLog(s, i)
      {
        if cleared[i] {
          animationRunning := false;
        }
        if !animationRunning {
          break;
        }
        currentFrame := i;
        var shifted := ShiftedIndices(s.inputIndices[0], |flipped|, s.Step(), i);
        outputValues := outputValues + [s.output[i]];
        var progress := Progress(i, n);
        var delay := FrameDelay(animationSpeed, animationQuality);
        var frame := Frame(i, shifted, flipped, OverlapAt(s, shifted),
                           s.outputIndices[..i + 1], outputValues, progress, delay);
        assert s.output[..i + 1] == s.output[..i] + [s.output[i]];
        FrameLogGrows(s, i);
        rendered := rendered + [FrameDrawn(frame)];
        i := i + 1;
      }
      FramesRunUnique(running, cleared, n, i);
      if cleared[i] {
        animationRunning := false;
      }
      if animationRunning {
        rendered := rendered + [FinalDrawn(FinalAt(s))];
      }
      animationRunning := false;
    }

    /**
      reset_all: stop the animation, forget the input, the impulse and the
      output, and clear the canvas. The index fields keep their values, so
      a frame loop cannot start again until the next computation.
    */
    method ResetAll()
      modifies this`animationRunning, this`inputSignal, this`impulseResponse, this`outputSignal
      modifies this`currentFrame, this`totalFrames, this`rendered
      ensures !animationRunning && inputSignal == None && impulseResponse == None && outputSignal == None
      ensures currentFrame == 0 && totalFrames == 0
      ensures rendered == old(rendered) + [Cleared]
      ensures !Ready()
    {
      animationRunning := false;
      inputSignal, impulseResponse, outputSignal := None, None, None;
      currentFrame, totalFrames := 0, 0;
      rendered := rendered + [Cleared];
    }
  }
}
