/**
  Signal construction: the discrete parse of two comma-separated sample lists
  with integer start indices, and the five canonical waveforms sampled over a
  time grid.

  Positions (sample indices and sample times) are reals; a discrete signal's
  positions are the integers start, start+1, ...
*/
module Signals {
  import opened Wrappers
  import opened Text

  datatype Mode = Discrete | Continuous

  /** Sample values paired with the positions they sit at. */
  datatype Signal = Signal(values: seq<real>, indices: seq<real>) {
    predicate Valid() {
      |values| == |indices|
    }
  }

  /** `np.arange(n) * step + origin`; with step 1 and an integer origin, `np.arange(origin, origin + n)`. */
  function Ramp(origin: real, step: real, n: nat): (r: seq<real>)
    ensures |r| == n
  {
    seq(n, k => origin + k as real * step)
  }

  /**
    How many values `np.arange(start, stop, step)` yields: the least n ≥ 0
    with n ≥ (stop − start)/step, that is ⌈(stop − start)/step⌉ when that is
    positive and 0 otherwise.
  */
  function ArangeLength(start: real, stop: real, step: real): (n: nat)
    requires step != 0.0
    ensures n as real >= (stop - start) / step
    ensures n > 0 ==> (n - 1) as real < (stop - start) / step
  {
    var q := (stop - start) / step;
    if q <= 0.0 then 0 else if q.Floor as real == q then q.Floor else q.Floor + 1
  }

  /** `np.arange(start, stop, step)` in exact arithmetic. */
  function Arange(start: real, stop: real, step: real): (t: seq<real>)
    requires step != 0.0
  {
    Ramp(start, step, ArangeLength(start, stop, step))
  }

  /** a < b and c > 0 give a·c < b·c. */
  lemma MulStrict(a: real, b: real, c: real)
    requires a < b && c > 0.0
    ensures a * c < b * c
  {
    assert (b - a) * c > 0.0;
  }

  /** a <= b and c > 0 give a·c <= b·c. */
  lemma MulLe(a: real, b: real, c: real)
    requires a <= b && c > 0.0
    ensures a * c <= b * c
  {
    assert (b - a) * c >= 0.0;
  }

  /** (a / c)·c == a */
  lemma DivMul(a: real, c: real)
    requires c != 0.0
    ensures (a / c) * c == a
  {
  }

  /**
    With a positive step every value of `np.arange(start, stop, step)` lies
    in [start, stop), and the value after the last one would not.
  */
  lemma ArangeInWindow(start: real, stop: real, step: real)
    requires step > 0.0
    ensures var t := Arange(start, stop, step);
            && (forall k :: 0 <= k < |t| ==> start <= t[k] < stop)
            && start + |t| as real * step >= stop
  {
    var t := Arange(start, stop, step);
    forall k | 0 <= k < |t|
      ensures start <= t[k] < stop
    {
      ArangeBefore(start, stop, step, k);
    }
    ArangeReaches(start, stop, step);
  }

  /** The k-th value of `np.arange(start, stop, step)`, for k below its length, lies in [start, stop). */
  lemma ArangeBefore(start: real, stop: real, step: real, k: nat)
    requires step > 0.0 && k < ArangeLength(start, stop, step)
    ensures start <= start + k as real * step < stop
  {
    var q := (stop - start) / step;
    DivMul(stop - start, step);
    MulStrict(k as real, q, step);
    MulLe(0.0, k as real, step);
  }

  /** One step past the last value of `np.arange(start, stop, step)` reaches stop. */
  lemma ArangeReaches(start: real, stop: real, step: real)
    requires step > 0.0
    ensures start + ArangeLength(start, stop, step) as real * step >= stop
  {
    var n, q := ArangeLength(start, stop, step), (stop - start) / step;
    DivMul(stop - start, step);
    MulLe(q, n as real, step);
  }

  /** `np.arange(origin, origin + n·step, step)` has exactly n values. */
  lemma ArangeExact(origin: real, n: nat, step: real)
    requires step != 0.0
    ensures ArangeLength(origin, origin + n as real * step, step) == n
    ensures Arange(origin, origin + n as real * step, step) == Ramp(origin, step, n)
  {
    var q := (origin + n as real * step - origin) / step;
    assert q * step == n as real * step;
    assert (q - n as real) * step == 0.0;
    assert q == n as real;
  }

  // ---------------------------------------------------------------------------
  // Discrete signals

  /** Whether `float()` accepts every token. */
  predicate AllNumbers(tokens: seq<string>) {
    forall k :: 0 <= k < |tokens| ==> ParseFloat(tokens[k]).Some?
  }

  /** `list(map(f, tokens))` for a conversion `f` that may reject a token: all values, or nothing on the first rejection. */
  function MapAll(f: string -> Option<real>, tokens: seq<string>): (r: Option<seq<real>>)
    ensures r.Some? ==> |r.value| == |tokens|
    decreases |tokens|
  {
    if |tokens| == 0 then Some([])
    else
      var v, vs := f(tokens[0]), MapAll(f, tokens[1..]);
      if v.Some? && vs.Some? then Some([v.value] + vs.value) else None
  }

  /**
    The map succeeds exactly when `f` accepts every token, and then the k-th
    value is what `f` gives for the k-th token.
  */
  lemma {:induction false} MapAllMeaning(f: string -> Option<real>, tokens: seq<string>)
    ensures MapAll(f, tokens).Some? <==> forall k :: 0 <= k < |tokens| ==> f(tokens[k]).Some?
    ensures MapAll(f, tokens).Some? ==>
              forall k :: 0 <= k < |tokens| ==> f(tokens[k]) == Some(MapAll(f, tokens).value[k])
    decreases |tokens|
  {
    if |tokens| > 0 {
      var rest := tokens[1..];
      MapAllMeaning(f, rest);
      assert forall k :: 1 <= k < |tokens| ==> tokens[k] == rest[k - 1];
      var v, vs := f(tokens[0]), MapAll(f, rest);
      if v.Some? && vs.Some? {
        var r := [v.value] + vs.value;
        assert MapAll(f, tokens) == Some(r);
        assert forall k :: 1 <= k < |tokens| ==> r[k] == vs.value[k - 1];
      } else if vs.None? {
        var j :| 0 <= j < |rest| && f(rest[j]).None?;
        assert f(tokens[j + 1]).None?;
      }
    }
  }

  /** `list(map(float, tokens))` */
  function ParseAll(tokens: seq<string>): (r: Option<seq<real>>)
    ensures r.Some? ==> |r.value| == |tokens|
  {
    MapAll(ParseFloat, tokens)
  }

  /**
    Converting a token list succeeds exactly when every token is a number,
    and then the k-th value is what the k-th token converts to.
  */
  lemma ParseAllMeaning(tokens: seq<string>)
    ensures ParseAll(tokens).Some? <==> AllNumbers(tokens)
    ensures ParseAll(tokens).Some? ==>
              forall k :: 0 <= k < |tokens| ==> ParseFloat(tokens[k]) == Some(ParseAll(tokens).value[k])
  {
    MapAllMeaning(ParseFloat, tokens);
  }

  /** One vector entry and its start-index entry: values from the split list, indices `np.arange(start, start + len)`. */
  function ParseSignal(vectorText: string, startText: string): Option<Signal> {
    var vs, start := ParseAll(Split(vectorText)), ParseInt(startText);
    if vs.Some? && start.Some? then Some(Signal(vs.value, Ramp(start.value as real, 1.0, |vs.value|))) else None
  }

  /** The text of the four discrete entry widgets. */
  datatype DiscreteEntries = DiscreteEntries(inputVector: string, inputStart: string,
                                             impulseVector: string, impulseStart: string)

  /** parse_discrete_signals: both signals, or nothing when any conversion fails. */
  function ParseDiscreteSignals(e: DiscreteEntries): Option<(Signal, Signal)> {
    match ParseSignal(e.inputVector, e.inputStart)
    case None => None
    case Some(x) =>
      match ParseSignal(e.impulseVector, e.impulseStart)
      case None => None
      case Some(h) => Some((x, h))
  }

  /**
    The discrete parse of one signal succeeds exactly when every
    comma-separated token is a number and the start is an integer.
  */
  lemma ParseSignalAccepts(vectorText: string, startText: string)
    ensures ParseSignal(vectorText, startText).Some? <==> AllNumbers(Split(vectorText)) && ParseInt(startText).Some?
  {
    var pa, pi := ParseAll(Split(vectorText)), ParseInt(startText);
    ParseAllMeaning(Split(vectorText));
    assert ParseSignal(vectorText, startText).Some? <==> pa.Some? && pi.Some?;
  }

  /**
    A parsed discrete signal has one value per comma-separated token, the
    value that token converts to, and the consecutive indices start,
    start+1, ... where start is the converted start entry.
  */
  lemma ParseSignalMeaning(vectorText: string, startText: string)
    requires ParseSignal(vectorText, startText).Some?
    ensures var x, tokens := ParseSignal(vectorText, startText).value, Split(vectorText);
            && ParseInt(startText).Some?
            && x.Valid()
            && |x.values| == |tokens| > 0
            && ParseAll(tokens) == Some(x.values)
            && (forall k :: 0 <= k < |x.indices| ==> x.indices[k] == (ParseInt(startText).value + k) as real)
  {
    var tokens := Split(vectorText);
    var pa, pi := ParseAll(tokens), ParseInt(startText);
    assert pa.Some? && pi.Some?;
    UnitRamp(pa.value, pi.value);
  }

  /** Values laid on `np.arange(start, start + len)` form a valid signal whose k-th index is start + k. */
  lemma UnitRamp(vs: seq<real>, start: int)
    ensures var x := Signal(vs, Ramp(start as real, 1.0, |vs|));
            && x.Valid()
            && forall k :: 0 <= k < |x.indices| ==> x.indices[k] == (start + k) as real
  {
    var x := Signal(vs, Ramp(start as real, 1.0, |vs|));
    forall k | 0 <= k < |x.indices|
      ensures x.indices[k] == (start + k) as real
    {
      assert x.indices[k] == start as real + k as real * 1.0;
    }
  }

  /** An empty entry is a single empty token, which is not a number: the parse fails. */
  lemma EmptyVectorFails(startText: string)
    ensures ParseSignal("", startText) == None
  {
    assert Split("") == [""];
    assert Strip("") == "";
    assert ParseFloat("") == None;
  }

  /** The integers as reals. */
  function Reals(xs: seq<int>): (r: seq<real>)
    ensures |r| == |xs| && forall k :: 0 <= k < |xs| ==> r[k] == xs[k] as real
  {
    seq(|xs|, k requires 0 <= k < |xs| => xs[k] as real)
  }

  /** `[str(x) for x in xs]` */
  function ShowAll(xs: seq<int>): (ts: seq<string>)
    ensures |ts| == |xs|
    ensures forall k :: 0 <= k < |xs| ==> ts[k] == ShowInt(xs[k])
  {
    seq(|xs|, k requires 0 <= k < |xs| => ShowInt(xs[k]))
  }

  /** Printing integers with commas between them and parsing the text gives back the integers. */
  lemma ParseShownVector(xs: seq<int>)
    requires |xs| > 0
    ensures ParseAll(Split(Join(ShowAll(xs)))) == Some(Reals(xs))
  {
    SplitJoin(ShowAll(xs));
    ParseAllShown(xs);
  }

  lemma ShownIntParses(n: int)
    ensures ParseFloat(ShowInt(n)) == Some(n as real)
  {
    ParseShowInt(n);
    IntLiteralIsFloatLiteral(ShowInt(n));
  }

  lemma ParseAllShown(xs: seq<int>)
    ensures ParseAll(ShowAll(xs)) == Some(Reals(xs))
  {
    var ts := ShowAll(xs);
    forall k | 0 <= k < |xs|
      ensures ParseFloat(ts[k]) == Some(xs[k] as real)
    {
      ShownIntParses(xs[k]);
    }
    ParseAllMeaning(ts);
    var r := ParseAll(ts);
    assert r.Some?;
    assert r.value == Reals(xs);
  }

  /** A successful discrete parse sets both signals, each with consecutive integer indices. */
  lemma ParseDiscreteMeaning(e: DiscreteEntries)
    ensures ParseDiscreteSignals(e).Some? <==>
              ParseSignal(e.inputVector, e.inputStart).Some? && ParseSignal(e.impulseVector, e.impulseStart).Some?
    ensures ParseDiscreteSignals(e).Some? ==>
              var (x, h) := ParseDiscreteSignals(e).value;
              && x.Valid() && h.Valid() && |x.values| > 0 && |h.values| > 0
              && x.indices == Ramp(ParseInt(e.inputStart).value as real, 1.0, |x.values|)
              && h.indices == Ramp(ParseInt(e.impulseStart).value as real, 1.0, |h.values|)
  {
    var px, ph := ParseSignal(e.inputVector, e.inputStart), ParseSignal(e.impulseVector, e.impulseStart);
    if px.Some? && ph.Some? {
      ParseSignalMeaning(e.inputVector, e.inputStart);
      ParseSignalMeaning(e.impulseVector, e.impulseStart);
      assert ParseDiscreteSignals(e) == Some((px.value, ph.value));
    }
  }

  // ---------------------------------------------------------------------------
  // Continuous signals

  datatype SignalType = Impulse | Step | Triangular | Rectangular | Sawtooth

  /** The sampling step generate_continuous_signal uses by default, and the only one its callers pass. */
  const DefaultDt: real := 0.02

  function Abs(x: real): real {
    if x < 0.0 then -x else x
  }

  /** Every sample time lies in [startTime, endTime), as `np.arange(startTime, endTime, dt)` produces. */
  predicate InWindow(t: seq<real>, startTime: real, endTime: real) {
    forall k :: 0 <= k < |t| ==> startTime <= t[k] < endTime
  }

  /** The waveform rule of `kind` at time `x`; `first` marks the grid's first sample. */
  function Sample(kind: SignalType, x: real, first: bool, startTime: real, endTime: real,
                  amplitude: real, dt: real): real
    requires dt != 0.0 && startTime < endTime
  {
    var duration := endTime - startTime;
    match kind
    case Impulse => if first then amplitude / dt else 0.0
    case Step => amplitude
    case Triangular => amplitude * (1.0 - 2.0 * Abs(x - (startTime + duration / 2.0)) / duration)
    case Rectangular => amplitude
    case Sawtooth => amplitude * (x - startTime) / duration
  }

  /** The waveform rule of `kind` applied to each time of the grid `t`. */
  function Waveform(kind: SignalType, t: seq<real>, startTime: real, endTime: real,
                                    amplitude: real, dt: real): (r: seq<real>)
    requires dt != 0.0
    requires InWindow(t, startTime, endTime)
    ensures |r| == |t|
  {
    seq(|t|, k requires 0 <= k < |t| => Sample(kind, t[k], k == 0, startTime, endTime, amplitude, dt))
  }

  /** `rectangular` and `step` are the same waveform: the amplitude at every sample. */
  lemma RectangularIsStep(t: seq<real>, startTime: real, endTime: real, amplitude: real, dt: real)
    requires dt != 0.0 && InWindow(t, startTime, endTime)
    ensures Waveform(Rectangular, t, startTime, endTime, amplitude, dt)
         == Waveform(Step, t, startTime, endTime, amplitude, dt)
    ensures forall k :: 0 <= k < |t| ==>
              Waveform(Step, t, startTime, endTime, amplitude, dt)[k] == amplitude
  {
  }

  /** `impulse` puts amplitude/dt on the first sample and 0 everywhere else; an empty grid gives an empty signal. */
  lemma ImpulseShape(t: seq<real>, startTime: real, endTime: real, amplitude: real, dt: real)
    requires dt != 0.0 && InWindow(t, startTime, endTime)
    ensures var r := Waveform(Impulse, t, startTime, endTime, amplitude, dt);
            && (|t| == 0 ==> r == [])
            && (|t| > 0 ==> r[0] == amplitude / dt)
            && (forall k :: 0 < k < |t| ==> r[k] == 0.0)
  {
  }

  /**
    `sawtooth` starts at 0 at the start time and ramps linearly: a sample at
    time start + f·(end − start) is f·amplitude, so a non-negative amplitude
    gives samples in [0, amplitude).
  */
  lemma SawtoothShape(t: seq<real>, startTime: real, endTime: real, amplitude: real, dt: real)
    requires dt != 0.0 && InWindow(t, startTime, endTime)
    ensures var r := Waveform(Sawtooth, t, startTime, endTime, amplitude, dt);
            && (forall k :: 0 <= k < |t| && t[k] == startTime ==> r[k] == 0.0)
            && (amplitude >= 0.0 ==> forall k :: 0 <= k < |t| ==> 0.0 <= r[k] && (amplitude > 0.0 ==> r[k] < amplitude))
  {
    var r := Waveform(Sawtooth, t, startTime, endTime, amplitude, dt);
    forall k | 0 <= k < |t|
      ensures t[k] == startTime ==> r[k] == 0.0
      ensures amplitude >= 0.0 ==> 0.0 <= r[k] && (amplitude > 0.0 ==> r[k] < amplitude)
    {
      assert r[k] == Sample(Sawtooth, t[k], k == 0, startTime, endTime, amplitude, dt);
      SawtoothSample(amplitude, t[k], startTime, endTime - startTime);
    }
  }

  /** One sawtooth sample at time `x`, for a window of positive duration `d`. */
  lemma SawtoothSample(amplitude: real, x: real, startTime: real, d: real)
    requires d > 0.0 && startTime <= x < startTime + d
    ensures var v := amplitude * (x - startTime) / d;
            && (x == startTime ==> v == 0.0)
            && (amplitude >= 0.0 ==> 0.0 <= v && (amplitude > 0.0 ==> v < amplitude))
  {
    var p := x - startTime;
    var v := amplitude * p / d;
    DivMul(amplitude * p, d);
    assert v * d == amplitude * p;
    if amplitude > 0.0 {
      MulLe(0.0, p, amplitude);
      if v < 0.0 {
        MulStrict(v, 0.0, d);
      }
      MulStrict(p, d, amplitude);
      if v >= amplitude {
        MulLe(amplitude, v, d);
      }
    }
  }

  lemma Fraction(p: real, d: real)
    requires 0.0 <= p <= d && d > 0.0
    ensures 0.0 <= p / d <= 1.0
    ensures p == d ==> p / d == 1.0
  {
    var q := p / d;
    assert q * d == p;
    assert (1.0 - q) * d == d - p;
    if p == d {
      assert (q - 1.0) * d == 0.0;
    }
  }

  /** One triangular sample at time `x`, for a window of positive duration `d` with midpoint `mid`. */
  lemma TriangleSample(amplitude: real, x: real, startTime: real, d: real, mid: real)
    requires d > 0.0 && mid == startTime + d / 2.0 && startTime <= x < startTime + d
    ensures var v := amplitude * (1.0 - 2.0 * Abs(x - mid) / d);
            && (x == mid ==> v == amplitude)
            && (x == startTime ==> v == 0.0)
            && (amplitude >= 0.0 ==> 0.0 <= v <= amplitude)
  {
    var a := Abs(x - mid);
    var f := 1.0 - 2.0 * a / d;
    assert 0.0 <= a <= d / 2.0;
    Fraction(2.0 * a, d);
    if amplitude > 0.0 {
      MulLe(0.0, f, amplitude);
      MulLe(f, 1.0, amplitude);
    }
  }

  /**
    `triangular` peaks at the amplitude at the midpoint, is 0 at the start
    time, and a non-negative amplitude keeps every sample in [0, amplitude].
  */
  lemma TriangularShape(t: seq<real>, startTime: real, endTime: real, amplitude: real, dt: real)
    requires dt != 0.0 && InWindow(t, startTime, endTime)
    ensures var r, mid := Waveform(Triangular, t, startTime, endTime, amplitude, dt),
                          startTime + (endTime - startTime) / 2.0;
            && (forall k :: 0 <= k < |t| && t[k] == mid ==> r[k] == amplitude)
            && (forall k :: 0 <= k < |t| && t[k] == startTime ==> r[k] == 0.0)
            && (amplitude >= 0.0 ==> forall k :: 0 <= k < |t| ==> 0.0 <= r[k] <= amplitude)
  {
    var r := Waveform(Triangular, t, startTime, endTime, amplitude, dt);
    var d := endTime - startTime;
    var mid := startTime + d / 2.0;
    forall k | 0 <= k < |t|
      ensures t[k] == mid ==> r[k] == amplitude
      ensures t[k] == startTime ==> r[k] == 0.0
      ensures amplitude >= 0.0 ==> 0.0 <= r[k] <= amplitude
    {
      assert r[k] == amplitude * (1.0 - 2.0 * Abs(t[k] - mid) / d);
      TriangleSample(amplitude, t[k], startTime, d, mid);
    }
  }

  /** `triangular` is symmetric about the midpoint: two times equally far from it carry the same sample. */
  lemma TriangularSymmetric(t: seq<real>, startTime: real, endTime: real, amplitude: real, dt: real)
    requires dt != 0.0 && InWindow(t, startTime, endTime)
    ensures var r, mid := Waveform(Triangular, t, startTime, endTime, amplitude, dt),
                          startTime + (endTime - startTime) / 2.0;
            forall j, k :: 0 <= j < |t| && 0 <= k < |t| && t[j] - mid == mid - t[k] ==> r[j] == r[k]
  {
    var r := Waveform(Triangular, t, startTime, endTime, amplitude, dt);
    var d := endTime - startTime;
    var mid := startTime + d / 2.0;
    forall j, k | 0 <= j < |t| && 0 <= k < |t| && t[j] - mid == mid - t[k]
      ensures r[j] == r[k]
    {
      assert r[j] == amplitude * (1.0 - 2.0 * Abs(t[j] - mid) / d);
      assert r[k] == amplitude * (1.0 - 2.0 * Abs(t[k] - mid) / d);
      assert Abs(t[j] - mid) == Abs(t[k] - mid);
    }
  }

  /**
    generate_continuous_signal: the times `np.arange(startTime, endTime, dt)`
    and the waveform rule of `kind` at each of them.
  */
  function GenerateContinuousSignal(kind: SignalType, startTime: real, endTime: real,
                                    amplitude: real, dt: real): (r: Signal)
    requires dt > 0.0
    ensures r.Valid()
  {
    var t := Arange(startTime, endTime, dt);
    ArangeInWindow(startTime, endTime, dt);
    Signal(Waveform(kind, t, startTime, endTime, amplitude, dt), t)
  }

  /**
    The generated signal has one sample per time of `np.arange(startTime,
    endTime, dt)`, every time lies in [startTime, endTime), and the signal is
    empty exactly when the window is: an end time at or before the start time
    yields an empty signal, not an error. Each sample is the waveform rule at
    its time.
  */
  lemma GenerateContinuousShape(kind: SignalType, startTime: real, endTime: real, amplitude: real, dt: real)
    requires dt > 0.0
    ensures var r := GenerateContinuousSignal(kind, startTime, endTime, amplitude, dt);
            && r.indices == Ramp(startTime, dt, ArangeLength(startTime, endTime, dt))
            && InWindow(r.indices, startTime, endTime)
            && (|r.indices| > 0 <==> startTime < endTime)
            && r.values == Waveform(kind, r.indices, startTime, endTime, amplitude, dt)
  {
    ArangeInWindow(startTime, endTime, dt);
  }

  /** One waveform selector and its start, end and amplitude entries. */
  datatype WaveEntry = WaveEntry(kind: SignalType, startTime: string, endTime: string, amplitude: string)

  /** One continuous signal: the three numeric entries converted, then the waveform generated. */
  function ParseWave(e: WaveEntry): Option<Signal> {
    match ParseFloat(e.startTime)
    case None => None
    case Some(s) =>
      match ParseFloat(e.endTime)
      case None => None
      case Some(f) =>
        match ParseFloat(e.amplitude)
        case None => None
        case Some(a) => Some(GenerateContinuousSignal(e.kind, s, f, a, DefaultDt))
  }

  /**
    A waveform entry yields a signal exactly when its start, end and
    amplitude are all numbers; the signal is then the waveform generated
    from those three numbers, sampled every 0.02 from the start time.
  */
  lemma ParseWaveMeaning(e: WaveEntry)
    ensures ParseWave(e).Some? <==>
              ParseFloat(e.startTime).Some? && ParseFloat(e.endTime).Some? && ParseFloat(e.amplitude).Some?
    ensures ParseWave(e).Some? ==>
              var r, s, f := ParseWave(e).value, ParseFloat(e.startTime).value, ParseFloat(e.endTime).value;
              && r == GenerateContinuousSignal(e.kind, s, f, ParseFloat(e.amplitude).value, DefaultDt)
              && r.Valid()
              && r.indices == Arange(s, f, DefaultDt)
              && (|r.indices| >= 2 ==> r.indices[1] - r.indices[0] == DefaultDt)
  {
    if ParseWave(e).Some? {
      var s, f, a := ParseFloat(e.startTime).value, ParseFloat(e.endTime).value, ParseFloat(e.amplitude).value;
      GenerateContinuousShape(e.kind, s, f, a, DefaultDt);
    }
  }

  /** The two waveform entries. */
  datatype ContinuousEntries = ContinuousEntries(input: WaveEntry, impulse: WaveEntry)

  /** parse_continuous_signals: both signals, or nothing when any of the six numeric entries fails to convert. */
  function ParseContinuousSignals(e: ContinuousEntries): Option<(Signal, Signal)> {
    match ParseWave(e.input)
    case None => None
    case Some(x) =>
      match ParseWave(e.impulse)
      case None => None
      case Some(h) => Some((x, h))
  }

  /**
    The continuous parse succeeds exactly when both waveform entries hold
    numbers, and then yields the two generated signals, each with one time
    per sample and the input sampled every 0.02.
  */
  lemma ParseContinuousMeaning(e: ContinuousEntries)
    ensures ParseContinuousSignals(e).Some? <==> ParseWave(e.input).Some? && ParseWave(e.impulse).Some?
    ensures ParseContinuousSignals(e).Some? ==>
              var (x, h) := ParseContinuousSignals(e).value;
              && x == ParseWave(e.input).value && h == ParseWave(e.impulse).value
              && x.Valid() && h.Valid()
              && (|x.indices| >= 2 ==> x.indices[1] - x.indices[0] == DefaultDt)
  {
    ParseWaveMeaning(e.input);
    ParseWaveMeaning(e.impulse);
  }
}
