# Convolution studio: signal engine and animation loop

This project models the computational core of `ConvolutionGUI`, a tkinter
window that teaches convolution. Its core has four parts:

- **Entering two signals.** In discrete mode, each signal is a comma-separated
  list of samples with an integer start index. In continuous mode, each is one
  of five waveforms (impulse, step, triangular, rectangular, sawtooth) sampled
  every 0.02 over a time window.
- **Computing results.** The window computes the full linear convolution or
  cross-correlation of the two signals, together with the positions of the
  result's samples. It marks the correlation's peaks.
- **Animating the convolution.** A frame loop shows the flipped impulse sliding
  across the input, highlights the overlap, reveals one output sample per
  frame and paces itself by a speed and a quality setting. Another caller can
  stop it by clearing `animation_running`. A run that finishes reports the
  output's maximum and where it first occurs.
- **Resetting.** The reset button clears the state.

The modules:

- `Text` covers `str.split(',')`, the ASCII whitespace `int()` and `float()`
  skip around a literal, and plain ASCII decimal literals as those two read them (see "Left out" for the forms
  they accept beyond these).
- `Signals` covers the discrete and continuous parsers and the waveform rules.
- `Convolution` covers `np.convolve` and `np.correlate` in `'full'` mode, the
  index origins of their results, the `dt` scaling, the peak set, and
  max/argmax.
- `Animation` covers what each frame computes and how many frames a run draws
  when it is cancelled.
- `Studio` holds the class `ConvolutionGUI`. Its fields are those of the
  window, and its methods update them as the event handlers do. A ghost log
  records what each operation draws.

Sample values and positions are `real`. Discrete positions are the
integer-valued reals start, start+1, ….

Behaviour of `Convol.py` worth noting:

- **Restarting an animation.** Starting a new animation does not cancel a
  running one: `animate_convolution_enhanced` only sets the flag again and
  starts another thread.
- **Empty or too-short signals.** The numeric routines are not total over
  them. `np.convolve`/`np.correlate` raise on an empty operand, and continuous
  mode reads `input_indices[1]`. The model represents this as the computation
  storing and drawing nothing. The signals parsed just before stay stored (the
  predicate `Computable`).
- **Overlap in continuous mode.** No overlap is computed in continuous mode;
  only discrete frames highlight one.

## Model

| member | source | states |
|---|---|---|
| Text.TrimStart | EEE-4602/Convol.py:335-336 | the leading whitespace `int()`/`float()` skip (tab, line feed, vertical tab, form feed, carriage return, space) is removed: the result is a suffix, starts with a non-space, and everything dropped is whitespace |
| Text.TrimEnd | EEE-4602/Convol.py:335-336 | the trailing whitespace is removed: the result is a prefix, ends with a non-space, and everything dropped is whitespace |
| Text.Strip | EEE-4602/Convol.py:335-336 | the literal `int()`/`float()` read once the skipped whitespace is gone: TrimEnd of TrimStart, so no such whitespace at either end (StripUnspaced: an unspaced text is its own strip) |
| Text.LeadingSeparatorRefused | EEE-4602/Convol.py:335-336 | a text opening with one of the separators U+001C-U+001F (which `str.isspace()` accepts) is refused by both `int()` and `float()`, as "\x1c5" is |
| Text.TrailingSeparatorRefused | EEE-4602/Convol.py:335-336 | a text closing with one of those separators is refused by both conversions, as "5\x1f" is |
| Text.LeadingSpaceSkipped | EEE-4602/Convol.py:335-336 | a skipped whitespace character, such as the vertical tab in "\x0b5", changes neither conversion's result |
| Text.ParseInt | EEE-4602/Convol.py:336 | `int()` on an optional sign and ASCII digits, whitespace around ignored; ParseShowInt gives `int(str(n)) == n` |
| Text.ParseFloat | EEE-4602/Convol.py:335 | `float()` on an optional sign and a decimal with optional fraction; IntLiteralIsFloatLiteral ties it to ParseInt |
| Text.Split | EEE-4602/Convol.py:335 | `split(',')` always yields at least one piece, and no piece contains a comma |
| Text.SplitCount | EEE-4602/Convol.py:335 | a text with n commas splits into n + 1 pieces |
| Text.JoinSplit | EEE-4602/Convol.py:335 | joining the pieces with commas gives back the text |
| Text.SplitJoin | EEE-4602/Convol.py:335 | splitting comma-free pieces joined by commas gives back the pieces |
| Text.SplitCons | EEE-4602/Convol.py:335 | a comma-free piece followed by a comma becomes its own first piece |
| Text.SplitNoComma | EEE-4602/Convol.py:335 | a text without commas is a single piece |
| Text.PointAt | EEE-4602/Convol.py:335 | the decimal point of a literal is its first '.', or none |
| Text.IntLiteralIsFloatLiteral | EEE-4602/Convol.py:335-336 | every literal `int()` accepts, `float()` accepts with the same value |
| Text.ParseShowInt | EEE-4602/Convol.py:336 | `int(str(n)) == n` for every integer |
| Signals.Ramp | EEE-4602/Convol.py:342 | `np.arange(n) * step + origin`: n values, the k-th origin + k·step (UnitRamp for step 1) |
| Signals.Arange | EEE-4602/Convol.py:354 | `np.arange(start, stop, step)` as the ramp of ArangeLength values; ArangeInWindow places them in [start, stop) |
| Signals.ArangeLength | EEE-4602/Convol.py:354 | `np.arange` yields the least count n with start + n·step reaching the stop, and no fewer |
| Signals.ArangeInWindow | EEE-4602/Convol.py:354 | with a positive step, every time of `np.arange(start, stop, step)` lies in [start, stop) and one more step would reach stop |
| Signals.ArangeBefore | EEE-4602/Convol.py:354 | every value of `np.arange(start, stop, step)` is at least start and below stop |
| Signals.ArangeReaches | EEE-4602/Convol.py:354 | one step past the last value of `np.arange` reaches stop |
| Signals.ArangeExact | EEE-4602/Convol.py:419 | `np.arange(o, o + n·dt, dt)` has exactly n values o, o+dt, … |
| Signals.MapAll | EEE-4602/Convol.py:335 | `list(map(f, tokens))` gives one value per token when it succeeds |
| Signals.MapAllMeaning | EEE-4602/Convol.py:335 | the map succeeds exactly when `f` accepts every token, and the k-th value is what `f` gives for the k-th token |
| Signals.ParseAll | EEE-4602/Convol.py:335 | `list(map(float, tokens))` gives one value per token when it succeeds |
| Signals.ParseAllMeaning | EEE-4602/Convol.py:335 | `list(map(float, tokens))` succeeds exactly when every token is a number, and each value is its token's value |
| Signals.ParseSignal | EEE-4602/Convol.py:335-345 | one vector entry and its start entry; ParseSignalAccepts and ParseSignalMeaning state when it succeeds and what it yields |
| Signals.ParseDiscreteSignals | EEE-4602/Convol.py:333-351 | both discrete signals or nothing; ParseDiscreteMeaning states when and what |
| Signals.ParseSignalAccepts | EEE-4602/Convol.py:335-351 | one discrete signal parses exactly when every token is a number and the start is an integer literal |
| Signals.ParseSignalMeaning | EEE-4602/Convol.py:335-345 | a parsed signal's values are `list(map(float, tokens))`, at least one, and its indices are start, start+1, …, start+len−1 with start the converted start entry |
| Signals.UnitRamp | EEE-4602/Convol.py:342 | `np.arange(start, start + len)` has one index per value, the k-th being start + k |
| Signals.EmptyVectorFails | EEE-4602/Convol.py:335 | an empty vector entry is rejected (`float('')` raises) |
| Signals.ParseShownVector | EEE-4602/Convol.py:335 | integers printed with commas between them parse back to the same values |
| Signals.ParseAllShown | EEE-4602/Convol.py:335 | printed integers parse back token by token |
| Signals.ShownIntParses | EEE-4602/Convol.py:335 | `float(str(n)) == n` |
| Signals.ParseDiscreteMeaning | EEE-4602/Convol.py:333-351 | both signals are set exactly when both parse; nothing is set when either fails; each set signal is non-empty with indices start, start+1, … |
| Signals.Sample | EEE-4602/Convol.py:356-370 | the per-kind rule at one time; RectangularIsStep, ImpulseShape, SawtoothShape, TriangularShape and TriangularSymmetric state its values |
| Signals.Waveform | EEE-4602/Convol.py:356-370 | one sample per time of the grid |
| Signals.RectangularIsStep | EEE-4602/Convol.py:360-367 | `rectangular` and `step` give identical samples, the amplitude everywhere |
| Signals.ImpulseShape | EEE-4602/Convol.py:356-359 | `impulse` is amplitude/dt at the first sample and 0 elsewhere, and empty on an empty grid |
| Signals.SawtoothShape | EEE-4602/Convol.py:368-370 | `sawtooth` is 0 at the start time and, for a non-negative amplitude, stays in [0, amplitude), or is 0 when the amplitude is 0 |
| Signals.SawtoothSample | EEE-4602/Convol.py:370 | one sawtooth sample: 0 at the start time, within [0, amplitude) inside the window, or 0 when the amplitude is 0 |
| Signals.TriangleSample | EEE-4602/Convol.py:363-365 | one triangular sample: the amplitude at the midpoint, 0 at the start, within [0, amplitude] |
| Signals.TriangularShape | EEE-4602/Convol.py:362-365 | `triangular` equals the amplitude at the midpoint and 0 at the start time; a non-negative amplitude keeps every sample in [0, amplitude] |
| Signals.TriangularSymmetric | EEE-4602/Convol.py:362-365 | `triangular` takes equal values at times equally far from the midpoint |
| Signals.GenerateContinuousSignal | EEE-4602/Convol.py:353-372 | the times and samples have equal length |
| Signals.GenerateContinuousShape | EEE-4602/Convol.py:353-372 | the times are `np.arange(start, end, dt)`, all inside [start, end); the signal is empty exactly when end <= start; each sample follows the waveform rule |
| Signals.ParseWave | EEE-4602/Convol.py:376-388 | one waveform's three conversions then its generation; ParseWaveMeaning states when and what |
| Signals.ParseContinuousSignals | EEE-4602/Convol.py:374-397 | both waveforms or nothing; ParseContinuousMeaning states when and what |
| Signals.ParseWaveMeaning | EEE-4602/Convol.py:376-388 | a waveform is generated exactly when its start, end and amplitude entries are numbers, sampled every 0.02 from the start time |
| Signals.ParseContinuousMeaning | EEE-4602/Convol.py:374-397 | both continuous signals are set exactly when all six entries are numbers; the input's step is 0.02 |
| Convolution.ConvAt | EEE-4602/Convol.py:408 | y[n] = Σ over input positions k of x[k]·h[n−k] where h[n−k] exists; ConvAtCommutes and ConvolveEnds state its symmetry and end samples |
| Convolution.Convolve | EEE-4602/Convol.py:408 | the full convolution has len(x)+len(h)−1 samples |
| Convolution.SumSplit | EEE-4602/Convol.py:408 | the convolution sum over a range splits at any midpoint |
| Convolution.SumZero | EEE-4602/Convol.py:408 | a sum of vanishing products is 0 |
| Convolution.SumRestrict | EEE-4602/Convol.py:408 | only the overlapping products contribute to y[n] |
| Convolution.SumSwap | EEE-4602/Convol.py:408 | Σ x[k]·h[n−k] re-indexed by j = n−k is Σ h[j]·x[n−j] |
| Convolution.ConvAtCommutes | EEE-4602/Convol.py:408 | each output sample is the same with the operands swapped |
| Convolution.ConvolveCommutes | EEE-4602/Convol.py:408 | `np.convolve(x, h) == np.convolve(h, x)` |
| Convolution.ConvolveEnds | EEE-4602/Convol.py:408 | the first output sample is x[0]·h[0] and the last is x[last]·h[last] |
| Convolution.Reverse | EEE-4602/Convol.py:512 | `h[::-1]` has the same length and holds h's samples back to front |
| Convolution.ReverseReverse | EEE-4602/Convol.py:512 | reversing twice gives back the impulse |
| Convolution.Correlate | EEE-4602/Convol.py:432 | the full correlation has len(x)+len(h)−1 samples |
| Convolution.CorrSumIsConvSum | EEE-4602/Convol.py:432 | each correlation sum is the convolution sum with the impulse reversed |
| Convolution.CorrelateIsConvolveReversed | EEE-4602/Convol.py:432 | `np.correlate(x, h, 'full') == np.convolve(x, h[::-1], 'full')` |
| Convolution.Scale | EEE-4602/Convol.py:415 | every sample is multiplied by dt |
| Convolution.DiscreteConvolution | EEE-4602/Convol.py:407-412 | the discrete output is the full convolution, indexed x_start + h_start + n |
| Convolution.ContinuousConvolution | EEE-4602/Convol.py:413-419 | each continuous output sample is the convolution sample times dt; the times start at x_start + h_start, step by dt, and number exactly the samples |
| Convolution.DiscreteCorrelation | EEE-4602/Convol.py:431-436 | the discrete correlation is indexed x_start − h_last + n |
| Convolution.ContinuousCorrelation | EEE-4602/Convol.py:437-443 | each continuous correlation sample is the correlation sample times dt; the times start at x_start − h_last, step by dt, and number exactly the samples |
| Convolution.DiscreteOrigins | EEE-4602/Convol.py:409-412 | for parsed discrete signals the convolution starts at x0 + h0 and the correlation at x0 − (h0 + len(h) − 1), both with unit steps |
| Convolution.ContinuousOrigins | EEE-4602/Convol.py:414-419 | for grids of step dt, the convolution's sample n sits at x0 + h0 + n·dt, and the correlation's at x0 − h_last + n·dt, both scaled by dt |
| Convolution.MaxAbs | EEE-4602/Convol.py:451 | `np.max(np.abs(c))` bounds every magnitude and is attained |
| Convolution.Above | EEE-4602/Convol.py:451 | `np.where(...)[0]` lists exactly the qualifying positions, in increasing order |
| Convolution.AboveNone | EEE-4602/Convol.py:451 | with no qualifying sample, no position is listed |
| Convolution.Peaks | EEE-4602/Convol.py:451 | every listed position is a sample whose magnitude exceeds 0.7 of the largest; PeaksMeaning adds that every such position is listed, in increasing order |
| Convolution.PeaksMeaning | EEE-4602/Convol.py:451-453 | the peaks are exactly the positions with magnitude above 0.7·max, in increasing order; every maximal position is one when max > 0; an all-zero correlation has none |
| Convolution.PeakLags | EEE-4602/Convol.py:453 | `corr_indices[peaks]` picks the lag of each peak |
| Convolution.Pick | EEE-4602/Convol.py:453 | `correlation[peaks]` picks the value at each peak position |
| Convolution.MaxValue | EEE-4602/Convol.py:643 | `np.max` bounds every sample and is attained |
| Convolution.ArgMax | EEE-4602/Convol.py:644 | `np.argmax` is a position of the largest sample, and no earlier sample reaches it |
| Convolution.MaxAtArgMax | EEE-4602/Convol.py:643-645 | the reported maximum sits at the reported index, the first index holding it |
| Animation.QualityFactor | EEE-4602/Convol.py:626 | `quality_speeds`: 1.2 for standard, 0.5 for high; FrameDelayValues states the resulting pauses |
| Animation.FrameDelay | EEE-4602/Convol.py:627 | `adjusted_speed`, the speed divided by the quality factor; FrameDelayValues states its values |
| Animation.FrameDelayValues | EEE-4602/Convol.py:626-627 | the pause is speed/1.2 in standard quality and speed/0.5 in high quality, longer in high quality for a positive speed |
| Animation.ShiftedIndices | EEE-4602/Convol.py:528-537 | one shifted position per impulse sample |
| Animation.FrameGeometry | EEE-4602/Convol.py:512-537 | at frame i the impulse is drawn reversed, at x_start + (j − (L−1) + i)·step, so its last position is x_start + i·step whatever the impulse's start |
| Animation.FrameAdvances | EEE-4602/Convol.py:529-536 | from one frame to the next the drawn impulse moves one step |
| Animation.ShiftedClosed | EEE-4602/Convol.py:528-537 | closed form of every shifted position |
| Animation.ShiftedMoves | EEE-4602/Convol.py:529-536 | each shifted position grows by one step per frame |
| Animation.ShiftedAt | EEE-4602/Convol.py:528-537 | closed form of one shifted position |
| Animation.DiscreteOverlap | EEE-4602/Convol.py:563-566 | the discrete overlap passes the guard exactly for frames i < len(x)+L−1, spanning [max(x0, x0−(L−1)+i), min(x_last, x0+i)] |
| Animation.OverlapNeverEmpty | EEE-4602/Convol.py:563-566 | every frame of a discrete run over the full convolution highlights a non-empty overlap |
| Animation.RevealAndProgress | EEE-4602/Convol.py:574-614 | after frame i the revealed output is its first i+1 samples, each frame reveals the next one, and progress grows strictly within (0, 1], reaching 1 exactly on the last frame |
| Animation.Progress | EEE-4602/Convol.py:614 | `(i + 1) / len(output)`; RevealAndProgress and ProgressGrows state that it lies in (0, 1], grows strictly and is 1 only on the last frame |
| Animation.OverlapAt | EEE-4602/Convol.py:563-566 | `max` of the first positions to `min` of the last positions, kept only when the guard passes, in discrete mode; OverlapWithinSpans and DiscreteOverlap state its properties |
| Animation.OverlapWithinSpans | EEE-4602/Convol.py:563-566 | an overlap is highlighted only in discrete mode, passes the `overlap_start <= overlap_end` guard, and lies within both the input's and the shifted impulse's spans |
| Animation.FrameAt | EEE-4602/Convol.py:514-628 | everything frame i computes; FrameGeometry, FrameAdvances, DiscreteOverlap and RevealAndProgress state its parts |
| Animation.FinalAt | EEE-4602/Convol.py:636-645 | the final report: the whole output, its maximum, the first index holding it and that index's position |
| Animation.Completes | EEE-4602/Convol.py:631 | the final report is drawn when the flag survives every check; CancellationStops and UninterruptedRunCompletes state when |
| Animation.ProgressGrows | EEE-4602/Convol.py:614 | the progress fraction grows from frame to frame |
| Animation.FirstCleared | EEE-4602/Convol.py:514-516 | the first check that finds the flag cleared; every check before it found it set |
| Animation.FramesRun | EEE-4602/Convol.py:514-516 | the frames a run draws all passed their check, and a shorter run means a check failed |
| Animation.FramesRunUnique | EEE-4602/Convol.py:514-516 | the frame count is determined by the checks |
| Animation.CancellationStops | EEE-4602/Convol.py:515-631 | a flag found cleared before frame k means no frame k or later and no final report |
| Animation.UninterruptedRunCompletes | EEE-4602/Convol.py:514-631 | a run whose flag is never cleared draws every frame and the final report |
| Studio.FrameLog | EEE-4602/Convol.py:514-623 | the log of m frames holds frames 0..m−1 in order |
| Studio.FrameLogGrows | EEE-4602/Convol.py:514-623 | each frame extends the log by exactly that frame |
| Studio.ParsedShape | EEE-4602/Convol.py:400-405 | the parser of the current mode yields signals with one position per sample; discrete ones are non-empty; the continuous input's step is 0.02 |
| Studio.Computable | EEE-4602/Convol.py:408-438 | whether the arithmetic goes through: both signals non-empty and, in continuous mode, at least two input samples with a non-zero step; ConvolutionStored and CorrelationDrawing state what happens otherwise |
| Studio.ConvolutionResult | EEE-4602/Convol.py:407-419 | the stored output has len(x)+len(h)−1 samples, one position each |
| Studio.CorrelationResult | EEE-4602/Convol.py:431-443 | the drawn correlation has len(x)+len(h)−1 samples, one position each |
| Studio.CorrelationPlot | EEE-4602/Convol.py:445-453 | the plot draws the whole correlation, and one marker per peak position (see PeaksMeaning), at that position's lag and with its value |
| Studio.CorrelationDrawing | EEE-4602/Convol.py:431-456 | compute_correlation draws one plot, the correlation plot, exactly when the arithmetic goes through, and nothing otherwise |
| Studio.ConvolutionGUI.constructor | EEE-4602/Convol.py:21-33 | a fresh window: discrete mode, no signals, not running, speed 150, high quality, frame counters 0 |
| Studio.ConvolutionGUI.CurrentScene | EEE-4602/Convol.py:507-537 | what the frame loop reads is a well-formed scene |
| Studio.ConvolutionGUI.Input | EEE-4602/Convol.py:341-342 | the stored input has one position per sample |
| Studio.ConvolutionGUI.Impulse | EEE-4602/Convol.py:344-345 | the stored impulse has one position per sample |
| Studio.ConvolutionGUI.Store | EEE-4602/Convol.py:341-345 | the two parsed signals are assigned to the signal fields |
| Studio.ConvolutionGUI.ParseDiscreteSignals | EEE-4602/Convol.py:333-351 | returns True exactly when the parse succeeds, then stores both signals; on False nothing changes |
| Studio.ConvolutionGUI.ParseContinuousSignals | EEE-4602/Convol.py:374-397 | returns True exactly when all six entries convert, then stores both waveforms; when a conversion fails nothing changes |
| Studio.ConvolutionGUI.ParseCurrent | EEE-4602/Convol.py:400-405 | the parser of the current mode runs; on failure nothing changes |
| Studio.ConvolutionGUI.ComputeConvolution | EEE-4602/Convol.py:399-421 | a failed parse changes nothing; otherwise the parsed signals are stored, and their convolution and positions are stored with the animation started and the input drawn; when the arithmetic raises, the output, the flag, the frame counters and the canvas stay as they were |
| Studio.ConvolutionGUI.ConvolveStored | EEE-4602/Convol.py:407-421 | the convolution of the stored signals and its positions go into the output fields, and the animation starts; when the arithmetic raises, the output, the flag, the frame counters and the canvas stay as they were |
| Studio.ConvolutionGUI.CorrelateStored | EEE-4602/Convol.py:431-456 | only the canvas changes, by the correlation drawing of the stored signals |
| Studio.ConvolutionGUI.ComputeCorrelation | EEE-4602/Convol.py:423-456 | a failed parse changes nothing; otherwise the signals are stored and exactly the correlation plot with its peak markers is drawn; the output and the animation are untouched |
| Studio.ConvolutionGUI.AnimateConvolutionEnhanced | EEE-4602/Convol.py:471-491 | running set, current frame 0, total frames = output length, input drawn |
| Studio.ConvolutionGUI.RunEnhancedAnimation | EEE-4602/Convol.py:507-664 | frames 0..m−1 are drawn in order (m = frames before the first failed check); the final report is drawn only when every check passed; current_frame is the last drawn frame; the flag ends cleared |
| Studio.ConvolutionGUI.ResetAll | EEE-4602/Convol.py:668-680 | flag cleared, input, impulse and output forgotten, counters 0, canvas cleared, and no frame loop can start |

## Left out

- Widget construction, theming, styles, `setup_enhanced_plot` and every plotting call. Drawing is recorded as a ghost log of what each operation draws, not as pixels.
- The glow effect (`np.sin`, alpha values) and the unreachable `"ultra"` trailing effect. Only `standard` and `high` can be selected.
- The daemon thread and `time.sleep`. The model computes the pause for each frame but does not wait. Another caller clearing `animation_running` is an input `cleared`, one entry per check.
- Concurrency between two animation runs. A second `compute_convolution` starts a second thread without stopping the first; the model treats one run at a time.
- Floating point. Values and positions are exact reals. `np.arange` is exact, so the drift the code absorbs with `[:len(...)]` never arises. The truncation itself is modelled.
- Integer width. Discrete positions come from `np.arange` over the `int()` start entries (lines 342 and 345), so they are numpy 64-bit integers. Start entries near ±2^62 make the output origin (line 410), the correlation origin (line 434) and the frame shift (lines 528-529) wrap around. The model's positions are unbounded integers, carried as reals.
- Convolution.DiscreteConvolution: the origin `x0 + h0` does not wrap around at 64 bits, because positions are unbounded.
- Convolution.DiscreteCorrelation: the origin `x0 - h[-1]` does not wrap around at 64 bits, because positions are unbounded.
- Animation.ShiftedIndices: the discrete frame shift does not wrap around at 64 bits, because positions are unbounded.
- `float()`: only decimal literals with an optional sign and optional fraction are accepted. Exponents, `inf`, `nan`, underscores and non-ASCII digits are not. Non-ASCII whitespace around the literal (U+0085, U+00A0 and the like), which Python skips, is rejected.
- `int()`: only an optional sign and ASCII digits are accepted. Underscores between digits ("1_000") and non-ASCII decimal digits, which Python's `int()` also accepts, are rejected. Non-ASCII whitespace around the literal, which Python skips, is rejected.
- Error dialogs (`messagebox.showerror`). A failed parse returns False and changes nothing.
- Exceptions that escape `compute_convolution` or `compute_correlation`. These come from an empty signal or from a continuous input with fewer than two samples. They are modelled as nothing being computed or drawn after the signals are stored.
- A zero continuous step. In the code a zero `dt` would let line 415 assign `output_signal` before `np.arange` raises at line 419. In the model every continuous input is sampled every 0.02 exactly, so its step is never zero and this partial update cannot arise.
- A failure while generating the impulse waveform. The code stores the input waveform (lines 384-385) before generating the impulse (387-388). If that generation raises, for instance because an end time beyond the double range became `inf` or the window is too long to allocate, `parse_continuous_signals` returns False with the input already replaced. Exact reals have no such failures, so in the model a continuous parse either stores both signals or changes nothing.
- `update_speed` (the slider's `int(float(value))`): `animation_speed` is an integer parameter of the model.
- Studio.ConvolutionGUI.RunEnhancedAnimation: the loop re-reads `animation_speed`, `animation_quality`, `mode`, `output_signal`, `output_indices` and `input_indices` on every frame, so another caller changing them mid-run (moving the speed slider, say) changes later frames. The model takes one snapshot of these fields (the scene) before the loop; only `animation_running` is observed per check.
- Signals.GenerateContinuousSignal: its own contract states only that times and samples pair up. What it generates is stated by GenerateContinuousShape.
