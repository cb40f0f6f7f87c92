/** The Shannon sampling composable: the mouse position and canvas width
    inputs, the reactive state derived from them, and the two watchers that
    keep the state up to date. A watcher fires only when the value it
    watches actually changes; NaN (None) is equal to itself. */
module ShannonComposable {
  import opened Wrappers
  import opened Sampling

  /** The sample times the state holds for a sampling frequency: the
      schedule of period 1 / fs when fs > 0, and none for fs <= 0 or NaN. */
  function ScheduleFor(samplingFrequency: Option<real>): (r: seq<real>)
    ensures samplingFrequency.Some? && samplingFrequency.value > 0.0 ==>
      0 < |r| <= MAX_SAMPLES + 1 && r[0] == 0.0 && WellSpaced(r)
    ensures !(samplingFrequency.Some? && samplingFrequency.value > 0.0) ==> r == []
  {
    if samplingFrequency.Some? && samplingFrequency.value > 0.0 then
      SampleTimesProperties(1.0 / samplingFrequency.value);
      SampleTimes(1.0 / samplingFrequency.value)
    else []
  }

  /** What the state's derived fields hold for the inputs. */
  ghost predicate Derived(sin: real -> real, mouseX: real, canvasWidth: real,
                          samplingFrequency: Option<real>, sampledTimePoints: seq<real>,
                          sampledValues: seq<real>, isAliasing: bool)
  {
    && samplingFrequency == CalculateFs(mouseX, canvasWidth)
    && sampledTimePoints == ScheduleFor(samplingFrequency)
    && sampledValues == Signals(sin, sampledTimePoints)
    && isAliasing == IsAliasing(samplingFrequency)
  }

  /** The inner reconstruction loop: the contribution of the sample xn
      taken at tn is added at every time of the grid. */
  method AddContributions(acc: array<real>, sin: real -> real, fs: real, tn: real, xn: real, grid: seq<real>)
    requires acc.Length == |grid|
    modifies acc
    ensures forall q :: 0 <= q < acc.Length ==> acc[q] == old(acc[q]) + Contribution(sin, fs, tn, xn, grid[q])
  {
    var k := 0;
    while k < acc.Length
      invariant 0 <= k <= acc.Length
      invariant forall q :: 0 <= q < k ==> acc[q] == old(acc[q]) + Contribution(sin, fs, tn, xn, grid[q])
      invariant forall q :: k <= q < acc.Length ==> acc[q] == old(acc[q])
    {
      var tk := grid[k];
      acc[k] := acc[k] + Contribution(sin, fs, tn, xn, tk);
      k := k + 1;
    }
  }

  class ShannonSampling {
    /** Math.sin */
    const sin: real -> real

    var mouseX: real
    var canvasWidth: real

    var timeVector: seq<real>
    var originalSignal: seq<real>
    var sampledTimePoints: seq<real>
    var sampledValues: seq<real>
    var reconstructedSignal: seq<real>
    /** None stands for NaN. */
    var samplingFrequency: Option<real>
    var nyquistFrequency: real
    var isAliasing: bool

    /** The state is derived from the inputs and the time vector is fixed. */
    ghost predicate Valid()
      reads this
    {
      && Derived(sin, mouseX, canvasWidth, samplingFrequency, sampledTimePoints, sampledValues, isAliasing)
      && nyquistFrequency == NYQUIST_FREQUENCY
      && |originalSignal| == |timeVector| > 0
    }

    /** The immediate watchers run first, each once: the frequency watcher
        computes fs from the centred mouse, and the state watcher samples
        and reconstructs, over a time vector that is still empty. Only then
        is the time vector built, so the first reconstruction is empty. */
    constructor (sin: real -> real)
      ensures this.sin == sin
      ensures mouseX == SHANNON_CANVAS_WIDTH / 2.0 && canvasWidth == SHANNON_CANVAS_WIDTH
      ensures Valid()
      ensures originalSignal == Signals(sin, timeVector)
      ensures reconstructedSignal == []
    {
      this.sin := sin;
      mouseX := SHANNON_CANVAS_WIDTH / 2.0;
      canvasWidth := SHANNON_CANVAS_WIDTH;
      timeVector, originalSignal := [], [];
      sampledTimePoints, sampledValues, reconstructedSignal := [], [], [];
      samplingFrequency := Some(NYQUIST_FREQUENCY);
      nyquistFrequency := NYQUIST_FREQUENCY;
      isAliasing := false;
      new;
      samplingFrequency := CalculateFs(mouseX, canvasWidth);
      UpdateSampledAndReconstructed();
      InitializeSignal();
    }

    /** The time vector 0, TIME_STEP, 2 TIME_STEP, ... up to TIME_END and the
        original signal at each of its times. */
    method InitializeSignal()
      modifies this
      ensures |timeVector| > 0 && (|timeVector| - 1) as real * TIME_STEP <= TIME_END
      ensures |timeVector| as real * TIME_STEP > TIME_END
      ensures forall i :: 0 <= i < |timeVector| ==> timeVector[i] == i as real * TIME_STEP <= TIME_END
      ensures originalSignal == Signals(sin, timeVector)
      ensures mouseX == old(mouseX) && canvasWidth == old(canvasWidth)
      ensures samplingFrequency == old(samplingFrequency) && nyquistFrequency == old(nyquistFrequency)
      ensures sampledTimePoints == old(sampledTimePoints) && sampledValues == old(sampledValues)
      ensures reconstructedSignal == old(reconstructedSignal) && isAliasing == old(isAliasing)
    {
      var t: seq<real> := [];
      var signal: seq<real> := [];
      var j: nat := 0;
      while j as real * TIME_STEP <= TIME_END
        invariant j <= 601 && |t| == j
        invariant j > 0 ==> (j - 1) as real * TIME_STEP <= TIME_END
        invariant forall i :: 0 <= i < j ==> t[i] == i as real * TIME_STEP <= TIME_END
        invariant signal == Signals(sin, t)
        decreases 601 - j
      {
        var time := j as real * TIME_STEP;
        t := t + [time];
        signal := signal + [Signal(sin, time)];
        j := j + 1;
      }
      timeVector := t;
      originalSignal := signal;
    }

    /** The samples of the signal every 1 / fs, from 0 to TIME_END. */
    method Sample(fs: real) returns (sampledT: seq<real>, sampledV: seq<real>)
      requires fs > 0.0
      ensures sampledT == SampleTimes(1.0 / fs)
      ensures sampledV == Signals(sin, sampledT)
    {
      var ts := 1.0 / fs;
      sampledT, sampledV := [], [];
      var j: nat := 0;
      while j as real * ts <= TIME_END + ts / 2.0
        invariant SampleLoop(ts, j, sampledT) == SampleTimes(ts)
        invariant sampledV == Signals(sin, sampledT)
        decreases StepBound(ts) - j
      {
        StepBelowBound(ts, j);
        var tSamp := j as real * ts;
        if tSamp > TIME_END && |sampledT| > 0 && sampledT[|sampledT| - 1] >= TIME_END {
          SampleLoopEndpoint(ts, j, sampledT);
          break;
        }
        var actual := Min(tSamp, TIME_END);
        if |sampledT| > 0 && Abs(actual - sampledT[|sampledT| - 1]) < DUPLICATE_TOLERANCE {
          SampleLoopSkip(ts, j, sampledT);
          j := j + 1;
          continue;
        }
        SampleLoopTake(ts, j, sampledT);
        sampledT := sampledT + [actual];
        sampledV := sampledV + [Signal(sin, actual)];
        if |sampledT| > MAX_SAMPLES {
          break;
        }
        j := j + 1;
      }
      if j as real * ts > TIME_END + ts / 2.0 {
        SampleLoopExit(ts, j, sampledT);
      }
    }

    /** The Whittaker-Shannon sum of the samples on the current time vector,
        accumulated sample by sample into an array of zeros. */
    method Reconstruct(fs: real, sampledT: seq<real>, sampledV: seq<real>) returns (r: seq<real>)
      requires |sampledT| == |sampledV|
      ensures r == Reconstruction(sin, fs, sampledT, sampledV, timeVector)
    {
      var grid := timeVector;
      var reconstructed := new real[|grid|](_ => 0.0);
      PartialReconstructionZero(sin, fs, sampledT, sampledV, grid, reconstructed[..]);
      if |sampledT| > 0 {
        var n := 0;
        while n < |sampledT|
          invariant 0 <= n <= |sampledT|
          invariant reconstructed[..] == PartialReconstruction(sin, fs, sampledT, sampledV, n, grid)
        {
          var tn := sampledT[n];
          var xn := sampledV[n];
          ghost var before := reconstructed[..];
          AddContributions(reconstructed, sin, fs, tn, xn, grid);
          PartialReconstructionStep(sin, fs, sampledT, sampledV, n, grid, before, reconstructed[..]);
          n := n + 1;
        }
      }
      r := reconstructed[..];
    }

    /** Recomputes the samples, the reconstruction and the aliasing flag
        from the sampling frequency. */
    method UpdateSampledAndReconstructed()
      modifies this
      ensures sampledTimePoints == ScheduleFor(samplingFrequency)
      ensures sampledValues == Signals(sin, sampledTimePoints)
      ensures samplingFrequency.Some? && samplingFrequency.value > 0.0 ==>
        reconstructedSignal == Reconstruction(sin, samplingFrequency.value, sampledTimePoints, sampledValues, timeVector)
      ensures !(samplingFrequency.Some? && samplingFrequency.value > 0.0) ==>
        reconstructedSignal == seq(|timeVector|, _ => 0.0)
      ensures isAliasing == IsAliasing(samplingFrequency)
      ensures mouseX == old(mouseX) && canvasWidth == old(canvasWidth)
      ensures samplingFrequency == old(samplingFrequency) && nyquistFrequency == old(nyquistFrequency)
      ensures timeVector == old(timeVector) && originalSignal == old(originalSignal)
    {
      match samplingFrequency
      case None =>
        // 1 / NaN is NaN: the sampling loop never runs, nothing is added to
        // the zeros, and NaN < NYQUIST_FREQUENCY is false.
        sampledTimePoints, sampledValues := [], [];
        reconstructedSignal := seq(|timeVector|, _ => 0.0);
        isAliasing := false;
      case Some(fs) =>
        if fs <= 0.0 {
          sampledTimePoints, sampledValues := [], [];
          reconstructedSignal := seq(|timeVector|, _ => 0.0);
          isAliasing := fs < NYQUIST_FREQUENCY;
          return;
        }
        var sampledT, sampledV := Sample(fs);
        sampledTimePoints, sampledValues := sampledT, sampledV;
        reconstructedSignal := Reconstruct(fs, sampledT, sampledV);
        isAliasing := fs < NYQUIST_FREQUENCY;
    }

    /** The state watcher: a change of the sampling frequency triggers an
        update. */
    method SetSamplingFrequency(fs: Option<real>)
      modifies this
      ensures samplingFrequency == fs
      ensures fs == old(samplingFrequency) ==> unchanged(this)
      ensures fs != old(samplingFrequency) ==>
        && sampledTimePoints == ScheduleFor(fs)
        && sampledValues == Signals(sin, sampledTimePoints)
        && isAliasing == IsAliasing(fs)
        && (fs.Some? && fs.value > 0.0 ==>
              reconstructedSignal == Reconstruction(sin, fs.value, sampledTimePoints, sampledValues, timeVector))
        && (!(fs.Some? && fs.value > 0.0) ==> reconstructedSignal == seq(|timeVector|, _ => 0.0))
      ensures mouseX == old(mouseX) && canvasWidth == old(canvasWidth) && nyquistFrequency == old(nyquistFrequency)
      ensures timeVector == old(timeVector) && originalSignal == old(originalSignal)
    {
      if fs != samplingFrequency {
        samplingFrequency := fs;
        UpdateSampledAndReconstructed();
      }
    }

    /** setMouseX: a new mouse position triggers the frequency watcher. The
        width does not change, so fs is NaN before and after when it is 0;
        whenever fs changes, it changes to a positive value. */
    method SetMouseX(x: real)
      requires Valid()
      modifies this
      ensures Valid()
      ensures mouseX == x && canvasWidth == old(canvasWidth)
      ensures timeVector == old(timeVector) && originalSignal == old(originalSignal)
      ensures samplingFrequency == old(samplingFrequency) ==> reconstructedSignal == old(reconstructedSignal)
      ensures samplingFrequency != old(samplingFrequency) && samplingFrequency.Some? && samplingFrequency.value > 0.0 ==>
        reconstructedSignal == Reconstruction(sin, samplingFrequency.value, sampledTimePoints, sampledValues, timeVector)
      ensures samplingFrequency != old(samplingFrequency) ==> samplingFrequency.Some? && samplingFrequency.value > 0.0
    {
      if x != mouseX {
        mouseX := x;
        SetSamplingFrequency(CalculateFs(mouseX, canvasWidth));
      }
    }

    /** setCanvasWidth: the width is stored and fs is recomputed at once; a
        width of 0 makes fs NaN, which leaves no samples and a reconstruction
        of zeros. */
    method SetCanvasWidth(width: real)
      requires Valid()
      modifies this
      ensures Valid()
      ensures canvasWidth == width && mouseX == old(mouseX)
      ensures timeVector == old(timeVector) && originalSignal == old(originalSignal)
      ensures samplingFrequency == old(samplingFrequency) ==> reconstructedSignal == old(reconstructedSignal)
      ensures samplingFrequency != old(samplingFrequency) && samplingFrequency.Some? && samplingFrequency.value > 0.0 ==>
        reconstructedSignal == Reconstruction(sin, samplingFrequency.value, sampledTimePoints, sampledValues, timeVector)
      ensures samplingFrequency != old(samplingFrequency) && !(samplingFrequency.Some? && samplingFrequency.value > 0.0) ==>
        reconstructedSignal == seq(|timeVector|, _ => 0.0)
    {
      canvasWidth := width;
      SetSamplingFrequency(CalculateFs(mouseX, canvasWidth));
    }
  }
}
