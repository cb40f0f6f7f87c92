/** The pure part of the Shannon sampling demo: its constants, the
    normalised sinc function, the sampled sine signal, the mapping from the
    mouse position to the sampling frequency, the sampling schedule and the
    Whittaker-Shannon sum. Times are exact reals; sin is a parameter, since
    the model does not interpret it. */
module Sampling {
  import opened Wrappers

  /** Math.PI */
  const PI: real := 3.141592653589793

  const SHANNON_CANVAS_WIDTH: real := 800.0
  const SIGNAL_FREQUENCY: real := 0.5
  const NYQUIST_FREQUENCY: real := 2.0 * SIGNAL_FREQUENCY
  const TIME_END: real := 6.0
  const TIME_STEP: real := 1.0 / 100.0
  const FS_MIN: real := 0.1
  const FS_MAX: real := 5.1

  /** Two sample times closer than this count as one. */
  const DUPLICATE_TOLERANCE: real := 0.000000001
  /** The sampling loop stops once it holds more than this many samples. */
  const MAX_SAMPLES: nat := 1000

  function Min(a: real, b: real): real { if a <= b then a else b }
  function Max(a: real, b: real): real { if a >= b then a else b }
  function Abs(x: real): real { if x < 0.0 then -x else x }

  /** mySinc: the normalised sinc, sin(pi x) / (pi x), with the value 1 at 0. */
  function Sinc(sin: real -> real, x: real): (r: real)
    ensures x == 0.0 ==> r == 1.0
    ensures x != 0.0 ==> r * (PI * x) == sin(PI * x)
  {
    if x == 0.0 then 1.0
    else
      var piX := PI * x;
      sin(piX) / piX
  }

  /** The original signal sin(2 pi f0 t). */
  function Signal(sin: real -> real, t: real): real {
    sin(2.0 * PI * SIGNAL_FREQUENCY * t)
  }

  function Signals(sin: real -> real, ts: seq<real>): (vs: seq<real>)
    ensures |vs| == |ts|
  {
    seq(|ts|, i requires 0 <= i < |ts| => Signal(sin, ts[i]))
  }

  /** calculateFs. A zero canvas width makes 0 / 0, a NaN that survives both
      clamps (None); a negative width gives FS_MIN. */
  function CalculateFs(mouseX: real, canvasWidth: real): (r: Option<real>)
    ensures r.None? <==> canvasWidth == 0.0
    ensures r.Some? ==> FS_MIN <= r.value <= FS_MAX
  {
    if canvasWidth == 0.0 then None
    else
      var normalizedMouseX := Max(0.0, Min(canvasWidth, mouseX)) / canvasWidth;
      var fs := FS_MIN + normalizedMouseX * (FS_MAX - FS_MIN);
      Some(Max(FS_MIN, Min(FS_MAX, fs)))
  }

  /** The aliasing flag the composable sets for a sampling frequency: a NaN
      frequency compares false. */
  function IsAliasing(samplingFrequency: Option<real>): bool {
    samplingFrequency.Some? && samplingFrequency.value < NYQUIST_FREQUENCY
  }

  // ----- the sampling schedule -----

  /** An upper bound on the loop counter while t = j * ts <= TIME_END + ts / 2. */
  function StepBound(ts: real): int
    requires ts > 0.0
  {
    ((TIME_END + ts / 2.0) / ts).Floor + 1
  }

  lemma StepBelowBound(ts: real, j: nat)
    requires ts > 0.0 && j as real * ts <= TIME_END + ts / 2.0
    ensures j < StepBound(ts)
  {
    var x := (TIME_END + ts / 2.0) / ts;
    assert x * ts == TIME_END + ts / 2.0;
    assert j as real <= x;
  }

  /** What one pass of the sampling loop does at step j. */
  datatype Step = Stop | Skip | Take(actual: real, isLast: bool)

  /** One pass of the sampling loop at t = j * ts with the samples acc taken
      so far: the loop runs while t <= TIME_END + ts / 2; it stops past
      TIME_END once the last sample is TIME_END; a time past TIME_END is
      clamped to TIME_END; a time within 1e-9 of the last sample is skipped;
      and the loop stops once it holds more than 1000 samples. */
  function NextStep(ts: real, j: nat, acc: seq<real>): (r: Step)
    requires ts > 0.0
    ensures !r.Stop? ==> j < StepBound(ts)
    ensures r.Take? ==> r.actual == Min(j as real * ts, TIME_END)
    ensures r.Take? && |acc| > 0 ==> Abs(r.actual - acc[|acc| - 1]) >= DUPLICATE_TOLERANCE
    ensures r.Take? ==> (r.isLast <==> |acc| + 1 > MAX_SAMPLES)
    ensures |acc| == 0 && j == 0 ==> r == Take(0.0, MAX_SAMPLES == 0)
  {
    var tSamp := j as real * ts;
    if tSamp > TIME_END + ts / 2.0 then Stop
    else
      StepBelowBound(ts, j);
      if tSamp > TIME_END && |acc| > 0 && acc[|acc| - 1] >= TIME_END then Stop
      else
        var actual := Min(tSamp, TIME_END);
        if |acc| > 0 && Abs(actual - acc[|acc| - 1]) < DUPLICATE_TOLERANCE then Skip
        else Take(actual, |acc| + 1 > MAX_SAMPLES)
  }

  /** The sampling loop from step j with the samples acc taken so far. */
  function SampleLoop(ts: real, j: nat, acc: seq<real>): seq<real>
    requires ts > 0.0
    decreases StepBound(ts) - j
  {
    match NextStep(ts, j, acc)
    case Stop => acc
    case Skip => SampleLoop(ts, j + 1, acc)
    case Take(actual, isLast) =>
      if isLast then acc + [actual] else SampleLoop(ts, j + 1, acc + [actual])
  }

  /** One pass of the sampling loop, read off NextStep. */
  lemma SampleLoopUnfold(ts: real, j: nat, acc: seq<real>)
    requires ts > 0.0
    ensures var step := NextStep(ts, j, acc);
      && (step.Stop? ==> SampleLoop(ts, j, acc) == acc)
      && (step.Skip? ==> SampleLoop(ts, j, acc) == SampleLoop(ts, j + 1, acc))
      && (step.Take? && step.isLast ==> SampleLoop(ts, j, acc) == acc + [step.actual])
      && (step.Take? && !step.isLast ==> SampleLoop(ts, j, acc) == SampleLoop(ts, j + 1, acc + [step.actual]))
  {
  }

  /** The loop ends once the sample time passes TIME_END + ts / 2. */
  lemma SampleLoopExit(ts: real, j: nat, acc: seq<real>)
    requires ts > 0.0 && j as real * ts > TIME_END + ts / 2.0
    ensures SampleLoop(ts, j, acc) == acc
  {
    SampleLoopUnfold(ts, j, acc);
  }

  /** The loop stops past TIME_END once the clamped endpoint is taken. */
  lemma SampleLoopEndpoint(ts: real, j: nat, acc: seq<real>)
    requires ts > 0.0 && j as real * ts > TIME_END && |acc| > 0 && acc[|acc| - 1] >= TIME_END
    ensures SampleLoop(ts, j, acc) == acc
  {
    SampleLoopUnfold(ts, j, acc);
  }

  /** A time closer than DUPLICATE_TOLERANCE to the last one is skipped. */
  lemma SampleLoopSkip(ts: real, j: nat, acc: seq<real>)
    requires ts > 0.0 && j as real * ts <= TIME_END + ts / 2.0
    requires !(j as real * ts > TIME_END && |acc| > 0 && acc[|acc| - 1] >= TIME_END)
    requires |acc| > 0 && Abs(Min(j as real * ts, TIME_END) - acc[|acc| - 1]) < DUPLICATE_TOLERANCE
    ensures SampleLoop(ts, j, acc) == SampleLoop(ts, j + 1, acc)
  {
    SampleLoopUnfold(ts, j, acc);
  }

  /** Any other time is taken, clamped to TIME_END; the loop breaks once
      more than MAX_SAMPLES times are taken. */
  lemma SampleLoopTake(ts: real, j: nat, acc: seq<real>)
    requires ts > 0.0 && j as real * ts <= TIME_END + ts / 2.0
    requires !(j as real * ts > TIME_END && |acc| > 0 && acc[|acc| - 1] >= TIME_END)
    requires !(|acc| > 0 && Abs(Min(j as real * ts, TIME_END) - acc[|acc| - 1]) < DUPLICATE_TOLERANCE)
    ensures var actual := Min(j as real * ts, TIME_END);
      SampleLoop(ts, j, acc)
      == if |acc| + 1 > MAX_SAMPLES then acc + [actual] else SampleLoop(ts, j + 1, acc + [actual])
  {
    SampleLoopUnfold(ts, j, acc);
  }

  /** The sample times for the sampling period ts. */
  function SampleTimes(ts: real): seq<real>
    requires ts > 0.0
  {
    SampleLoop(ts, 0, [])
  }

  /** What every sample schedule satisfies. */
  predicate WellSpaced(r: seq<real>) {
    && (forall i :: 0 <= i < |r| ==> 0.0 <= r[i] <= TIME_END)
    && (forall i {:trigger r[i]} :: 0 < i < |r| ==> r[i] - r[i - 1] >= DUPLICATE_TOLERANCE)
  }

  /** What the samples taken before step j satisfy. */
  predicate LoopInvariant(ts: real, j: nat, acc: seq<real>) {
    WellSpaced(acc) && (|acc| > 0 ==> acc[|acc| - 1] <= Min(j as real * ts, TIME_END))
  }

  lemma NextStepLater(ts: real, j: nat)
    requires ts > 0.0
    ensures (j + 1) as real * ts == j as real * ts + ts
    ensures Min((j + 1) as real * ts, TIME_END) >= Min(j as real * ts, TIME_END)
  {
    AddOneTimes(j as real, ts);
    MinMonotone(j as real * ts, (j + 1) as real * ts, TIME_END);
  }

  lemma AddOneTimes(x: real, ts: real)
    ensures (x + 1.0) * ts == x * ts + ts
  {
  }

  lemma MinMonotone(a: real, b: real, e: real)
    requires a <= b
    ensures Min(a, e) <= Min(b, e)
  {
  }

  lemma PushKeepsSpacing(acc: seq<real>, actual: real)
    requires WellSpaced(acc) && 0.0 <= actual <= TIME_END
    requires |acc| > 0 ==> actual - acc[|acc| - 1] >= DUPLICATE_TOLERANCE
    ensures WellSpaced(acc + [actual])
  {
    var next := acc + [actual];
    assert forall i :: 0 <= i < |acc| ==> next[i] == acc[i];
  }

  /** The loop only appends, and stops at 1001 samples. */
  lemma {:induction false} SampleLoopExtends(ts: real, j: nat, acc: seq<real>)
    requires ts > 0.0 && |acc| <= MAX_SAMPLES
    ensures var r := SampleLoop(ts, j, acc);
      |acc| <= |r| <= MAX_SAMPLES + 1 && r[..|acc|] == acc
    decreases StepBound(ts) - j
  {
    match NextStep(ts, j, acc)
    case Stop =>
    case Skip =>
      SampleLoopExtends(ts, j + 1, acc);
    case Take(actual, isLast) =>
      var next := acc + [actual];
      if isLast {
        assert next[..|acc|] == acc;
      } else {
        SampleLoopExtends(ts, j + 1, next);
        var r := SampleLoop(ts, j + 1, next);
        assert r[..|acc|] == r[..|next|][..|acc|];
      }
  }

  /** Every sample lies in [0, TIME_END] and exceeds the one before by at
      least 1e-9. */
  lemma {:induction false} SampleLoopSpaced(ts: real, j: nat, acc: seq<real>)
    requires ts > 0.0 && LoopInvariant(ts, j, acc)
    ensures WellSpaced(SampleLoop(ts, j, acc))
    decreases StepBound(ts) - j
  {
    SampleLoopUnfold(ts, j, acc);
    match NextStep(ts, j, acc)
    case Stop =>
    case Skip =>
      LaterKeepsInvariant(ts, j, acc);
      SampleLoopSpaced(ts, j + 1, acc);
    case Take(actual, isLast) =>
      TakeKeepsInvariant(ts, j, acc);
      if !isLast {
        SampleLoopSpaced(ts, j + 1, acc + [actual]);
      }
  }

  lemma LaterKeepsInvariant(ts: real, j: nat, acc: seq<real>)
    requires ts > 0.0 && LoopInvariant(ts, j, acc)
    ensures LoopInvariant(ts, j + 1, acc)
  {
    NextStepLater(ts, j);
  }

  lemma TakeKeepsInvariant(ts: real, j: nat, acc: seq<real>)
    requires ts > 0.0 && LoopInvariant(ts, j, acc) && NextStep(ts, j, acc).Take?
    ensures WellSpaced(acc + [NextStep(ts, j, acc).actual])
    ensures LoopInvariant(ts, j + 1, acc + [NextStep(ts, j, acc).actual])
  {
    var step := NextStep(ts, j, acc);
    var actual := step.actual;
    NextStepLater(ts, j);
    assert 0.0 <= actual <= TIME_END;
    if |acc| > 0 {
      assert acc[|acc| - 1] <= actual;
    }
    PushKeepsSpacing(acc, actual);
  }

  /** The sample schedule starts at 0, stays within [0, TIME_END], climbs by
      at least 1e-9 per sample and holds at most 1001 samples. */
  lemma SampleTimesProperties(ts: real)
    requires ts > 0.0
    ensures var r := SampleTimes(ts);
      && 0 < |r| <= MAX_SAMPLES + 1
      && r[0] == 0.0
      && WellSpaced(r)
  {
    assert NextStep(ts, 0, []) == Take(0.0, false);
    assert [] + [0.0] == [0.0];
    assert SampleTimes(ts) == SampleLoop(ts, 1, [0.0]);
    assert 1 as real * ts == ts;
    SampleLoopExtends(ts, 1, [0.0]);
    SampleLoopSpaced(ts, 1, [0.0]);
  }

  // ----- the sampling frequency -----

  /** Inside the canvas calculateFs is the linear map from [0, width] onto
      [FS_MIN, FS_MAX]; left of it the result is FS_MIN, right of it FS_MAX. */
  lemma CalculateFsClamps(mouseX: real, canvasWidth: real)
    requires canvasWidth > 0.0
    ensures mouseX <= 0.0 ==> CalculateFs(mouseX, canvasWidth) == Some(FS_MIN)
    ensures mouseX >= canvasWidth ==> CalculateFs(mouseX, canvasWidth) == Some(FS_MAX)
    ensures 0.0 <= mouseX <= canvasWidth ==>
      CalculateFs(mouseX, canvasWidth) == Some(FS_MIN + mouseX / canvasWidth * (FS_MAX - FS_MIN))
  {
    if mouseX <= 0.0 {
      assert Max(0.0, Min(canvasWidth, mouseX)) == 0.0;
      assert 0.0 / canvasWidth == 0.0;
    }
    if mouseX >= canvasWidth {
      assert Max(0.0, Min(canvasWidth, mouseX)) == canvasWidth;
      assert canvasWidth / canvasWidth == 1.0;
    }
    if 0.0 <= mouseX <= canvasWidth {
      var n := mouseX / canvasWidth;
      QuotientInUnitInterval(mouseX, canvasWidth);
      assert Max(0.0, Min(canvasWidth, mouseX)) == mouseX;
      assert FS_MIN <= FS_MIN + n * (FS_MAX - FS_MIN) <= FS_MAX;
    }
  }

  lemma QuotientInUnitInterval(x: real, w: real)
    requires 0.0 <= x <= w && w > 0.0
    ensures 0.0 <= x / w <= 1.0
  {
    assert x / w * w == x;
  }

  lemma DivideMonotone(x: real, y: real, w: real)
    requires x <= y && w > 0.0
    ensures x / w <= y / w
    ensures x < y ==> x / w < y / w
  {
    assert y / w - x / w == (y - x) / w;
    assert (y - x) / w * w == y - x;
  }

  /** A canvas of negative width pins the frequency to FS_MIN. */
  lemma CalculateFsNegativeWidth(mouseX: real, canvasWidth: real)
    requires canvasWidth < 0.0
    ensures CalculateFs(mouseX, canvasWidth) == Some(FS_MIN)
  {
  }

  /** Moving the mouse to the right never lowers the frequency. */
  lemma CalculateFsMonotone(m1: real, m2: real, canvasWidth: real)
    requires canvasWidth > 0.0 && m1 <= m2
    ensures CalculateFs(m1, canvasWidth).value <= CalculateFs(m2, canvasWidth).value
  {
    var n1 := Max(0.0, Min(canvasWidth, m1));
    var n2 := Max(0.0, Min(canvasWidth, m2));
    assert n1 <= n2;
    DivideMonotone(n1, n2, canvasWidth);
  }

  /** The composable flags aliasing exactly when the mouse is left of 18% of
      the canvas width. */
  lemma AliasingThreshold(mouseX: real, canvasWidth: real)
    requires canvasWidth > 0.0
    ensures IsAliasing(CalculateFs(mouseX, canvasWidth)) <==> mouseX < 0.18 * canvasWidth
  {
    CalculateFsClamps(mouseX, canvasWidth);
    if 0.0 <= mouseX <= canvasWidth {
      var n := mouseX / canvasWidth;
      assert CalculateFs(mouseX, canvasWidth).value == FS_MIN + n * 5.0;
      assert 0.18 * canvasWidth / canvasWidth == 0.18;
      if mouseX < 0.18 * canvasWidth {
        DivideMonotone(mouseX, 0.18 * canvasWidth, canvasWidth);
      } else {
        DivideMonotone(0.18 * canvasWidth, mouseX, canvasWidth);
      }
    }
  }

  // ----- reconstruction -----

  /** The sinc centred on the sample taken at tn, at the time tk. */
  function ShiftedSinc(sin: real -> real, fs: real, tk: real, tn: real): real {
    Sinc(sin, fs * (tk - tn))
  }

  /** What the sample xn taken at tn adds to the reconstruction at tk. */
  function Contribution(sin: real -> real, fs: real, tn: real, xn: real, tk: real): real {
    xn * ShiftedSinc(sin, fs, tk, tn)
  }

  /** The partial Whittaker-Shannon sum over the first n samples at time tk. */
  function SincSum(sin: real -> real, fs: real, ts: seq<real>, vs: seq<real>, n: nat, tk: real): real
    requires n <= |ts| && n <= |vs|
  {
    if n == 0 then 0.0
    else SincSum(sin, fs, ts, vs, n - 1, tk) + Contribution(sin, fs, ts[n - 1], vs[n - 1], tk)
  }

  /** The partial sums over the first n samples at every time of a grid. */
  function PartialReconstruction(sin: real -> real, fs: real, ts: seq<real>, vs: seq<real>, n: nat, grid: seq<real>): seq<real>
    requires n <= |ts| && n <= |vs|
  {
    seq(|grid|, k requires 0 <= k < |grid| => SincSum(sin, fs, ts, vs, n, grid[k]))
  }

  /** The reconstructed signal on a time grid. */
  function Reconstruction(sin: real -> real, fs: real, ts: seq<real>, vs: seq<real>, grid: seq<real>): (r: seq<real>)
    requires |ts| == |vs|
    ensures |r| == |grid|
  {
    PartialReconstruction(sin, fs, ts, vs, |ts|, grid)
  }

  /** Before any sample is added the reconstruction is all zeros. */
  lemma PartialReconstructionZero(sin: real -> real, fs: real, ts: seq<real>, vs: seq<real>, grid: seq<real>, acc: seq<real>)
    requires |acc| == |grid| && forall k :: 0 <= k < |acc| ==> acc[k] == 0.0
    ensures acc == PartialReconstruction(sin, fs, ts, vs, 0, grid)
  {
  }

  /** Adding the contribution of sample n at every time of the grid turns
      the sums over n samples into the sums over n + 1. */
  lemma PartialReconstructionStep(sin: real -> real, fs: real, ts: seq<real>, vs: seq<real>, n: nat, grid: seq<real>,
                                  before: seq<real>, after: seq<real>)
    requires n < |ts| && n < |vs|
    requires before == PartialReconstruction(sin, fs, ts, vs, n, grid)
    requires |after| == |grid|
    requires forall k :: 0 <= k < |grid| ==> after[k] == before[k] + Contribution(sin, fs, ts[n], vs[n], grid[k])
    ensures after == PartialReconstruction(sin, fs, ts, vs, n + 1, grid)
  {
    forall k | 0 <= k < |grid|
      ensures after[k] == SincSum(sin, fs, ts, vs, n + 1, grid[k])
    {
      SincSumStep(sin, fs, ts, vs, n + 1, grid[k]);
    }
  }

  /** The samples of a period-ts schedule that has no clamped endpoint. */
  ghost predicate Uniform(ts: seq<real>, period: real) {
    forall i :: 0 <= i < |ts| ==> ts[i] == i as real * period
  }

  /** A sin that vanishes at every non-zero integer multiple of pi. */
  ghost predicate VanishesAtMultiplesOfPi(sin: real -> real) {
    forall k: int :: k != 0 ==> sin(PiTimes(k)) == 0.0
  }

  /** The integer multiple k pi. */
  function PiTimes(k: int): real {
    PI * (k as real)
  }

  /** Sinc vanishes at every non-zero integer. */
  lemma SincAtInteger(sin: real -> real, k: int)
    requires VanishesAtMultiplesOfPi(sin) && k != 0
    ensures Sinc(sin, k as real) == 0.0
  {
    var x := PiTimes(k);
    assert sin(x) == 0.0;
    assert x != 0.0;
  }

  /** The shifted sinc of a uniform schedule is 1 at its own sample and 0 at
      every other one. */
  lemma SincAtSamples(sin: real -> real, fs: real, m: nat, i: nat)
    requires fs > 0.0 && VanishesAtMultiplesOfPi(sin)
    ensures Sinc(sin, fs * (m as real * (1.0 / fs) - i as real * (1.0 / fs))) == if m == i then 1.0 else 0.0
  {
    var k := m as int - i as int;
    assert fs * (m as real * (1.0 / fs) - i as real * (1.0 / fs)) == k as real by {
      assert fs * (1.0 / fs) == 1.0;
      assert fs * (m as real * (1.0 / fs) - i as real * (1.0 / fs)) == (m as real - i as real) * (fs * (1.0 / fs));
    }
    if m != i {
      SincAtInteger(sin, k);
    }
  }

  /** The same, read off a uniform schedule of period 1 / fs. */
  lemma SincAtScheduleSamples(sin: real -> real, fs: real, ts: seq<real>, m: nat, i: nat)
    requires fs > 0.0 && VanishesAtMultiplesOfPi(sin)
    requires m < |ts| && i < |ts| && Uniform(ts, 1.0 / fs)
    ensures ShiftedSinc(sin, fs, ts[m], ts[i]) == if m == i then 1.0 else 0.0
  {
    SincAtSamples(sin, fs, m, i);
    assert ts[m] == m as real * (1.0 / fs) && ts[i] == i as real * (1.0 / fs);
    var x := fs * (m as real * (1.0 / fs) - i as real * (1.0 / fs));
    assert fs * (ts[m] - ts[i]) == x;
    assert Sinc(sin, fs * (ts[m] - ts[i])) == Sinc(sin, x);
  }

  /** One term of the sum peeled off. */
  lemma SincSumStep(sin: real -> real, fs: real, ts: seq<real>, vs: seq<real>, n: nat, tk: real)
    requires 0 < n <= |ts| && n <= |vs|
    ensures SincSum(sin, fs, ts, vs, n, tk)
      == SincSum(sin, fs, ts, vs, n - 1, tk) + Contribution(sin, fs, ts[n - 1], vs[n - 1], tk)
  {
  }

  lemma {:induction false} SincSumAtSample(sin: real -> real, fs: real, ts: seq<real>, vs: seq<real>, n: nat, m: nat)
    requires fs > 0.0 && VanishesAtMultiplesOfPi(sin)
    requires n <= |ts| && n <= |vs| && m < |ts| && Uniform(ts, 1.0 / fs)
    ensures SincSum(sin, fs, ts, vs, n, ts[m]) == if m < n then vs[m] else 0.0
  {
    if n > 0 {
      var i: nat := n - 1;
      SincSumAtSample(sin, fs, ts, vs, i, m);
      SincAtScheduleSamples(sin, fs, ts, m, i);
      var term := ShiftedSinc(sin, fs, ts[m], ts[i]);
      SincSumStep(sin, fs, ts, vs, n, ts[m]);
      if m == i {
        assert Contribution(sin, fs, ts[i], vs[i], ts[m]) == vs[i] * term == vs[m];
      } else {
        assert Contribution(sin, fs, ts[i], vs[i], ts[m]) == vs[i] * term == 0.0;
      }
    }
  }

  /** With sin vanishing at the multiples of pi, the reconstruction from a
      uniform schedule passes through every sample. */
  lemma ReconstructionInterpolates(sin: real -> real, fs: real, ts: seq<real>, vs: seq<real>, m: nat)
    requires fs > 0.0 && VanishesAtMultiplesOfPi(sin)
    requires |ts| == |vs| && m < |ts| && Uniform(ts, 1.0 / fs)
    ensures SincSum(sin, fs, ts, vs, |ts|, ts[m]) == vs[m]
  {
    SincSumAtSample(sin, fs, ts, vs, |ts|, m);
  }
}
