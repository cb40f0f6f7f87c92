/** The earlier p5 version of the Shannon demo: setup builds the time and
    sine vectors once, and every frame maps the mouse to fs, samples the
    signal every 1 / fs and rebuilds the reconstruction in place. Only the
    computations are modelled; the drawing calls are not. */
module ShannonSketch {
  import opened Wrappers
  import opened Sampling

  /** The canvas is created 800 pixels wide. */
  const CANVAS_WIDTH: real := 800.0
  /** The time step and the end of the time vector built in setup. */
  const DT: real := 1.0 / 100.0
  const T_END: real := 6.0
  /** The sampling loop runs while the sample time is at most 6. */
  const SAMPLE_END: real := 6.0

  /** p5's map: the linear map taking [start1, stop1] onto [start2, stop2]. */
  function Map(n: real, start1: real, stop1: real, start2: real, stop2: real): real
    requires start1 != stop1
  {
    (n - start1) / (stop1 - start1) * (stop2 - start2) + start2
  }

  /** p5's constrain. */
  function Constrain(n: real, low: real, high: real): real {
    Max(Min(n, high), low)
  }

  /** The sampling frequency of a frame: the mouse position mapped from the
      canvas onto [0.1, 5.1] and clamped to it. */
  function SketchFs(mouseX: real): (fs: real)
    ensures FS_MIN <= fs <= FS_MAX
  {
    Constrain(Map(mouseX, 0.0, CANVAS_WIDTH, FS_MIN, FS_MAX), FS_MIN, FS_MAX)
  }

  /** The sketch and the composable compute the same sampling frequency for
      the same mouse position on an 800 pixel canvas. */
  lemma SketchFsAgrees(mouseX: real)
    ensures CalculateFs(mouseX, CANVAS_WIDTH) == Some(SketchFs(mouseX))
  {
    var m := Map(mouseX, 0.0, CANVAS_WIDTH, FS_MIN, FS_MAX);
    assert m == mouseX / CANVAS_WIDTH * (FS_MAX - FS_MIN) + FS_MIN;
    CalculateFsClamps(mouseX, CANVAS_WIDTH);
    if mouseX <= 0.0 {
      assert mouseX / CANVAS_WIDTH <= 0.0;
      assert m <= FS_MIN;
    } else if mouseX >= CANVAS_WIDTH {
      assert mouseX / CANVAS_WIDTH >= 1.0;
      assert m >= FS_MAX;
    } else {
      QuotientInUnitInterval(mouseX, CANVAS_WIDTH);
      assert FS_MIN <= m <= FS_MAX;
    }
  }

  /** The warning is shown for the same mouse positions where the composable
      flags aliasing on an 800 pixel canvas. */
  lemma SketchAliasingAgrees(mouseX: real)
    ensures (SketchFs(mouseX) < 2.0 * 0.5) == IsAliasing(CalculateFs(mouseX, CANVAS_WIDTH))
  {
    SketchFsAgrees(mouseX);
  }

  /** The sketch's sinc term, sin(x) / x at x = pi (t - delay) fs, is the
      normalised sinc of fs (t - delay). */
  lemma SketchSincIsShiftedSinc(sin: real -> real, fs: real, t: real, delay: real, x: real)
    requires x == PI * (t - delay) * fs
    ensures (if x != 0.0 then sin(x) / x else 1.0) == ShiftedSinc(sin, fs, t, delay)
  {
    assert x == PI * (fs * (t - delay));
    if x == 0.0 {
      assert fs * (t - delay) == 0.0;
    }
  }

  /** The i-th sample time of a schedule of period ts. */
  function SampleTime(ts: real, i: nat): real {
    i as real * ts
  }

  /** Adding the value of sample n times its sinc at every time of the grid
      turns the sums over n samples into the sums over n + 1. */
  lemma AccumulateScaled(sin: real -> real, fs: real, ts: seq<real>, vs: seq<real>, n: nat, grid: seq<real>,
                         before: seq<real>, xn: real, sincs: seq<real>, after: seq<real>)
    requires n < |ts| && n < |vs| && xn == vs[n]
    requires before == PartialReconstruction(sin, fs, ts, vs, n, grid)
    requires |sincs| == |grid| && |after| == |grid|
    requires forall k :: 0 <= k < |grid| ==> sincs[k] == ShiftedSinc(sin, fs, grid[k], ts[n])
    requires forall k :: 0 <= k < |grid| ==> after[k] == before[k] + xn * sincs[k]
    ensures after == PartialReconstruction(sin, fs, ts, vs, n + 1, grid)
  {
    forall k | 0 <= k < |grid|
      ensures after[k] == before[k] + Contribution(sin, fs, ts[n], vs[n], grid[k])
    {
    }
    PartialReconstructionStep(sin, fs, ts, vs, n, grid, before, after);
  }

  /** The inner reconstruction loop: vals[k] scaled by c is added to acc[k]
      for every k below |vals| that is inside acc. */
  method AddScaled(acc: array<real>, c: real, vals: seq<real>)
    modifies acc
    ensures forall q :: 0 <= q < acc.Length ==>
      acc[q] == old(acc[q]) + (if q < |vals| then c * vals[q] else 0.0)
  {
    var k := 0;
    while k < |vals|
      invariant 0 <= k <= |vals|
      invariant forall q :: 0 <= q < acc.Length && q < k ==> acc[q] == old(acc[q]) + c * vals[q]
      invariant forall q :: k <= q < acc.Length ==> acc[q] == old(acc[q])
    {
      if k < acc.Length {
        acc[k] := acc[k] + c * vals[k];
      }
      k := k + 1;
    }
  }

  class ShannonSketch {
    /** p.sin */
    const sin: real -> real

    var t: seq<real>
    var sineWave: seq<real>
    var xR: seq<real>
    /** Undefined (None) until the first frame. */
    var fs: Option<real>
    var tSampled: seq<real>

    constructor (sin: real -> real)
      ensures this.sin == sin
      ensures t == [] && sineWave == [] && xR == [] && fs == None && tSampled == []
    {
      this.sin := sin;
      t, sineWave, xR, fs, tSampled := [], [], [], None, [];
    }

    /** setup: the times 0, DT, 2 DT, ... below T_END and the sine wave of
        frequency 0.5 at each of them. */
    method Setup()
      modifies this
      ensures |t| > 0 && |t| as real * DT >= T_END
      ensures forall i :: 0 <= i < |t| ==> t[i] == i as real * DT < T_END
      ensures sineWave == Signals(sin, t)
      ensures xR == old(xR) && fs == old(fs) && tSampled == old(tSampled)
    {
      var times: seq<real> := [];
      var j: nat := 0;
      while j as real * DT < T_END
        invariant j <= 600 && |times| == j
        invariant forall i :: 0 <= i < j ==> times[i] == i as real * DT < T_END
        decreases 600 - j
      {
        times := times + [j as real * DT];
        j := j + 1;
      }
      var wave: seq<real> := [];
      var i := 0;
      while i < |times|
        invariant 0 <= i <= |times|
        invariant wave == Signals(sin, times[..i])
      {
        assert times[..i + 1] == times[..i] + [times[i]];
        wave := wave + [Signal(sin, times[i])];
        i := i + 1;
      }
      assert times[..i] == times;
      t, sineWave := times, wave;
    }

    /** mySinc: for every time of t, the sinc centred on delay. */
    method MySinc(delay: real) returns (result: seq<real>)
      requires fs.Some?
      ensures |result| == |t|
      ensures forall i :: 0 <= i < |t| ==> result[i] == ShiftedSinc(sin, fs.value, t[i], delay)
    {
      result := [];
      var i := 0;
      while i < |t|
        invariant 0 <= i <= |t| && |result| == i
        invariant forall q :: 0 <= q < i ==> result[q] == ShiftedSinc(sin, fs.value, t[q], delay)
      {
        var x := PI * (t[i] - delay) * fs.value;
        var value: real;
        if x != 0.0 {
          value := sin(x) / x;
        } else {
          value := 1.0;
        }
        SketchSincIsShiftedSinc(sin, fs.value, t[i], delay, x);
        assert value == ShiftedSinc(sin, fs.value, t[i], delay);
        result := result + [value];
        i := i + 1;
      }
    }

    /** The computations of one frame: fs from the mouse, the sample times
        0, Ts, 2 Ts, ... up to 6 (at most 1001 of them), the reconstruction
        on t, and whether the aliasing warning is shown. */
    method Draw(mouseX: real) returns (aliasingWarning: bool)
      modifies this
      ensures t == old(t) && sineWave == old(sineWave)
      ensures fs == Some(SketchFs(mouseX))
      ensures 0 < |tSampled| <= MAX_SAMPLES + 1
      ensures forall i :: 0 <= i < |tSampled| ==>
        tSampled[i] == SampleTime(1.0 / fs.value, i) <= SAMPLE_END
      ensures |tSampled| == MAX_SAMPLES + 1 || |tSampled| as real * (1.0 / fs.value) > SAMPLE_END
      ensures xR == Reconstruction(sin, fs.value, tSampled, Signals(sin, tSampled), t)
      ensures aliasingWarning <==> fs.value < 2.0 * 0.5
    {
      var f := SketchFs(mouseX);
      fs := Some(f);
      var sampled: seq<real> := [];
      if f > 0.0 {
        var ts := 1.0 / f;
        var j: nat := 0;
        while j as real * ts <= SAMPLE_END
          invariant |sampled| == j <= MAX_SAMPLES
          invariant forall i :: 0 <= i < j ==> sampled[i] == SampleTime(ts, i) <= SAMPLE_END
          decreases MAX_SAMPLES + 1 - j
        {
          sampled := sampled + [SampleTime(ts, j)];
          if |sampled| > MAX_SAMPLES {
            break;
          }
          j := j + 1;
        }
      }
      tSampled := sampled;
      xR := Reconstruct();
      var nyquistFreq := 2.0 * 0.5;
      aliasingWarning := f < nyquistFreq;
    }

    /** The reconstruction part of a frame: an array of zeros, and for each
        sample its value times its sinc added at every time of t. */
    method Reconstruct() returns (r: seq<real>)
      requires fs.Some?
      ensures r == Reconstruction(sin, fs.value, tSampled, Signals(sin, tSampled), t)
    {
      var f := fs.value;
      var times := tSampled;
      var grid := t;
      var vs := Signals(sin, times);
      var acc := new real[|grid|](_ => 0.0);
      PartialReconstructionZero(sin, f, times, vs, grid, acc[..]);
      var n := 0;
      while n < |times|
        invariant 0 <= n <= |times|
        invariant acc[..] == PartialReconstruction(sin, f, times, vs, n, grid)
      {
        var sampleT := times[n];
        var sampleVal := Signal(sin, sampleT);
        var sincVals := MySinc(sampleT);
        assert sampleVal == vs[n];
        ghost var before := acc[..];
        AddScaled(acc, sampleVal, sincVals);
        AccumulateScaled(sin, f, times, vs, n, grid, before, sampleVal, sincVals, acc[..]);
        n := n + 1;
      }
      r := acc[..];
    }
  }
}
