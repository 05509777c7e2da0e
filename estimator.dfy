/**
 * The Python completion-time estimator (python/src/ncdprime/estimator.py):
 * timing samples, a linear and a power-law fit of time against input size,
 * the choice between them by R², and clamped predictions. Python floats are
 * modelled as `real`, except that a sample's wall time may also be one of the
 * non-finite values, which `add_sample` rejects. `math.log`, `math.exp` and
 * `**` are left abstract.
 */
module Estimator {
  import opened Wrappers
  import opened SeqUtil
  import opened Stats

  /** A Python float as it may reach `add_sample`. */
  datatype Float = Finite(value: real) | NaN | PosInf | NegInf

  /** `math.isfinite`. */
  predicate IsFinite(f: Float) {
    f.Finite?
  }

  /** `f < 0` on a Python float: false for NaN and +inf, true for -inf. */
  predicate Negative(f: Float) {
    match f
    case Finite(v) => v < 0.0
    case NegInf => true
    case _ => false
  }

  /** `f > 0` on a Python float: false for NaN and -inf, true for +inf. */
  predicate Positive(f: Float) {
    match f
    case Finite(v) => v > 0.0
    case PosInf => true
    case _ => false
  }

  /** One benchmark observation; `outputBytes` is carried but never read. */
  datatype TimingSample = TimingSample(inputBytes: int, wallTime: Float, outputBytes: Option<int>)

  /** The logarithm, exponential and power the power-law fit uses, as opaque functions. */
  datatype FloatMath = FloatMath(log: real -> real, exp: real -> real, pow: (real, real) -> real)

  datatype ModelKind = Linear | Power

  /** `FitResult`: the model, its two parameters ((a, b) or (k, p)) and its R². */
  datatype FitResult = FitResult(model: ModelKind, params: (real, real), r2: real)

  /** The margin by which the power fit's R² has to beat the linear fit's. */
  const PowerMargin: real := 0.02

  // ---------------------------------------------------------------- fits

  /** `sum((yi - yhi) ** 2 for yi, yhi in zip(y, yhat))`; `zip` stops at the shorter list. */
  function SquaredResiduals(y: seq<real>, yhat: seq<real>): real {
    if |y| == 0 || |yhat| == 0 then 0.0
    else Square(y[0] - yhat[0]) + SquaredResiduals(y[1..], yhat[1..])
  }

  /** `_r2`: the coefficient of determination, 0 for constant `y`, floored at 0. */
  function R2(y: seq<real>, yhat: seq<real>): (r: real)
    requires |y| > 0
    ensures 0.0 <= r <= 1.0
    ensures Sxx(y, Mean(y)) <= 0.0 ==> r == 0.0
  {
    var ssTot := Sxx(y, Mean(y));
    var ssRes := SquaredResiduals(y, yhat);
    if ssTot <= 0.0 then 0.0
    else
      SquaredResidualsNonnegative(y, yhat);
      SxxNonnegative(y, Mean(y));
      QuotientNonnegative(ssRes, ssTot);
      Clamp(1.0 - ssRes / ssTot)
  }

  /** The values of `l` above each of `xs`. */
  function LinePredictions(l: Line, xs: seq<real>): (ys: seq<real>)
    ensures |ys| == |xs|
  {
    seq(|xs|, i requires 0 <= i < |xs| => l.At(xs[i]))
  }

  /** `_fit_linear`: the least squares line, as a `linear` result with its R². */
  function FitLinear(x: seq<real>, y: seq<real>): (r: FitResult)
    requires |x| == |y| > 0
    ensures r.model == Linear && 0.0 <= r.r2 <= 1.0
    ensures Line(r.params.0, r.params.1).At(Mean(x)) == Mean(y)
    ensures Sxx(x, Mean(x)) <= 0.0 ==> r.params == (Mean(y), 0.0)
  {
    var l := Ols(x, y);
    FitResult(Linear, (l.a, l.b), R2(y, LinePredictions(l, x)))
  }

  /** `_fit_power`: y = k * x ** p fitted in log space; none unless every x and y is positive. */
  function FitPower(math: FloatMath, x: seq<real>, y: seq<real>): (r: Option<FitResult>)
    requires |x| == |y| > 0
    ensures r.None? <==> (exists i :: 0 <= i < |x| && x[i] <= 0.0) || (exists i :: 0 <= i < |y| && y[i] <= 0.0)
    ensures r.Some? ==> r.value.model == Power && 0.0 <= r.value.r2 <= 1.0
  {
    if (exists i :: 0 <= i < |x| && x[i] <= 0.0) || (exists i :: 0 <= i < |y| && y[i] <= 0.0) then None
    else
      var lx := seq(|x|, i requires 0 <= i < |x| => math.log(x[i]));
      var ly := seq(|y|, i requires 0 <= i < |y| => math.log(y[i]));
      var fit := FitLinear(lx, ly);
      var k := math.exp(fit.params.0);
      var p := fit.params.1;
      var yhat := seq(|x|, i requires 0 <= i < |x| => k * math.pow(x[i], p));
      Some(FitResult(Power, (k, p), R2(y, yhat)))
  }

  /** The fit `fit_from_first_n` keeps: the power fit only if it beats the linear one by the margin. */
  function Choose(linear: FitResult, power: Option<FitResult>): (r: FitResult)
    ensures r == linear || (power.Some? && r == power.value)
    ensures r == linear <== power.None? || power.value.r2 < linear.r2 + PowerMargin
    ensures power.Some? && power.value.r2 >= linear.r2 + PowerMargin ==> r == power.value
  {
    if power.Some? && power.value.r2 >= linear.r2 + PowerMargin then power.value else linear
  }

  // ------------------------------------------------------------- samples

  /** `add_sample` keeps positive sizes with a finite, non-negative wall time (zero included). */
  predicate Admitted(s: TimingSample) {
    !(s.inputBytes <= 0 || !IsFinite(s.wallTime) || Negative(s.wallTime))
  }

  /** `fit_from_first_n` only fits samples with a positive size and a positive wall time. */
  predicate Usable(s: TimingSample) {
    s.inputBytes > 0 && Positive(s.wallTime)
  }

  /** The usable samples, in order. */
  function UsableSamples(ss: seq<TimingSample>): (r: seq<TimingSample>)
    ensures |r| <= |ss|
    ensures forall i :: 0 <= i < |r| ==> Usable(r[i]) && r[i] in ss
    ensures forall i :: 0 <= i < |ss| && Usable(ss[i]) ==> ss[i] in r
  {
    if |ss| == 0 then []
    else if Usable(ss[0]) then [ss[0]] + UsableSamples(ss[1..])
    else UsableSamples(ss[1..])
  }

  /** `float(s.input_bytes)` for each sample. */
  function Sizes(ss: seq<TimingSample>): (xs: seq<real>)
    ensures |xs| == |ss|
    ensures forall i :: 0 <= i < |ss| ==> xs[i] == ss[i].inputBytes as real
  {
    seq(|ss|, i requires 0 <= i < |ss| => ss[i].inputBytes as real)
  }

  /** `float(s.wall_time_s)` for each sample, all of them finite. */
  function Walls(ss: seq<TimingSample>): (ys: seq<real>)
    requires forall i :: 0 <= i < |ss| ==> ss[i].wallTime.Finite?
    ensures |ys| == |ss|
    ensures forall i :: 0 <= i < |ss| ==> ys[i] == ss[i].wallTime.value
  {
    seq(|ss|, i requires 0 <= i < |ss| => ss[i].wallTime.value)
  }

  /** The samples `fit_from_first_n(n)` fits: the first `max(2, n)` usable ones. */
  function FitWindow(ss: seq<TimingSample>, n: int): (w: seq<TimingSample>)
    ensures |w| == Min(Max(2, n), |UsableSamples(ss)|)
    ensures w == UsableSamples(ss)[..|w|]
  {
    var usable := UsableSamples(ss);
    usable[..Min(Max(2, n), |usable|)]
  }

  /** What `fit_from_first_n(n)` stores and returns, for finite stored samples. */
  function FitFirstN(math: FloatMath, ss: seq<TimingSample>, n: int): (r: Option<FitResult>)
    requires forall i :: 0 <= i < |ss| ==> ss[i].wallTime.Finite?
    ensures r.None? <==> |UsableSamples(ss)| < 2
  {
    var usable := UsableSamples(ss);
    if |usable| < 2 then None
    else
      var w := FitWindow(ss, n);
      assert forall i :: 0 <= i < |w| ==> w[i] in ss;
      var x, y := Sizes(w), Walls(w);
      Some(Choose(FitLinear(x, y), FitPower(math, x, y)))
  }

  /** The online estimator: the admitted samples in arrival order and the last fit. */
  class CompletionTimeEstimator {
    const math: FloatMath
    var samples: seq<TimingSample>
    var fit: Option<FitResult>

    /** Every stored sample passed `add_sample`'s filter. */
    ghost predicate Valid()
      reads this
    {
      forall i :: 0 <= i < |samples| ==> Admitted(samples[i])
    }

    constructor (math: FloatMath)
      ensures this.math == math && samples == [] && fit == None && Valid()
    {
      this.math := math;
      samples := [];
      fit := None;
    }

    /** Appends an admitted sample at the end; any other sample changes nothing. */
    method AddSample(s: TimingSample)
      requires Valid()
      modifies this
      ensures Valid() && fit == old(fit)
      ensures Admitted(s) ==> samples == old(samples) + [s]
      ensures !Admitted(s) ==> samples == old(samples)
    {
      if s.inputBytes <= 0 || !IsFinite(s.wallTime) || Negative(s.wallTime) {
        return;
      }
      samples := samples + [s];
    }

    /** Refits on the first usable samples, stores the result and returns it. */
    method FitFromFirstN(n: int) returns (r: Option<FitResult>)
      requires Valid()
      modifies this
      ensures Valid() && samples == old(samples)
      ensures r == fit && r == FitFirstN(math, samples, n)
    {
      var usable: seq<TimingSample> := [];
      for i := 0 to |samples|
        invariant samples == old(samples)
        invariant usable == UsableSamples(samples[..i])
      {
        UsableSamplesSnoc(samples[..i], samples[i]);
        assert samples[..i + 1] == samples[..i] + [samples[i]];
        if samples[i].inputBytes > 0 && Positive(samples[i].wallTime) {
          usable := usable + [samples[i]];
        }
      }
      assert samples[..|samples|] == samples;
      if |usable| < 2 {
        fit := None;
        return None;
      }
      usable := usable[..Min(Max(2, n), |usable|)];
      assert forall i :: 0 <= i < |samples| ==> samples[i].wallTime.Finite? by {
        assert forall i :: 0 <= i < |samples| ==> Admitted(samples[i]);
      }
      assert forall i :: 0 <= i < |usable| ==> usable[i] in samples;
      var x := Sizes(usable);
      var y := Walls(usable);
      var linear := FitLinear(x, y);
      var power := FitPower(math, x, y);
      var best := linear;
      if power.Some? && power.value.r2 >= linear.r2 + PowerMargin {
        best := power.value;
      }
      fit := Some(best);
      r := Some(best);
    }

    /** `predict_time_s`: none without a fit or for a non-positive size, otherwise never negative. */
    function PredictTimeS(inputBytes: int): (r: Option<real>)
      reads this
      ensures r.None? <==> fit.None? || inputBytes <= 0
      ensures r.Some? ==> 0.0 <= r.value
      ensures r.Some? && fit.value.model == Linear ==>
        r.value == Clamp(Line(fit.value.params.0, fit.value.params.1).At(inputBytes as real))
    {
      if fit.None? || inputBytes <= 0 then None
      else
        var n := inputBytes as real;
        match fit.value.model
        case Linear =>
          var (a, b) := fit.value.params;
          Some(Clamp(a + b * n))
        case Power =>
          var (k, p) := fit.value.params;
          Some(Clamp(k * math.pow(n, p)))
    }

    /** The summed predictions over the entries of `ns` that yield one. */
    function PredictedTotal(ns: seq<int>): (r: real)
      reads this
      ensures 0.0 <= r
    {
      if |ns| == 0 then 0.0
      else
        var t := PredictTimeS(ns[|ns| - 1]);
        PredictedTotal(ns[..|ns| - 1]) + (if t.Some? then t.value else 0.0)
    }

    /** `estimate_remaining_s`: the sum of the predictions, none if no entry yields one. */
    method EstimateRemainingS(remaining: seq<int>) returns (r: Option<real>)
      ensures r.None? <==> fit.None? || forall i :: 0 <= i < |remaining| ==> remaining[i] <= 0
      ensures r.Some? ==> r.value == PredictedTotal(remaining)
    {
      if fit.None? {
        return None;
      }
      var total := 0.0;
      var anyPred := false;
      for i := 0 to |remaining|
        invariant total == PredictedTotal(remaining[..i])
        invariant anyPred <==> exists j :: 0 <= j < i && remaining[j] > 0
      {
        var t := PredictTimeS(remaining[i]);
        assert remaining[..i + 1][..i] == remaining[..i];
        if t.None? {
          continue;
        }
        anyPred := true;
        total := total + t.value;
      }
      assert remaining[..|remaining|] == remaining;
      if anyPred {
        r := Some(total);
      } else {
        r := None;
      }
    }

    /** The refit schedule: at 6, 15 and 16 stored samples, zero-time samples included. */
    function ShouldRefit(): (r: bool)
      reads this
      ensures r <==> |samples| in {6, 15, 16}
    {
      var k := |samples|;
      k == 6 || k == 15 || k == 16
    }
  }

  // -------------------------------------------------------------- lemmas

  lemma {:induction false} SquaredResidualsNonnegative(y: seq<real>, yhat: seq<real>)
    ensures !(SquaredResiduals(y, yhat) < 0.0)
  {
    if |y| != 0 && |yhat| != 0 {
      SquaredResidualsNonnegative(y[1..], yhat[1..]);
      SquareNonnegative(y[0] - yhat[0]);
    }
  }

  lemma QuotientNonnegative(p: real, q: real)
    requires !(p < 0.0) && 0.0 < q
    ensures 0.0 <= p / q
  {
  }

  lemma {:induction false} SquaredResidualsSelf(y: seq<real>)
    ensures SquaredResiduals(y, y) == 0.0
  {
    if |y| != 0 {
      SquaredResidualsSelf(y[1..]);
      assert Square(y[0] - y[0]) == 0.0 * 0.0;
    }
  }

  /** A model that reproduces non-constant data exactly has R² = 1. */
  lemma R2Perfect(y: seq<real>)
    requires |y| > 0 && !AllEqual(y)
    ensures R2(y, y) == 1.0
  {
    DegenerateIffAllEqual(y);
    SquaredResidualsSelf(y);
  }

  lemma UsableSamplesSnoc(ss: seq<TimingSample>, s: TimingSample)
    ensures UsableSamples(ss + [s]) == UsableSamples(ss) + (if Usable(s) then [s] else [])
  {
    if |ss| > 0 {
      assert (ss + [s])[1..] == ss[1..] + [s];
      UsableSamplesSnoc(ss[1..], s);
    } else {
      assert ss + [s] == [s];
    }
  }

  /**
   * The fitted samples have positive sizes and times, so the power fit always
   * exists inside `fit_from_first_n`; only the R² comparison decides.
   */
  lemma PowerFitAlwaysDefined(math: FloatMath, ss: seq<TimingSample>, n: int)
    requires forall i :: 0 <= i < |ss| ==> ss[i].wallTime.Finite?
    requires |UsableSamples(ss)| >= 2
    ensures var w := FitWindow(ss, n);
      FitPower(math, Sizes(w), Walls(w)).Some?
  {
    var w := FitWindow(ss, n);
    assert forall i :: 0 <= i < |w| ==> Usable(w[i]) && w[i] in ss;
  }

  /** Points on a line with a non-zero slope and varying abscissae have varying ordinates. */
  lemma VaryingOnLine(xs: seq<real>, ys: seq<real>, l: Line, i: nat, j: nat)
    requires |xs| == |ys| && i < |xs| && j < |xs|
    requires ys[i] == l.At(xs[i]) && ys[j] == l.At(xs[j])
    requires l.b != 0.0 && xs[i] != xs[j]
    ensures ys[i] != ys[j]
  {
    if ys[i] == ys[j] {
      assert l.Rise(xs[i]) == l.Rise(xs[j]);
      DivCancel(xs[i], l.b);
      DivCancel(xs[j], l.b);
      assert false;
    }
  }

  lemma LinePredictionsOnLine(xs: seq<real>, ys: seq<real>, l: Line)
    requires OnLine(xs, ys, l)
    ensures LinePredictions(l, xs) == ys
  {
    forall i | 0 <= i < |xs|
      ensures LinePredictions(l, xs)[i] == ys[i]
    {
      OnLineAt(xs, ys, l, i);
    }
  }

  /**
   * On points exactly on a line with a non-zero slope and varying abscissae,
   * `_fit_linear` returns that line with R² = 1.
   */
  lemma FitLinearExact(xs: seq<real>, ys: seq<real>, l: Line, i: nat, j: nat)
    requires OnLine(xs, ys, l) && i < |xs| && j < |xs|
    requires l.b != 0.0 && xs[i] != xs[j]
    ensures FitLinear(xs, ys) == FitResult(Linear, (l.a, l.b), 1.0)
  {
    OlsRecoversLine(xs, ys, l);
    LinePredictionsOnLine(xs, ys, l);
    OnLineAt(xs, ys, l, i);
    OnLineAt(xs, ys, l, j);
    VaryingOnLine(xs, ys, l, i, j);
    R2Perfect(ys);
  }

  /**
   * When the usable samples in the window lie exactly on a line with a
   * non-zero slope and not all sizes are equal, `fit_from_first_n` keeps that
   * line as a linear fit with R² = 1: no power fit can beat it by the margin.
   */
  lemma FitFirstNExact(math: FloatMath, ss: seq<TimingSample>, n: int, l: Line, i: nat, j: nat)
    requires forall k :: 0 <= k < |ss| ==> ss[k].wallTime.Finite?
    requires |UsableSamples(ss)| >= 2
    requires var w := FitWindow(ss, n);
      (forall k :: 0 <= k < |w| ==> w[k].wallTime.value == l.At(w[k].inputBytes as real))
      && i < |w| && j < |w| && w[i].inputBytes != w[j].inputBytes
    requires l.b != 0.0
    ensures FitFirstN(math, ss, n) == Some(FitResult(Linear, (l.a, l.b), 1.0))
  {
    var w := FitWindow(ss, n);
    assert forall k :: 0 <= k < |w| ==> w[k] in ss;
    var x, y := Sizes(w), Walls(w);
    OnLineByIndex(x, y, l);
    FitLinearExact(x, y, l, i, j);
  }
}
