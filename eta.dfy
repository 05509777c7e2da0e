/**
 * The Rust ETA estimator of the command-line tool
 * (rust/ncdprime-cli/src/eta.rs): timing samples of finished cells, a least
 * squares line t = a + b * n refitted on a fixed schedule, and clamped
 * predictions for single cells and for the cells still to come. `f64`
 * seconds and `Duration`s are modelled as `real`.
 */
module Eta {
  import opened Wrappers
  import opened Bytes
  import opened Stats
  import opened SeqUtil

  /** A `Duration` in seconds: never negative. */
  type Seconds = r: real | 0.0 <= r

  /** One timing sample for a completed cell. */
  datatype Sample = Sample(inputBytes: u64, wall: Seconds)

  /** `add` keeps a sample only when both its size and its wall time are non-zero. */
  predicate Accepted(s: Sample) {
    s.inputBytes != 0 && s.wall != 0.0
  }

  /** The sample sizes as `f64`, in order. */
  function Sizes(ss: seq<Sample>): (xs: seq<real>)
    ensures |xs| == |ss|
    ensures forall i :: 0 <= i < |ss| ==> xs[i] == ss[i].inputBytes as real
  {
    if |ss| == 0 then [] else [ss[0].inputBytes as real] + Sizes(ss[1..])
  }

  /** The wall times in seconds, in order. */
  function Walls(ss: seq<Sample>): (ys: seq<real>)
    ensures |ys| == |ss|
    ensures forall i :: 0 <= i < |ss| ==> ys[i] == ss[i].wall
  {
    if |ss| == 0 then [] else [ss[0].wall as real] + Walls(ss[1..])
  }

  /** The number of samples `refit_first_n(n)` uses: `n.max(2).min(len)`. */
  function FitCount(n: nat, len: nat): (k: nat)
    ensures k <= len
    ensures k < 2 <==> len < 2
    ensures 2 <= n <= len ==> k == n
  {
    Min(Max(n, 2), len)
  }

  /**
   * The fit `refit_first_n(n)` stores: none with fewer than two samples,
   * otherwise the least squares line through the first `FitCount` samples.
   */
  function FirstNFit(ss: seq<Sample>, n: nat): (r: Option<Line>)
    ensures r.None? <==> |ss| < 2
    ensures r.Some? ==> var k := FitCount(n, |ss|);
      r.value.At(Mean(Sizes(ss[..k]))) == Mean(Walls(ss[..k]))
  {
    var k := FitCount(n, |ss|);
    if k < 2 then None else Some(Ols(Sizes(ss[..k]), Walls(ss[..k])))
  }

  /** Some entry of `ns` is non-zero; defined from the back, as the loop below reads it. */
  predicate AnyNonzero(ns: seq<u64>) {
    |ns| > 0 && (ns[|ns| - 1] != 0 || AnyNonzero(ns[..|ns| - 1]))
  }

  /** The summed clamped predictions of `l` over the non-zero entries of `ns`. */
  function RemainingTotal(l: Line, ns: seq<u64>): (r: Seconds)
    ensures !AnyNonzero(ns) ==> r == 0.0
  {
    if |ns| == 0 then 0.0
    else
      var last := ns[|ns| - 1];
      RemainingTotal(l, ns[..|ns| - 1]) + (if last == 0 then 0.0 else Clamp(l.At(last as real)))
  }

  /** What `estimate_remaining` returns for a fit and a list of remaining cell sizes. */
  function RemainingEstimate(fit: Option<Line>, ns: seq<u64>): (r: Option<Seconds>)
    ensures r.None? <==> fit.None? || forall i :: 0 <= i < |ns| ==> ns[i] == 0
  {
    AnyNonzeroIff(ns);
    if fit.None? || !AnyNonzero(ns) then None else Some(RemainingTotal(fit.value, ns))
  }

  /** The online estimator: the accepted samples in arrival order and the last fit. */
  class EtaEstimator {
    var samples: seq<Sample>
    var fit: Option<Line>

    /** `EtaEstimator::default()`: no samples, no fit. */
    constructor ()
      ensures samples == [] && fit == None
    {
      samples := [];
      fit := None;
    }

    /** Appends an accepted sample at the end; a rejected one changes nothing. The fit is kept. */
    method Add(s: Sample)
      modifies this
      ensures fit == old(fit)
      ensures Accepted(s) ==> samples == old(samples) + [s]
      ensures !Accepted(s) ==> samples == old(samples)
    {
      if s.inputBytes == 0 {
        return;
      }
      if s.wall == 0.0 {
        return;
      }
      samples := samples + [s];
    }

    /** The number of accepted samples. */
    function SampleCount(): (r: nat)
      reads this
      ensures r == |samples|
    {
      |samples|
    }

    /** The refit schedule: after the 6th, 15th and 16th accepted sample. */
    function ShouldRefit(): (r: bool)
      reads this
      ensures r <==> SampleCount() in {6, 15, 16}
    {
      match |samples|
      case 6 | 15 | 16 => true
      case _ => false
    }

    /** Refits on the first samples only; the samples themselves are not changed. */
    method RefitFirstN(n: nat)
      modifies this
      ensures samples == old(samples)
      ensures fit == FirstNFit(samples, n)
    {
      var k := Min(Max(n, 2), |samples|);
      if k < 2 {
        fit := None;
        return;
      }
      var xs := Sizes(samples[..k]);
      var ys := Walls(samples[..k]);
      fit := Some(Ols(xs, ys));
    }

    /** The predicted time for one cell: none without a fit or for an empty cell, never negative. */
    function Predict(inputBytes: u64): (r: Option<Seconds>)
      reads this
      ensures r.None? <==> fit.None? || inputBytes == 0
      ensures r.Some? ==> r.value == Clamp(fit.value.At(inputBytes as real))
    {
      if fit.None? then None
      else if inputBytes == 0 then None
      else Some(Clamp(fit.value.At(inputBytes as real)))
    }

    /** The summed predictions over the non-zero remaining cell sizes. */
    method EstimateRemaining(remaining: seq<u64>) returns (r: Option<Seconds>)
      ensures r == RemainingEstimate(fit, remaining)
    {
      var total: Seconds := 0.0;
      var any := false;
      if fit.None? {
        return None;
      }
      var l := fit.value;
      for i := 0 to |remaining|
        invariant total == RemainingTotal(l, remaining[..i])
        invariant any <==> AnyNonzero(remaining[..i])
      {
        var n := remaining[i];
        assert remaining[..i + 1][..i] == remaining[..i];
        if n == 0 {
          continue;
        }
        any := true;
        total := total + Clamp(l.At(n as real));
      }
      assert remaining[..|remaining|] == remaining;
      if any {
        r := Some(total);
      } else {
        r := None;
      }
    }
  }

  // -------------------------------------------------------------- lemmas

  /** `AnyNonzero` holds exactly when some entry is non-zero. */
  lemma {:induction false} AnyNonzeroIff(ns: seq<u64>)
    ensures AnyNonzero(ns) <==> exists i :: 0 <= i < |ns| && ns[i] != 0
  {
    if |ns| > 0 {
      var init := ns[..|ns| - 1];
      AnyNonzeroIff(init);
      if exists i :: 0 <= i < |ns| && ns[i] != 0 {
        var i :| 0 <= i < |ns| && ns[i] != 0;
        if i < |ns| - 1 {
          assert init[i] == ns[i];
        }
      }
      if exists i :: 0 <= i < |init| && init[i] != 0 {
        var i :| 0 <= i < |init| && init[i] != 0;
        assert ns[i] == init[i];
      }
    }
  }

  /** The clamped line is non-decreasing in the size when the slope is not negative. */
  lemma ClampMonotone(l: Line, x: real, y: real)
    requires 0.0 <= l.b && x <= y
    ensures Clamp(l.At(x)) <= Clamp(l.At(y))
  {
    assert l.Rise(x) <= l.Rise(y) by {
      assert l.b * (y - x) >= 0.0;
    }
    assert l.At(x) <= l.At(y);
  }

  /** With a non-negative slope a larger cell never gets a smaller prediction. */
  lemma PredictMonotone(e: EtaEstimator, s: u64, t: u64)
    requires e.fit.Some? && 0.0 <= e.fit.value.b
    requires 0 < s <= t
    ensures e.Predict(s).Some? && e.Predict(t).Some?
    ensures e.Predict(s).value <= e.Predict(t).value
  {
    ClampMonotone(e.fit.value, s as real, t as real);
  }

  /**
   * With a non-negative slope, growing any remaining cell never shrinks the
   * remaining total (`estimate_remaining([s, s])` is non-decreasing in `s`).
   */
  lemma {:induction false} RemainingTotalMonotone(l: Line, ns: seq<u64>, ms: seq<u64>)
    requires 0.0 <= l.b
    requires |ns| == |ms| && forall i :: 0 <= i < |ns| ==> ns[i] <= ms[i]
    ensures RemainingTotal(l, ns) <= RemainingTotal(l, ms)
  {
    if |ns| > 0 {
      var k := |ns| - 1;
      RemainingTotalMonotone(l, ns[..k], ms[..k]);
      if ns[k] != 0 {
        ClampMonotone(l, ns[k] as real, ms[k] as real);
      }
    }
  }

  /**
   * A refit on samples whose times are exactly linear in their sizes, and
   * whose sizes are not all the same, recovers that line.
   */
  lemma RefitRecoversLine(ss: seq<Sample>, n: nat, l: Line, i: nat, j: nat)
    requires 2 <= |ss|
    requires forall k :: 0 <= k < FitCount(n, |ss|) ==> ss[k].wall == l.At(ss[k].inputBytes as real)
    requires i < FitCount(n, |ss|) && j < FitCount(n, |ss|) && ss[i].inputBytes != ss[j].inputBytes
    ensures FirstNFit(ss, n) == Some(l)
  {
    var p := ss[..FitCount(n, |ss|)];
    OnLineByIndex(Sizes(p), Walls(p), l);
    assert Sizes(p)[i] != Sizes(p)[j];
    OlsRecoversLine(Sizes(p), Walls(p), l);
  }

  /** When the used samples all have one size, the fit is the flat line through their mean time. */
  lemma RefitFlat(ss: seq<Sample>, n: nat)
    requires 2 <= |ss|
    requires forall k :: 0 <= k < FitCount(n, |ss|) ==> ss[k].inputBytes == ss[0].inputBytes
    ensures FirstNFit(ss, n) == Some(Line(Mean(Walls(ss[..FitCount(n, |ss|)])), 0.0))
  {
    var p := ss[..FitCount(n, |ss|)];
    assert AllEqual(Sizes(p)) by {
      forall a, b | 0 <= a < |p| && 0 <= b < |p|
        ensures Sizes(p)[a] == Sizes(p)[b]
      {
        assert p[a].inputBytes == ss[0].inputBytes == p[b].inputBytes;
      }
    }
    OlsDegenerate(Sizes(p), Walls(p));
  }

  /** A refit reads only the first `max(n, 2)` samples: later ones do not change it. */
  lemma RefitReadsPrefix(ss: seq<Sample>, later: seq<Sample>, n: nat)
    requires Max(n, 2) <= |ss|
    ensures FirstNFit(ss + later, n) == FirstNFit(ss, n)
  {
    var k := FitCount(n, |ss|);
    assert FitCount(n, |ss + later|) == k;
    assert (ss + later)[..k] == ss[..k];
  }
}
