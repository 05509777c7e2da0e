/**
 * Closed-form least squares, shared by the two completion-time estimators
 * (rust/ncdprime-cli/src/eta.rs and python/src/ncdprime/estimator.py): both
 * compute the same means, the same centred sums, the slope Sxy / Sxx and the
 * same fallback to a flat line when Sxx is not positive. Floating point is
 * modelled by `real`.
 */
module Stats {

  function Sum(xs: seq<real>): real {
    if |xs| == 0 then 0.0 else xs[0] + Sum(xs[1..])
  }

  /** `sum / len`; both sources divide by zero on an empty list, hence the precondition. */
  function Mean(xs: seq<real>): real
    requires |xs| > 0
  {
    Sum(xs) / |xs| as real
  }

  /** `max(0.0, t)`: how both estimators keep a predicted time from going negative. */
  function Clamp(t: real): (r: real)
    ensures 0.0 <= r && t <= r && (r == t || r == 0.0)
  {
    if t >= 0.0 then t else 0.0
  }

  /** `(x - m) ** 2`, one term of the squared sum. */
  function Square(d: real): real {
    d * d
  }

  /** Sum of squared deviations from `m`. */
  function Sxx(xs: seq<real>, m: real): real {
    if |xs| == 0 then 0.0 else Square(xs[0] - m) + Sxx(xs[1..], m)
  }

  /** Sum of cross deviations from `mx` and `my`, over the pairs of `zip(xs, ys)`. */
  function Sxy(xs: seq<real>, ys: seq<real>, mx: real, my: real): real
    requires |xs| == |ys|
  {
    if |xs| == 0 then 0.0 else Cross(xs[0], ys[0], mx, my) + Sxy(xs[1..], ys[1..], mx, my)
  }

  /** `(x - mx) * (y - my)`, one term of the cross sum. */
  function Cross(x: real, y: real, mx: real, my: real): real {
    (x - mx) * (y - my)
  }

  /** A fitted line t = a + b * n. */
  datatype Line = Line(a: real, b: real) {
    /** The line's value above `x`. */
    function At(x: real): real {
      a + Rise(x)
    }

    /** How far the line climbs over a run of length `run`. */
    function Rise(run: real): real {
      b * run
    }
  }

  /**
   * The line both sources build from the four sums: slope `sxy / sxx`, or 0
   * when `sxx` is not positive, and the intercept that puts the line through
   * the mean point.
   */
  function LineFrom(xbar: real, ybar: real, sxx: real, sxy: real): (l: Line)
    ensures l.At(xbar) == ybar
    ensures sxx <= 0.0 ==> l == Line(ybar, 0.0)
  {
    var b := if sxx <= 0.0 then 0.0 else sxy / sxx;
    Line(ybar - b * xbar, b)
  }

  /** Ordinary least squares over the pairs `(xs[i], ys[i])`. */
  function Ols(xs: seq<real>, ys: seq<real>): (l: Line)
    requires |xs| == |ys| > 0
    ensures l.At(Mean(xs)) == Mean(ys)
  {
    var xbar, ybar := Mean(xs), Mean(ys);
    LineFrom(xbar, ybar, Sxx(xs, xbar), Sxy(xs, ys, xbar, ybar))
  }

  /** Every entry of `ys` lies on the line `l` above the matching entry of `xs`. */
  ghost predicate OnLine(xs: seq<real>, ys: seq<real>, l: Line) {
    |xs| == |ys| && (|xs| == 0 || (ys[0] == l.At(xs[0]) && OnLine(xs[1..], ys[1..], l)))
  }

  /** All entries are equal. */
  ghost predicate AllEqual(xs: seq<real>) {
    forall i, j :: 0 <= i < |xs| && 0 <= j < |xs| ==> xs[i] == xs[j]
  }

  /** `OnLine` read by index. */
  lemma {:induction false} OnLineAt(xs: seq<real>, ys: seq<real>, l: Line, i: nat)
    requires OnLine(xs, ys, l) && i < |xs|
    ensures ys[i] == l.At(xs[i])
  {
    if i > 0 {
      OnLineAt(xs[1..], ys[1..], l, i - 1);
    }
  }

  /** Conversely, points that are on the line index by index satisfy `OnLine`. */
  lemma {:induction false} OnLineByIndex(xs: seq<real>, ys: seq<real>, l: Line)
    requires |xs| == |ys| && forall i :: 0 <= i < |xs| ==> ys[i] == l.At(xs[i])
    ensures OnLine(xs, ys, l)
  {
    if |xs| > 0 {
      assert forall i :: 0 <= i < |xs| - 1 ==> ys[1..][i] == ys[i + 1] && xs[1..][i] == xs[i + 1];
      OnLineByIndex(xs[1..], ys[1..], l);
    }
  }

  // ------------------------------------------------------ real arithmetic

  lemma SquareNonnegative(d: real)
    ensures !(Square(d) < 0.0)
  {
    assert !(d * d < 0.0);
  }

  lemma Reciprocal(d: real)
    requires d != 0.0
    ensures d * (1.0 / d) == 1.0
  {
  }

  lemma SquareOfProduct(d: real, e: real)
    ensures Square(d) * Square(e) == Square(d * e)
  {
  }

  /**
   * A nonzero number has a positive square. The argument goes through the
   * reciprocal: `Square(d) * Square(1 / d) == 1`, so `Square(d)` is not zero.
   */
  lemma SquarePositive(d: real)
    requires d != 0.0
    ensures 0.0 < Square(d)
  {
    Reciprocal(d);
    SquareOfProduct(d, 1.0 / d);
    assert Square(1.0) == 1.0;
    SquareNonnegative(d);
  }

  lemma DivCancel(p: real, q: real)
    requires q != 0.0
    ensures (p * q) / q == p
  {
  }

  // -------------------------------------------------------------- lemmas

  lemma {:induction false} SumOnLine(xs: seq<real>, ys: seq<real>, l: Line)
    requires OnLine(xs, ys, l)
    ensures Sum(ys) == l.a * |xs| as real + l.b * Sum(xs)
  {
    if |xs| != 0 {
      SumOnLine(xs[1..], ys[1..], l);
    }
  }

  /** `sy = a n + b sx` divided by `n`. */
  lemma MeanAffine(sy: real, sx: real, n: real, l: Line)
    requires n != 0.0 && sy == l.a * n + l.b * sx
    ensures sy / n == l.At(sx / n)
  {
    assert (l.a * n) / n == l.a;
    assert (l.b * sx) / n == l.b * (sx / n);
  }

  /** The mean of points on a line lies on the line. */
  lemma MeanOnLine(xs: seq<real>, ys: seq<real>, l: Line)
    requires OnLine(xs, ys, l) && |xs| > 0
    ensures Mean(ys) == l.At(Mean(xs))
  {
    SumOnLine(xs, ys, l);
    assert |ys| == |xs|;
    MeanAffine(Sum(ys), Sum(xs), |xs| as real, l);
  }

  /** One term of `SxyOnLine`: a point on the line deviates `l.b` times as far in y as in x. */
  lemma CrossOnLine(x: real, y: real, l: Line, mx: real, my: real)
    requires y == l.At(x) && my == l.At(mx)
    ensures Cross(x, y, mx, my) == l.Rise(Square(x - mx))
  {
    var d := x - mx;
    assert y - my == l.b * d;
    assert d * (l.b * d) == l.b * (d * d);
  }

  lemma RiseAdditive(l: Line, p: real, q: real)
    ensures l.Rise(p) + l.Rise(q) == l.Rise(p + q)
  {
  }

  /**
   * The inductive step of `SxyOnLine`: the new cross term is the rise over the
   * new squared term, so the sums stay in ratio `l.b`.
   */
  lemma SxyStep(x: real, y: real, l: Line, mx: real, my: real, rxy: real, rxx: real, u: real, v: real)
    requires y == l.At(x) && my == l.At(mx)
    requires rxy == l.Rise(rxx)
    requires u == Cross(x, y, mx, my) + rxy && v == Square(x - mx) + rxx
    ensures u == l.Rise(v)
  {
    CrossOnLine(x, y, l, mx, my);
    RiseAdditive(l, Square(x - mx), rxx);
  }

  lemma SxxUnfold(xs: seq<real>, m: real)
    requires |xs| != 0
    ensures Sxx(xs, m) == Square(xs[0] - m) + Sxx(xs[1..], m)
  {
  }

  lemma SxyUnfold(xs: seq<real>, ys: seq<real>, mx: real, my: real)
    requires |xs| == |ys| && |xs| != 0
    ensures Sxy(xs, ys, mx, my) == Cross(xs[0], ys[0], mx, my) + Sxy(xs[1..], ys[1..], mx, my)
  {
  }

  /** For points on a line, the cross sum is the slope times the squared sum. */
  lemma {:induction false} SxyOnLine(xs: seq<real>, ys: seq<real>, l: Line, mx: real, my: real)
    requires OnLine(xs, ys, l) && my == l.At(mx)
    ensures Sxy(xs, ys, mx, my) == l.Rise(Sxx(xs, mx))
  {
    if |xs| != 0 {
      SxyOnLine(xs[1..], ys[1..], l, mx, my);
      SxxUnfold(xs, mx);
      SxyUnfold(xs, ys, mx, my);
      SxyStep(xs[0], ys[0], l, mx, my, Sxy(xs[1..], ys[1..], mx, my), Sxx(xs[1..], mx),
              Sxy(xs, ys, mx, my), Sxx(xs, mx));
    }
  }

  lemma {:induction false} SxxNonnegative(xs: seq<real>, m: real)
    ensures !(Sxx(xs, m) < 0.0)
  {
    if |xs| != 0 {
      SxxNonnegative(xs[1..], m);
      SquareNonnegative(xs[0] - m);
    }
  }

  /** One entry away from `m` makes the squared sum positive. */
  lemma {:induction false} SxxPositive(xs: seq<real>, m: real, k: int)
    requires 0 <= k < |xs| && xs[k] != m
    ensures 0.0 < Sxx(xs, m)
  {
    SquareNonnegative(xs[0] - m);
    SxxNonnegative(xs[1..], m);
    if k == 0 {
      SquarePositive(xs[0] - m);
    } else {
      assert xs[1..][k - 1] == xs[k];
      SxxPositive(xs[1..], m, k - 1);
    }
  }

  lemma {:induction false} SumConstant(xs: seq<real>, c: real)
    requires forall i :: 0 <= i < |xs| ==> xs[i] == c
    ensures Sum(xs) == c * |xs| as real
  {
    if |xs| != 0 {
      SumConstant(xs[1..], c);
    }
  }

  lemma {:induction false} SxxConstant(xs: seq<real>, c: real)
    requires forall i :: 0 <= i < |xs| ==> xs[i] == c
    ensures Sxx(xs, c) == 0.0
  {
    if |xs| != 0 {
      SxxConstant(xs[1..], c);
      assert Square(xs[0] - c) == 0.0 * 0.0;
    }
  }

  lemma MeanConstant(xs: seq<real>, c: real)
    requires |xs| > 0 && forall i :: 0 <= i < |xs| ==> xs[i] == c
    ensures Mean(xs) == c
  {
    SumConstant(xs, c);
    DivCancel(c, |xs| as real);
  }

  /** The degenerate branch (`sxx <= 0`) is taken exactly when all abscissae are equal. */
  lemma DegenerateIffAllEqual(xs: seq<real>)
    requires |xs| > 0
    ensures Sxx(xs, Mean(xs)) <= 0.0 <==> AllEqual(xs)
  {
    if AllEqual(xs) {
      var c := xs[0];
      MeanConstant(xs, c);
      SxxConstant(xs, c);
      assert Sxx(xs, Mean(xs)) == 0.0;
    } else {
      var i, j :| 0 <= i < |xs| && 0 <= j < |xs| && xs[i] != xs[j];
      var k := if xs[i] != Mean(xs) then i else j;
      SxxPositive(xs, Mean(xs), k);
    }
  }

  /** With a positive squared sum, the sums of points on `l` give back `l`. */
  lemma LineFromOnLine(xs: seq<real>, ys: seq<real>, l: Line, mx: real, my: real)
    requires OnLine(xs, ys, l) && my == l.At(mx) && 0.0 < Sxx(xs, mx)
    ensures LineFrom(mx, my, Sxx(xs, mx), Sxy(xs, ys, mx, my)) == l
  {
    SxyOnLine(xs, ys, l, mx, my);
    LineThrough(mx, my, Sxx(xs, mx), Sxy(xs, ys, mx, my), l);
  }

  /** A positive `sxx` and sums in ratio `l.b` through a point of `l` give back `l`. */
  lemma LineThrough(mx: real, my: real, sxx: real, sxy: real, l: Line)
    requires 0.0 < sxx && sxy == l.Rise(sxx) && my == l.At(mx)
    ensures LineFrom(mx, my, sxx, sxy) == l
  {
    DivCancel(l.b, sxx);
    assert sxy / sxx == l.b;
  }

  /** Least squares recovers a line exactly from points on it, when the abscissae vary. */
  lemma OlsRecoversLine(xs: seq<real>, ys: seq<real>, l: Line)
    requires OnLine(xs, ys, l) && |xs| > 0
    requires !AllEqual(xs)
    ensures Ols(xs, ys) == l
  {
    MeanOnLine(xs, ys, l);
    DegenerateIffAllEqual(xs);
    LineFromOnLine(xs, ys, l, Mean(xs), Mean(ys));
  }

  /** With all abscissae equal the fit is the flat line through the mean time. */
  lemma OlsDegenerate(xs: seq<real>, ys: seq<real>)
    requires |xs| == |ys| > 0
    requires AllEqual(xs)
    ensures Ols(xs, ys) == Line(Mean(ys), 0.0)
  {
    DegenerateIffAllEqual(xs);
  }
}
