/** The arithmetic with which `ModelEngine.predict` turns a classifier's
    probability of an up-move into a direction, a target price, a linear price
    path and a confidence band. Real arithmetic stands for Python floats. */
module Forecast {
  import opened Common

  datatype Direction = Up | Down

  /** "UP" when the probability of an up-move is above one half, else "DOWN". */
  function DirectionOf(prob: real): (d: Direction)
    ensures d == Up <==> prob > 0.5
  {
    if prob > 0.5 then Up else Down
  }

  /** `(prob - 0.5) * 0.16`: the expected move, at most 8% either way for a
      probability. */
  function BaseMove(prob: real): (m: real)
    ensures 0.0 <= prob <= 1.0 ==> -0.08 <= m <= 0.08
    ensures m > 0.0 <==> prob > 0.5
    ensures m < 0.0 <==> prob < 0.5
  {
    (prob - 0.5) * 0.16
  }

  /** `min(horizon / 30.0, 2)`: the move grows with the horizon and stops
      growing at 60 days, twice the 30-day move. */
  function HorizonScale(horizon: int): (s: real)
    ensures horizon >= 1 ==> 0.0 < s <= 2.0
    ensures s == 2.0 <==> horizon >= 60
    ensures horizon <= 60 ==> s * 30.0 == horizon as real
  {
    if horizon as real / 30.0 <= 2.0 then horizon as real / 30.0 else 2.0
  }

  /** `current * (1 + base_move * horizon_scale)`. For a probability, the
      target lies within 16% of the current price. */
  function TargetPrice(prob: real, current: real, horizon: int): (t: real)
    ensures horizon >= 1 && 0.0 <= prob <= 1.0 ==>
      -0.16 * AbsReal(current) <= t - current <= 0.16 * AbsReal(current)
  {
    var m, s := BaseMove(prob), HorizonScale(horizon);
    if horizon >= 1 && 0.0 <= prob <= 1.0 then
      MoveBound(current, m, s);
      current * (1.0 + m * s)
    else
      current * (1.0 + m * s)
  }

  lemma MoveBound(c: real, m: real, s: real)
    requires -0.08 <= m <= 0.08 && 0.0 < s <= 2.0
    ensures -0.16 * AbsReal(c) <= c * (1.0 + m * s) - c <= 0.16 * AbsReal(c)
  {
    var x := m * s;
    if m >= 0.0 {
      assert m * s <= m * 2.0;
    } else {
      assert m * s >= m * 2.0;
    }
    assert c * (1.0 + m * s) - c == c * x;
    if c >= 0.0 {
      MulMono(c, x, 0.16);
      MulMono(c, -0.16, x);
    } else {
      var a := -c;
      MulMono(a, x, 0.16);
      MulMono(a, -0.16, x);
      assert a * x <= 0.16 * a && a * (-0.16) == -(0.16 * a);
      assert c * x == -(a * x);
      assert AbsReal(c) == a;
    }
  }

  /** Multiplying by a non-negative factor keeps the order. */
  lemma MulMono(a: real, x: real, y: real)
    requires a >= 0.0 && x <= y
    ensures a * x <= a * y
  {
    assert a * y - a * x == a * (y - x);
  }

  /** Dividing by a positive divisor keeps the order. */
  lemma DivMono(x: real, y: real, h: real)
    requires x <= y && h > 0.0
    ensures x / h <= y / h
  {
    assert y / h - x / h == (y - x) / h;
    assert (y - x) / h * h == y - x;
  }

  /** The target lies above the current price exactly when the probability
      and the price have the same sign relative to one half and zero, and
      equals it exactly when the price is zero or the probability one half. */
  lemma {:induction false} TargetSide(prob: real, current: real, horizon: int)
    requires horizon >= 1
    ensures TargetPrice(prob, current, horizon) > current <==>
      (current > 0.0 && prob > 0.5) || (current < 0.0 && prob < 0.5)
    ensures TargetPrice(prob, current, horizon) == current <==> current == 0.0 || prob == 0.5
  {
    var m, s := BaseMove(prob), HorizonScale(horizon);
    var t := TargetPrice(prob, current, horizon);
    assert t - current == current * (m * s);
    assert m * s > 0.0 <==> m > 0.0;
    assert m * s < 0.0 <==> m < 0.0;
    SignOfProduct(current, m * s);
  }

  lemma SignOfProduct(a: real, b: real)
    ensures a * b > 0.0 <==> (a > 0.0 && b > 0.0) || (a < 0.0 && b < 0.0)
    ensures a * b == 0.0 <==> a == 0.0 || b == 0.0
  {
    if a > 0.0 && b < 0.0 { assert a * b < 0.0; }
    if a < 0.0 && b > 0.0 { assert a * b < 0.0; }
  }

  /** For a positive current price the direction and the predicted price
      agree: the forecast says "UP" exactly when its end price is above the
      current price. */
  lemma DirectionAgreesWithPrice(prob: real, current: real, horizon: int)
    requires horizon >= 1 && current > 0.0
    ensures DirectionOf(prob) == Up <==> TargetPrice(prob, current, horizon) > current
    ensures DirectionOf(prob) == Down <==> TargetPrice(prob, current, horizon) <= current
  {
    TargetSide(prob, current, horizon);
  }

  /** Step `i` of the path: `current + (target - current) * i / horizon`. */
  function StepValue(current: real, target: real, horizon: int, i: int): real
    requires horizon >= 1
  {
    current + (target - current) * (i as real / horizon as real)
  }

  /** The path from the current price to the target in `horizon` equal steps. */
  function Path(current: real, target: real, horizon: int): (p: seq<real>)
    requires horizon >= 1
    ensures |p| == horizon
    ensures p[horizon - 1] == target
  {
    var p := seq(horizon, k requires 0 <= k < horizon => StepValue(current, target, horizon, k + 1));
    assert p[horizon - 1] == target by {
      DivSelf(horizon as real);
    }
    p
  }

  /** The path's first value is one step above the current price and every
      later value one more step: all steps are `(target - current) / horizon`. */
  lemma PathEqualSteps(current: real, target: real, horizon: int)
    requires horizon >= 1
    ensures Path(current, target, horizon)[0] - current == (target - current) / horizon as real
    ensures forall k :: 0 <= k < horizon - 1 ==>
      Path(current, target, horizon)[k + 1] - Path(current, target, horizon)[k]
        == (target - current) / horizon as real
  {
    var p := Path(current, target, horizon);
    FirstStep(target - current, horizon as real);
    forall k | 0 <= k < horizon - 1
      ensures p[k + 1] - p[k] == (target - current) / horizon as real
    {
      EqualSteps(target - current, horizon as real, k as real);
    }
  }

  lemma FirstStep(d: real, h: real)
    requires h > 0.0
    ensures d * (1.0 / h) == d / h
  {
  }

  lemma DivSelf(h: real)
    requires h > 0.0
    ensures h / h == 1.0
  {
  }

  lemma EqualSteps(d: real, h: real, k: real)
    requires h > 0.0
    ensures d * ((k + 2.0) / h) - d * ((k + 1.0) / h) == d / h
  {
    assert (k + 2.0) / h - (k + 1.0) / h == 1.0 / h;
    assert d * ((k + 2.0) / h) - d * ((k + 1.0) / h) == d * ((k + 2.0) / h - (k + 1.0) / h);
  }

  /** A path whose target is not below the current price never goes down,
      and one whose target is not above it never goes up. */
  lemma {:induction false} PathMonotone(current: real, target: real, horizon: int, i: int, j: int)
    requires horizon >= 1 && 0 <= i <= j < horizon
    ensures target >= current ==> Path(current, target, horizon)[i] <= Path(current, target, horizon)[j]
    ensures target <= current ==> Path(current, target, horizon)[i] >= Path(current, target, horizon)[j]
  {
    var h := horizon as real;
    var ri, rj := (i + 1) as real / h, (j + 1) as real / h;
    DivMono((i + 1) as real, (j + 1) as real, h);
    var p := Path(current, target, horizon);
    var d := target - current;
    assert p[i] == StepValue(current, target, horizon, i + 1) == current + d * ri;
    assert p[j] == StepValue(current, target, horizon, j + 1) == current + d * rj;
    assert target >= current ==> d >= 0.0;
    assert target <= current ==> d <= 0.0;
    ScaledStepsOrdered(current, d, ri, rj);
  }

  /** `current + d * r` grows with `r` when `d >= 0` and shrinks when `d <= 0`. */
  lemma ScaledStepsOrdered(current: real, d: real, ri: real, rj: real)
    requires ri <= rj
    ensures d >= 0.0 ==> current + d * ri <= current + d * rj
    ensures d <= 0.0 ==> current + d * ri >= current + d * rj
  {
    if d >= 0.0 {
      MulMono(d, ri, rj);
    }
    if d <= 0.0 {
      MulMono(-d, ri, rj);
      assert (-d) * ri == -(d * ri) && (-d) * rj == -(d * rj);
    }
  }

  /** The forecast path rises (weakly) when the model leans up and falls
      (weakly) when it leans down, for a non-negative current price. */
  lemma ForecastPathDirection(prob: real, current: real, horizon: int, i: int, j: int)
    requires horizon >= 1 && 0 <= i <= j < horizon && current >= 0.0
    ensures var p := Path(current, TargetPrice(prob, current, horizon), horizon);
      (prob > 0.5 ==> p[i] <= p[j]) && (prob < 0.5 ==> p[i] >= p[j])
  {
    TargetSide(prob, current, horizon);
    PathMonotone(current, TargetPrice(prob, current, horizon), horizon, i, j);
  }

  /** `0.02 + (0.5 - |prob - 0.5|) * 0.04`: the relative half-width of the
      confidence band, widest (4%) when the model is undecided and narrowest
      (2%) when it is certain. */
  function Band(prob: real): (b: real)
    ensures b <= 0.04 && (b == 0.04 <==> prob == 0.5)
    ensures 0.0 <= prob <= 1.0 ==> 0.02 <= b
    ensures 0.0 <= prob <= 1.0 ==> (b == 0.02 <==> prob == 0.0 || prob == 1.0)
  {
    0.02 + (0.5 - AbsReal(prob - 0.5)) * 0.04
  }

  /** The band is symmetric around one half. */
  lemma BandSymmetric(prob: real)
    ensures Band(prob) == Band(1.0 - prob)
  {
    assert AbsReal(prob - 0.5) == AbsReal((1.0 - prob) - 0.5);
  }

  /** The band gets narrower as the probability moves away from one half. */
  lemma BandNarrowsWithConfidence(p: real, q: real)
    requires AbsReal(p - 0.5) <= AbsReal(q - 0.5)
    ensures Band(q) <= Band(p)
  {
  }

  /** `[pp * (1 - band), pp * (1 + band)]` around the predicted price. */
  function Interval(predicted: real, prob: real): (ci: (real, real))
    ensures 0.0 <= prob <= 1.0 && predicted >= 0.0 ==>
      ci.0 <= predicted <= ci.1 &&
      0.04 * predicted <= ci.1 - ci.0 <= 0.08 * predicted
    ensures ci.1 - ci.0 == 2.0 * Band(prob) * predicted
    ensures ci.0 + ci.1 == 2.0 * predicted
  {
    var b := Band(prob);
    var lo, hi := predicted * (1.0 - b), predicted * (1.0 + b);
    IntervalShape(predicted, b, lo, hi);
    if 0.0 <= prob <= 1.0 && predicted >= 0.0 then
      WidthBounds(predicted, b, lo, hi);
      (lo, hi)
    else
      (lo, hi)
  }

  /** `[p * (1 - b), p * (1 + b)]` has midpoint `p` and width `2 * b * p`. */
  lemma IntervalShape(p: real, b: real, lo: real, hi: real)
    requires lo == p * (1.0 - b) && hi == p * (1.0 + b)
    ensures hi - lo == 2.0 * b * p && lo + hi == 2.0 * p
  {
    assert hi == p + p * b && lo == p - p * b;
  }

  /** For a non-negative price and a band between 2% and 4%, the interval
      contains the price and is between 4% and 8% of it wide. */
  lemma WidthBounds(p: real, b: real, lo: real, hi: real)
    requires lo == p * (1.0 - b) && hi == p * (1.0 + b)
    requires p >= 0.0 && 0.02 <= b <= 0.04
    ensures lo <= p <= hi && 0.04 * p <= hi - lo <= 0.08 * p
  {
    var x := p * b;
    assert hi == p + x && lo == p - x;
    MulMono(p, b, 0.04);
    MulMono(p, 0.02, b);
    assert 0.02 * p <= x <= 0.04 * p;
  }
}
