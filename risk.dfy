/** The logistic FoS -> risk-probability curves used by the pipeline scripts:
    `1 / (1 + exp(k * (fos - centre)))`, with k > 0, so that low FoS means high
    risk. The quick demo uses k = 10 and centre 1.0, the backtest k = 5 and
    centre 1.1. */
module Risk {
  import opened Numeric
  import opened Transcendental

  function Logistic(exp: real -> real, steepness: real, centre: real, fos: real): (r: real)
    requires IsExp(exp)
    ensures 0.0 < r < 1.0
    ensures fos == centre ==> r == 0.5
  {
    var e := exp(steepness * (fos - centre));
    assert fos == centre ==> e == 1.0 by {
      if fos == centre { assert steepness * (fos - centre) == 0.0; }
    }
    1.0 / (1.0 + e)
  }

  /** A larger FoS always gives a strictly smaller risk. */
  lemma LogisticStrictlyDecreasing(exp: real -> real, steepness: real, centre: real, f1: real, f2: real)
    requires IsExp(exp) && steepness > 0.0
    requires f1 < f2
    ensures Logistic(exp, steepness, centre, f2) < Logistic(exp, steepness, centre, f1)
  {
    var x1 := steepness * (f1 - centre);
    var x2 := steepness * (f2 - centre);
    assert x2 - x1 == steepness * (f2 - f1);
    assert x1 < x2;
    var e1 := exp(x1);
    var e2 := exp(x2);
    assert 0.0 < e1 < e2;
    assert 1.0 / (1.0 + e2) < 1.0 / (1.0 + e1) by {
      var d1, d2 := 1.0 + e1, 1.0 + e2;
      assert 1.0 / d1 - 1.0 / d2 == (d2 - d1) / (d1 * d2);
      assert d1 * d2 > 0.0;
    }
  }

  /** Ordering the other way: a risk at least as large means a FoS no larger. */
  lemma LogisticOrderReflects(exp: real -> real, steepness: real, centre: real, f1: real, f2: real)
    requires IsExp(exp) && steepness > 0.0
    requires Logistic(exp, steepness, centre, f1) <= Logistic(exp, steepness, centre, f2)
    ensures f2 <= f1
  {
    if f1 < f2 {
      LogisticStrictlyDecreasing(exp, steepness, centre, f1, f2);
    }
  }
}
