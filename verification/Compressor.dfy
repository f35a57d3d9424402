/** The static curve of the compressor. */
module Compressor {
  import opened Arithmetic

  /** Gain reduction in dB at a level `over` dB above the threshold. */
  function GainReduction(over: real, knee: real, ratio: real): real
    requires ratio != 0.0
  {
    SlopedReduction(over, knee, 1.0 - 1.0 / ratio)
  }

  function SlopedReduction(over: real, knee: real, slope: real): real {
    if knee <= 0.0 then
      if over > 0.0 then Product(over, slope) else 0.0
    else if over > -knee * 0.5 then
      if over >= knee * 0.5 then Product(over, slope)
      else var shifted := over + knee * 0.5; Product(shifted * shifted / (2.0 * knee), slope)
    else 0.0
  }

  /** The curve of a compressor of infinite ratio: `GainReduction` is its multiple by 1 - 1/ratio. */
  function Overshoot(over: real, knee: real): real {
    if knee <= 0.0 then Max(over, 0.0)
    else Quadratic(Min(Max(over + knee * 0.5, 0.0), knee), knee) + Max(over - knee * 0.5, 0.0)
  }

  function Min(a: real, b: real): real { if a < b then a else b }

  function Quadratic(x: real, knee: real): real
    requires knee > 0.0
  {
    x * x / (2.0 * knee)
  }

  lemma {:induction false} SlopeInUnitInterval(ratio: real)
    requires ratio >= 1.0
    ensures 0.0 <= 1.0 - 1.0 / ratio < 1.0
  {
  }

  /** The soft knee meets the straight line at both edges: 0 below and knee / 2 above. */
  lemma {:induction false} KneeEdges(knee: real)
    requires knee > 0.0
    ensures Quadratic(0.0, knee) == 0.0 && Quadratic(knee, knee) == knee * 0.5
  {
  }

  /** The quadratic rises, but never faster than its argument. */
  lemma {:induction false} QuadraticStep(x: real, y: real, knee: real)
    requires knee > 0.0 && 0.0 <= x <= y <= knee
    ensures 0.0 <= Quadratic(y, knee) - Quadratic(x, knee) <= y - x
  {
    var c, d := 2.0 * knee, y - x;
    var p, q := Quadratic(x, knee), Quadratic(y, knee);
    QuotientTimes(x * x, c);
    QuotientTimes(y * y, c);
    // (q - p) * c == d * (x + y), which lies between 0 and d * c
    assert (q - p) * c == q * c - p * c;
    assert d * (x + y) == y * y - x * x;
    ProductSign(d, x + y);
    ProductSign(d, c - (x + y));
    assert d * (c - (x + y)) == d * c - d * (x + y);
    DivideOut(q - p, 0.0, c);
    DivideOut(d, q - p, c);
  }

  lemma {:induction false} DivideOut(a: real, b: real, c: real)
    requires c > 0.0 && a * c >= b * c
    ensures a >= b
  {
  }

  lemma {:induction false} OvershootStep(x: real, y: real, knee: real)
    requires x <= y
    ensures Overshoot(x, knee) >= 0.0
    ensures 0.0 <= Overshoot(y, knee) - Overshoot(x, knee) <= y - x
  {
    if knee > 0.0 {
      var u, v := Min(Max(x + knee * 0.5, 0.0), knee), Min(Max(y + knee * 0.5, 0.0), knee);
      QuadraticStep(u, v, knee);
      QuadraticStep(0.0, u, knee);
      KneeEdges(knee);
    }
  }

  lemma {:induction false} ReductionIsScaledOvershoot(over: real, knee: real, slope: real)
    ensures SlopedReduction(over, knee, slope) == Product(Overshoot(over, knee), slope)
  {
  }

  /** At a knee edge the soft and the straight formula give the same reduction. */
  lemma {:induction false} FormulasAgreeAtEdges(knee: real, ratio: real)
    requires knee > 0.0 && ratio >= 1.0
    ensures Quadratic(0.0, knee) * (1.0 - 1.0 / ratio) == 0.0
    ensures Quadratic(knee, knee) * (1.0 - 1.0 / ratio) == (knee * 0.5) * (1.0 - 1.0 / ratio)
  {
  }

  lemma {:induction false} ScaledDifference(p: real, q: real, slope: real, d: real)
    requires 0.0 <= p && 0.0 <= q - p <= d && 0.0 <= slope <= 1.0
    ensures 0.0 <= Product(p, slope) && 0.0 <= Product(q, slope) - Product(p, slope) <= d
  {
    ProductSign(p, slope);
    ProductSign(q - p, slope);
    ProductSign(q - p, 1.0 - slope);
    assert (q - p) * slope == q * slope - p * slope;
    assert (q - p) * (1.0 - slope) == (q - p) - (q - p) * slope;
  }

  lemma {:induction false} SlopedOrder(x: real, y: real, knee: real, slope: real)
    requires 0.0 <= slope <= 1.0 && x <= y
    ensures 0.0 <= SlopedReduction(x, knee, slope) <= SlopedReduction(y, knee, slope)
    ensures x - SlopedReduction(x, knee, slope) <= y - SlopedReduction(y, knee, slope)
  {
    ReductionIsScaledOvershoot(x, knee, slope);
    ReductionIsScaledOvershoot(y, knee, slope);
    OvershootStep(x, y, knee);
    ScaledDifference(Overshoot(x, knee), Overshoot(y, knee), slope, y - x);
  }

  /** The level over the threshold that is left after compression: unchanged below the knee, a ratio-th of it above, and
      on the parabola that joins the two inside. */
  function LevelLeft(over: real, knee: real, ratio: real): real
    requires ratio > 0.0
  {
    var half := if knee <= 0.0 then 0.0 else knee * 0.5;
    if over <= -half then over
    else if over >= half then over / ratio
    else over - Product(Parabola(over, half), 1.0 - 1.0 / ratio)
  }

  /** The parabola that rises from 0 at the lower knee edge to half the knee, with slope 1, at the upper one. */
  function Parabola(over: real, half: real): real
    requires half > 0.0
  {
    (over + half) * (over + half) / (4.0 * half)
  }

  lemma {:induction false} ShareLeft(x: real, ratio: real)
    requires ratio >= 1.0
    ensures x - Product(x, 1.0 - 1.0 / ratio) == x / ratio
  {
    var r := 1.0 / ratio;
    assert x * (1.0 - r) == x - x * r;
    assert x * r == x / ratio;
  }

  lemma {:induction false} QuadraticIsParabola(over: real, knee: real, half: real)
    requires knee > 0.0 && half == knee * 0.5
    ensures (over + half) * (over + half) / (2.0 * knee) == Parabola(over, half)
  {
    assert 4.0 * half == 2.0 * knee;
  }

  /** That is what the reduction takes away. */
  lemma {:induction false} ReductionLeaves(over: real, knee: real, ratio: real)
    requires ratio >= 1.0
    ensures over - GainReduction(over, knee, ratio) == LevelLeft(over, knee, ratio)
  {
    ReductionPieces(over, knee, 1.0 - 1.0 / ratio);
    ShareLeft(over, ratio);
  }

  lemma {:induction false} ReductionPieces(over: real, knee: real, slope: real)
    ensures var half := if knee <= 0.0 then 0.0 else knee * 0.5;
            SlopedReduction(over, knee, slope)
            == if over <= -half then 0.0 else if over >= half then Product(over, slope)
               else Product(Parabola(over, half), slope)
  {
    if knee > 0.0 {
      QuadraticIsParabola(over, knee, knee * 0.5);
    }
  }

  /** The reduction is never negative, a louder level is never reduced less, and it is never reduced so
      much that it ends up below a quieter one. */
  lemma {:induction false} CompressionKeepsOrder(x: real, y: real, knee: real, ratio: real)
    requires ratio >= 1.0 && x <= y
    ensures 0.0 <= GainReduction(x, knee, ratio) <= GainReduction(y, knee, ratio)
    ensures x - GainReduction(x, knee, ratio) <= y - GainReduction(y, knee, ratio)
  {
    SlopeInUnitInterval(ratio);
    SlopedOrder(x, y, knee, 1.0 - 1.0 / ratio);
  }
}
