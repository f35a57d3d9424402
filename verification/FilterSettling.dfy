/** A second-order section fed a constant signal settles: however its delays start, the total squared distance of its
    outputs from the steady state is bounded, for ever, by an energy of the initial deviation. */
module FilterSettling {
  import opened Arithmetic
  import opened Signals
  import opened EngineTuning

  /** How far one pair of delays is from another. */
  function Deviation(d: Delay, e: Delay): Delay {
    Delay(d.z1 - e.z1, d.z2 - e.z2)
  }

  /** The deviation after one sample; its output is the first delay. */
  function Free(c: Coefficients, v: Delay): Delay {
    Delay(v.z2 - c.a1 * v.z1, -(c.a2 * v.z1))
  }

  /** Two sections fed the same sample: their outputs differ by the first delay of the deviation, which moves freely. */
  lemma {:induction false} DeviationMovesFreely(c: Coefficients, d: Delay, e: Delay, x: real)
    ensures var v := Deviation(d, e);
            Tick(c, d, x).0 - Tick(c, e, x).0 == v.z1 && Deviation(Tick(c, d, x).1, Tick(c, e, x).1) == Free(c, v)
  {
    var p, q := c.b0 * x + d.z1, c.b0 * x + e.z1;
    assert p - q == d.z1 - e.z1;
    assert c.a1 * p - c.a1 * q == c.a1 * (p - q) && c.a2 * p - c.a2 * q == c.a2 * (p - q);
    var r := Deviation(Tick(c, d, x).1, Tick(c, e, x).1);
    assert r.z1 == Free(c, Deviation(d, e)).z1 && r.z2 == Free(c, Deviation(d, e)).z2;
  }

  /** The energy of a deviation. */
  function Stored(rho: real, v: Delay): real {
    v.z1 * v.z1 - 2.0 * rho * (v.z1 * v.z2) + v.z2 * v.z2
  }

  /** The share of a squared output that leaves the section. */
  function Loss(c: Coefficients, rho: real): real {
    Product(1.0 - c.a2 * c.a2, 1.0 - rho * rho)
  }

  /** The poles of the section lie at an angle whose cosine is -rho, inside the unit circle. */
  predicate Damped(c: Coefficients, rho: real) {
    c.a1 == rho * (1.0 + c.a2) && -1.0 < c.a2 < 1.0 && -1.0 < rho < 1.0
  }

  lemma {:induction false} UnitInterval(x: real)
    requires -1.0 < x < 1.0
    ensures 1.0 - x * x > 0.0
  {
    ProductSign(1.0 - x, 1.0 + x);
    assert (1.0 - x) * (1.0 + x) == 1.0 - x * x;
  }

  lemma {:induction false} StoredIsNonNegative(rho: real, v: Delay)
    requires -1.0 < rho < 1.0
    ensures Stored(rho, v) >= 0.0
  {
    var t, s := v.z1 - rho * v.z2, v.z2 * v.z2;
    UnitInterval(rho);
    SquareSign(t);
    SquareSign(v.z2);
    ProductSign(1.0 - rho * rho, s);
    CompletedSquare(rho, v.z1, v.z2);
  }

  lemma {:induction false} CompletedSquare(rho: real, a: real, b: real)
    ensures a * a - 2.0 * rho * (a * b) + b * b == (a - rho * b) * (a - rho * b) + (1.0 - rho * rho) * (b * b)
  {
  }

  lemma {:induction false} LossIsPositive(c: Coefficients, rho: real)
    requires Damped(c, rho)
    ensures Loss(c, rho) > 0.0
  {
    var p, q := 1.0 - c.a2 * c.a2, 1.0 - rho * rho;
    UnitInterval(c.a2);
    UnitInterval(rho);
    ProductSign(p, q);
    assert Product(p, q) > 0.0;
  }

  /** What the free movement of a deviation loses is a fixed share of its squared output. */
  lemma {:induction false} FreeMovementLoses(c: Coefficients, rho: real, v: Delay)
    requires Damped(c, rho)
    ensures Stored(rho, v) - Stored(rho, Free(c, v)) == Product(Loss(c, rho), Square(v.z1))
  {
    FreeEnergy(c.a2, rho, v.z1, v.z2);
    var w := Free(c, v);
    assert w.z1 == v.z2 - rho * (1.0 + c.a2) * v.z1 && w.z2 == -(c.a2 * v.z1);
  }

  lemma {:induction false} FreeEnergy(a2: real, rho: real, a: real, b: real)
    ensures var z1, z2 := b - rho * (1.0 + a2) * a, -(a2 * a);
            a * a - 2.0 * rho * (a * b) + b * b - (z1 * z1 - 2.0 * rho * (z1 * z2) + z2 * z2)
            == (1.0 - a2 * a2) * (1.0 - rho * rho) * (a * a)
  {
  }

  // ----- a constant signal

  /** The delays after n samples of a constant signal. */
  function After(c: Coefficients, d: Delay, x: real, n: nat): Delay {
    if n == 0 then d else Tick(c, After(c, d, x, n - 1), x).1
  }

  /** The n-th output. */
  function Output(c: Coefficients, d: Delay, x: real, n: nat): real {
    Tick(c, After(c, d, x, n), x).0
  }

  /** The total squared distance of the first n outputs from y. */
  function SquaredError(c: Coefficients, d: Delay, x: real, y: real, n: nat): real {
    if n == 0 then 0.0 else SquaredError(c, d, x, y, n - 1) + Square(Output(c, d, x, n - 1) - y)
  }

  /** One more sample: what it adds to the error is what the deviation loses. */
  lemma {:induction false} OneMoreSample(c: Coefficients, rho: real, d: Delay, e: Delay, x: real, y: real)
    requires Damped(c, rho) && Tick(c, e, x) == (y, e)
    ensures Stored(rho, Deviation(d, e)) - Stored(rho, Deviation(Tick(c, d, x).1, e))
         == Product(Loss(c, rho), Square(Tick(c, d, x).0 - y))
  {
    DeviationMovesFreely(c, d, e, x);
    FreeMovementLoses(c, rho, Deviation(d, e));
  }

  /** Error and remaining deviation add up to the initial deviation. */
  lemma {:induction false} ErrorBalance(c: Coefficients, rho: real, d: Delay, e: Delay, x: real, y: real, n: nat)
    requires Damped(c, rho) && Tick(c, e, x) == (y, e)
    ensures Product(Loss(c, rho), SquaredError(c, d, x, y, n)) + Stored(rho, Deviation(After(c, d, x, n), e))
         == Stored(rho, Deviation(d, e))
    decreases n
  {
    if n > 0 {
      ErrorBalance(c, rho, d, e, x, y, n - 1);
      OneMoreSample(c, rho, After(c, d, x, n - 1), e, x, y);
      ProductOfSum(Loss(c, rho), SquaredError(c, d, x, y, n - 1), Square(Output(c, d, x, n - 1) - y));
    }
  }

  /** How many of the first n outputs are at least eps away from y. */
  function FarOff(c: Coefficients, d: Delay, x: real, y: real, eps: real, n: nat): nat {
    if n == 0 then 0
    else FarOff(c, d, x, y, eps, n - 1) + if Abs(Output(c, d, x, n - 1) - y) >= eps then 1 else 0
  }

  lemma {:induction false} SquareAtLeast(u: real, eps: real)
    requires eps > 0.0 && Abs(u) >= eps
    ensures Square(u) >= Square(eps)
  {
    var a := Abs(u);
    assert a * a == u * u;
    assert (a - eps) * (a + eps) >= 0.0;
    assert (a - eps) * (a + eps) == a * a - eps * eps;
  }

  /** One more output that is far off costs at least the square of the distance. */
  lemma {:induction false} OneMoreFarOff(k: nat, eps: real, u: real, error: real)
    requires eps > 0.0 && Product(Square(eps), k as real) <= error
    ensures Product(Square(eps), (k + if Abs(u) >= eps then 1 else 0) as real) <= error + Square(u)
  {
    SquareSign(u);
    if Abs(u) >= eps {
      SquareAtLeast(u, eps);
      ProductOfSum(Square(eps), k as real, 1.0);
      assert (k + 1) as real == k as real + 1.0 && Product(Square(eps), 1.0) == Square(eps);
    }
  }

  lemma {:induction false} FarOffCosts(c: Coefficients, d: Delay, x: real, y: real, eps: real, n: nat)
    requires eps > 0.0
    ensures Product(Square(eps), FarOff(c, d, x, y, eps, n) as real) <= SquaredError(c, d, x, y, n)
    decreases n
  {
    if n > 0 {
      FarOffCosts(c, d, x, y, eps, n - 1);
      OneMoreFarOff(FarOff(c, d, x, y, eps, n - 1), eps, Output(c, d, x, n - 1) - y, SquaredError(c, d, x, y, n - 1));
    }
  }

  /** The squared errors of the first n outputs stay within the energy of the initial deviation, and each of them that is
      at least eps off takes its share of it. */
  ghost predicate ErrorBounded(c: Coefficients, rho: real, d: Delay, e: Delay, x: real, y: real, eps: real, n: nat) {
    && Loss(c, rho) > 0.0
    && Product(Loss(c, rho), SquaredError(c, d, x, y, n)) <= Stored(rho, Deviation(d, e))
    && Product(Square(eps), FarOff(c, d, x, y, eps, n) as real) <= SquaredError(c, d, x, y, n)
  }

  /** From any delays, a damped section fed the constant x settles to the output y of its steady state: the squared
      errors of all its outputs, however many, stay within a bound that does not depend on their number; so for every
      distance only a bounded number of outputs is ever that far off. */
  lemma {:induction false} Settles(c: Coefficients, rho: real, d: Delay, e: Delay, x: real, y: real, eps: real, n: nat)
    requires Damped(c, rho) && Tick(c, e, x) == (y, e) && eps > 0.0
    ensures ErrorBounded(c, rho, d, e, x, y, eps, n)
  {
    LossIsPositive(c, rho);
    ErrorBalance(c, rho, d, e, x, y, n);
    StoredIsNonNegative(rho, Deviation(After(c, d, x, n), e));
    FarOffCosts(c, d, x, y, eps, n);
  }

  // ----- the sections of the engine

  lemma {:induction false} SectionIsDamped(c: Coefficients, cosine: real, alpha: real)
    requires c.a1 == Over(-2.0 * cosine, 1.0 + alpha) && c.a2 == Over(1.0 - alpha, 1.0 + alpha)
    requires alpha > 0.0 && -1.0 < cosine < 1.0
    ensures Damped(c, -cosine)
  {
    var a0 := 1.0 + alpha;
    var r := 1.0 / a0;
    assert r > 0.0 && r * a0 == 1.0;
    assert c.a2 == (1.0 - alpha) * r && c.a1 == -2.0 * cosine * r;
    assert 1.0 + c.a2 == 2.0 * r && 1.0 - c.a2 == 2.0 * alpha * r by {
      assert r + alpha * r == 1.0;
    }
    assert alpha * r > 0.0;
  }

  /** On the constant x the section has a steady state with output y, and comes to it from every state. */
  ghost predicate SettlesOn(c: Coefficients, rho: real, x: real, y: real) {
    exists e: Delay :: Tick(c, e, x) == (y, e)
                       && forall d: Delay, eps: real, n: nat :: eps > 0.0 ==> ErrorBounded(c, rho, d, e, x, y, eps, n)
  }

  lemma {:induction false} SteadyStateIsReached(c: Coefficients, rho: real, e: Delay, x: real, y: real)
    requires Damped(c, rho) && Tick(c, e, x) == (y, e)
    ensures SettlesOn(c, rho, x, y)
  {
    forall d: Delay, eps: real, n: nat | eps > 0.0
      ensures ErrorBounded(c, rho, d, e, x, y, eps, n)
    {
      Settles(c, rho, d, e, x, y, eps, n);
    }
  }

  /** The high-pass section settles to zero on every constant signal. */
  lemma {:induction false} HighPassSettles(sine: real, cosine: real, x: real)
    requires sine > 0.0 && -1.0 < cosine < 1.0
    ensures SettlesOn(HighPassSection(sine, cosine), -cosine, x, 0.0)
  {
    var c := HighPassSection(sine, cosine);
    var e := HighPassStopsConstants(sine, cosine, x);
    HighPassIsDamped(sine, cosine);
    SteadyStateIsReached(c, -cosine, e, x, 0.0);
  }

  lemma {:induction false} HighPassIsDamped(sine: real, cosine: real)
    requires sine > 0.0 && -1.0 < cosine < 1.0
    ensures Damped(HighPassSection(sine, cosine), -cosine)
  {
    SectionIsDamped(HighPassSection(sine, cosine), cosine, sine / 1.4142135623730952);
  }

  /** A peaking band settles to the signal itself on every constant signal, whatever its gain. */
  lemma {:induction false} PeakingSettles(cosine: real, up: real, down: real, x: real)
    requires down > 0.0 && -1.0 < cosine < 1.0
    ensures SettlesOn(PeakingSection(cosine, up, down), -cosine, x, x)
  {
    var c := PeakingSection(cosine, up, down);
    var e := PeakingPassesConstants(cosine, up, down, x);
    SectionIsDamped(c, cosine, down);
    SteadyStateIsReached(c, -cosine, e, x, x);
  }
}
