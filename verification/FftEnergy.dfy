/** The transform multiplies the total energy of the samples by their number. */
module FftEnergy {
  import Arithmetic
  import opened Rings
  import opened BitReversal
  import opened ComplexNumbers
  import opened Fft

  /** The squared magnitude laws at two given elements. */
  ghost predicate NormLaws<T>(R: Ring<T>, N: T -> real, a: T, b: T) {
    && N(R.add(a, b)) + N(R.add(a, R.neg(b))) == 2.0 * (N(a) + N(b))
    && N(R.mul(a, b)) == N(a) * N(b)
    && N(R.one) == 1.0
  }

  ghost predicate IsNorm<T(!new)>(R: Ring<T>, N: T -> real) {
    forall a, b :: NormLaws(R, N, a, b)
  }

  /** The energy of n cells from a given one on. */
  function Energy<T>(N: T -> real, v: seq<T>, from: nat, n: nat): real
    requires from + n <= |v|
    decreases n
  {
    if n == 0 then 0.0 else Energy(N, v, from, n - 1) + N(v[from + n - 1])
  }

  lemma {:induction false} UnitPower<T(!new)>(R: Ring<T>, N: T -> real, step: T, n: nat)
    requires IsNorm(R, N) && N(step) == 1.0
    ensures N(Pow(R, step, n)) == 1.0
    decreases n
  {
    if n > 0 {
      UnitPower(R, N, step, n - 1);
      assert NormLaws(R, N, Pow(R, step, n - 1), step);
    } else {
      assert NormLaws(R, N, step, step);
    }
  }

  /** A butterfly with a weight of modulus one doubles the energy. */
  lemma {:induction false} ButterflyEnergy<T(!new)>(R: Ring<T>, N: T -> real, a: T, b: T, w: T)
    requires IsNorm(R, N) && N(w) == 1.0
    ensures N(R.add(a, R.mul(b, w))) + N(R.add(a, R.neg(R.mul(b, w)))) == 2.0 * (N(a) + N(b))
  {
    assert NormLaws(R, N, b, w) && NormLaws(R, N, a, R.mul(b, w));
  }

  /** Cells that pair up to twice the energy of two halves. */
  ghost predicate PairsDouble<T>(N: T -> real, c: seq<T>, low: seq<T>, high: seq<T>) {
    && |c| == 2 * |low| == 2 * |high|
    && (forall r :: 0 <= r < |low| ==> N(c[r]) + N(c[|low| + r]) == 2.0 * (N(low[r]) + N(high[r])))
  }

  lemma {:induction false} CombineDoubles<T(!new)>(R: Ring<T>, N: T -> real, low: seq<T>, high: seq<T>, step: T)
    requires IsNorm(R, N) && N(step) == 1.0 && |low| == |high|
    ensures PairsDouble(N, Combine(R, low, high, step), low, high)
  {
    var c := Combine(R, low, high, step);
    forall r | 0 <= r < |low|
      ensures N(c[r]) + N(c[|low| + r]) == 2.0 * (N(low[r]) + N(high[r]))
    {
      UnitPower(R, N, step, r);
      ButterflyEnergy(R, N, low[r], high[r], Pow(R, step, r));
    }
  }

  lemma {:induction false} PairedEnergy<T>(N: T -> real, c: seq<T>, low: seq<T>, high: seq<T>, p: nat)
    requires PairsDouble(N, c, low, high) && p <= |low|
    ensures Energy(N, c, 0, p) + Energy(N, c, |low|, p) == 2.0 * (Energy(N, low, 0, p) + Energy(N, high, 0, p))
    decreases p
  {
    if p > 0 {
      PairedEnergy(N, c, low, high, p - 1);
      assert N(c[p - 1]) + N(c[|low| + (p - 1)]) == 2.0 * (N(low[p - 1]) + N(high[p - 1]));
    }
  }

  lemma {:induction false} InterleaveEnergy<T>(N: T -> real, even: seq<T>, odd: seq<T>, p: nat)
    requires p <= |even| == |odd|
    ensures Energy(N, Interleave(even, odd), 0, 2 * p) == Energy(N, even, 0, p) + Energy(N, odd, 0, p)
    decreases p
  {
    if p > 0 {
      InterleaveEnergy(N, even, odd, p - 1);
      var all := Interleave(even, odd);
      assert Energy(N, all, 0, 2 * p - 1) == Energy(N, all, 0, 2 * p - 2) + N(all[2 * p - 2]);
      assert all[2 * p - 2] == even[p - 1] && all[2 * p - 1] == odd[p - 1];
    }
  }

  lemma {:induction false} EnergySplits<T>(N: T -> real, v: seq<T>, h: nat, n: nat)
    requires h + n <= |v|
    ensures Energy(N, v, 0, h + n) == Energy(N, v, 0, h) + Energy(N, v, h, n)
    decreases n
  {
    if n > 0 {
      EnergySplits(N, v, h, n - 1);
    }
  }

  lemma {:induction false} PairsEnergy<T>(N: T -> real, c: seq<T>, low: seq<T>, high: seq<T>)
    requires PairsDouble(N, c, low, high)
    ensures Energy(N, c, 0, 2 * |low|) == 2.0 * (Energy(N, low, 0, |low|) + Energy(N, high, 0, |low|))
  {
    PairedEnergy(N, c, low, high, |low|);
    EnergySplits(N, c, |low|, |low|);
  }

  lemma {:induction false} CombinedEnergy<T(!new)>(R: Ring<T>, N: T -> real, low: seq<T>, high: seq<T>, step: T)
    requires IsNorm(R, N) && N(step) == 1.0 && |low| == |high|
    ensures Energy(N, Combine(R, low, high, step), 0, 2 * |low|)
         == 2.0 * (Energy(N, low, 0, |low|) + Energy(N, high, 0, |low|))
  {
    CombineDoubles(R, N, low, high, step);
    PairsEnergy(N, Combine(R, low, high, step), low, high);
  }

  /** x doubled s times. */
  function Doubled(x: real, s: nat): real {
    if s == 0 then x else 2.0 * Doubled(x, s - 1)
  }

  lemma {:induction false} DoubledSum(x: real, y: real, s: nat)
    ensures Doubled(x + y, s) == Doubled(x, s) + Doubled(y, s)
  {
    if s > 0 {
      DoubledSum(x, y, s - 1);
    }
  }

  lemma {:induction false} DoubledStep(a: real, b: real, x: real, y: real, s: nat)
    requires a == Doubled(x, s) && b == Doubled(y, s)
    ensures 2.0 * (a + b) == Doubled(x + y, s + 1)
  {
    DoubledSum(x, y, s);
  }

  lemma {:induction false} DoubledIsProduct(x: real, s: nat)
    ensures Doubled(x, s) == Pow2(s) as real * x
  {
    if s > 0 {
      DoubledIsProduct(x, s - 1);
      assert Pow2(s) as real == 2.0 * Pow2(s - 1) as real;
    }
  }

  ghost predicate UnitSteps<T>(N: T -> real, steps: seq<T>) {
    forall i :: 0 <= i < |steps| ==> N(steps[i]) == 1.0
  }

  /** How far the energy of v is from that of x doubled s times. */
  function Imbalance<T>(N: T -> real, v: seq<T>, x: seq<T>, s: nat): real {
    Energy(N, v, 0, |v|) - Doubled(Energy(N, x, 0, |x|), s)
  }

  lemma {:induction false} SingletonEnergy<T>(N: T -> real, a: T)
    ensures Imbalance(N, [a], [a], 0) == 0.0
  {
  }

  /** Each stage doubles the energy of every block. */
  lemma {:induction false} BlockEnergy<T(!new)>(R: Ring<T>, N: T -> real, steps: seq<T>, y: seq<T>, s: nat, base: nat)
    requires IsNorm(R, N) && s <= |steps| && base + Pow2(s) <= |y| && UnitSteps(N, steps)
    ensures Imbalance(N, Block(R, steps, y, s, base), BlockInput(y, s, base), s) == 0.0
    decreases s
  {
    if s == 0 {
      SingletonEnergy(N, y[base]);
    } else {
      BlockEnergy(R, N, steps, y, s - 1, base);
      BlockEnergy(R, N, steps, y, s - 1, base + Pow2(s - 1));
      StageEnergy(R, N, Block(R, steps, y, s - 1, base), Block(R, steps, y, s - 1, base + Pow2(s - 1)),
                  BlockInput(y, s - 1, base), BlockInput(y, s - 1, base + Pow2(s - 1)), steps[s - 1], s - 1);
    }
  }

  lemma {:induction false} StageEnergy<T(!new)>(R: Ring<T>, N: T -> real, low: seq<T>, high: seq<T>, even: seq<T>, odd: seq<T>,
                             step: T, s: nat)
    requires IsNorm(R, N) && N(step) == 1.0 && |low| == |high| == |even| == |odd|
    requires Imbalance(N, low, even, s) == 0.0 && Imbalance(N, high, odd, s) == 0.0
    ensures Imbalance(N, Combine(R, low, high, step), Interleave(even, odd), s + 1) == 0.0
  {
    var n := |low|;
    DoubledStep(Energy(N, low, 0, n), Energy(N, high, 0, n), Energy(N, even, 0, n), Energy(N, odd, 0, n), s);
    CombinedEnergy(R, N, low, high, step);
    InterleaveEnergy(N, even, odd, n);
  }

  /** Two transforms of the same input are equal. */
  lemma {:induction false} TransformUnique<T>(R: Ring<T>, u: seq<T>, v: seq<T>, x: seq<T>, w: T)
    requires IsTransform(R, u, x, w) && IsTransform(R, v, x, w)
    ensures u == v
  {
  }

  /** Over any ring with a norm. */
  lemma {:induction false} StagesScaleEnergy<T(!new)>(R: Ring<T>, N: T -> real, steps: seq<T>, x: seq<T>, v: seq<T>)
    requires IsRing(R) && IsNorm(R, N) && RootChain(R, steps) && |x| == Pow2(|steps|) && UnitSteps(N, steps)
    requires IsTransform(R, v, x, RootAt(R, steps, |steps|))
    ensures EnergyScaled(N, v, x)
  {
    var y := Reversed(x, |steps|);
    StagesGiveTransform(R, steps, x, y);
    TransformUnique(R, v, Block(R, steps, y, |steps|, 0), x, RootAt(R, steps, |steps|));
    UndoReversal(x, y, |steps|);
    BlockEnergy(R, N, steps, y, |steps|, 0);
    DoubledIsScaled(N, v, x, |steps|);
  }

  ghost predicate EnergyScaled<T>(N: T -> real, v: seq<T>, x: seq<T>) {
    |v| == |x| && Energy(N, v, 0, |v|) == |x| as real * Energy(N, x, 0, |x|)
  }

  lemma {:induction false} DoubledIsScaled<T>(N: T -> real, v: seq<T>, x: seq<T>, m: nat)
    requires |v| == |x| == Pow2(m) && Imbalance(N, v, x, m) == 0.0
    ensures EnergyScaled(N, v, x)
  {
    DoubledIsProduct(Energy(N, x, 0, |x|), m);
  }

  function Reversed<T>(x: seq<T>, m: nat): (y: seq<T>)
    requires |x| == Pow2(m)
    ensures |y| == |x| && forall k :: 0 <= k < |x| ==> y[k] == x[Rev(k, m)]
  {
    seq(|x|, k requires 0 <= k < |x| => x[Rev(k, m)])
  }

  lemma {:induction false} Parallelogram(a: Complex, b: Complex)
    ensures Norm(Add(a, b)) + Norm(Add(a, Neg(b))) == 2.0 * (Norm(a) + Norm(b))
  {
    Arithmetic.SquareOfSum(a.re, b.re);
    Arithmetic.SquareOfSum(a.re, -b.re);
    Arithmetic.SquareOfSum(a.im, b.im);
    Arithmetic.SquareOfSum(a.im, -b.im);
  }

  lemma {:induction false} NormMultiplies(a: Complex, b: Complex)
    ensures Norm(Mul(a, b)) == Norm(a) * Norm(b)
  {
    var p, q, r, s := a.re * b.re, a.im * b.im, a.re * b.im, a.im * b.re;
    Arithmetic.SquareOfSum(p, -q);
    Arithmetic.SquareOfSum(r, s);
    assert p * q == r * s;
    assert p * p == (a.re * a.re) * (b.re * b.re) && q * q == (a.im * a.im) * (b.im * b.im);
    assert r * r == (a.re * a.re) * (b.im * b.im) && s * s == (a.im * a.im) * (b.re * b.re);
    assert Norm(a) * Norm(b) == (a.re * a.re) * (b.re * b.re) + (a.re * a.re) * (b.im * b.im)
                                + (a.im * a.im) * (b.re * b.re) + (a.im * a.im) * (b.im * b.im);
  }

  lemma {:induction false} ComplexNorm()
    ensures IsNorm(COMPLEX, Norm)
  {
    forall a, b
      ensures NormLaws(COMPLEX, Norm, a, b)
    {
      Parallelogram(a, b);
      NormMultiplies(a, b);
    }
  }

  /** With steps on the unit circle, the complex transform multiplies the energy by the length. */
  lemma {:induction false} TransformScalesEnergy(steps: seq<Complex>, x: seq<Complex>, v: seq<Complex>)
    requires RootChain(COMPLEX, steps) && |x| == Pow2(|steps|) && UnitSteps(Norm, steps)
    requires IsTransform(COMPLEX, v, x, RootAt(COMPLEX, steps, |steps|))
    ensures EnergyScaled(Norm, v, x)
  {
    ComplexIsRing();
    ComplexNorm();
    StagesScaleEnergy(COMPLEX, Norm, steps, x, v);
  }
}
