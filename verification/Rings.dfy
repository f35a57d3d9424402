/** Commutative rings given by their operations, so that the transform below is proved once, for
    every ring, and then instantiated with the complex numbers. */
module Rings {

  datatype Ring<!T> = Ring(add: (T, T) -> T, mul: (T, T) -> T, neg: T -> T, zero: T, one: T)

  /** The ring laws at three given elements. */
  ghost predicate Laws<T>(R: Ring<T>, a: T, b: T, c: T) {
    && R.add(a, b) == R.add(b, a)
    && R.add(R.add(a, b), c) == R.add(a, R.add(b, c))
    && R.add(a, R.zero) == a
    && R.mul(a, b) == R.mul(b, a)
    && R.mul(R.mul(a, b), c) == R.mul(a, R.mul(b, c))
    && R.mul(a, R.one) == a
    && R.mul(a, R.zero) == R.zero
    && R.mul(a, R.add(b, c)) == R.add(R.mul(a, b), R.mul(a, c))
    && R.mul(a, R.neg(b)) == R.neg(R.mul(a, b))
    && R.neg(R.neg(a)) == a
  }

  ghost predicate IsRing<T(!new)>(R: Ring<T>) {
    forall a, b, c :: Laws(R, a, b, c)
  }

  function Pow<T>(R: Ring<T>, a: T, n: nat): T {
    if n == 0 then R.one else R.mul(Pow(R, a, n - 1), a)
  }

  lemma {:induction false} PowAdd<T(!new)>(R: Ring<T>, a: T, m: nat, n: nat)
    requires IsRing(R)
    ensures Pow(R, a, m + n) == R.mul(Pow(R, a, m), Pow(R, a, n))
  {
    assert Laws(R, Pow(R, a, m), R.one, R.one);
    if n > 0 {
      PowAdd(R, a, m, n - 1);
      assert Laws(R, Pow(R, a, m), Pow(R, a, n - 1), a);
    }
  }

  lemma {:induction false} PowOfSquare<T(!new)>(R: Ring<T>, a: T, n: nat)
    requires IsRing(R)
    ensures Pow(R, R.mul(a, a), n) == Pow(R, a, 2 * n)
  {
    if n > 0 {
      PowOfSquare(R, a, n - 1);
      var p := Pow(R, a, 2 * n - 2);
      assert Pow(R, a, 2 * n) == R.mul(R.mul(p, a), a);
      assert Laws(R, p, a, a);
    }
  }

  /** Powers of a product of two equal powers, and of a power. */
  lemma {:induction false} PowOfPow<T(!new)>(R: Ring<T>, a: T, k: nat, n: nat)
    requires IsRing(R)
    ensures Pow(R, Pow(R, a, k), n) == Pow(R, a, n * k)
  {
    if n > 0 {
      PowOfPow(R, a, k, n - 1);
      PowAdd(R, a, (n - 1) * k, k);
      assert n * k == (n - 1) * k + k;
    }
  }

  lemma {:induction false} SquareOfNegated<T(!new)>(R: Ring<T>, z: T)
    requires IsRing(R)
    ensures R.mul(R.neg(z), R.neg(z)) == R.mul(z, z)
  {
    assert Laws(R, R.neg(z), z, z) && Laws(R, z, z, z) && Laws(R, R.neg(z), R.neg(z), z);
    assert Laws(R, z, R.neg(z), z) && Laws(R, R.mul(z, z), z, z);
  }

  /** Regrouping one even and one odd term of a split sum. */
  lemma {:induction false} Regroup<T(!new)>(R: Ring<T>, e: T, w: T, o: T, p: T, a: T, b: T)
    requires IsRing(R)
    ensures R.add(R.add(R.add(e, R.mul(w, o)), R.mul(a, p)), R.mul(b, R.mul(w, p)))
         == R.add(R.add(e, R.mul(a, p)), R.mul(w, R.add(o, R.mul(b, p))))
  {
    var wo, ap, bp := R.mul(w, o), R.mul(a, p), R.mul(b, p);
    var bwp := R.mul(b, R.mul(w, p));
    assert bwp == R.mul(w, bp) by {
      assert Laws(R, b, w, p) && Laws(R, w, b, p);
    }
    assert R.add(R.add(e, wo), ap) == R.add(R.add(e, ap), wo) by {
      assert Laws(R, e, wo, ap) && Laws(R, wo, ap, e) && Laws(R, e, ap, wo);
    }
    assert R.add(R.add(R.add(e, ap), wo), bwp) == R.add(R.add(e, ap), R.add(wo, bwp)) by {
      assert Laws(R, R.add(e, ap), wo, bwp);
    }
    assert R.mul(w, R.add(o, bp)) == R.add(wo, R.mul(w, bp)) by {
      assert Laws(R, w, o, bp);
    }
  }
}

/** The exact complex numbers. */
module ComplexNumbers {
  import opened Rings

  datatype Complex = Complex(re: real, im: real)

  function Add(a: Complex, b: Complex): Complex { Complex(a.re + b.re, a.im + b.im) }

  function Mul(a: Complex, b: Complex): Complex {
    Complex(a.re * b.re - a.im * b.im, a.re * b.im + a.im * b.re)
  }

  function Neg(a: Complex): Complex { Complex(-a.re, -a.im) }

  /** Squared magnitude. */
  function Norm(a: Complex): real { a.re * a.re + a.im * a.im }

  const COMPLEX: Ring<Complex> := Ring(Add, Mul, Neg, Complex(0.0, 0.0), Complex(1.0, 0.0))

  lemma {:induction false} MulAssociates(a: Complex, b: Complex, c: Complex)
    ensures Mul(Mul(a, b), c) == Mul(a, Mul(b, c))
  {
  }

  lemma {:induction false} MulDistributes(a: Complex, b: Complex, c: Complex)
    ensures Mul(a, Add(b, c)) == Add(Mul(a, b), Mul(a, c))
  {
  }

  lemma {:induction false} SumLaws(a: Complex, b: Complex, c: Complex)
    ensures Add(a, b) == Add(b, a) && Add(Add(a, b), c) == Add(a, Add(b, c)) && Add(a, Complex(0.0, 0.0)) == a
    ensures Neg(Neg(a)) == a
  {
  }

  lemma {:induction false} ProductLaws(a: Complex, b: Complex)
    ensures Mul(a, b) == Mul(b, a) && Mul(a, Neg(b)) == Neg(Mul(a, b))
    ensures Mul(a, Complex(1.0, 0.0)) == a && Mul(a, Complex(0.0, 0.0)) == Complex(0.0, 0.0)
  {
  }

  lemma {:induction false} ComplexLaws(a: Complex, b: Complex, c: Complex)
    ensures Laws(COMPLEX, a, b, c)
  {
    SumLaws(a, b, c);
    ProductLaws(a, b);
    MulAssociates(a, b, c);
    MulDistributes(a, b, c);
  }

  lemma {:induction false} ComplexIsRing()
    ensures IsRing(COMPLEX)
  {
    forall a, b, c
      ensures Laws(COMPLEX, a, b, c)
    {
      ComplexLaws(a, b, c);
    }
  }
}
