/** The in-place radix-2 transform of the audio analyzer. */
module Fft {
  import opened Rings
  import opened BitReversal
  import opened ComplexNumbers

  /** The twiddle steps of the stages: steps[s] belongs to length 2^(s+1). The first is -1 and each
      one is a square root of the one before. */
  ghost predicate RootChain<T(!new)>(R: Ring<T>, steps: seq<T>) {
    && (|steps| > 0 ==> steps[0] == R.neg(R.one))
    && (forall s :: 0 < s < |steps| ==> R.mul(steps[s], steps[s]) == steps[s - 1])
  }

  /** The root of unity of order 2^s: the step of stage s, and 1 when no stage has run. */
  function RootAt<T>(R: Ring<T>, steps: seq<T>, s: nat): T
    requires s <= |steps|
  {
    if s == 0 then R.one else steps[s - 1]
  }

  /** The sum of x[i] * z^i over the first n entries. At z = w^k it is the discrete Fourier
      transform of x at k, see `EvalIsFourierSum`. */
  function Eval<T>(R: Ring<T>, x: seq<T>, z: T, n: nat): T
    requires n <= |x|
  {
    if n == 0 then R.zero
    else R.add(Eval(R, x, z, n - 1), R.mul(x[n - 1], Pow(R, z, n - 1)))
  }

  /** The discrete Fourier transform: the sum of x[i] * w^(i*k). */
  function FourierSum<T>(R: Ring<T>, x: seq<T>, w: T, k: nat, n: nat): T
    requires n <= |x|
  {
    if n == 0 then R.zero
    else R.add(FourierSum(R, x, w, k, n - 1), R.mul(x[n - 1], Pow(R, w, (n - 1) * k)))
  }

  lemma {:induction false} EvalIsFourierSum<T(!new)>(R: Ring<T>, x: seq<T>, w: T, k: nat, n: nat)
    requires IsRing(R) && n <= |x|
    ensures Eval(R, x, Pow(R, w, k), n) == FourierSum(R, x, w, k, n)
    decreases n
  {
    if n > 0 {
      EvalIsFourierSum(R, x, w, k, n - 1);
      PowOfPow(R, w, k, n - 1);
    }
  }

  // ----- roots of unity

  lemma {:induction false} HalfTurn<T(!new)>(R: Ring<T>, steps: seq<T>, s: nat)
    requires IsRing(R) && RootChain(R, steps) && s < |steps|
    ensures Pow(R, steps[s], Pow2(s)) == R.neg(R.one)
    decreases s
  {
    if s == 0 {
      assert Pow(R, steps[0], 1) == R.mul(Pow(R, steps[0], 0), steps[0]);
      assert Laws(R, R.one, steps[0], R.one) && Laws(R, steps[0], R.one, R.one);
    } else {
      HalfTurn(R, steps, s - 1);
      PowOfSquare(R, steps[s], Pow2(s - 1));
    }
  }

  /** Squaring a power of the step of stage s + 1 gives the same power of the step of stage s. */
  lemma {:induction false} SquareOfPower<T(!new)>(R: Ring<T>, steps: seq<T>, s: nat, k: nat)
    requires IsRing(R) && RootChain(R, steps) && s < |steps|
    ensures R.mul(Pow(R, steps[s], k), Pow(R, steps[s], k)) == Pow(R, RootAt(R, steps, s), k)
  {
    var w := steps[s];
    PowAdd(R, w, k, k);
    PowOfSquare(R, w, k);
    if s == 0 {
      SquareOfNegated(R, R.one);
      assert Laws(R, R.one, R.one, R.one);
    }
  }

  /** Half a turn further the power of the step changes sign. */
  lemma {:induction false} PowerAfterHalfTurn<T(!new)>(R: Ring<T>, steps: seq<T>, s: nat, r: nat)
    requires IsRing(R) && RootChain(R, steps) && s < |steps|
    ensures Pow(R, steps[s], r + Pow2(s)) == R.neg(Pow(R, steps[s], r))
  {
    HalfTurn(R, steps, s);
    PowAdd(R, steps[s], r, Pow2(s));
    assert Laws(R, Pow(R, steps[s], r), R.one, R.one);
  }

  // ----- even and odd entries

  function Interleave<T>(even: seq<T>, odd: seq<T>): (all: seq<T>)
    requires |even| == |odd|
    ensures |all| == 2 * |even|
  {
    seq(2 * |even|, n requires 0 <= n < 2 * |even| => if n % 2 == 0 then even[n / 2] else odd[n / 2])
  }

  /** Where the q-th even and odd entries are. */
  ghost predicate PairAt<T>(even: seq<T>, odd: seq<T>, all: seq<T>, q: int)
    requires 0 <= q < |even| == |odd| && |all| == 2 * |even|
  {
    all[2 * q] == even[q] && all[2 * q + 1] == odd[q]
  }

  ghost predicate Interleaved<T>(even: seq<T>, odd: seq<T>, all: seq<T>) {
    |even| == |odd| && |all| == 2 * |even| && forall q :: 0 <= q < |even| ==> PairAt(even, odd, all, q)
  }

  lemma {:induction false} InterleaveIsInterleaved<T>(even: seq<T>, odd: seq<T>)
    requires |even| == |odd|
    ensures Interleaved(even, odd, Interleave(even, odd))
  {
    var all := Interleave(even, odd);
    forall q | 0 <= q < |even|
      ensures PairAt(even, odd, all, q)
    {
      assert (2 * q) / 2 == q && (2 * q + 1) / 2 == q;
    }
  }

  /** Two more entries of a sum. */
  lemma {:induction false} EvalTwoMore<T(!new)>(R: Ring<T>, all: seq<T>, z: T, q: nat)
    requires IsRing(R) && 2 * q + 1 < |all|
    ensures var t := Pow(R, R.mul(z, z), q);
            Eval(R, all, z, 2 * q + 2)
            == R.add(R.add(Eval(R, all, z, 2 * q), R.mul(all[2 * q], t)), R.mul(all[2 * q + 1], R.mul(z, t)))
  {
    PowOfSquare(R, z, q);
    var t := Pow(R, z, 2 * q);
    assert Pow(R, z, 2 * q + 1) == R.mul(z, t) by { assert Laws(R, z, t, t); }
    assert Eval(R, all, z, 2 * q + 1) == R.add(Eval(R, all, z, 2 * q), R.mul(all[2 * q], t));
  }

  /** The first n entries of P at z, from the first p of E and O at z^2. */
  ghost predicate SplitAt<T>(R: Ring<T>, even: seq<T>, odd: seq<T>, all: seq<T>, z: T, zz: T, p: nat, n: nat)
    requires p <= |even| == |odd| && n <= |all|
  {
    Eval(R, all, z, n) == R.add(Eval(R, even, zz, p), R.mul(z, Eval(R, odd, zz, p)))
  }

  /** One more even and one more odd entry of a split sum. */
  lemma {:induction false} SplitOneMore<T(!new)>(R: Ring<T>, even: seq<T>, odd: seq<T>, all: seq<T>, z: T, zz: T, q: nat, n: nat)
    requires IsRing(R) && q < |even| && Interleaved(even, odd, all) && zz == R.mul(z, z) && n == 2 * q
    requires SplitAt(R, even, odd, all, z, zz, q, n)
    ensures SplitAt(R, even, odd, all, z, zz, q + 1, n + 2)
  {
    assert PairAt(even, odd, all, q);
    EvalTwoMore(R, all, z, q);
    Regroup(R, Eval(R, even, zz, q), z, Eval(R, odd, zz, q), Pow(R, zz, q), even[q], odd[q]);
  }

  lemma {:induction false} SplitNone<T(!new)>(R: Ring<T>, even: seq<T>, odd: seq<T>, all: seq<T>, z: T, zz: T)
    requires IsRing(R) && |even| == |odd|
    ensures SplitAt(R, even, odd, all, z, zz, 0, 0)
  {
    assert Laws(R, z, R.zero, R.zero) && Laws(R, R.zero, R.zero, R.zero);
  }

  lemma {:induction false} SplitUpTo<T(!new)>(R: Ring<T>, even: seq<T>, odd: seq<T>, all: seq<T>, z: T, zz: T, p: nat, n: nat)
    requires IsRing(R) && p <= |even| && Interleaved(even, odd, all) && zz == R.mul(z, z) && n == 2 * p
    ensures SplitAt(R, even, odd, all, z, zz, p, n)
    decreases p
  {
    if p == 0 {
      SplitNone(R, even, odd, all, z, zz);
    } else {
      SplitUpTo(R, even, odd, all, z, zz, p - 1, n - 2);
      SplitOneMore(R, even, odd, all, z, zz, p - 1, n - 2);
    }
  }

  /** P(z) = E(z^2) + z * O(z^2). */
  lemma {:induction false} EvenOddSplit<T(!new)>(R: Ring<T>, even: seq<T>, odd: seq<T>, z: T)
    requires IsRing(R) && |even| == |odd|
    ensures var h, zz := |even|, R.mul(z, z);
            Eval(R, Interleave(even, odd), z, 2 * h) == R.add(Eval(R, even, zz, h), R.mul(z, Eval(R, odd, zz, h)))
  {
    InterleaveIsInterleaved(even, odd);
    SplitUpTo(R, even, odd, Interleave(even, odd), z, R.mul(z, z), |even|, 2 * |even|);
  }

  /** The values at z and at -z from the values of the halves at z^2: one butterfly. */
  lemma {:induction false} ButterflyValues<T(!new)>(R: Ring<T>, even: seq<T>, odd: seq<T>, z: T)
    requires IsRing(R) && |even| == |odd|
    ensures var h, zz, all := |even|, R.mul(z, z), Interleave(even, odd);
            var o := R.mul(Eval(R, odd, zz, h), z);
            && Eval(R, all, z, 2 * h) == R.add(Eval(R, even, zz, h), o)
            && Eval(R, all, R.neg(z), 2 * h) == R.add(Eval(R, even, zz, h), R.neg(o))
  {
    var h := |even|;
    EvenOddSplit(R, even, odd, z);
    EvenOddSplit(R, even, odd, R.neg(z));
    SquareOfNegated(R, z);
    var o := Eval(R, odd, R.mul(z, z), h);
    assert Laws(R, o, z, o) && Laws(R, o, R.neg(z), o);
  }

  // ----- what the stages leave in a block

  /** Cell k of a block of twice h cells after its butterflies, from its two halves. */
  function Butterfly<T>(R: Ring<T>, low: seq<T>, high: seq<T>, step: T, k: nat): T
    requires |low| == |high| && k < 2 * |low|
  {
    if k < |low| then R.add(low[k], R.mul(high[k], Pow(R, step, k)))
    else var r := k - |low|; R.add(low[r], R.neg(R.mul(high[r], Pow(R, step, r))))
  }

  function Combine<T>(R: Ring<T>, low: seq<T>, high: seq<T>, step: T): (c: seq<T>)
    requires |low| == |high|
    ensures |c| == 2 * |low|
    ensures forall k :: 0 <= k < |c| ==> c[k] == Butterfly(R, low, high, step, k)
  {
    seq(2 * |low|, k requires 0 <= k < 2 * |low| => Butterfly(R, low, high, step, k))
  }

  /** The block of 2^s cells at base after s stages on the buffer y. */
  function Block<T>(R: Ring<T>, steps: seq<T>, y: seq<T>, s: nat, base: nat): (v: seq<T>)
    requires s <= |steps| && base + Pow2(s) <= |y|
    ensures |v| == Pow2(s)
    decreases s
  {
    if s == 0 then [y[base]]
    else Combine(R, Block(R, steps, y, s - 1, base), Block(R, steps, y, s - 1, base + Pow2(s - 1)), steps[s - 1])
  }

  /** The entries of that block in bit-reversed order, see `BlockInputIsReversed`. */
  function BlockInput<T>(y: seq<T>, s: nat, base: nat): (g: seq<T>)
    requires base + Pow2(s) <= |y|
    ensures |g| == Pow2(s)
    decreases s
  {
    if s == 0 then [y[base]]
    else Interleave(BlockInput(y, s - 1, base), BlockInput(y, s - 1, base + Pow2(s - 1)))
  }

  lemma {:induction false} BlockInputIsReversed<T>(y: seq<T>, s: nat, base: nat, n: nat)
    requires base + Pow2(s) <= |y| && n < Pow2(s)
    ensures BlockInput(y, s, base)[n] == y[base + Rev(n, s)]
    decreases s
  {
    if s > 0 {
      BlockInputIsReversed(y, s - 1, if n % 2 == 0 then base else base + Pow2(s - 1), n / 2);
    }
  }

  /** A stage turns the transforms of the halves into the transform of the block. */
  lemma {:induction false} CombineTransforms<T(!new)>(R: Ring<T>, steps: seq<T>, s: nat, low: seq<T>, high: seq<T>,
                                   even: seq<T>, odd: seq<T>, r: nat)
    requires IsRing(R) && RootChain(R, steps) && s < |steps|
    requires |low| == |high| == |even| == |odd| == Pow2(s) && r < |low|
    requires low[r] == Eval(R, even, Pow(R, RootAt(R, steps, s), r), |even|)
    requires high[r] == Eval(R, odd, Pow(R, RootAt(R, steps, s), r), |odd|)
    ensures Butterfly(R, low, high, steps[s], r) == Eval(R, Interleave(even, odd), Pow(R, steps[s], r), 2 * |even|)
    ensures Butterfly(R, low, high, steps[s], r + |low|)
         == Eval(R, Interleave(even, odd), Pow(R, steps[s], r + |low|), 2 * |even|)
  {
    SquareOfPower(R, steps, s, r);
    PowerAfterHalfTurn(R, steps, s, r);
    ButterflyValues(R, even, odd, Pow(R, steps[s], r));
  }

  ghost predicate IsTransform<T>(R: Ring<T>, v: seq<T>, x: seq<T>, w: T) {
    |v| == |x| && forall k :: 0 <= k < |v| ==> v[k] == Eval(R, x, Pow(R, w, k), |x|)
  }

  lemma {:induction false} CombinedCell<T(!new)>(R: Ring<T>, steps: seq<T>, s: nat, low: seq<T>, high: seq<T>,
                                    even: seq<T>, odd: seq<T>, k: nat)
    requires IsRing(R) && RootChain(R, steps) && s < |steps| && |even| == |odd| == Pow2(s) && k < 2 * |even|
    requires IsTransform(R, low, even, RootAt(R, steps, s)) && IsTransform(R, high, odd, RootAt(R, steps, s))
    ensures Butterfly(R, low, high, steps[s], k) == Eval(R, Interleave(even, odd), Pow(R, steps[s], k), 2 * |even|)
  {
    CombineTransforms(R, steps, s, low, high, even, odd, if k < |low| then k else k - |low|);
  }

  lemma {:induction false} CombineIsTransform<T(!new)>(R: Ring<T>, steps: seq<T>, s: nat, low: seq<T>, high: seq<T>,
                                    even: seq<T>, odd: seq<T>)
    requires IsRing(R) && RootChain(R, steps) && s < |steps| && |even| == |odd| == Pow2(s)
    requires IsTransform(R, low, even, RootAt(R, steps, s)) && IsTransform(R, high, odd, RootAt(R, steps, s))
    ensures IsTransform(R, Combine(R, low, high, steps[s]), Interleave(even, odd), steps[s])
  {
    var c, all := Combine(R, low, high, steps[s]), Interleave(even, odd);
    forall k | 0 <= k < |c|
      ensures c[k] == Eval(R, all, Pow(R, steps[s], k), |all|)
    {
      CombinedCell(R, steps, s, low, high, even, odd, k);
    }
  }

  /** After s stages every aligned block holds the transform of its own entries. */
  lemma {:induction false} BlockIsTransform<T(!new)>(R: Ring<T>, steps: seq<T>, y: seq<T>, s: nat, base: nat)
    requires IsRing(R) && RootChain(R, steps) && s <= |steps| && base + Pow2(s) <= |y|
    ensures IsTransform(R, Block(R, steps, y, s, base), BlockInput(y, s, base), RootAt(R, steps, s))
    decreases s
  {
    if s == 0 {
      SingletonTransform(R, y[base]);
    } else {
      BlockIsTransform(R, steps, y, s - 1, base);
      BlockIsTransform(R, steps, y, s - 1, base + Pow2(s - 1));
      BlockStep(R, steps, y, s - 1, base);
    }
  }

  lemma {:induction false} BlockStep<T(!new)>(R: Ring<T>, steps: seq<T>, y: seq<T>, s: nat, base: nat)
    requires IsRing(R) && RootChain(R, steps) && s < |steps| && base + Pow2(s + 1) <= |y|
    requires IsTransform(R, Block(R, steps, y, s, base), BlockInput(y, s, base), RootAt(R, steps, s))
    requires IsTransform(R, Block(R, steps, y, s, base + Pow2(s)), BlockInput(y, s, base + Pow2(s)), RootAt(R, steps, s))
    ensures IsTransform(R, Block(R, steps, y, s + 1, base), BlockInput(y, s + 1, base), steps[s])
  {
    CombineIsTransform(R, steps, s, Block(R, steps, y, s, base), Block(R, steps, y, s, base + Pow2(s)),
                       BlockInput(y, s, base), BlockInput(y, s, base + Pow2(s)));
  }

  lemma {:induction false} SingletonTransform<T(!new)>(R: Ring<T>, a: T)
    requires IsRing(R)
    ensures IsTransform(R, [a], [a], R.one)
  {
    assert Eval(R, [a], R.one, 1) == R.add(Eval(R, [a], R.one, 0), R.mul(a, Pow(R, R.one, 0)));
    assert Laws(R, a, R.zero, R.zero) && Laws(R, R.zero, a, R.zero);
  }

  // ----- the loop nest

  /** Cell i of the buffer after the butterflies of the block of 2 * half cells at base. */
  function ButterflyCell<T>(R: Ring<T>, v: seq<T>, step: T, base: nat, half: nat, i: nat): T
    requires base + 2 * half <= |v| && i < |v|
  {
    if base <= i < base + half then R.add(v[i], R.mul(v[i + half], Pow(R, step, i - base)))
    else if base + half <= i < base + 2 * half then
      R.add(v[i - half], R.neg(R.mul(v[i], Pow(R, step, i - half - base))))
    else v[i]
  }

  /** The butterflies of all the cells of the block at base are done. */
  ghost predicate AllCells<T>(R: Ring<T>, v: seq<T>, u: seq<T>, step: T, base: nat, half: nat) {
    && base + 2 * half <= |v| == |u|
    && forall i :: 0 <= i < |u| ==> u[i] == ButterflyCell(R, v, step, base, half, i)
  }

  /** The first butterflies of a block are done, the other cells are as they were. */
  ghost predicate PartlyDone<T>(R: Ring<T>, v: seq<T>, u: seq<T>, step: T, base: nat, half: nat, offset: nat)
    requires base + 2 * half <= |v| && offset <= half
  {
    && |u| == |v|
    && forall i :: 0 <= i < |v| ==>
         u[i] == if base <= i < base + offset || base + half <= i < base + half + offset
                 then ButterflyCell(R, v, step, base, half, i) else v[i]
  }

  /** The butterfly of two cells with a given weight. */
  function Crossed<T>(R: Ring<T>, u: seq<T>, p: nat, q: nat, weight: T): seq<T>
    requires p < |u| && q < |u|
  {
    u[p := R.add(u[p], R.mul(u[q], weight))][q := R.add(u[p], R.neg(R.mul(u[q], weight)))]
  }

  lemma {:induction false} OneMoreDone<T>(R: Ring<T>, v: seq<T>, u: seq<T>, step: T, base: nat, half: nat, offset: nat)
    requires base + 2 * half <= |v| && offset < half && PartlyDone(R, v, u, step, base, half, offset)
    ensures PartlyDone(R, v, Crossed(R, u, base + offset, base + offset + half, Pow(R, step, offset)), step, base, half,
                       offset + 1)
  {
  }

  /** The innermost loop, with its running weight. */
  method ButterflyBlock<T>(R: Ring<T>, values: array<T>, step: T, base: nat, length: nat)
    requires length % 2 == 0 && base + length <= values.Length
    modifies values
    ensures AllCells(R, old(values[..]), values[..], step, base, length / 2)
  {
    ghost var v := values[..];
    var weight := R.one;
    var half := length / 2;
    for offset := 0 to half
      invariant weight == Pow(R, step, offset) && PartlyDone(R, v, values[..], step, base, half, offset)
    {
      ghost var u := values[..];
      var even := values[base + offset];
      var odd := R.mul(values[base + offset + half], weight);
      values[base + offset] := R.add(even, odd);
      values[base + offset + half] := R.add(even, R.neg(odd));
      assert values[..] == Crossed(R, u, base + offset, base + offset + half, weight);
      OneMoreDone(R, v, u, step, base, half, offset);
      weight := R.mul(weight, step);
    }
  }

  lemma {:induction false} CellsFormBlock<T>(R: Ring<T>, v: seq<T>, u: seq<T>, step: T, base: nat, low: seq<T>, high: seq<T>)
    requires |low| == |high| && AllCells(R, v, u, step, base, |low|)
    requires low == v[base..base + |low|] && high == v[base + |low|..base + 2 * |low|]
    ensures u == WithBlock(v, base, Combine(R, low, high, step))
  {
    var h, c := |low|, Combine(R, low, high, step);
    var w := WithBlock(v, base, c);
    forall i | 0 <= i < |u|
      ensures u[i] == w[i]
    {
      if base <= i < base + h {
        assert w[i] == c[i - base] && low[i - base] == v[i] && high[i - base] == v[i + h];
      } else if base + h <= i < base + 2 * h {
        assert w[i] == c[i - base] && low[i - base - h] == v[i - h] && high[i - base - h] == v[i];
      }
    }
  }

  /** The buffer v with its cells from base on replaced by a block. */
  ghost function WithBlock<T>(v: seq<T>, base: nat, block: seq<T>): (u: seq<T>)
    requires base + |block| <= |v|
    ensures |u| == |v|
  {
    v[..base] + block + v[base + |block|..]
  }

  /** The positions where a block of 2^s cells starts. */
  ghost predicate Aligned(base: nat, s: nat) {
    s == 0 || (base % 2 == 0 && Aligned(base / 2, s - 1))
  }

  /** The same, as a name that quantified statements are instantiated by: `Aligned` itself would be instantiated at
      every position that its recursion passes. */
  ghost predicate StartsBlock(base: nat, s: nat) {
    Aligned(base, s)
  }

  lemma {:induction false} HalvesAligned(base: nat, s: nat)
    requires Aligned(base, s + 1)
    ensures Aligned(base, s) && Aligned(base + Pow2(s), s)
  {
    if s > 0 {
      HalvesAligned(base / 2, s - 1);
      assert (base + Pow2(s)) / 2 == base / 2 + Pow2(s - 1);
    }
  }

  /** The next block is aligned, and no aligned block starts inside this one. */
  lemma {:induction false} NextAligned(base: nat, other: nat, s: nat)
    requires Aligned(base, s) && Aligned(other, s)
    ensures Aligned(base + Pow2(s), s) && (base < other ==> base + Pow2(s) <= other)
  {
    if s > 0 {
      NextAligned(base / 2, other / 2, s - 1);
      assert (base + Pow2(s)) / 2 == base / 2 + Pow2(s - 1);
    }
  }

  lemma {:induction false} EndsAligned(s: nat, m: nat)
    requires s <= m
    ensures Aligned(0, s) && Aligned(Pow2(m), s)
  {
    if s > 0 {
      EndsAligned(s - 1, m - 1);
    }
  }

  /** The aligned blocks of 2^s cells between two positions hold what s stages make of y. */
  ghost predicate BlocksDone<T>(R: Ring<T>, steps: seq<T>, y: seq<T>, v: seq<T>, s: nat, from: nat, to: nat)
    requires s <= |steps| && to <= |v| == |y|
  {
    forall b: nat :: StartsBlock(b, s) && from <= b && b + Pow2(s) <= to ==>
      v[b..b + Pow2(s)] == Block(R, steps, y, s, b)
  }

  /** Blocks that the butterflies of the block at base do not touch. */
  lemma {:induction false} BlocksKept<T>(R: Ring<T>, steps: seq<T>, y: seq<T>, v: seq<T>, u: seq<T>, s: nat, from: nat, to: nat)
    requires s <= |steps| && from <= to <= |y| == |v| == |u| && v[from..to] == u[from..to]
    requires BlocksDone(R, steps, y, v, s, from, to)
    ensures BlocksDone(R, steps, y, u, s, from, to)
  {
    forall b: nat | StartsBlock(b, s) && from <= b && b + Pow2(s) <= to
      ensures u[b..b + Pow2(s)] == Block(R, steps, y, s, b)
    {
      forall i | b <= i < b + Pow2(s)
        ensures u[i] == v[i]
      {
        assert u[i] == u[from..to][i - from] && v[i] == v[from..to][i - from];
      }
    }
  }

  lemma {:induction false} BlockDone<T>(R: Ring<T>, steps: seq<T>, y: seq<T>, v: seq<T>, s: nat, from: nat, to: nat, b: nat)
    requires s <= |steps| && to <= |v| == |y| && BlocksDone(R, steps, y, v, s, from, to)
    requires Aligned(b, s) && from <= b && b + Pow2(s) <= to
    ensures v[b..b + Pow2(s)] == Block(R, steps, y, s, b)
  {
    assert StartsBlock(b, s);
  }

  /** The block at base joins the finished ones. */
  lemma {:induction false} BlockJoins<T>(R: Ring<T>, steps: seq<T>, y: seq<T>, u: seq<T>, s: nat, base: nat, next: nat)
    requires s <= |steps| && |y| == |u| && Aligned(base, s) && next == base + Pow2(s) <= |u|
    requires BlocksDone(R, steps, y, u, s, 0, base)
    requires u[base..next] == Block(R, steps, y, s, base)
    ensures BlocksDone(R, steps, y, u, s, 0, next)
  {
    forall b: nat | StartsBlock(b, s) && b + Pow2(s) <= next
      ensures u[b..b + Pow2(s)] == Block(R, steps, y, s, b)
    {
      if b < base {
        NextAligned(b, base, s);
        BlockDone(R, steps, y, u, s, 0, base, b);
      } else {
        assert b == base;
      }
    }
  }

  lemma {:induction false} AlignedNext(base: nat, s: nat, next: nat)
    requires Aligned(base, s) && next == base + Pow2(s)
    ensures Aligned(next, s)
  {
    NextAligned(base, base, s);
  }

  lemma {:induction false} HalvesHold<T>(R: Ring<T>, steps: seq<T>, y: seq<T>, v: seq<T>, s: nat, base: nat)
    requires s < |steps| && |y| == |v| && Aligned(base, s + 1) && base + 2 * Pow2(s) <= |v|
    requires BlocksDone(R, steps, y, v, s, base, |v|)
    ensures v[base..base + Pow2(s)] == Block(R, steps, y, s, base)
    ensures v[base + Pow2(s)..base + 2 * Pow2(s)] == Block(R, steps, y, s, base + Pow2(s))
  {
    HalvesAligned(base, s);
    BlockDone(R, steps, y, v, s, base, |v|, base);
    BlockDone(R, steps, y, v, s, base, |v|, base + Pow2(s));
  }

  lemma {:induction false} BlockUnfolds<T>(R: Ring<T>, steps: seq<T>, y: seq<T>, s: nat, base: nat, h: nat)
    requires s < |steps| && h == Pow2(s) && base + 2 * h <= |y|
    ensures Block(R, steps, y, s + 1, base)
         == Combine(R, Block(R, steps, y, s, base), Block(R, steps, y, s, base + h), steps[s])
  {
  }

  /** The butterflies turn two blocks of stage s into a block of stage s + 1. */
  lemma {:induction false} BlockMade<T>(R: Ring<T>, steps: seq<T>, y: seq<T>, v: seq<T>, u: seq<T>, s: nat, base: nat, h: nat)
    requires s < |steps| && |y| == |v| && h == Pow2(s) && Aligned(base, s + 1) && AllCells(R, v, u, steps[s], base, h)
    requires BlocksDone(R, steps, y, v, s, base, |v|)
    ensures u == WithBlock(v, base, Block(R, steps, y, s + 1, base))
  {
    HalvesHold(R, steps, y, v, s, base);
    CellsFormBlock(R, v, u, steps[s], base, Block(R, steps, y, s, base), Block(R, steps, y, s, base + h));
    BlockUnfolds(R, steps, y, s, base, h);
  }

  lemma {:induction false} WithBlockSlices<T>(v: seq<T>, base: nat, block: seq<T>)
    requires base + |block| <= |v|
    ensures var u, end := WithBlock(v, base, block), base + |block|;
            u[0..base] == v[0..base] && u[base..end] == block && u[end..|u|] == v[end..|v|]
  {
  }

  /** Up to a position the blocks of stage s + 1 are done, and from there on those of stage s. */
  ghost predicate StageAt<T>(R: Ring<T>, steps: seq<T>, y: seq<T>, v: seq<T>, s: nat, base: nat)
    requires s < |steps| && base <= |v| == |y|
  {
    && Aligned(base, s + 1)
    && BlocksDone(R, steps, y, v, s + 1, 0, base) && BlocksDone(R, steps, y, v, s, base, |v|)
  }

  /** Replacing one block by its next stage moves the boundary between the stages past it. */
  lemma {:induction false} BlockReplaced<T>(R: Ring<T>, steps: seq<T>, y: seq<T>, v: seq<T>, u: seq<T>, s: nat, base: nat,
                                            next: nat)
    requires s < |steps| && |y| == |v| == |u| && next == base + Pow2(s + 1) <= |v|
    requires StageAt(R, steps, y, v, s, base) && u == WithBlock(v, base, Block(R, steps, y, s + 1, base))
    ensures StageAt(R, steps, y, u, s, next)
  {
    WithBlockSlices(v, base, Block(R, steps, y, s + 1, base));
    StageMoves(R, steps, y, v, u, s, base, next);
  }

  lemma {:induction false} StageMoves<T>(R: Ring<T>, steps: seq<T>, y: seq<T>, v: seq<T>, u: seq<T>, s: nat, base: nat,
                                         next: nat)
    requires s < |steps| && |y| == |v| == |u| && next == base + Pow2(s + 1) <= |v|
    requires StageAt(R, steps, y, v, s, base) && u[base..next] == Block(R, steps, y, s + 1, base)
    requires u[0..base] == v[0..base] && u[next..|u|] == v[next..|v|]
    ensures StageAt(R, steps, y, u, s, next)
  {
    BlocksKept(R, steps, y, v, u, s + 1, 0, base);
    BlockJoins(R, steps, y, u, s + 1, base, next);
    RestKept(R, steps, y, v, u, s, base, next);
    AlignedNext(base, s + 1, next);
  }

  lemma {:induction false} RestKept<T>(R: Ring<T>, steps: seq<T>, y: seq<T>, v: seq<T>, u: seq<T>, s: nat, base: nat, next: nat)
    requires s <= |steps| && base <= next <= |y| == |v| == |u| && BlocksDone(R, steps, y, v, s, base, |v|)
    requires u[next..|u|] == v[next..|v|]
    ensures BlocksDone(R, steps, y, u, s, next, |u|)
  {
    BlocksFrom(R, steps, y, v, s, base, next);
    BlocksKept(R, steps, y, v, u, s, next, |u|);
  }

  lemma {:induction false} BlocksFrom<T>(R: Ring<T>, steps: seq<T>, y: seq<T>, v: seq<T>, s: nat, base: nat, next: nat)
    requires s <= |steps| && base <= next <= |y| == |v| && BlocksDone(R, steps, y, v, s, base, |v|)
    ensures BlocksDone(R, steps, y, v, s, next, |v|)
  {
  }

  /** One more block: v before its butterflies, u after them. */
  lemma {:induction false} BlockAdvances<T>(R: Ring<T>, steps: seq<T>, y: seq<T>, v: seq<T>, u: seq<T>, s: nat, base: nat,
                                            next: nat)
    requires s < |steps| && |y| == |v| == |u| && next == base + Pow2(s + 1) <= |v| && StageAt(R, steps, y, v, s, base)
    requires AllCells(R, v, u, steps[s], base, Pow2(s))
    ensures StageAt(R, steps, y, u, s, next)
  {
    BlockMade(R, steps, y, v, u, s, base, Pow2(s));
    BlockReplaced(R, steps, y, v, u, s, base, next);
  }

  /** The butterflies of the block at base. */
  method StageBlock<T>(R: Ring<T>, values: array<T>, steps: seq<T>, s: nat, base: nat, length: nat, ghost next: nat,
                       ghost y: seq<T>)
    requires s < |steps| && length == Pow2(s + 1) && values.Length == |y| && next == base + length <= |y|
    requires StageAt(R, steps, y, values[..], s, base)
    modifies values
    ensures StageAt(R, steps, y, values[..], s, next)
  {
    ghost var v := values[..];
    assert length / 2 == Pow2(s);
    ButterflyBlock(R, values, steps[s], base, length);
    BlockAdvances(R, steps, y, v, values[..], s, base, next);
  }

  /** The blocks of one stage: the middle loop. */
  method StagePass<T>(R: Ring<T>, values: array<T>, steps: seq<T>, s: nat, length: nat, ghost y: seq<T>)
    requires s < |steps| && length == Pow2(s + 1) && values.Length == |y| == Pow2(|steps|)
    requires BlocksDone(R, steps, y, values[..], s, 0, |y|)
    modifies values
    ensures BlocksDone(R, steps, y, values[..], s + 1, 0, |y|)
  {
    var base := 0;
    EndsAligned(s + 1, |steps|);
    while base < values.Length
      invariant 0 <= base <= values.Length && StageAt(R, steps, y, values[..], s, base)
    {
      NextAligned(base, values.Length, s + 1);
      StageBlock(R, values, steps, s, base, length, base + length, y);
      base := base + length;
    }
  }

  /** All stages, from length 2 up to the buffer's own length: the outer loop. */
  method Butterflies<T>(R: Ring<T>, values: array<T>, steps: seq<T>)
    requires values.Length == Pow2(|steps|)
    modifies values
    ensures values[..] == Block(R, steps, old(values[..]), |steps|, 0)
  {
    ghost var y := values[..];
    var s, length := 0, 2;
    while length <= values.Length
      invariant 0 <= s <= |steps| && length == Pow2(s + 1)
      invariant BlocksDone(R, steps, y, values[..], s, 0, |y|)
      decreases |steps| - s
    {
      StagesLeft(s, |steps|);
      StagePass(R, values, steps, s, length, y);
      s, length := s + 1, length * 2;
    }
    StagesLeft(s, |steps|);
    EndsAligned(s, s);
    assert StartsBlock(0, s);
    assert values[..] == values[..][0..Pow2(s)];
  }

  /** The loop bound of the stages, as a count of them. */
  lemma {:induction false} StagesLeft(s: nat, m: nat)
    requires s <= m
    ensures Pow2(s + 1) <= Pow2(m) <==> s < m
  {
    Pow2Monotone(s + 1, m);
    Pow2Monotone(m, s);
  }

  lemma {:induction false} Pow2Monotone(a: nat, b: nat)
    ensures a <= b ==> Pow2(a) <= Pow2(b)
    decreases b
  {
    if a < b {
      Pow2Monotone(a, b - 1);
    }
  }

  /** All stages on a bit-reversed buffer give the transform of the original one. */
  lemma {:induction false} StagesGiveTransform<T(!new)>(R: Ring<T>, steps: seq<T>, x: seq<T>, y: seq<T>)
    requires IsRing(R) && RootChain(R, steps) && |x| == |y| == Pow2(|steps|)
    requires forall k :: 0 <= k < |x| ==> y[k] == x[Rev(k, |steps|)]
    ensures IsTransform(R, Block(R, steps, y, |steps|, 0), x, RootAt(R, steps, |steps|))
  {
    UndoReversal(x, y, |steps|);
    BlockIsTransform(R, steps, y, |steps|, 0);
  }

  /** Reading a bit-reversed buffer in bit-reversed order gives the original back. */
  lemma {:induction false} UndoReversal<T>(x: seq<T>, y: seq<T>, m: nat)
    requires |x| == |y| == Pow2(m)
    requires forall k :: 0 <= k < |x| ==> y[k] == x[Rev(k, m)]
    ensures BlockInput(y, m, 0) == x
  {
    forall n | 0 <= n < |x|
      ensures BlockInput(y, m, 0)[n] == x[n]
    {
      BlockInputIsReversed(y, m, 0, n);
      RevInvolution(n, m);
    }
  }

  /** The loop nest over any commutative ring. */
  method Transform<T(!new)>(R: Ring<T>, values: array<T>, steps: seq<T>)
    requires IsRing(R) && RootChain(R, steps) && values.Length == Pow2(|steps|)
    modifies values
    ensures IsTransform(R, values[..], old(values[..]), RootAt(R, steps, |steps|))
  {
    ghost var x := values[..];
    Permute(values, |steps|);
    ghost var y := values[..];
    Butterflies(R, values, steps);
    StagesGiveTransform(R, steps, x, y);
  }

  /** Slot k of a transform is the Fourier sum of the input at k. */
  lemma {:induction false} TransformIsFourierSum<T(!new)>(R: Ring<T>, v: seq<T>, x: seq<T>, w: T, k: nat)
    requires IsRing(R) && IsTransform(R, v, x, w) && k < |x|
    ensures v[k] == FourierSum(R, x, w, k, |x|)
  {
    EvalIsFourierSum(R, x, w, k, |x|);
  }

  /** The analyzer's transform, on complex samples. */
  method FftInPlace(values: array<Complex>, steps: seq<Complex>)
    requires RootChain(COMPLEX, steps) && values.Length == Pow2(|steps|)
    modifies values
    ensures IsTransform(COMPLEX, values[..], old(values[..]), RootAt(COMPLEX, steps, |steps|))
    ensures forall k :: 0 <= k < values.Length ==>
              values[k] == FourierSum(COMPLEX, old(values[..]), RootAt(COMPLEX, steps, |steps|), k, values.Length)
  {
    ComplexIsRing();
    ghost var x, w := values[..], RootAt(COMPLEX, steps, |steps|);
    Transform(COMPLEX, values, steps);
    forall k | 0 <= k < values.Length
      ensures values[k] == FourierSum(COMPLEX, x, w, k, values.Length)
    {
      TransformIsFourierSum(COMPLEX, values[..], x, w, k);
    }
  }
}
