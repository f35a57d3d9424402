/** The one-pass level and correlation sums of the audio analyzer. */
module StereoSums {
  import opened Arithmetic
  import opened Signals

  datatype Pair = Pair(left: real, right: real)

  /** The five accumulators the analyzer needs for levels and stereo correlation. */
  datatype Sums = Sums(left: real, right: real, leftSquares: real, rightSquares: real, cross: real)

  function Add(s: Sums, p: Pair): Sums {
    Sums(s.left + p.left, s.right + p.right, s.leftSquares + Product(p.left, p.left),
         s.rightSquares + Product(p.right, p.right), s.cross + Product(p.left, p.right))
  }

  function SumsOf(pairs: seq<Pair>): Sums {
    if pairs == [] then Sums(0.0, 0.0, 0.0, 0.0, 0.0)
    else Add(SumsOf(pairs[..|pairs| - 1]), pairs[|pairs| - 1])
  }

  /** The pairs of an interleaved buffer, with samples that are not finite read as zero. */
  function PairsOf(samples: seq<Sample>, n: nat): (p: seq<Pair>)
    requires 2 * n <= |samples|
    ensures |p| == n
    ensures forall i :: 0 <= i < n ==> p[i] == Pair(Sanitize(samples[2 * i]), Sanitize(samples[2 * i + 1]))
  {
    seq(n, i requires 0 <= i < n => Pair(Sanitize(samples[2 * i]), Sanitize(samples[2 * i + 1])))
  }

  /** Pairs taken into account one after the other. */
  function Fold<S>(f: (S, Pair) -> S, start: S, pairs: seq<Pair>): S {
    if pairs == [] then start else f(Fold(f, start, pairs[..|pairs| - 1]), pairs[|pairs| - 1])
  }

  /** The sums are that fold. */
  lemma {:induction false} SumsAreFold(pairs: seq<Pair>)
    ensures Fold(Add, Sums(0.0, 0.0, 0.0, 0.0, 0.0), pairs) == SumsOf(pairs)
    decreases |pairs|
  {
    if pairs != [] {
      SumsAreFold(pairs[..|pairs| - 1]);
    }
  }

  /** The accumulating loop of the analyzer, for any way of taking a pair into account. */
  method FoldSamples<S>(f: (S, Pair) -> S, start: S, samples: seq<Sample>, frameCount: nat) returns (s: S)
    requires 2 * frameCount <= |samples|
    ensures s == Fold(f, start, PairsOf(samples, frameCount))
  {
    s := start;
    for i := 0 to frameCount
      invariant s == Fold(f, start, PairsOf(samples, i))
    {
      assert PairsOf(samples, i + 1)[..i] == PairsOf(samples, i);
      s := f(s, Pair(Sanitize(samples[2 * i]), Sanitize(samples[2 * i + 1])));
    }
  }

  /** And for the five sums. */
  method Accumulate(samples: seq<Sample>, frameCount: nat) returns (s: Sums)
    requires 2 * frameCount <= |samples|
    ensures s == SumsOf(PairsOf(samples, frameCount))
  {
    s := FoldSamples(Add, Sums(0.0, 0.0, 0.0, 0.0, 0.0), samples, frameCount);
    SumsAreFold(PairsOf(samples, frameCount));
  }

  /** The centred sums: one-pass forms of the variances and the covariance, times the frame count. */
  function CentredLeft(s: Sums, n: real): real
    requires n > 0.0
  {
    s.leftSquares - s.left * s.left / n
  }

  function CentredRight(s: Sums, n: real): real
    requires n > 0.0
  {
    s.rightSquares - s.right * s.right / n
  }

  function CentredCross(s: Sums, n: real): real
    requires n > 0.0
  {
    s.cross - s.left * s.right / n
  }

  // ----- the reference: subtract the means first, then sum

  function Shift(p: Pair, a: real, b: real): Pair {
    Pair(p.left - a, p.right - b)
  }

  function Shifted(pairs: seq<Pair>, a: real, b: real): (q: seq<Pair>)
    ensures |q| == |pairs| && forall i :: 0 <= i < |q| ==> q[i] == Shift(pairs[i], a, b)
  {
    seq(|pairs|, i requires 0 <= i < |pairs| => Shift(pairs[i], a, b))
  }

  /** The sums of a shifted buffer from those of the buffer. */
  function ShiftSums(s: Sums, n: real, a: real, b: real): Sums {
    Sums(ShiftSum(s.left, n, a), ShiftSum(s.right, n, b),
         ShiftProducts(s.leftSquares, s.left, s.left, n, a, a),
         ShiftProducts(s.rightSquares, s.right, s.right, n, b, b),
         ShiftProducts(s.cross, s.left, s.right, n, a, b))
  }

  /** The sum of x - a from the sum of x over n pairs. */
  function ShiftSum(x: real, n: real, a: real): real {
    x - n * a
  }

  /** The sum of products (x - a) * (y - b) from the sums of x * y, x and y over n pairs. */
  function ShiftProducts(xy: real, x: real, y: real, n: real, a: real, b: real): real {
    xy - a * y - b * x + n * (a * b)
  }

  lemma {:induction false} ShiftProductsOneMore(xy: real, x: real, y: real, n: real, a: real, b: real, u: real, v: real)
    ensures ShiftProducts(xy, x, y, n, a, b) + Product(u - a, v - b)
         == ShiftProducts(xy + Product(u, v), x + u, y + v, n + 1.0, a, b)
  {
    assert (u - a) * (v - b) == u * v - u * b - a * v + a * b;
    assert a * (y + v) == a * y + a * v && b * (x + u) == b * x + u * b;
    assert (n + 1.0) * (a * b) == n * (a * b) + a * b;
  }

  lemma {:induction false} ShiftSumOneMore(x: real, n: real, a: real, u: real)
    ensures ShiftSum(x, n, a) + (u - a) == ShiftSum(x + u, n + 1.0, a)
  {
    assert (n + 1.0) * a == n * a + a;
  }

  /** The sum of one channel, and the sum of the products of two. */
  function Sum(xs: seq<real>): real {
    if xs == [] then 0.0 else Sum(xs[..|xs| - 1]) + xs[|xs| - 1]
  }

  function Dot(xs: seq<real>, ys: seq<real>): real
    requires |xs| == |ys|
  {
    if xs == [] then 0.0
    else var n := |xs| - 1; Dot(xs[..n], ys[..n]) + Product(xs[n], ys[n])
  }

  function Minus(xs: seq<real>, a: real): (r: seq<real>)
    ensures |r| == |xs| && forall i :: 0 <= i < |r| ==> r[i] == xs[i] - a
  {
    seq(|xs|, i requires 0 <= i < |xs| => xs[i] - a)
  }

  lemma {:induction false} MinusOfPrefix(xs: seq<real>, a: real, n: nat)
    requires n <= |xs|
    ensures Minus(xs, a)[..n] == Minus(xs[..n], a)
  {
  }

  lemma {:induction false} SumShifted(xs: seq<real>, a: real)
    ensures Sum(Minus(xs, a)) == ShiftSum(Sum(xs), |xs| as real, a)
    decreases |xs|
  {
    if xs != [] {
      var n := |xs| - 1;
      SumShifted(xs[..n], a);
      MinusOfPrefix(xs, a, n);
      ShiftSumOneMore(Sum(xs[..n]), n as real, a, xs[n]);
    }
  }

  lemma {:induction false} DotShifted(xs: seq<real>, ys: seq<real>, a: real, b: real)
    requires |xs| == |ys|
    ensures Dot(Minus(xs, a), Minus(ys, b)) == ShiftProducts(Dot(xs, ys), Sum(xs), Sum(ys), |xs| as real, a, b)
    decreases |xs|
  {
    if xs != [] {
      var n := |xs| - 1;
      DotShifted(xs[..n], ys[..n], a, b);
      MinusOfPrefix(xs, a, n);
      MinusOfPrefix(ys, b, n);
      ShiftProductsOneMore(Dot(xs[..n], ys[..n]), Sum(xs[..n]), Sum(ys[..n]), n as real, a, b, xs[n], ys[n]);
    }
  }

  function Lefts(pairs: seq<Pair>): (r: seq<real>)
    ensures |r| == |pairs| && forall i :: 0 <= i < |r| ==> r[i] == pairs[i].left
  {
    seq(|pairs|, i requires 0 <= i < |pairs| => pairs[i].left)
  }

  function Rights(pairs: seq<Pair>): (r: seq<real>)
    ensures |r| == |pairs| && forall i :: 0 <= i < |r| ==> r[i] == pairs[i].right
  {
    seq(|pairs|, i requires 0 <= i < |pairs| => pairs[i].right)
  }

  function ChannelSums(xs: seq<real>, ys: seq<real>): Sums
    requires |xs| == |ys|
  {
    Sums(Sum(xs), Sum(ys), Dot(xs, xs), Dot(ys, ys), Dot(xs, ys))
  }

  /** The five accumulators are the sums and the products of the two channels. */
  lemma {:induction false} SumsOfChannels(pairs: seq<Pair>)
    ensures SumsOf(pairs) == ChannelSums(Lefts(pairs), Rights(pairs))
    decreases |pairs|
  {
    if pairs != [] {
      var n := |pairs| - 1;
      SumsOfChannels(pairs[..n]);
      assert Lefts(pairs)[..n] == Lefts(pairs[..n]) && Rights(pairs)[..n] == Rights(pairs[..n]);
    }
  }

  lemma {:induction false} SumsOfShifted(pairs: seq<Pair>, a: real, b: real)
    ensures SumsOf(Shifted(pairs, a, b)) == ShiftSums(SumsOf(pairs), |pairs| as real, a, b)
  {
    var xs, ys := Lefts(pairs), Rights(pairs);
    SumsOfChannels(pairs);
    SumsOfChannels(Shifted(pairs, a, b));
    assert Lefts(Shifted(pairs, a, b)) == Minus(xs, a) && Rights(Shifted(pairs, a, b)) == Minus(ys, b);
    ChannelsShifted(xs, ys, a, b, |pairs| as real);
  }

  lemma {:induction false} ChannelsShifted(xs: seq<real>, ys: seq<real>, a: real, b: real, n: real)
    requires |xs| == |ys| && n == |xs| as real
    ensures ChannelSums(Minus(xs, a), Minus(ys, b)) == ShiftSums(ChannelSums(xs, ys), n, a, b)
  {
    SumShifted(xs, a);
    SumShifted(ys, b);
    DotShifted(xs, xs, a, a);
    DotShifted(ys, ys, b, b);
    DotShifted(xs, ys, a, b);
  }

  lemma {:induction false} QuotientUnique(q: real, a: real, n: real)
    requires n > 0.0 && n * q == a
    ensures a / n == q
  {
    QuotientTimes(a, n);
    assert n * (a / n - q) == n * (a / n) - n * q;
  }

  /** The correction term of the centred sums under a shift. */
  lemma {:induction false} ShiftedProduct(x: real, y: real, n: real, a: real, b: real)
    requires n > 0.0
    ensures (x - n * a) * (y - n * b) / n == x * y / n - a * y - b * x + n * (a * b)
  {
    var xy, ay, bx, ab := x * y, a * y, b * x, a * b;
    var q := xy / n - ay - bx + n * ab;
    assert n * q == n * (xy / n) - n * ay - n * bx + n * (n * ab);
    QuotientTimes(xy, n);
    assert (x - n * a) * (y - n * b) == xy - n * ay - n * bx + n * (n * ab) by {
      assert (n * a) * y == n * ay && x * (n * b) == n * bx && (n * a) * (n * b) == n * (n * ab);
    }
    QuotientUnique(q, (x - n * a) * (y - n * b), n);
  }

  /** Centring a shifted buffer gives the same three sums: the shift drops out. */
  lemma {:induction false} CentredOfShiftSums(s: Sums, n: real, a: real, b: real)
    requires n > 0.0
    ensures CentredLeft(ShiftSums(s, n, a, b), n) == CentredLeft(s, n)
    ensures CentredRight(ShiftSums(s, n, a, b), n) == CentredRight(s, n)
    ensures CentredCross(ShiftSums(s, n, a, b), n) == CentredCross(s, n)
  {
    ShiftedProduct(s.left, s.left, n, a, a);
    ShiftedProduct(s.right, s.right, n, b, b);
    ShiftedProduct(s.left, s.right, n, a, b);
  }

  /** Adding a constant to either channel changes none of the centred sums. */
  lemma {:induction false} OffsetsDropOut(pairs: seq<Pair>, a: real, b: real)
    requires pairs != []
    ensures var n, s, t := |pairs| as real, SumsOf(pairs), SumsOf(Shifted(pairs, a, b));
            && CentredLeft(t, n) == CentredLeft(s, n)
            && CentredRight(t, n) == CentredRight(s, n)
            && CentredCross(t, n) == CentredCross(s, n)
  {
    SumsOfShifted(pairs, a, b);
    CentredOfShiftSums(SumsOf(pairs), |pairs| as real, a, b);
  }

  lemma {:induction false} CentredIsPlain(s: Sums, n: real)
    requires n > 0.0 && s.left == 0.0 && s.right == 0.0
    ensures CentredLeft(s, n) == s.leftSquares && CentredRight(s, n) == s.rightSquares && CentredCross(s, n) == s.cross
  {
  }

  /** Shifting by the means makes both sums zero. */
  lemma {:induction false} ShiftByMeans(s: Sums, n: real, a: real, b: real)
    requires n * a == s.left && n * b == s.right
    ensures ShiftSums(s, n, a, b).left == 0.0 && ShiftSums(s, n, a, b).right == 0.0
  {
  }

  /** The one-pass sums are the sums of squares and products of the deviations from the means. */
  lemma {:induction false} CentredIsTwoPass(pairs: seq<Pair>)
    requires pairs != []
    ensures var n, s := |pairs| as real, SumsOf(pairs);
            var deviations := SumsOf(Shifted(pairs, s.left / n, s.right / n));
            && CentredLeft(s, n) == deviations.leftSquares
            && CentredRight(s, n) == deviations.rightSquares
            && CentredCross(s, n) == deviations.cross
  {
    var n, s := |pairs| as real, SumsOf(pairs);
    var a, b := s.left / n, s.right / n;
    QuotientTimes(s.left, n);
    QuotientTimes(s.right, n);
    ShiftByMeans(s, n, a, b);
    CentredIsPlain(ShiftSums(s, n, a, b), n);
    CentredOfShiftSums(s, n, a, b);
    SumsOfShifted(pairs, a, b);
  }

  // ----- Cauchy-Schwarz

  /** Sums of squares and of products of one family of pairs: C^2 <= A * B. */
  predicate Bounded(A: real, B: real, C: real) {
    A >= 0.0 && B >= 0.0 && C * C <= A * B
  }

  lemma {:induction false} SquareGrows(y: real, d: real)
    requires y >= 0.0 && d > 0.0
    ensures y * y < (y + d) * (y + d)
  {
    ProductSign(y, d);
    ProductSign(d, d);
    SquareOfSum(y, d);
  }

  /** Comparing squares compares magnitudes. */
  lemma {:induction false} SquareBelow(x: real, y: real)
    requires y >= 0.0 && x * x <= y * y
    ensures x <= y
  {
    if x > y {
      SquareGrows(y, x - y);
    }
  }

  lemma {:induction false} SquaresCompare(x: real, y: real)
    requires y >= 0.0 && x * x <= y * y
    ensures -y <= x <= y
  {
    SquareBelow(x, y);
    SquareBelow(-x, y);
  }

  /** The arithmetic mean bounds the geometric one. */
  lemma {:induction false} TwiceBelowSum(m: real, p: real, q: real)
    requires p >= 0.0 && q >= 0.0 && Product(m, m) <= Product(p, q)
    ensures 2.0 * m <= p + q
  {
    var d, t := p + q, 2.0 * m;
    assert d * d == (p - q) * (p - q) + 4.0 * (p * q);
    assert t * t == 4.0 * (m * m);
    assert (p - q) * (p - q) >= 0.0;
    SquaresCompare(t, d);
  }

  lemma {:induction false} ProductOfSquares(A: real, B: real, C: real, a: real, b: real, m: real, p: real, q: real)
    requires Bounded(A, B, C) && m == C * (a * b) && p == A * (b * b) && q == B * (a * a)
    ensures p >= 0.0 && q >= 0.0 && Product(m, m) <= Product(p, q)
  {
    var ab := a * b;
    Rearrange(C, ab, C, ab);
    Rearrange(A, b * b, B, a * a);
    Rearrange(b, b, a, a);
    assert b * a == ab;
    ProductSign(A * B - C * C, ab * ab);
    assert (A * B - C * C) * (ab * ab) == (A * B) * (ab * ab) - (C * C) * (ab * ab);
    ProductSign(A, b * b);
    ProductSign(B, a * a);
  }

  lemma {:induction false} Rearrange(w: real, x: real, y: real, z: real)
    ensures (w * x) * (y * z) == (w * y) * (x * z)
  {
    assert (w * x) * (y * z) == w * (x * (y * z));
    assert x * (y * z) == y * (x * z);
    assert w * (y * (x * z)) == (w * y) * (x * z);
  }

  /** One more pair keeps the bound. */
  lemma {:induction false} CauchySchwarzStep(A: real, B: real, C: real, a: real, b: real)
    requires Bounded(A, B, C)
    ensures Bounded(A + a * a, B + b * b, C + a * b)
  {
    var m, p, q := C * (a * b), A * (b * b), B * (a * a);
    ProductOfSquares(A, B, C, a, b, m, p, q);
    TwiceBelowSum(m, p, q);
    SquareOfSum(C, a * b);
    ProductOfSums(A, a * a, B, b * b);
    Rearrange(a, a, b, b);
  }

  lemma {:induction false} ProductOfSums(w: real, x: real, y: real, z: real)
    ensures (w + x) * (y + z) == w * y + w * z + y * x + x * z
  {
  }

  lemma {:induction false} CauchySchwarz(pairs: seq<Pair>)
    ensures var s := SumsOf(pairs); Bounded(s.leftSquares, s.rightSquares, s.cross)
    decreases |pairs|
  {
    if pairs != [] {
      var n := |pairs| - 1;
      CauchySchwarz(pairs[..n]);
      var s, p := SumsOf(pairs[..n]), pairs[n];
      CauchySchwarzStep(s.leftSquares, s.rightSquares, s.cross, p.left, p.right);
    }
  }

  /** In exact arithmetic the centred sums of squares are never negative, and the covariance is bounded
      by them. */
  lemma {:induction false} CentredSumsBounded(pairs: seq<Pair>)
    requires pairs != []
    ensures var n, s := |pairs| as real, SumsOf(pairs);
            Bounded(CentredLeft(s, n), CentredRight(s, n), CentredCross(s, n))
  {
    var n, s := |pairs| as real, SumsOf(pairs);
    var deviations := Shifted(pairs, s.left / n, s.right / n);
    CauchySchwarz(deviations);
    CentredIsTwoPass(pairs);
  }

  function Clamp(x: real, lo: real, hi: real): real {
    if x < lo then lo else if hi < x then hi else x
  }

  /** Both guards of the correlation are no-ops. */
  lemma {:induction false} CorrelationInRange(A: real, B: real, C: real, d: real)
    requires Bounded(A, B, C) && d > 0.0 && d * d == A * B
    ensures -1.0 <= C / d <= 1.0
  {
    SquaresCompare(C, d);
    QuotientInUnitInterval(C, d);
  }

  lemma {:induction false} QuotientInUnitInterval(c: real, d: real)
    requires d > 0.0 && -d <= c <= d
    ensures -1.0 <= c / d <= 1.0
  {
    var q := c / d;
    QuotientTimes(c, d);
    assert d * (q - 1.0) == d * q - d && d * (-1.0 - q) == -d - d * q;
    ProductSign(d, q - 1.0);
    ProductSign(d, -1.0 - q);
  }

  ghost predicate IsSquareRoot(sqrt: real -> real) {
    forall x :: x >= 0.0 ==> sqrt(x) >= 0.0 && sqrt(x) * sqrt(x) == x
  }

  function Quotient(cross: real, d: real): real {
    if d > 0.0 then Clamp(cross / d, -1.0, 1.0) else 0.0
  }

  /** Correlation from the centred sums, as written: negative squares are raised to zero and the quotient
      is clamped. */
  function Correlate(left: real, right: real, cross: real, sqrt: real -> real): real {
    Quotient(cross, sqrt(Product(Max(0.0, left), Max(0.0, right))))
  }

  /** Without either guard. */
  function RawCorrelation(left: real, right: real, cross: real, sqrt: real -> real): real {
    var d := sqrt(Product(left, right));
    if d > 0.0 then cross / d else 0.0
  }

  lemma {:induction false} ClampIsNoOp(A: real, B: real, C: real, d: real)
    requires Bounded(A, B, C) && d >= 0.0 && d * d == A * B
    ensures Quotient(C, d) == if d > 0.0 then C / d else 0.0
    ensures -1.0 <= Quotient(C, d) <= 1.0
  {
    if d > 0.0 {
      CorrelationInRange(A, B, C, d);
    }
  }

  lemma {:induction false} RootOfProduct(left: real, right: real, sqrt: real -> real) returns (d: real)
    requires left >= 0.0 && right >= 0.0 && IsSquareRoot(sqrt)
    ensures d == sqrt(Product(left, right)) && d >= 0.0 && d * d == left * right
  {
    ProductSign(left, right);
    d := sqrt(Product(left, right));
  }

  lemma {:induction false} GuardsAreNoOps(left: real, right: real, cross: real, sqrt: real -> real)
    requires Bounded(left, right, cross) && IsSquareRoot(sqrt)
    ensures Correlate(left, right, cross, sqrt) == RawCorrelation(left, right, cross, sqrt)
    ensures -1.0 <= Correlate(left, right, cross, sqrt) <= 1.0
  {
    var d := RootOfProduct(left, right, sqrt);
    ClampIsNoOp(left, right, cross, d);
    assert Max(0.0, left) == left && Max(0.0, right) == right;
  }

  /** One channel of an interleaved buffer, sanitized. */
  function Channel(samples: seq<Sample>, n: nat, side: nat): (x: seq<real>)
    requires 2 * n <= |samples| && side < 2
    ensures |x| == n && forall i :: 0 <= i < n ==> x[i] == Sanitize(samples[2 * i + side])
  {
    seq(n, i requires 0 <= i < n => Sanitize(samples[2 * i + side]))
  }

  /** A signal less its mean. */
  function Centred(x: seq<real>): seq<real>
    requires x != []
  {
    Minus(x, Sum(x) / |x| as real)
  }

  /** The correlation coefficient of two signals: the product of their deviations from the means, over the root of the
      product of the squares of those. */
  function Correlation(x: seq<real>, y: seq<real>, sqrt: real -> real): real
    requires |x| == |y| > 0
  {
    var d := sqrt(Product(Dot(Centred(x), Centred(x)), Dot(Centred(y), Centred(y))));
    if d > 0.0 then Dot(Centred(x), Centred(y)) / d else 0.0
  }

  lemma {:induction false} CentredOfChannels(pairs: seq<Pair>, x: seq<real>, y: seq<real>)
    requires pairs != [] && x == Lefts(pairs) && y == Rights(pairs)
    ensures var n, s := |pairs| as real, SumsOf(pairs);
            && CentredLeft(s, n) == Dot(Centred(x), Centred(x))
            && CentredRight(s, n) == Dot(Centred(y), Centred(y))
            && CentredCross(s, n) == Dot(Centred(x), Centred(y))
  {
    var n, s := |pairs| as real, SumsOf(pairs);
    var a, b := s.left / n, s.right / n;
    SumsOfChannels(pairs);
    CentredIsTwoPass(pairs);
    SumsOfChannels(Shifted(pairs, a, b));
    assert Lefts(Shifted(pairs, a, b)) == Minus(x, a) && Rights(Shifted(pairs, a, b)) == Minus(y, b);
  }

  lemma {:induction false} RawIsCorrelation(l: real, r: real, c: real, x: seq<real>, y: seq<real>, sqrt: real -> real)
    requires |x| == |y| > 0 && l == Dot(Centred(x), Centred(x)) && r == Dot(Centred(y), Centred(y))
    requires c == Dot(Centred(x), Centred(y))
    ensures RawCorrelation(l, r, c, sqrt) == Correlation(x, y, sqrt)
  {
  }

  lemma {:induction false} CorrelationOfPairs(pairs: seq<Pair>, x: seq<real>, y: seq<real>, s: Sums, n: real, sqrt: real -> real)
    requires pairs != [] && x == Lefts(pairs) && y == Rights(pairs) && IsSquareRoot(sqrt)
    requires s == SumsOf(pairs) && n == |pairs| as real
    ensures var r := Correlate(CentredLeft(s, n), CentredRight(s, n), CentredCross(s, n), sqrt);
            r == Correlation(x, y, sqrt) && -1.0 <= r <= 1.0
  {
    CentredSumsBounded(pairs);
    GuardsAreNoOps(CentredLeft(s, n), CentredRight(s, n), CentredCross(s, n), sqrt);
    CentredOfChannels(pairs, x, y);
    RawIsCorrelation(CentredLeft(s, n), CentredRight(s, n), CentredCross(s, n), x, y, sqrt);
  }

  lemma {:induction false} ChannelsOfPairs(samples: seq<Sample>, n: nat)
    requires 2 * n <= |samples|
    ensures Lefts(PairsOf(samples, n)) == Channel(samples, n, 0) && Rights(PairsOf(samples, n)) == Channel(samples, n, 1)
  {
  }

  /** The correlation from the accumulated sums. */
  method CorrelationFrom(s: Sums, n: real, sqrt: real -> real, ghost pairs: seq<Pair>) returns (r: real)
    requires pairs != [] && s == SumsOf(pairs) && n == |pairs| as real && IsSquareRoot(sqrt)
    ensures r == Correlation(Lefts(pairs), Rights(pairs), sqrt) && -1.0 <= r <= 1.0
  {
    r := Correlate(CentredLeft(s, n), CentredRight(s, n), CentredCross(s, n), sqrt);
    CorrelationOfPairs(pairs, Lefts(pairs), Rights(pairs), s, n, sqrt);
  }

  /** The stereo correlation of a frame; the guards against a negative variance and against a correlation
      outside [-1, 1] change nothing. */
  method StereoCorrelation(samples: seq<Sample>, frameCount: nat, sqrt: real -> real) returns (r: real)
    requires 0 < frameCount && 2 * frameCount <= |samples| && IsSquareRoot(sqrt)
    ensures r == Correlation(Channel(samples, frameCount, 0), Channel(samples, frameCount, 1), sqrt)
    ensures -1.0 <= r <= 1.0
  {
    var s := Accumulate(samples, frameCount);
    ChannelsOfPairs(samples, frameCount);
    r := CorrelationFrom(s, frameCount as real, sqrt, PairsOf(samples, frameCount));
  }
}
