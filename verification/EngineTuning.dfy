/** The numeric controls of the DSP engine: their clamps, and the filter sections computed from them. */
module EngineTuning {
  import opened Signals

  /** The transcendental functions the engine calls; `dbToLinear` is the amplitude of a level in decibels. */
  datatype Maths = Maths(dbToLinear: real -> real, log10: real -> real, sin: real -> real, cos: real -> real,
                         exp: real -> real)

  const PI: real := 3.14159265358979323846

  /** The value, or a fallback for one that is not finite, moved into a range. */
  function ClampOr(x: Sample, fallback: real, lo: real, hi: real): (r: real)
    requires lo <= fallback <= hi
    ensures lo <= r <= hi
    ensures x.Finite? && lo <= x.value <= hi ==> r == x.value
    ensures x.Finite? && x.value < lo ==> r == lo
    ensures x.Finite? && x.value > hi ==> r == hi
    ensures x.NotFinite? ==> r == fallback
  {
    var v := if x.Finite? then x.value else fallback;
    if v < lo then lo else if hi < v then hi else v
  }

  predicate Within(x: Sample, lo: real, hi: real) {
    x.Finite? && lo <= x.value <= hi
  }

  datatype Band = Band(frequencyHz: real, gainDb: real, q: real)

  datatype RequestedBand = RequestedBand(frequencyHz: Sample, gainDb: Sample, q: Sample)

  predicate BandInRange(b: RequestedBand, rate: real) {
    Within(b.frequencyHz, 10.0, rate * 0.45) && Within(b.gainDb, -24.0, 24.0) && Within(b.q, 0.1, 20.0)
  }

  predicate SafeBand(b: Band, rate: real) {
    10.0 <= b.frequencyHz <= rate * 0.45 && -24.0 <= b.gainDb <= 24.0 && 0.1 <= b.q <= 20.0
  }

  function ClampBand(b: RequestedBand, rate: real): (r: Band)
    requires rate >= 8000.0
    ensures SafeBand(r, rate)
    ensures BandInRange(b, rate) ==> r == Band(b.frequencyHz.value, b.gainDb.value, b.q.value)
  {
    Band(ClampOr(b.frequencyHz, 1000.0, 10.0, rate * 0.45), ClampOr(b.gainDb, 0.0, -24.0, 24.0),
         ClampOr(b.q, 0.707, 0.1, 20.0))
  }

  // ----- the sections

  /** A quotient; the sections below divide by zero for no angle whose sine is not negative. */
  function Over(x: real, y: real): real {
    if y == 0.0 then 0.0 else x / y
  }

  /** The high-pass section at a frequency, given the sine and cosine of its angle. */
  function HighPassSection(sine: real, cosine: real): Coefficients {
    var a0 := 1.0 + sine / 1.4142135623730952;
    var b := Over((1.0 + cosine) * 0.5, a0);
    Coefficients(b, Over(-(1.0 + cosine), a0), b, Over(-2.0 * cosine, a0), Over(2.0 - a0, a0))
  }

  /** The peaking section; `up` and `down` are alpha times, and divided by, the amplitude of half the gain. */
  function PeakingSection(cosine: real, up: real, down: real): Coefficients {
    var a0 := 1.0 + down;
    Coefficients(Over(1.0 + up, a0), Over(-2.0 * cosine, a0), Over(1.0 - up, a0),
                 Over(-2.0 * cosine, a0), Over(1.0 - down, a0))
  }

  lemma {:induction false} OverSum(x: real, y: real, z: real, d: real)
    requires d > 0.0
    ensures Over(x, d) + Over(y, d) + Over(z, d) == Over(x + y + z, d)
  {
    assert x / d + y / d == (x + y) / d;
    assert (x + y) / d + z / d == (x + y + z) / d;
  }

  /** The gain of a section for a constant signal is that of the sums of its coefficients: a section whose sums
      vanish on the way in stops a constant, and one whose sums agree passes it. */
  lemma {:induction false} SteadyState(c: Coefficients, x: real, y: real) returns (d: Delay)
    requires (c.b0 + c.b1 + c.b2) * x == (1.0 + c.a1 + c.a2) * y
    ensures Tick(c, d, x) == (y, d)
  {
    d := Delay(y - c.b0 * x, c.b2 * x - c.a2 * y);
    assert (c.b0 + c.b1 + c.b2) * x == c.b0 * x + c.b1 * x + c.b2 * x;
    assert (1.0 + c.a1 + c.a2) * y == y + c.a1 * y + c.a2 * y;
    var bx, ay := c.b1 * x, c.a1 * y;
    assert bx - ay + d.z2 == d.z1;
    assert Tick(c, d, x).0 == y && Tick(c, d, x).1 == Delay(bx - ay + d.z2, d.z2);
  }

  /** The high-pass section has, for every constant signal, a steady state with output zero. */
  lemma {:induction false} HighPassStopsConstants(sine: real, cosine: real, x: real) returns (d: Delay)
    requires sine >= 0.0
    ensures Tick(HighPassSection(sine, cosine), d, x) == (0.0, d)
  {
    var c, a0 := HighPassSection(sine, cosine), 1.0 + sine / 1.4142135623730952;
    var h := (1.0 + cosine) * 0.5;
    OverSum(h, -(1.0 + cosine), h, a0);
    assert h + -(1.0 + cosine) + h == 0.0;
    d := SteadyState(c, x, 0.0);
  }

  /** The peaking section has, for every constant signal, a steady state that passes it, whatever the gain. */
  lemma {:induction false} PeakingPassesConstants(cosine: real, up: real, down: real, x: real) returns (d: Delay)
    requires down >= 0.0
    ensures Tick(PeakingSection(cosine, up, down), d, x) == (x, d)
  {
    var c, a0 := PeakingSection(cosine, up, down), 1.0 + down;
    OverSum(1.0 + up, -2.0 * cosine, 1.0 - up, a0);
    OverSum(a0, -2.0 * cosine, 1.0 - down, a0);
    assert Over(a0, a0) == 1.0;
    assert 1.0 + up + -2.0 * cosine + (1.0 - up) == a0 + -2.0 * cosine + (1.0 - down);
    assert c.b0 + c.b1 + c.b2 == 1.0 + c.a1 + c.a2;
    d := SteadyState(c, x, x);
  }

  /** The steady difference equation of a section, with outputs g times the inputs. */
  predicate Passes(c: Coefficients, g: real, x0: real, x1: real, x2: real) {
    g * x0 == c.b0 * x0 + c.b1 * x1 + c.b2 * x2 - c.a1 * (g * x1) - c.a2 * (g * x2)
  }

  lemma {:induction false} OverTimes(x: real, d: real)
    requires d > 0.0
    ensures Over(x, d) * d == x
  {
  }

  /** The high-pass section passes the fastest signal, which changes sign with every sample, unchanged. */
  lemma {:induction false} HighPassPassesFastest(sine: real, cosine: real, x: real)
    requires sine >= 0.0
    ensures Passes(HighPassSection(sine, cosine), 1.0, x, -x, x)
  {
    var c, a0 := HighPassSection(sine, cosine), 1.0 + sine / 1.4142135623730952;
    OverSum((1.0 + cosine) * 0.5, 1.0 + cosine, (1.0 + cosine) * 0.5, a0);
    OverSum(a0, 2.0 * cosine, 2.0 - a0, a0);
    OverNegated(1.0 + cosine, a0);
    OverNegated(2.0 * cosine, a0);
    assert Over(a0, a0) == 1.0;
    assert c.b0 - c.b1 + c.b2 == 1.0 - c.a1 + c.a2;
    Alternating(c, x);
  }

  lemma {:induction false} OverNegated(x: real, d: real)
    requires d > 0.0
    ensures Over(-x, d) == -Over(x, d)
  {
  }

  lemma {:induction false} Alternating(c: Coefficients, x: real)
    requires c.b0 - c.b1 + c.b2 == 1.0 - c.a1 + c.a2
    ensures Passes(c, 1.0, x, -x, x)
  {
    assert (c.b0 - c.b1 + c.b2) * x == c.b0 * x - c.b1 * x + c.b2 * x;
    assert (1.0 - c.a1 + c.a2) * x == x - c.a1 * x + c.a2 * x;
    assert c.b1 * (-x) == -(c.b1 * x) && c.a1 * (1.0 * (-x)) == -(c.a1 * x) && c.a2 * (1.0 * x) == c.a2 * x;
  }

  /** So does a peaking band. */
  lemma {:induction false} PeakingPassesFastest(cosine: real, up: real, down: real, x: real)
    requires down >= 0.0
    ensures Passes(PeakingSection(cosine, up, down), 1.0, x, -x, x)
  {
    var c, a0 := PeakingSection(cosine, up, down), 1.0 + down;
    OverSum(1.0 + up, 2.0 * cosine, 1.0 - up, a0);
    OverSum(a0, 2.0 * cosine, 1.0 - down, a0);
    OverNegated(2.0 * cosine, a0);
    assert Over(a0, a0) == 1.0;
    Alternating(c, x);
  }

  lemma {:induction false} CentreAlgebra(cosine: real, up: real, down: real, g: real, r: real, x1: real, x2: real)
    requires r * (1.0 + down) == 1.0 && up == g * down
    ensures var x0 := 2.0 * cosine * x1 - x2;
            g * x0 == (1.0 + up) * r * x0 + -2.0 * cosine * r * x1 + (1.0 - up) * r * x2
                      - -2.0 * cosine * r * (g * x1) - (1.0 - down) * r * (g * x2)
  {
    var x0 := 2.0 * cosine * x1 - x2;
    var p, q := (1.0 + up) * r, (1.0 - up) * r;
    assert p == r + g * (down * r) && q == r - g * (down * r);
    var s := down * r;
    assert r + s == 1.0;
    assert (1.0 - down) * r == r - s;
    CentreLinear(cosine, g, r, s, x1, x2);
  }

  lemma {:induction false} CentreLinear(cosine: real, g: real, r: real, s: real, x1: real, x2: real)
    requires r + s == 1.0
    ensures var x0 := 2.0 * cosine * x1 - x2;
            g * x0 == (r + g * s) * x0 + -2.0 * cosine * r * x1 + (r - g * s) * x2
                      - -2.0 * cosine * r * (g * x1) - (r - s) * (g * x2)
  {
    assert r == 1.0 - s;
  }

  /** At the frequency of the band, where x0 = 2 cos x1 - x2, the band multiplies by the ratio of up and down. */
  lemma {:induction false} PeakingAtCentre(cosine: real, up: real, down: real, g: real, x1: real, x2: real)
    requires down >= 0.0 && up == g * down
    ensures Passes(PeakingSection(cosine, up, down), g, 2.0 * cosine * x1 - x2, x1, x2)
  {
    var c, a0 := PeakingSection(cosine, up, down), 1.0 + down;
    var r := 1.0 / a0;
    assert r * a0 == 1.0;
    assert c.b0 == (1.0 + up) * r && c.b1 == -2.0 * cosine * r && c.b2 == (1.0 - up) * r;
    assert c.a1 == -2.0 * cosine * r && c.a2 == (1.0 - down) * r;
    CentreAlgebra(cosine, up, down, g, r, x1, x2);
  }

  lemma {:induction false} Unfiltered(a1: real, a2: real, x: real)
    ensures Tick(Coefficients(1.0, a1, a2, a1, a2), SILENT, x) == (x, SILENT)
  {
    var r := Tick(Coefficients(1.0, a1, a2, a1, a2), SILENT, x);
    assert r.0 == x;
    assert r.1.z1 == 0.0 && r.1.z2 == 0.0;
    assert r.1 == SILENT;
  }

  /** The angle of a frequency at a sample rate. */
  function Angle(frequencyHz: real, rate: real): real
    requires rate > 0.0
  {
    2.0 * PI * frequencyHz / rate
  }

  function HighPassAt(m: Maths, frequencyHz: real, rate: real): Coefficients
    requires rate > 0.0
  {
    HighPassSection(m.sin(Angle(frequencyHz, rate)), m.cos(Angle(frequencyHz, rate)))
  }

  function PeakingAt(m: Maths, b: Band, rate: real): Coefficients
    requires rate > 0.0
  {
    var alpha, amplitude := Over(m.sin(Angle(b.frequencyHz, rate)), 2.0 * b.q), m.dbToLinear(b.gainDb / 2.0);
    PeakingSection(m.cos(Angle(b.frequencyHz, rate)), alpha * amplitude, Over(alpha, amplitude))
  }

  /** A band amplifies its own frequency by exactly its gain. */
  lemma {:induction false} BandGainAtCentre(m: Maths, b: Band, rate: real, x1: real, x2: real)
    requires rate > 0.0 && b.q > 0.0 && m.sin(Angle(b.frequencyHz, rate)) >= 0.0
    requires var half := m.dbToLinear(b.gainDb / 2.0); half > 0.0 && half * half == m.dbToLinear(b.gainDb)
    ensures Passes(PeakingAt(m, b, rate), m.dbToLinear(b.gainDb), 2.0 * m.cos(Angle(b.frequencyHz, rate)) * x1 - x2, x1, x2)
  {
    var alpha, half := Over(m.sin(Angle(b.frequencyHz, rate)), 2.0 * b.q), m.dbToLinear(b.gainDb / 2.0);
    assert alpha >= 0.0;
    var down := Over(alpha, half);
    OverTimes(alpha, half);
    assert down >= 0.0;
    assert alpha * half == (half * half) * down by {
      assert down * half == alpha;
      assert (half * half) * down == (down * half) * half;
    }
    PeakingAtCentre(m.cos(Angle(b.frequencyHz, rate)), alpha * half, down, m.dbToLinear(b.gainDb), x1, x2);
  }

  /** A band with a gain of 0 dB leaves every signal as it is. */
  lemma {:induction false} FlatBandIsTransparent(m: Maths, b: Band, rate: real, x: real)
    requires rate > 0.0 && b.q > 0.0 && b.gainDb == 0.0
    requires m.dbToLinear(0.0) == 1.0 && m.sin(Angle(b.frequencyHz, rate)) >= 0.0
    ensures Tick(PeakingAt(m, b, rate), SILENT, x) == (x, SILENT)
  {
    var alpha, c := Over(m.sin(Angle(b.frequencyHz, rate)), 2.0 * b.q), PeakingAt(m, b, rate);
    assert b.gainDb / 2.0 == 0.0;
    assert alpha >= 0.0 && alpha * 1.0 == alpha && Over(alpha, 1.0) == alpha;
    assert c == PeakingSection(m.cos(Angle(b.frequencyHz, rate)), alpha, alpha);
    assert c == Coefficients(1.0, c.a1, c.a2, c.a1, c.a2);
    Unfiltered(c.a1, c.a2, x);
  }

  /** The smoothing coefficient of an envelope time. */
  function Smoothing(m: Maths, ms: real, rate: real): real
    requires ms > 0.0 && rate > 0.0
  {
    m.exp(-1.0 / (ms * 0.001 * rate))
  }

  /** The exponential of a negative number lies between zero and one. */
  ghost predicate Decays(m: Maths) {
    forall x :: x < 0.0 ==> 0.0 < m.exp(x) < 1.0
  }

  lemma {:induction false} SmoothingIsProper(m: Maths, ms: real, rate: real)
    requires Decays(m) && ms > 0.0 && rate > 0.0
    ensures 0.0 < Smoothing(m, ms, rate) < 1.0
  {
    var d := ms * 0.001 * rate;
    assert d > 0.0;
    assert -1.0 / d < 0.0;
  }

  /** Sums become products. */
  predicate ExpAt(m: Maths, a: real, b: real) {
    m.exp(a + b) == m.exp(a) * m.exp(b)
  }

  ghost predicate Exponential(m: Maths) {
    m.exp(0.0) == 1.0 && forall a, b :: ExpAt(m, a, b)
  }

  function Repeated(k: real, n: nat): real {
    if n == 0 then 1.0 else Repeated(k, n - 1) * k
  }

  function Multiple(q: real, n: nat): real {
    if n == 0 then 0.0 else Multiple(q, n - 1) + q
  }

  lemma {:induction false} MultipleIsProduct(q: real, n: nat)
    ensures Multiple(q, n) == n as real * q
    decreases n
  {
    if n > 0 {
      MultipleIsProduct(q, n - 1);
      assert n as real * q == (n - 1) as real * q + q;
    }
  }

  lemma {:induction false} RepeatedExponential(m: Maths, q: real, n: nat)
    requires Exponential(m)
    ensures Repeated(m.exp(q), n) == m.exp(Multiple(q, n))
    decreases n
  {
    if n > 0 {
      RepeatedExponential(m, q, n - 1);
      assert ExpAt(m, Multiple(q, n - 1), q);
    }
  }

  lemma {:induction false} InverseTimes(d: real)
    requires d > 0.0
    ensures d * (-1.0 / d) == -1.0
  {
  }

  /** Over its envelope time a deviation decays to the share of one time constant. */
  lemma {:induction false} TimeConstant(m: Maths, ms: real, rate: real, n: nat)
    requires Exponential(m) && ms > 0.0 && rate > 0.0 && n as real == ms * 0.001 * rate
    ensures Repeated(Smoothing(m, ms, rate), n) == m.exp(-1.0)
  {
    var d := ms * 0.001 * rate;
    assert d > 0.0;
    var q := -1.0 / d;
    RepeatedExponential(m, q, n);
    MultipleIsProduct(q, n);
    InverseTimes(d);
    assert Multiple(q, n) == -1.0;
  }
}
