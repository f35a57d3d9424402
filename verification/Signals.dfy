/** Samples and the second-order filter section shared by the loudness meter and the DSP engine. */
module Signals {

  /** A float sample: a finite value, or one of the values that `isfinite` rejects. */
  datatype Sample = Finite(value: real) | NotFinite

  /** Every consumer replaces a sample that is not finite by zero. */
  function Sanitize(s: Sample): real {
    if s.Finite? then s.value else 0.0
  }

  function Abs(x: real): (r: real)
    ensures r >= 0.0 && (r == x || r == -x)
  {
    if x < 0.0 then -x else x
  }

  datatype Coefficients = Coefficients(b0: real, b1: real, b2: real, a1: real, a2: real)

  /** The two delay cells of one channel of a section. */
  datatype Delay = Delay(z1: real, z2: real)

  const SILENT: Delay := Delay(0.0, 0.0)

  /** One tick of a transposed direct form II section: the output, and the delays after it. Exact reals
      are finite, so the reset for overflown delays never applies. */
  function Tick(c: Coefficients, d: Delay, x: real): (real, Delay) {
    var y := c.b0 * x + d.z1;
    (y, Delay(c.b1 * x - c.a1 * y + d.z2, c.b2 * x - c.a2 * y))
  }

  /** From any delays, the section realizes the second-order difference equation of its coefficients. */
  lemma {:induction false} TickIsDifferenceEquation(c: Coefficients, d: Delay, x0: real, x1: real, x2: real)
    ensures var (y0, d0) := Tick(c, d, x0);
            var (y1, d1) := Tick(c, d0, x1);
            var (y2, d2) := Tick(c, d1, x2);
            y2 == c.b0 * x2 + c.b1 * x1 + c.b2 * x0 - c.a1 * y1 - c.a2 * y0
  {
  }
}
