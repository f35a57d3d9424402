/** What a second-order section does to a whole signal: the difference equation of its coefficients, from rest. */
module Filters {
  import opened Signals

  /** The i-th value of a signal that was silent before it began. */
  function At(x: seq<real>, i: int): real
    requires i < |x|
  {
    if i < 0 then 0.0 else x[i]
  }

  ghost predicate RespondsAt(c: Coefficients, x: seq<real>, v: seq<real>, n: int)
    requires 0 <= n < |x| == |v|
  {
    v[n] == c.b0 * At(x, n) + c.b1 * At(x, n - 1) + c.b2 * At(x, n - 2) - c.a1 * At(v, n - 1) - c.a2 * At(v, n - 2)
  }

  /** v is the response of the section to x: v[n] = b0 x[n] + b1 x[n-1] + b2 x[n-2] - a1 v[n-1] - a2 v[n-2]. */
  ghost predicate Responds(c: Coefficients, x: seq<real>, v: seq<real>) {
    |v| == |x| && forall n :: 0 <= n < |x| ==> RespondsAt(c, x, v, n)
  }

  /** A section that may be switched off. */
  ghost predicate Filtered(on: bool, c: Coefficients, x: seq<real>, v: seq<real>) {
    if on then Responds(c, x, v) else v == x
  }

  /** The difference equation leaves no choice. */
  lemma {:induction false} ResponseIsUnique(c: Coefficients, x: seq<real>, u: seq<real>, v: seq<real>, n: nat)
    requires Responds(c, x, u) && Responds(c, x, v) && n <= |x|
    ensures u[..n] == v[..n]
    decreases n
  {
    if n > 0 {
      ResponseIsUnique(c, x, u, v, n - 1);
      var k := n - 1;
      assert RespondsAt(c, x, u, k) && RespondsAt(c, x, v, k);
      assert forall i :: 0 <= i < k ==> u[i] == u[..k][i] && v[i] == v[..k][i];
      assert At(u, k - 1) == At(v, k - 1) && At(u, k - 2) == At(v, k - 2);
      assert u[..n] == u[..k] + [u[k]] && v[..n] == v[..k] + [v[k]];
    }
  }

  lemma {:induction false} FilteredIsUnique(on: bool, c: Coefficients, x: seq<real>, u: seq<real>, v: seq<real>)
    requires Filtered(on, c, x, u) && Filtered(on, c, x, v)
    ensures u == v
  {
    if on {
      ResponseIsUnique(c, x, u, v, |x|);
      assert u[..|x|] == u && v[..|x|] == v;
    }
  }

  // ----- the section ticked along the signal

  /** The delays after n samples. */
  function DelayAt(c: Coefficients, d: Delay, x: seq<real>, n: nat): Delay
    requires n <= |x|
  {
    if n == 0 then d else Tick(c, DelayAt(c, d, x, n - 1), x[n - 1]).1
  }

  function TickedAt(c: Coefficients, d: Delay, x: seq<real>, n: nat): real
    requires n < |x|
  {
    Tick(c, DelayAt(c, d, x, n), x[n]).0
  }

  /** The outputs of the section along a signal. */
  function Ticked(c: Coefficients, d: Delay, x: seq<real>): (v: seq<real>)
    ensures |v| == |x| && forall n :: 0 <= n < |x| ==> v[n] == TickedAt(c, d, x, n)
  {
    seq(|x|, n requires 0 <= n < |x| => TickedAt(c, d, x, n))
  }

  /** What the two delays hold, from rest. */
  ghost predicate DelaysHold(c: Coefficients, x: seq<real>, v: seq<real>, d: Delay, n: nat)
    requires n <= |x| == |v|
  {
    && d.z1 == c.b1 * At(x, n - 1) - c.a1 * At(v, n - 1) + (c.b2 * At(x, n - 2) - c.a2 * At(v, n - 2))
    && d.z2 == c.b2 * At(x, n - 1) - c.a2 * At(v, n - 1)
  }

  lemma {:induction false} TickParts(c: Coefficients, d: Delay, x: real, y: real)
    requires y == Tick(c, d, x).0
    ensures y == c.b0 * x + d.z1
    ensures Tick(c, d, x).1.z1 == c.b1 * x - c.a1 * y + d.z2 && Tick(c, d, x).1.z2 == c.b2 * x - c.a2 * y
  {
  }

  lemma {:induction false} DelaysFollow(c: Coefficients, x: seq<real>, v: seq<real>, n: nat)
    requires v == Ticked(c, SILENT, x) && n <= |x|
    ensures DelaysHold(c, x, v, DelayAt(c, SILENT, x, n), n)
    decreases n
  {
    if n > 0 {
      DelaysFollow(c, x, v, n - 1);
      TickParts(c, DelayAt(c, SILENT, x, n - 1), x[n - 1], v[n - 1]);
    }
  }

  /** Ticked from rest, the section realizes its difference equation. */
  lemma {:induction false} TickedResponds(c: Coefficients, x: seq<real>)
    ensures Responds(c, x, Ticked(c, SILENT, x))
  {
    var v := Ticked(c, SILENT, x);
    forall n | 0 <= n < |x|
      ensures RespondsAt(c, x, v, n)
    {
      DelaysFollow(c, x, v, n);
      TickParts(c, DelayAt(c, SILENT, x, n), x[n], v[n]);
    }
  }

  /** A section that may be switched off, ticked along a signal. */
  function Passed(on: bool, c: Coefficients, d: Delay, x: seq<real>): (v: seq<real>)
    ensures |v| == |x|
  {
    if on then Ticked(c, d, x) else x
  }

  function PassedDelay(on: bool, c: Coefficients, d: Delay, x: seq<real>, n: nat): Delay
    requires n <= |x|
  {
    if on then DelayAt(c, d, x, n) else d
  }

  lemma {:induction false} PassedIsFiltered(on: bool, c: Coefficients, x: seq<real>)
    ensures Filtered(on, c, x, Passed(on, c, SILENT, x))
  {
    TickedResponds(c, x);
  }
}
