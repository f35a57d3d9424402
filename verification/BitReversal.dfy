/** The bit-reversal pass of the spectrum transform. */
module BitReversal {

  function Pow2(n: nat): (p: nat)
    ensures p >= 1
  {
    if n == 0 then 1 else 2 * Pow2(n - 1)
  }

  /** The number whose m binary digits are those of i, read backwards. */
  function Rev(i: nat, m: nat): (r: nat)
    ensures r < Pow2(m)
  {
    if m == 0 then 0
    else if i % 2 == 1 then Pow2(m - 1) + Rev(i / 2, m - 1)
    else Rev(i / 2, m - 1)
  }

  /** Reading the digits from the other end. */
  lemma {:induction false} RevFromTop(i: nat, m: nat)
    requires 0 < m && i < Pow2(m)
    ensures i < Pow2(m - 1) ==> Rev(i, m) == 2 * Rev(i, m - 1)
    ensures Pow2(m - 1) <= i ==> Rev(i, m) == 2 * Rev(i - Pow2(m - 1), m - 1) + 1
  {
    if m > 1 {
      RevFromTop(i / 2, m - 1);
      var h := Pow2(m - 2);
      assert Pow2(m - 1) == 2 * h;
      if 2 * h <= i {
        assert (i - 2 * h) / 2 == i / 2 - h && (i - 2 * h) % 2 == i % 2;
      }
    }
  }

  lemma {:induction false} RevInvolution(i: nat, m: nat)
    requires i < Pow2(m)
    ensures Rev(Rev(i, m), m) == i
  {
    if m > 0 {
      RevInvolution(i / 2, m - 1);
      RevFromTop(Rev(i, m), m);
    }
  }

  /** What one round of the carry loop leaves in j, given that j has p binary digits. */
  ghost function ReverseIncrement(j: nat, p: nat): nat {
    if p == 0 then j
    else if j < Pow2(p - 1) then j + Pow2(p - 1)
    else ReverseIncrement(j - Pow2(p - 1), p - 1)
  }

  lemma {:induction false} ReverseIncrementIsNext(i: nat, m: nat)
    requires i + 1 < Pow2(m)
    ensures ReverseIncrement(Rev(i, m), m) == Rev(i + 1, m)
  {
    if i % 2 == 1 {
      assert (i + 1) / 2 == i / 2 + 1;
      assert i / 2 + 1 < Pow2(m - 1);
      ReverseIncrementIsNext(i / 2, m - 1);
    }
  }

  /** The test `j & bit` for a power of two, on the digits below twice that bit. */
  method TestBit(j: nat, bit: nat) returns (set_: bool)
    requires bit > 0 ==> j < 2 * bit
    ensures set_ <==> 0 < bit <= j
  {
    set_ := bit != 0 && (j / bit) % 2 == 1;
    if 0 < bit <= j {
      assert j / bit == 1;
    } else if 0 < bit {
      assert j / bit == 0;
    }
  }

  /** The top one of p binary digits; no digit is left when p is zero. */
  function TopBit(p: nat): nat {
    if p == 0 then 0 else Pow2(p - 1)
  }

  lemma {:induction false} TopBitHalves(p: nat)
    requires p > 0
    ensures TopBit(p) / 2 == TopBit(p - 1) && Pow2(p) == 2 * TopBit(p) && TopBit(p) > 0
  {
  }

  /** One round of the carry loop, and what is left when it stops. */
  lemma {:induction false} CarryRound(j: nat, p: nat, bit: nat)
    requires j < Pow2(p) && bit == TopBit(p)
    ensures 0 < bit <= j ==> p > 0 && j - bit < Pow2(p - 1) && ReverseIncrement(j, p) == ReverseIncrement(j - bit, p - 1)
    ensures !(0 < bit <= j) ==> ReverseIncrement(j, p) == j + bit
  {
  }

  /** The carry loop: clear leading ones of j from the top bit down, then set the first zero. */
  method NextReversed(ghost i: nat, ghost m: nat, j0: nat, size: nat) returns (j: nat)
    requires 0 < i < Pow2(m) == size
    requires j0 == Rev(i - 1, m)
    ensures j == Rev(i, m)
  {
    ReverseIncrementIsNext(i - 1, m);
    TopBitHalves(m);
    j := AddFromTop(m, j0, size / 2);
  }

  method AddFromTop(ghost m: nat, j0: nat, top: nat) returns (j: nat)
    requires j0 < Pow2(m) && top == TopBit(m)
    ensures j == ReverseIncrement(j0, m)
  {
    j := j0;
    var bit := top;
    ghost var p := m;
    if p > 0 {
      TopBitHalves(p);
    }
    var carry := TestBit(j, bit);
    while carry
      invariant 0 <= p <= m && j < Pow2(p) && bit == TopBit(p)
      invariant ReverseIncrement(j, p) == ReverseIncrement(j0, m)
      invariant carry <==> 0 < bit <= j
      decreases p
    {
      CarryRound(j, p, bit);
      TopBitHalves(p);
      j := j - bit;
      bit := bit / 2;
      p := p - 1;
      if p > 0 {
        TopBitHalves(p);
      }
      carry := TestBit(j, bit);
    }
    CarryRound(j, p, bit);
    j := j + bit;
  }

  /** The bit-reversal permutation of 2^m positions, and that it is its own inverse. */
  ghost function Reversal(m: nat): (rv: seq<nat>)
    ensures |rv| == Pow2(m) && forall k :: 0 <= k < |rv| ==> rv[k] == Rev(k, m)
  {
    seq(Pow2(m), k requires 0 <= k => Rev(k, m))
  }

  ghost predicate Involution(rv: seq<nat>) {
    forall k :: 0 <= k < |rv| ==> rv[k] < |rv| && rv[rv[k]] == k
  }

  lemma {:induction false} ReversalIsInvolution(m: nat)
    ensures Involution(Reversal(m)) && Reversal(m)[0] == 0
  {
    var rv := Reversal(m);
    forall k | 0 <= k < |rv|
      ensures rv[k] < |rv| && rv[rv[k]] == k
    {
      RevInvolution(k, m);
    }
    RevOfZero(m);
  }

  lemma {:induction false} RevOfZero(m: nat)
    ensures Rev(0, m) == 0
  {
    if m > 0 {
      RevOfZero(m - 1);
    }
  }

  /** The buffer when the swap pass reaches index i: a cell is in its final place as soon as the
      smaller of the two indices of its swap has been passed. */
  ghost function Swapped<T>(x: seq<T>, rv: seq<nat>, i: nat): (p: seq<T>)
    requires |x| == |rv| && Involution(rv)
    ensures |p| == |x|
    ensures forall k :: 0 <= k < |x| ==> p[k] == if k < i || rv[k] < i then x[rv[k]] else x[k]
  {
    seq(|x|, k requires 0 <= k < |x| => if k < i || rv[k] < i then x[rv[k]] else x[k])
  }

  lemma {:induction false} SwapStep<T>(x: seq<T>, rv: seq<nat>, i: nat)
    requires |x| == |rv| && Involution(rv) && i < |x|
    ensures var p, j := Swapped(x, rv, i), rv[i];
            Swapped(x, rv, i + 1) == if i < j then p[i := p[j]][j := p[i]] else p
  {
  }

  /** The whole pass permutes the buffer by bit reversal, in place. */
  method Permute<T>(values: array<T>, ghost m: nat)
    requires values.Length == Pow2(m)
    modifies values
    ensures forall k :: 0 <= k < values.Length ==> values[k] == old(values[Rev(k, m)])
  {
    ghost var x, rv := values[..], Reversal(m);
    ReversalIsInvolution(m);
    assert values[..] == Swapped(x, rv, 1);
    var i, j := 1, 0;
    while i < values.Length
      invariant 1 <= i <= values.Length && j == rv[i - 1]
      invariant values[..] == Swapped(x, rv, i)
    {
      j := NextReversed(i, m, j, values.Length);
      SwapStep(x, rv, i);
      ghost var p := values[..];
      if i < j {
        values[i], values[j] := values[j], values[i];
        assert values[..] == p[i := p[j]][j := p[i]];
      }
      i := i + 1;
    }
  }
}
