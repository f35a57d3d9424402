/** What the weighted energies of the loudness meter are: on each channel the shelf and then the high-pass, and the sum
    of the squares of both. */
module KWeighting {
  import opened Arithmetic
  import opened Signals
  import opened Filters
  import opened LoudnessMeter

  function Lefts(frames: seq<StereoFrame>): (x: seq<real>)
    ensures |x| == |frames| && forall i :: 0 <= i < |x| ==> x[i] == Sanitize(frames[i].left)
  {
    seq(|frames|, i requires 0 <= i < |frames| => Sanitize(frames[i].left))
  }

  function Rights(frames: seq<StereoFrame>): (x: seq<real>)
    ensures |x| == |frames| && forall i :: 0 <= i < |x| ==> x[i] == Sanitize(frames[i].right)
  {
    seq(|frames|, i requires 0 <= i < |frames| => Sanitize(frames[i].right))
  }

  /** v is x through both sections from rest, the shelf first. */
  ghost predicate KWeighted(w: Weighting, x: seq<real>, v: seq<real>) {
    exists p: seq<real> :: Responds(w.shelf, x, p) && Responds(w.highPass, p, v)
  }

  // ----- the sections ticked frame by frame

  function Shelved(w: Weighting, x: seq<real>): (p: seq<real>)
    ensures |p| == |x|
  {
    Ticked(w.shelf, SILENT, x)
  }

  function Cascaded(w: Weighting, x: seq<real>): (v: seq<real>)
    ensures |v| == |x|
  {
    Ticked(w.highPass, SILENT, Shelved(w, x))
  }

  function ChannelAt(w: Weighting, x: seq<real>, n: nat): ChannelDelays
    requires n <= |x|
  {
    ChannelDelays(DelayAt(w.shelf, SILENT, x, n), DelayAt(w.highPass, SILENT, Shelved(w, x), n))
  }

  lemma {:induction false} SampleIsCascaded(w: Weighting, x: seq<real>, n: nat, s: Sample)
    requires n < |x| && Sanitize(s) == x[n]
    ensures WeightSample(w, ChannelAt(w, x, n), s) == (Cascaded(w, x)[n], ChannelAt(w, x, n + 1))
  {
    assert Shelved(w, x)[n] == TickedAt(w.shelf, SILENT, x, n);
    assert Cascaded(w, x)[n] == TickedAt(w.highPass, SILENT, Shelved(w, x), n);
  }

  lemma {:induction false} FrameIsCascaded(w: Weighting, x: seq<real>, y: seq<real>, n: nat, f: StereoFrame)
    requires n < |x| == |y| && Sanitize(f.left) == x[n] && Sanitize(f.right) == y[n]
    ensures WeightFrame(w, Delays(ChannelAt(w, x, n), ChannelAt(w, y, n)), f)
         == (Square(Cascaded(w, x)[n]) + Square(Cascaded(w, y)[n]), Delays(ChannelAt(w, x, n + 1), ChannelAt(w, y, n + 1)))
  {
    SampleIsCascaded(w, x, n, f.left);
    SampleIsCascaded(w, y, n, f.right);
  }

  ghost predicate EnergiesOf(e: seq<real>, u: seq<real>, v: seq<real>) {
    |e| <= |u| == |v| && forall i :: 0 <= i < |e| ==> e[i] == Square(u[i]) + Square(v[i])
  }

  lemma {:induction false} EnergiesOneMore(e: seq<real>, u: seq<real>, v: seq<real>, x: real)
    requires EnergiesOf(e, u, v) && |e| < |u| && x == Square(u[|e|]) + Square(v[|e|])
    ensures EnergiesOf(e + [x], u, v)
  {
  }

  /** The meter's weighting of some frames is the cascade on the two channels so far. */
  ghost predicate CascadedSoFar(w: Weighting, r: (seq<real>, Delays), x: seq<real>, y: seq<real>, n: nat)
    requires n <= |x| == |y|
  {
    |r.0| == n && r.1 == Delays(ChannelAt(w, x, n), ChannelAt(w, y, n)) && EnergiesOf(r.0, Cascaded(w, x), Cascaded(w, y))
  }

  lemma {:induction false} CascadedOneMore(w: Weighting, r: (seq<real>, Delays), x: seq<real>, y: seq<real>, n: nat, f: StereoFrame)
    requires n < |x| == |y| && Sanitize(f.left) == x[n] && Sanitize(f.right) == y[n] && CascadedSoFar(w, r, x, y, n)
    ensures var next := WeightFrame(w, r.1, f); CascadedSoFar(w, (r.0 + [next.0], next.1), x, y, n + 1)
  {
    var u, v := Cascaded(w, x), Cascaded(w, y);
    FrameIsCascaded(w, x, y, n, f);
    EnergiesOneMore(r.0, u, v, Square(u[n]) + Square(v[n]));
  }

  lemma {:induction false} WeightedUpTo(w: Weighting, frames: seq<StereoFrame>, x: seq<real>, y: seq<real>, n: nat)
    requires n <= |frames| && x == Lefts(frames) && y == Rights(frames)
    ensures CascadedSoFar(w, Weighted(w, frames[..n]), x, y, n)
    decreases n
  {
    if n > 0 {
      WeightedUpTo(w, frames, x, y, n - 1);
      CascadedOneMore(w, Weighted(w, frames[..n - 1]), x, y, n - 1, frames[n - 1]);
      WeightedStep(w, frames[..n - 1], frames[n - 1]);
      assert frames[..n] == frames[..n - 1] + [frames[n - 1]];
    }
  }

  lemma {:induction false} CascadeIsKWeighted(w: Weighting, x: seq<real>)
    ensures KWeighted(w, x, Cascaded(w, x))
  {
    TickedResponds(w.shelf, x);
    TickedResponds(w.highPass, Shelved(w, x));
  }

  lemma {:induction false} KWeightedIsUnique(w: Weighting, x: seq<real>, u: seq<real>, v: seq<real>)
    requires KWeighted(w, x, u) && KWeighted(w, x, v)
    ensures u == v
  {
    var p: seq<real> :| Responds(w.shelf, x, p) && Responds(w.highPass, p, u);
    var q: seq<real> :| Responds(w.shelf, x, q) && Responds(w.highPass, q, v);
    FilteredIsUnique(true, w.shelf, x, p, q);
    FilteredIsUnique(true, w.highPass, p, u, v);
  }

  /** The energy of every frame is the sum of the squares of the two channels, each sanitized and put through the shelf
      and then the high-pass by their difference equations. */
  lemma {:induction false} EnergyIsOfBothChannels(w: Weighting, frames: seq<StereoFrame>, u: seq<real>, v: seq<real>, n: nat)
    requires KWeighted(w, Lefts(frames), u) && KWeighted(w, Rights(frames), v) && n < |frames|
    ensures |u| == |v| == |frames| && Weighted(w, frames).0[n] == Square(u[n]) + Square(v[n])
  {
    CascadeIsKWeighted(w, Lefts(frames));
    CascadeIsKWeighted(w, Rights(frames));
    KWeightedIsUnique(w, Lefts(frames), u, Cascaded(w, Lefts(frames)));
    KWeightedIsUnique(w, Rights(frames), v, Cascaded(w, Rights(frames)));
    WeightedUpTo(w, frames, Lefts(frames), Rights(frames), |frames|);
    assert frames[..|frames|] == frames;
  }

  function Swapped(frames: seq<StereoFrame>): (r: seq<StereoFrame>)
    ensures |r| == |frames| && forall i :: 0 <= i < |r| ==> r[i] == StereoFrame(frames[i].right, frames[i].left)
  {
    seq(|frames|, i requires 0 <= i < |frames| => StereoFrame(frames[i].right, frames[i].left))
  }

  /** Swapping the channels changes no energy. */
  lemma {:induction false} SwapKeepsEnergies(w: Weighting, frames: seq<StereoFrame>)
    ensures Weighted(w, Swapped(frames)).0 == Weighted(w, frames).0
  {
    var x, y := Lefts(frames), Rights(frames);
    assert Lefts(Swapped(frames)) == y && Rights(Swapped(frames)) == x;
    CascadeIsKWeighted(w, x);
    CascadeIsKWeighted(w, y);
    forall n | 0 <= n < |frames|
      ensures Weighted(w, Swapped(frames)).0[n] == Weighted(w, frames).0[n]
    {
      EnergyIsOfBothChannels(w, frames, Cascaded(w, x), Cascaded(w, y), n);
      EnergyIsOfBothChannels(w, Swapped(frames), Cascaded(w, y), Cascaded(w, x), n);
    }
  }

  lemma {:induction false} SilenceStaysSilent(c: Coefficients, x: seq<real>)
    requires forall i :: 0 <= i < |x| ==> x[i] == 0.0
    ensures Responds(c, x, x)
  {
  }

  /** With a silent left channel the energies are those of the right one alone. */
  lemma {:induction false} SilentLeftChannel(w: Weighting, frames: seq<StereoFrame>, v: seq<real>, n: nat)
    requires forall i :: 0 <= i < |frames| ==> Sanitize(frames[i].left) == 0.0
    requires KWeighted(w, Rights(frames), v) && n < |frames|
    ensures |v| == |frames| && Weighted(w, frames).0[n] == Square(v[n])
  {
    var x := Lefts(frames);
    SilenceStaysSilent(w.shelf, x);
    SilenceStaysSilent(w.highPass, x);
    assert KWeighted(w, x, x);
    EnergyIsOfBothChannels(w, frames, x, v, n);
  }
}
