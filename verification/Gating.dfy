/** The two-pass gating of the loudness meter. */
module Gating {
  import opened Arithmetic

  datatype LoudnessMetrics = LoudnessMetrics(
    momentaryAvailable: bool, momentaryLufs: real, integratedAvailable: bool, integratedLufs: real)

  const UNAVAILABLE: LoudnessMetrics := LoudnessMetrics(false, -120.0, false, -120.0)

  /** Loudness of an energy; `log10` is the decimal logarithm. */
  function EnergyToLufs(log10: real -> real, energy: real): real {
    if energy <= 0.0 then -120.0 else -0.691 + 10.0 * log10(energy)
  }

  ghost predicate Increasing(log10: real -> real) {
    forall a, b :: 0.0 < a < b ==> log10(a) < log10(b)
  }

  /** A block passes the absolute gate and a further threshold. */
  predicate Passes(log10: real -> real, energy: real, threshold: real) {
    EnergyToLufs(log10, energy) >= -70.0 && EnergyToLufs(log10, energy) >= threshold
  }

  function GatedEnergy(log10: real -> real, blocks: seq<real>, threshold: real): real {
    if blocks == [] then 0.0
    else
      var n := |blocks| - 1;
      GatedEnergy(log10, blocks[..n], threshold) + (if Passes(log10, blocks[n], threshold) then blocks[n] else 0.0)
  }

  function GatedCount(log10: real -> real, blocks: seq<real>, threshold: real): nat {
    if blocks == [] then 0
    else
      var n := |blocks| - 1;
      GatedCount(log10, blocks[..n], threshold) + if Passes(log10, blocks[n], threshold) then 1 else 0
  }

  /** How far the blocks that pass lie above m, in total. */
  ghost function Excess(log10: real -> real, blocks: seq<real>, threshold: real, m: real): real {
    if blocks == [] then 0.0
    else
      var n := |blocks| - 1;
      Excess(log10, blocks[..n], threshold, m) + (if Passes(log10, blocks[n], threshold) then blocks[n] - m else 0.0)
  }

  lemma {:induction false} ProductOneMore(m: real, n: nat)
    ensures Product(m, 0.0) == 0.0 && Product(m, (n + 1) as real) == Product(m, n as real) + m
  {
    var c := n as real;
    assert (n + 1) as real == c + 1.0;
    assert m * (c + 1.0) == m * c + m;
  }

  lemma {:induction false} ExcessIsDifference(log10: real -> real, blocks: seq<real>, threshold: real, m: real)
    ensures Excess(log10, blocks, threshold, m)
         == GatedEnergy(log10, blocks, threshold) - Product(m, GatedCount(log10, blocks, threshold) as real)
    decreases |blocks|
  {
    ProductOneMore(m, 0);
    if blocks != [] {
      var n := |blocks| - 1;
      ExcessIsDifference(log10, blocks[..n], threshold, m);
      ProductOneMore(m, GatedCount(log10, blocks[..n], threshold));
    }
  }

  /** A threshold that only stops blocks not above m cannot lower the excess over m. */
  lemma {:induction false} StoppingLowBlocks(log10: real -> real, blocks: seq<real>, threshold: real, m: real)
    requires forall e :: e in blocks && Passes(log10, e, -70.0) && !Passes(log10, e, threshold) ==> e <= m
    ensures Excess(log10, blocks, threshold, m) >= Excess(log10, blocks, -70.0, m)
    decreases |blocks|
  {
    if blocks != [] {
      var n := |blocks| - 1;
      assert forall e :: e in blocks[..n] ==> e in blocks;
      StoppingLowBlocks(log10, blocks[..n], threshold, m);
      assert blocks[n] in blocks;
    }
  }

  ghost predicate AllBelow(log10: real -> real, blocks: seq<real>, threshold: real, m: real) {
    forall e :: e in blocks && Passes(log10, e, threshold) ==> e < m
  }

  ghost predicate AllAbove(log10: real -> real, blocks: seq<real>, threshold: real, m: real) {
    forall e :: e in blocks && Passes(log10, e, threshold) ==> e > m
  }

  /** If every passing block is below m, or every one above, the sign of the excess over m is decided. */
  lemma {:induction false} ExcessSign(log10: real -> real, blocks: seq<real>, threshold: real, m: real)
    ensures var some, x := GatedCount(log10, blocks, threshold) > 0, Excess(log10, blocks, threshold, m);
            && (AllBelow(log10, blocks, threshold, m) ==> x <= 0.0 && (some ==> x < 0.0))
            && (AllAbove(log10, blocks, threshold, m) ==> x >= 0.0 && (some ==> x > 0.0))
    decreases |blocks|
  {
    if blocks != [] {
      var n := |blocks| - 1;
      assert forall e :: e in blocks[..n] ==> e in blocks;
      ExcessSign(log10, blocks[..n], threshold, m);
      assert blocks[n] in blocks;
    }
  }

  lemma {:induction false} CountIsPositive(log10: real -> real, blocks: seq<real>, threshold: real)
    ensures GatedCount(log10, blocks, threshold) > 0 <==> exists e :: e in blocks && Passes(log10, e, threshold)
    decreases |blocks|
  {
    if blocks != [] {
      var n := |blocks| - 1;
      CountIsPositive(log10, blocks[..n], threshold);
      assert blocks == blocks[..n] + [blocks[n]];
      if GatedCount(log10, blocks[..n], threshold) > 0 {
        var e :| e in blocks[..n] && Passes(log10, e, threshold);
        assert e in blocks;
      }
    }
  }

  /** The mean over the absolute gate. */
  function AbsoluteMean(log10: real -> real, blocks: seq<real>): real
    requires GatedCount(log10, blocks, -70.0) > 0
  {
    GatedEnergy(log10, blocks, -70.0) / GatedCount(log10, blocks, -70.0) as real
  }

  /** The mean over both gates. */
  function GatedMean(log10: real -> real, blocks: seq<real>, threshold: real): real
    requires GatedCount(log10, blocks, threshold) > 0
  {
    GatedEnergy(log10, blocks, threshold) / GatedCount(log10, blocks, threshold) as real
  }

  lemma {:induction false} MeanIsBalanced(log10: real -> real, blocks: seq<real>)
    requires GatedCount(log10, blocks, -70.0) > 0
    ensures Excess(log10, blocks, -70.0, AbsoluteMean(log10, blocks)) == 0.0
  {
    var c := GatedCount(log10, blocks, -70.0) as real;
    ExcessIsDifference(log10, blocks, -70.0, AbsoluteMean(log10, blocks));
    QuotientTimes(GatedEnergy(log10, blocks, -70.0), c);
  }

  lemma {:induction false} LufsMonotone(log10: real -> real, a: real, b: real)
    requires Increasing(log10) && 0.0 < a <= b
    ensures EnergyToLufs(log10, a) <= EnergyToLufs(log10, b)
  {
  }

  /** The absolute-gated mean is itself at or above the absolute gate. */
  lemma {:induction false} MeanAboveGate(log10: real -> real, blocks: seq<real>)
    requires Increasing(log10) && GatedCount(log10, blocks, -70.0) > 0
    ensures AbsoluteMean(log10, blocks) > 0.0
    ensures EnergyToLufs(log10, AbsoluteMean(log10, blocks)) >= -70.0
  {
    var m := AbsoluteMean(log10, blocks);
    MeanIsBalanced(log10, blocks);
    ExcessSign(log10, blocks, -70.0, m);
    var e :| e in blocks && Passes(log10, e, -70.0) && e <= m;
    LufsMonotone(log10, e, m);
  }

  /** The relative gate never empties the set: some block at or above the mean passes it. */
  lemma {:induction false} RelativeGateKeepsOne(log10: real -> real, blocks: seq<real>)
    requires Increasing(log10) && GatedCount(log10, blocks, -70.0) > 0
    ensures GatedCount(log10, blocks, EnergyToLufs(log10, AbsoluteMean(log10, blocks)) - 10.0) > 0
  {
    var m := AbsoluteMean(log10, blocks);
    var threshold := EnergyToLufs(log10, m) - 10.0;
    MeanIsBalanced(log10, blocks);
    MeanAboveGate(log10, blocks);
    ExcessSign(log10, blocks, -70.0, m);
    var e :| e in blocks && Passes(log10, e, -70.0) && e >= m;
    LufsMonotone(log10, m, e);
    assert Passes(log10, e, threshold);
    CountIsPositive(log10, blocks, threshold);
  }

  lemma {:induction false} QuotientAtLeast(a: real, c: real, m: real)
    requires c > 0.0 && a - Product(m, c) >= 0.0
    ensures a / c >= m
  {
    var q := a / c;
    QuotientTimes(a, c);
    assert (m - q) * c == m * c - q * c;
    assert q < m ==> (m - q) * c > 0.0;
  }

  /** Gating relative to the mean can only raise the mean. */
  lemma {:induction false} RelativeMeanNotLower(log10: real -> real, blocks: seq<real>)
    requires Increasing(log10) && GatedCount(log10, blocks, -70.0) > 0
    ensures var m := AbsoluteMean(log10, blocks);
            var threshold := EnergyToLufs(log10, m) - 10.0;
            && GatedCount(log10, blocks, threshold) > 0
            && GatedMean(log10, blocks, threshold) >= m
  {
    var m := AbsoluteMean(log10, blocks);
    var threshold := EnergyToLufs(log10, m) - 10.0;
    RelativeGateKeepsOne(log10, blocks);
    MeanIsBalanced(log10, blocks);
    MeanAboveGate(log10, blocks);
    forall e | e in blocks && Passes(log10, e, -70.0) && !Passes(log10, e, threshold)
      ensures e <= m
    {
      if e > m {
        LufsMonotone(log10, m, e);
      }
    }
    StoppingLowBlocks(log10, blocks, threshold, m);
    ExcessIsDifference(log10, blocks, threshold, m);
    QuotientAtLeast(GatedEnergy(log10, blocks, threshold), GatedCount(log10, blocks, threshold) as real, m);
  }

  // ----- the gates as sets of blocks

  /** The blocks that reach -70 LUFS and a threshold. */
  ghost function Reaching(log10: real -> real, blocks: seq<real>, threshold: real): set<int> {
    set i | 0 <= i < |blocks| && EnergyToLufs(log10, blocks[i]) >= -70.0 && EnergyToLufs(log10, blocks[i]) >= threshold
  }

  /** The sum of the first n blocks, of those in a set. */
  ghost function SumOver(blocks: seq<real>, s: set<int>, n: nat): real
    requires n <= |blocks|
  {
    if n == 0 then 0.0 else SumOver(blocks, s, n - 1) + if n - 1 in s then blocks[n - 1] else 0.0
  }

  ghost function MeanOver(blocks: seq<real>, s: set<int>): real
    requires s != {}
  {
    SumOver(blocks, s, |blocks|) / |s| as real
  }

  ghost function Below(s: set<int>, n: int): set<int> {
    set i | i in s && i < n
  }

  lemma {:induction false} GatedUpTo(log10: real -> real, blocks: seq<real>, threshold: real, s: set<int>, n: nat)
    requires n <= |blocks| && s == Reaching(log10, blocks, threshold)
    ensures GatedEnergy(log10, blocks[..n], threshold) == SumOver(blocks, s, n)
    ensures GatedCount(log10, blocks[..n], threshold) == |Below(s, n)|
    decreases n
  {
    if n == 0 {
      assert Below(s, 0) == {};
    } else {
      var k := n - 1;
      GatedUpTo(log10, blocks, threshold, s, k);
      assert blocks[..n][..k] == blocks[..k] && blocks[..n][k] == blocks[k];
      assert Passes(log10, blocks[k], threshold) <==> k in s;
      if k in s {
        assert Below(s, n) == Below(s, k) + {k};
      } else {
        assert Below(s, n) == Below(s, k);
      }
    }
  }

  /** The passes sum and count the blocks of those sets. */
  lemma {:induction false} GatedIsOverSet(log10: real -> real, blocks: seq<real>, threshold: real)
    ensures var s := Reaching(log10, blocks, threshold);
            GatedEnergy(log10, blocks, threshold) == SumOver(blocks, s, |blocks|) && GatedCount(log10, blocks, threshold) == |s|
  {
    var s := Reaching(log10, blocks, threshold);
    GatedUpTo(log10, blocks, threshold, s, |blocks|);
    assert blocks[..|blocks|] == blocks && Below(s, |blocks|) == s;
  }

  /** The blocks over the absolute gate, and those that also come within 10 LU of the loudness of their mean. */
  ghost function Audible(log10: real -> real, blocks: seq<real>): set<int> {
    Reaching(log10, blocks, -70.0)
  }

  ghost function Foreground(log10: real -> real, blocks: seq<real>): set<int>
    requires Audible(log10, blocks) != {}
  {
    Reaching(log10, blocks, EnergyToLufs(log10, MeanOver(blocks, Audible(log10, blocks))) - 10.0)
  }

  /** Integrated loudness is that of the mean over the foreground blocks, and over nothing else. */
  lemma {:induction false} IntegratedIsOfForeground(log10: real -> real, blocks: seq<real>)
    requires Increasing(log10)
    ensures MetricsOf(log10, blocks).integratedAvailable <==> Audible(log10, blocks) != {}
    ensures Audible(log10, blocks) != {} ==>
              && Foreground(log10, blocks) != {}
              && MetricsOf(log10, blocks).integratedLufs
                 == EnergyToLufs(log10, MeanOver(blocks, Foreground(log10, blocks)))
  {
    GatedIsOverSet(log10, blocks, -70.0);
    if GatedCount(log10, blocks, -70.0) > 0 {
      assert blocks != [];
      RelativeGateKeepsOne(log10, blocks);
      GatedIsOverSet(log10, blocks, EnergyToLufs(log10, AbsoluteMean(log10, blocks)) - 10.0);
    }
  }

  /** Two histories with the same absolute-gated mean, that differ only in blocks more than 10 LU below its loudness,
      have the same integrated loudness. */
  lemma {:induction false} QuietBlocksDoNotCount(log10: real -> real, a: seq<real>, b: seq<real>)
    requires Increasing(log10) && |a| == |b| && Audible(log10, a) != {} && Audible(log10, b) != {}
    requires MeanOver(a, Audible(log10, a)) == MeanOver(b, Audible(log10, b))
    requires var floor := EnergyToLufs(log10, MeanOver(a, Audible(log10, a))) - 10.0;
             forall i :: 0 <= i < |a| ==>
               a[i] == b[i] || (EnergyToLufs(log10, a[i]) < floor && EnergyToLufs(log10, b[i]) < floor)
    ensures MetricsOf(log10, a).integratedLufs == MetricsOf(log10, b).integratedLufs
  {
    IntegratedIsOfForeground(log10, a);
    IntegratedIsOfForeground(log10, b);
    var s := Foreground(log10, a);
    assert s == Foreground(log10, b);
    SameSum(a, b, s, |a|);
  }

  lemma {:induction false} SameSum(a: seq<real>, b: seq<real>, s: set<int>, n: nat)
    requires n <= |a| == |b| && forall i :: 0 <= i < |a| && i in s ==> a[i] == b[i]
    ensures SumOver(a, s, n) == SumOver(b, s, n)
    decreases n
  {
    if n > 0 {
      SameSum(a, b, s, n - 1);
    }
  }

  /** A loud block and one 30 LU below it: the quiet one is left out. */
  lemma {:induction false} QuietBlockIsLeftOut(log10: real -> real)
    requires Increasing(log10) && log10(1.0) == 0.0 && log10(0.1) == -1.0 && log10(0.001) == -3.0
    ensures MetricsOf(log10, [1.0, 0.001]).integratedLufs == -0.691
  {
    var blocks := [1.0, 0.001];
    var loud, quiet := EnergyToLufs(log10, 1.0), EnergyToLufs(log10, 0.001);
    assert loud == -0.691 && quiet == -30.691;
    assert Audible(log10, blocks) == {0, 1};
    assert SumOver(blocks, {0, 1}, 1) == 1.0 && SumOver(blocks, {0, 1}, 2) == 1.001;
    assert MeanOver(blocks, {0, 1}) == 0.5005;
    assert log10(0.5005) > -1.0;
    assert Foreground(log10, blocks) == {0};
    assert SumOver(blocks, {0}, 1) == 1.0 && SumOver(blocks, {0}, 2) == 1.0;
    assert MeanOver(blocks, {0}) == 1.0;
    IntegratedIsOfForeground(log10, blocks);
  }

  /** The loudness scale: -0.691 LUFS for unit energy, ten LU for a factor of ten, and -120 for no energy. */
  lemma {:induction false} LoudnessScale(log10: real -> real, e: real)
    requires log10(1.0) == 0.0 && e > 0.0 && log10(10.0 * e) == log10(e) + 1.0
    ensures EnergyToLufs(log10, 1.0) == -0.691 && EnergyToLufs(log10, 10.0 * e) == EnergyToLufs(log10, e) + 10.0
    ensures EnergyToLufs(log10, 0.0) == -120.0 && EnergyToLufs(log10, -e) == -120.0
  {
  }

  /** One gating pass over the history. */
  method GatePass(log10: real -> real, blocks: seq<real>, threshold: real) returns (energy: real, count: nat)
    ensures energy == GatedEnergy(log10, blocks, threshold) && count == GatedCount(log10, blocks, threshold)
  {
    energy, count := 0.0, 0;
    for i := 0 to |blocks|
      invariant energy == GatedEnergy(log10, blocks[..i], threshold)
      invariant count == GatedCount(log10, blocks[..i], threshold)
    {
      assert blocks[..i + 1][..i] == blocks[..i];
      if EnergyToLufs(log10, blocks[i]) >= -70.0 && EnergyToLufs(log10, blocks[i]) >= threshold {
        energy, count := energy + blocks[i], count + 1;
      }
    }
    assert blocks[..|blocks|] == blocks;
  }

  /** The measurement of a block history. */
  function MetricsOf(log10: real -> real, blocks: seq<real>): LoudnessMetrics {
    if blocks == [] then UNAVAILABLE
    else
      var momentary := UNAVAILABLE.(momentaryAvailable := true, momentaryLufs := EnergyToLufs(log10, blocks[|blocks| - 1]));
      if GatedCount(log10, blocks, -70.0) == 0 then momentary
      else
        var threshold := EnergyToLufs(log10, AbsoluteMean(log10, blocks)) - 10.0;
        if GatedCount(log10, blocks, threshold) == 0 then momentary
        else momentary.(integratedAvailable := true, integratedLufs := EnergyToLufs(log10, GatedMean(log10, blocks, threshold)))
  }

  /** The measurement published from a block history. */
  method Metrics(log10: real -> real, blocks: seq<real>) returns (result: LoudnessMetrics)
    requires Increasing(log10)
    ensures result.momentaryAvailable <==> blocks != []
    ensures blocks != [] ==> result.momentaryLufs == EnergyToLufs(log10, blocks[|blocks| - 1])
    // integrated loudness is available exactly when some block reaches -70 LUFS
    ensures result.integratedAvailable <==> exists e :: e in blocks && EnergyToLufs(log10, e) >= -70.0
    // and is then the loudness of the mean over both gates, at least that of the absolute-gated mean
    ensures result.integratedAvailable ==>
              && GatedCount(log10, blocks, -70.0) > 0
              && var threshold := EnergyToLufs(log10, AbsoluteMean(log10, blocks)) - 10.0;
              && GatedCount(log10, blocks, threshold) > 0
              && result.integratedLufs == EnergyToLufs(log10, GatedMean(log10, blocks, threshold))
              && result.integratedLufs >= EnergyToLufs(log10, AbsoluteMean(log10, blocks)) >= -70.0
    ensures result == MetricsOf(log10, blocks)
    ensures result.integratedAvailable ==>
              && Audible(log10, blocks) != {} && Foreground(log10, blocks) != {}
              && result.integratedLufs == EnergyToLufs(log10, MeanOver(blocks, Foreground(log10, blocks)))
    ensures !result.momentaryAvailable ==> result.momentaryLufs == -120.0
    ensures !result.integratedAvailable ==> result.integratedLufs == -120.0
  {
    result := UNAVAILABLE;
    IntegratedIsOfForeground(log10, blocks);
    CountIsPositive(log10, blocks, -70.0);
    assert forall e :: Passes(log10, e, -70.0) <==> EnergyToLufs(log10, e) >= -70.0;
    if blocks == [] {
      return;
    }
    result := result.(momentaryAvailable := true, momentaryLufs := EnergyToLufs(log10, blocks[|blocks| - 1]));
    var energy, count := GatePass(log10, blocks, -70.0);
    if count == 0 {
      return;
    }
    var mean := energy / count as real;
    var threshold := EnergyToLufs(log10, mean) - 10.0;
    MeanAboveGate(log10, blocks);
    RelativeMeanNotLower(log10, blocks);
    energy, count := GatePass(log10, blocks, threshold);
    if count != 0 {
      LufsMonotone(log10, mean, energy / count as real);
      result := result.(integratedAvailable := true, integratedLufs := EnergyToLufs(log10, energy / count as real));
    }
  }
}
