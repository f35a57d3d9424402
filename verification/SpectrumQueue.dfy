/** The single-producer/single-consumer queue between the audio callback and the analysis worker, as a
    state machine: every load, sample copy and store of either thread is a step of its own, and each
    side's view of the other side's index may lag behind. */
module SpectrumQueue {
  import opened Gating

  type Sample = real
  type Frame = seq<Sample>

  // A frame has 2048 samples (1024 stereo pairs) and the queue has 4 slots.

  datatype Producer = Filling | Copying(done: nat) | Dropping | Flagging

  /** Idle before it looks at the queue, Waiting once it has found it empty. */
  datatype Worker = Idle | Waiting | Chosen | Metering(done: nat) | Analysing | Releasing | Exited

  /** `pushed`, `frames`, `numbers`, `flagAt`, `analysed`, `metered`, `stored` and `firstDrop` only record
      what has happened; no step depends on them except `flagAt`, which says what an acquiring load sees. */
  datatype State = State(
    slots: seq<Frame>,
    writeIndex: nat,
    readIndex: nat,
    contiguous: bool,
    dropped: nat,
    stop: bool,
    producer: Producer,
    partial: Frame,          // the filled part of the partial frame
    readView: nat,           // the read index last seen by the producer
    worker: Worker,
    writeView: nat,          // the write index last seen by the worker
    sawGap: bool,            // the worker has seen the contiguity flag cleared
    meterReady: bool,
    meter: seq<Sample>,      // everything fed to the loudness meter
    measure: seq<Sample> -> LoudnessMetrics, // what the meter reads after it has been fed that
    current: Frame,          // what the analyzer has read of the frame in hand
    windows: nat,
    pushed: seq<Sample>,     // everything the callback pushed
    frames: seq<Frame>,      // the enqueued frames
    numbers: seq<nat>,       // their positions among all frames produced
    flagAt: seq<bool>,       // the contiguity flag when each of them was published
    analysed: seq<Frame>,    // what the analyzer read, frame by frame
    metered: nat,            // the whole frames fed to the loudness meter
    stored: seq<LoudnessMetrics>, // the loudness values stored
    firstDrop: nat)          // the frames enqueued before the first drop, once there is one

  ghost predicate Init(s: State) {
    && |s.slots| == 4 && (forall k :: 0 <= k < 4 ==> |s.slots[k]| == 2048)
    && s.writeIndex == 0 && s.readIndex == 0 && s.contiguous && s.dropped == 0 && !s.stop
    && s.producer == Filling && s.partial == [] && s.readView == 0
    && s.worker == Idle && s.writeView == 0 && !s.sawGap && s.meter == [] && s.current == [] && s.windows == 0
    && s.pushed == [] && s.frames == [] && s.numbers == [] && s.flagAt == []
    && s.analysed == [] && s.metered == 0 && s.stored == []
  }

  datatype Step =
    // the callback
    | Push(x: Sample)
    | LoadIndices(view: nat)
    | CopySample
    | Publish
    | CountDrop
    | ClearFlag
    // the worker
    | Poll(seenWrite: nat)
    | ReadFlag(seen: bool)
    | MeterSample
    | MeterDone
    | AnalyseSample
    | AnalyseDone
    | Release
    | Exit
    // the control thread
    | RequestStop

  predicate Enabled(s: State, step: Step) {
    match step
    case Push(_) => s.producer.Filling? && |s.partial| < 2048
    // The producer's load may return any read index between the last one it saw and the current one.
    case LoadIndices(view) => s.producer.Filling? && |s.partial| == 2048 && s.readView <= view <= s.readIndex
    case CopySample => s.producer.Copying? && s.producer.done < 2048
    case Publish => s.producer.Copying? && s.producer.done == 2048
    case CountDrop => s.producer.Dropping?
    case ClearFlag => s.producer.Flagging?
    case Poll(view) => (s.worker.Idle? || s.worker.Waiting?) && s.writeView <= view <= s.writeIndex
    // The flag is read relaxed. It may be stale, but not older than the publication that the acquiring
    // load of the write index saw, and it never turns back to true for a reader that saw it false.
    case ReadFlag(seen) =>
      && s.worker.Chosen? && 0 < s.writeView <= |s.flagAt|
      && (s.contiguous ==> seen)
      && (seen ==> !s.sawGap && s.flagAt[s.writeView - 1])
    case MeterSample => s.worker.Metering? && s.worker.done < 2048
    case MeterDone => s.worker.Metering? && s.worker.done == 2048
    case AnalyseSample => s.worker.Analysing? && |s.current| < 2048
    case AnalyseDone => s.worker.Analysing? && |s.current| == 2048
    case Release => s.worker.Releasing?
    case Exit => s.worker.Waiting? && s.stop
    case RequestStop => true
  }

  /** The slot of a queue index. */
  function SlotOf(index: nat): (k: nat)
    ensures k < 4
  {
    index % 4
  }

  predicate Shaped(s: State) {
    && |s.slots| == 4 && (forall k :: 0 <= k < 4 ==> |s.slots[k]| == 2048)
    && |s.partial| <= 2048 && |s.current| <= 2048
    && (s.producer.Copying? ==> |s.partial| == 2048 && s.producer.done <= 2048)
    && (s.worker.Metering? ==> s.worker.done <= 2048)
  }

  function Apply(s: State, step: Step): State
    requires Shaped(s) && Enabled(s, step)
  {
    match step
    case Push(x) => s.(partial := s.partial + [x], pushed := s.pushed + [x])
    case LoadIndices(view) =>
      s.(readView := view, producer := if s.writeIndex - view < 4 then Copying(0) else Dropping)
    case CopySample =>
      var k, j := SlotOf(s.writeIndex), s.producer.done;
      s.(slots := s.slots[k := s.slots[k][j := s.partial[j]]], producer := Copying(j + 1))
    case Publish =>
      s.(writeIndex := s.writeIndex + 1, producer := Filling, partial := [],
         frames := s.frames + [s.partial], numbers := s.numbers + [|s.frames| + s.dropped],
         flagAt := s.flagAt + [s.contiguous])
    case CountDrop =>
      s.(dropped := s.dropped + 1, producer := Flagging, partial := [],
         firstDrop := if s.dropped == 0 then s.writeIndex else s.firstDrop)
    case ClearFlag => s.(contiguous := false, producer := Filling)
    case Poll(view) => s.(writeView := view, worker := if view == s.readIndex then Waiting else Chosen)
    case ReadFlag(seen) =>
      s.(sawGap := s.sawGap || !seen, current := [],
         worker := if s.meterReady && seen then Metering(0) else Analysing)
    case MeterSample =>
      s.(meter := s.meter + [s.slots[SlotOf(s.readIndex)][s.worker.done]], worker := Metering(s.worker.done + 1))
    case MeterDone =>
      var due := s.windows + 1 >= 5;
      s.(metered := s.metered + 1, worker := Analysing, windows := if due then 0 else s.windows + 1,
         stored := if due then s.stored + [s.measure(s.meter)] else s.stored)
    case AnalyseSample => s.(current := s.current + [s.slots[SlotOf(s.readIndex)][|s.current|]])
    case AnalyseDone => s.(analysed := s.analysed + [s.current], worker := Releasing)
    case Release => s.(readIndex := s.readIndex + 1, worker := Idle)
    case Exit => s.(worker := Exited)
    case RequestStop => s.(stop := true)
  }

  // ----- what every step keeps

  ghost predicate Indices(s: State) {
    && s.readView <= s.readIndex <= s.writeView <= s.writeIndex <= s.readView + 4
    && (s.worker.Chosen? || s.worker.Metering? || s.worker.Analysing? || s.worker.Releasing? ==>
          s.readIndex < s.writeView)
    && (s.worker.Waiting? ==> s.readIndex == s.writeView)
    && (s.producer.Copying? ==> s.writeIndex < s.readView + 4)
    && (s.producer.Dropping? ==> s.writeIndex == s.readView + 4 && |s.partial| == 2048)
    && (s.producer.Flagging? ==> s.partial == [] && s.dropped > 0)
  }

  /** f is the n-th frame of the samples pushed. */
  ghost predicate IsFrame(pushed: seq<Sample>, n: nat, f: Frame) {
    2048 * n + 2048 <= |pushed| && f == pushed[2048 * n..2048 * n + 2048]
  }

  /** Every sample pushed is in an enqueued frame, in a dropped one, or in the partial frame. */
  ghost predicate Conservation(s: State) {
    && |s.frames| == |s.numbers| == |s.flagAt| == s.writeIndex
    && |s.pushed| == 2048 * (s.writeIndex + s.dropped) + |s.partial|
    && s.pushed[2048 * (s.writeIndex + s.dropped)..] == s.partial
  }

  /** The enqueued frames are frames of the stream, in production order. */
  ghost predicate InOrder(s: State)
    requires |s.frames| == |s.numbers|
  {
    && (forall i :: 0 <= i < |s.frames| ==> IsFrame(s.pushed, s.numbers[i], s.frames[i]))
    && (forall i :: 0 <= i < |s.numbers| ==> s.numbers[i] < |s.frames| + s.dropped)
    && (forall i, j :: 0 <= i < j < |s.numbers| ==> s.numbers[i] < s.numbers[j])
  }

  /** How many frames were enqueued before any frame was dropped. */
  ghost function GapFree(s: State): nat {
    if s.dropped == 0 then s.writeIndex else s.firstDrop
  }

  ghost predicate Flags(s: State)
    requires |s.frames| == |s.numbers| == |s.flagAt| == s.writeIndex
  {
    && GapFree(s) <= s.writeIndex
    && (forall i :: 0 <= i < GapFree(s) ==> s.numbers[i] == i)
    && (forall i :: 0 <= i < |s.flagAt| && s.flagAt[i] ==> i < GapFree(s))
    && (s.contiguous ==> s.dropped == 0 || s.producer.Flagging?)
    && (!s.contiguous ==> s.dropped > 0)
  }

  /** The published slots hold the frames not yet released, and the one being copied its first samples. */
  ghost predicate SlotsHold(s: State)
    requires Shaped(s) && |s.frames| == s.writeIndex
  {
    && (forall i :: s.readIndex <= i < s.writeIndex ==> s.slots[SlotOf(i)] == s.frames[i])
    && (s.producer.Copying? ==>
          s.slots[SlotOf(s.writeIndex)][..s.producer.done] == s.partial[..s.producer.done])
  }

  ghost predicate AnalysedWhole(s: State)
    requires |s.frames| == s.writeIndex && Indices(s)
  {
    && |s.analysed| == s.readIndex + (if s.worker.Releasing? then 1 else 0)
    && (forall i :: 0 <= i < |s.analysed| ==> s.analysed[i] == s.frames[i])
    && (s.worker.Analysing? ==> s.current <= s.frames[s.readIndex])
    && (s.worker.Metering? ==> s.current == [])
  }

  ghost predicate MeterContiguous(s: State)
    requires |s.frames| == |s.numbers| == s.writeIndex
  {
    && s.meter <= s.pushed
    && |s.meter| == 2048 * s.metered + (if s.worker.Metering? then s.worker.done else 0)
    && s.metered <= GapFree(s)
    && (s.worker.Metering? ==> s.metered == s.readIndex < GapFree(s) && s.meterReady && !s.sawGap)
    && (s.meterReady && !s.sawGap ==>
          s.metered == s.readIndex + if s.worker.Analysing? || s.worker.Releasing? then 1 else 0)
  }

  /** The i-th stored value is what the meter reads after the first 5 (i + 1) frames. */
  ghost predicate StoredFrom(measure: seq<Sample> -> LoudnessMetrics, meter: seq<Sample>, value: LoudnessMetrics, i: nat) {
    10240 * (i + 1) <= |meter| && value == measure(meter[..10240 * (i + 1)])
  }

  ghost predicate Published(s: State) {
    && s.metered == 5 * |s.stored| + s.windows && s.windows < 5
    && (forall i :: 0 <= i < |s.stored| ==> StoredFrom(s.measure, s.meter, s.stored[i], i))
  }

  ghost predicate Inv(s: State) {
    && Shaped(s) && Indices(s) && Conservation(s) && InOrder(s) && Flags(s)
    && SlotsHold(s) && AnalysedWhole(s) && MeterContiguous(s) && Published(s)
  }

  predicate OfCallback(step: Step) {
    step.Push? || step.LoadIndices? || step.CopySample? || step.Publish? || step.CountDrop? || step.ClearFlag?
  }

  /** The steps that belong to the loudness meter, and those that analyse and release a frame. */
  predicate Meters(step: Step) {
    step.ReadFlag? || step.MeterSample? || step.MeterDone?
  }

  predicate Analyses(step: Step) {
    step.AnalyseSample? || step.AnalyseDone? || step.Release?
  }

  lemma {:induction false} InitInv(s: State)
    requires Init(s)
    ensures Inv(s)
  {
  }

  /** What the worker and the control thread leave alone. */
  ghost predicate SameProduction(s: State, t: State) {
    && t.slots == s.slots && t.writeIndex == s.writeIndex && t.contiguous == s.contiguous && t.dropped == s.dropped
    && t.producer == s.producer && t.partial == s.partial && t.readView == s.readView && t.pushed == s.pushed
    && t.frames == s.frames && t.numbers == s.numbers && t.flagAt == s.flagAt && t.firstDrop == s.firstDrop
    && t.measure == s.measure
  }

  /** What the callback leaves alone. */
  ghost predicate SameConsumption(s: State, t: State) {
    && t.readIndex == s.readIndex && t.worker == s.worker && t.writeView == s.writeView && t.sawGap == s.sawGap
    && t.meterReady == s.meterReady && t.meter == s.meter && t.measure == s.measure && t.current == s.current
    && t.windows == s.windows && t.analysed == s.analysed && t.metered == s.metered && t.stored == s.stored
  }

  lemma {:induction false} CallbackLeavesConsumption(s: State, step: Step)
    requires Shaped(s) && Enabled(s, step) && OfCallback(step)
    ensures SameConsumption(s, Apply(s, step))
  {
  }

  lemma {:induction false} ProductionLeftInMetering(s: State, step: Step)
    requires Shaped(s) && Enabled(s, step)
    requires Meters(step)
    ensures SameProduction(s, Apply(s, step))
  {
  }

  lemma {:induction false} ProductionLeftInAnalysis(s: State, step: Step)
    requires Shaped(s) && Enabled(s, step)
    requires Analyses(step)
    ensures SameProduction(s, Apply(s, step))
  {
  }

  lemma {:induction false} ProductionLeftInControl(s: State, step: Step)
    requires Shaped(s) && Enabled(s, step)
    requires !OfCallback(step) && !Meters(step) && !Analyses(step)
    ensures SameProduction(s, Apply(s, step))
  {
  }

  lemma {:induction false} WorkerLeavesProduction(s: State, step: Step)
    requires Shaped(s) && Enabled(s, step) && !OfCallback(step)
    ensures SameProduction(s, Apply(s, step))
  {
    if Meters(step) {
      ProductionLeftInMetering(s, step);
    } else if Analyses(step) {
      ProductionLeftInAnalysis(s, step);
    } else {
      ProductionLeftInControl(s, step);
    }
  }

  lemma {:induction false} IndicesKeptByCallback(s: State, step: Step)
    requires Shaped(s) && Indices(s) && Enabled(s, step) && OfCallback(step)
    ensures Shaped(Apply(s, step)) && Indices(Apply(s, step))
  {
  }

  lemma {:induction false} IndicesKeptInMetering(s: State, step: Step)
    requires Shaped(s) && Indices(s) && Enabled(s, step)
    requires Meters(step)
    ensures Shaped(Apply(s, step)) && Indices(Apply(s, step))
  {
  }

  lemma {:induction false} IndicesKeptInAnalysis(s: State, step: Step)
    requires Shaped(s) && Indices(s) && Enabled(s, step)
    requires Analyses(step)
    ensures Shaped(Apply(s, step)) && Indices(Apply(s, step))
  {
  }

  lemma {:induction false} IndicesKeptInControl(s: State, step: Step)
    requires Shaped(s) && Indices(s) && Enabled(s, step)
    requires !OfCallback(step) && !Meters(step) && !Analyses(step)
    ensures Shaped(Apply(s, step)) && Indices(Apply(s, step))
  {
  }

  lemma {:induction false} IndicesKeptByWorker(s: State, step: Step)
    requires Shaped(s) && Indices(s) && Enabled(s, step) && !OfCallback(step)
    ensures Shaped(Apply(s, step)) && Indices(Apply(s, step))
  {
    if Meters(step) {
      IndicesKeptInMetering(s, step);
    } else if Analyses(step) {
      IndicesKeptInAnalysis(s, step);
    } else {
      IndicesKeptInControl(s, step);
    }
  }

  lemma {:induction false} IndicesKept(s: State, step: Step)
    requires Shaped(s) && Indices(s) && Enabled(s, step)
    ensures Shaped(Apply(s, step)) && Indices(Apply(s, step))
  {
    if OfCallback(step) {
      IndicesKeptByCallback(s, step);
    } else {
      IndicesKeptByWorker(s, step);
    }
  }

  lemma {:induction false} ConservationKeptByCallback(s: State, step: Step)
    requires Shaped(s) && Indices(s) && Conservation(s) && Enabled(s, step)
    requires OfCallback(step)
    ensures Conservation(Apply(s, step))
  {
  }

  lemma {:induction false} ConservationTransfers(s: State, t: State)
    requires Conservation(s) && SameProduction(s, t)
    ensures Conservation(t)
  {
  }

  lemma {:induction false} ConservationKeptByWorker(s: State, step: Step)
    requires Shaped(s) && Indices(s) && Conservation(s) && Enabled(s, step)
    requires !OfCallback(step)
    ensures Conservation(Apply(s, step))
  {
    WorkerLeavesProduction(s, step);
    ConservationTransfers(s, Apply(s, step));
  }

  lemma {:induction false} ConservationKept(s: State, step: Step)
    requires Shaped(s) && Indices(s) && Conservation(s) && Enabled(s, step)
    ensures Conservation(Apply(s, step))
  {
    if OfCallback(step) {
      ConservationKeptByCallback(s, step);
    } else {
      ConservationKeptByWorker(s, step);
    }
  }

  /** The frames stay frames of the stream when a sample is pushed. */
  lemma {:induction false} InOrderAfterPush(s: State, x: Sample)
    requires Shaped(s) && Indices(s) && Conservation(s) && InOrder(s) && Enabled(s, Push(x))
    ensures InOrder(Apply(s, Push(x)))
  {
  }

  lemma {:induction false} InOrderAfterPublish(s: State)
    requires Shaped(s) && Indices(s) && Conservation(s) && InOrder(s) && Enabled(s, Publish)
    ensures InOrder(Apply(s, Publish))
  {
  }

  lemma {:induction false} InOrderKeptByCallback(s: State, step: Step)
    requires Shaped(s) && Indices(s) && Conservation(s) && InOrder(s) && Enabled(s, step)
    requires OfCallback(step) && Conservation(Apply(s, step))
    ensures InOrder(Apply(s, step))
  {
    match step
    case Push(x) => InOrderAfterPush(s, x);
    case Publish => InOrderAfterPublish(s);
    case _ =>
  }

  lemma {:induction false} InOrderTransfers(s: State, t: State)
    requires Conservation(s) && InOrder(s) && SameProduction(s, t)
    ensures Conservation(t) && InOrder(t)
  {
  }

  lemma {:induction false} InOrderKept(s: State, step: Step)
    requires Shaped(s) && Indices(s) && Conservation(s) && InOrder(s) && Enabled(s, step)
    requires Conservation(Apply(s, step))
    ensures InOrder(Apply(s, step))
  {
    if OfCallback(step) {
      InOrderKeptByCallback(s, step);
    } else {
      WorkerLeavesProduction(s, step);
      InOrderTransfers(s, Apply(s, step));
    }
  }

  lemma {:induction false} FlagsKeptByCallback(s: State, step: Step)
    requires Shaped(s) && Indices(s) && Conservation(s) && Flags(s) && Enabled(s, step)
    requires OfCallback(step)
    requires Conservation(Apply(s, step))
    ensures Flags(Apply(s, step))
  {
  }

  lemma {:induction false} FlagsTransfer(s: State, t: State)
    requires Conservation(s) && Flags(s) && SameProduction(s, t)
    ensures Conservation(t) && Flags(t)
  {
  }

  lemma {:induction false} FlagsKeptByWorker(s: State, step: Step)
    requires Shaped(s) && Indices(s) && Conservation(s) && Flags(s) && Enabled(s, step)
    requires !OfCallback(step)
    requires Conservation(Apply(s, step))
    ensures Flags(Apply(s, step))
  {
    WorkerLeavesProduction(s, step);
    FlagsTransfer(s, Apply(s, step));
  }

  lemma {:induction false} FlagsKept(s: State, step: Step)
    requires Shaped(s) && Indices(s) && Conservation(s) && Flags(s) && Enabled(s, step)
    requires Conservation(Apply(s, step))
    ensures Flags(Apply(s, step))
  {
    if OfCallback(step) {
      FlagsKeptByCallback(s, step);
    } else {
      FlagsKeptByWorker(s, step);
    }
  }

  lemma {:induction false} SlotsApart(i: nat, j: nat)
    requires i < j < i + 4
    ensures SlotOf(i) != SlotOf(j)
  {
  }

  /** A copied sample lands in a slot that holds no published frame. */
  lemma {:induction false} SlotsAfterCopy(s: State)
    requires Shaped(s) && Indices(s) && Conservation(s) && SlotsHold(s) && Enabled(s, CopySample)
    ensures SlotsHold(Apply(s, CopySample))
  {
    var t, k, j := Apply(s, CopySample), SlotOf(s.writeIndex), s.producer.done;
    forall i | s.readIndex <= i < s.writeIndex
      ensures SlotOf(i) != k
    {
      SlotsApart(i, s.writeIndex);
    }
    assert t.slots[k][..j + 1] == s.slots[k][..j] + [s.partial[j]];
    assert s.partial[..j + 1] == s.partial[..j] + [s.partial[j]];
  }

  lemma {:induction false} SlotsAfterPublish(s: State)
    requires Shaped(s) && Indices(s) && Conservation(s) && SlotsHold(s) && Enabled(s, Publish)
    ensures SlotsHold(Apply(s, Publish))
  {
    var k := SlotOf(s.writeIndex);
    assert s.slots[k] == s.slots[k][..2048] && s.partial == s.partial[..2048];
  }

  lemma {:induction false} SlotsKeptByCallback(s: State, step: Step)
    requires Shaped(s) && Indices(s) && Conservation(s) && SlotsHold(s) && Enabled(s, step)
    requires OfCallback(step)
    requires Shaped(Apply(s, step)) && Conservation(Apply(s, step))
    ensures SlotsHold(Apply(s, step))
  {
    match step
    case CopySample => SlotsAfterCopy(s);
    case Publish => SlotsAfterPublish(s);
    case _ =>
  }

  lemma {:induction false} SlotsTransfer(s: State, t: State)
    requires Shaped(s) && Shaped(t) && Conservation(s) && SlotsHold(s) && SameProduction(s, t) && s.readIndex <= t.readIndex
    ensures Conservation(t) && SlotsHold(t)
  {
  }

  lemma {:induction false} SlotsKeptByWorker(s: State, step: Step)
    requires Shaped(s) && Indices(s) && Conservation(s) && SlotsHold(s) && Enabled(s, step)
    requires !OfCallback(step)
    requires Shaped(Apply(s, step)) && Conservation(Apply(s, step))
    ensures SlotsHold(Apply(s, step))
  {
    WorkerLeavesProduction(s, step);
    SlotsTransfer(s, Apply(s, step));
  }

  lemma {:induction false} SlotsKept(s: State, step: Step)
    requires Shaped(s) && Indices(s) && Conservation(s) && SlotsHold(s) && Enabled(s, step)
    requires Shaped(Apply(s, step)) && Conservation(Apply(s, step))
    ensures SlotsHold(Apply(s, step))
  {
    if OfCallback(step) {
      SlotsKeptByCallback(s, step);
    } else {
      SlotsKeptByWorker(s, step);
    }
  }

  lemma {:induction false} AnalysedKeptByCallback(s: State, step: Step)
    requires Shaped(s) && Indices(s) && Conservation(s) && SlotsHold(s) && AnalysedWhole(s) && Enabled(s, step)
    requires OfCallback(step)
    requires Conservation(Apply(s, step)) && Indices(Apply(s, step))
    ensures AnalysedWhole(Apply(s, step))
  {
  }

  lemma {:induction false} AnalysedAfterSample(s: State)
    requires Shaped(s) && Indices(s) && Conservation(s) && SlotsHold(s) && AnalysedWhole(s) && Enabled(s, AnalyseSample)
    ensures AnalysedWhole(Apply(s, AnalyseSample))
  {
  }

  lemma {:induction false} AnalysedAfterDone(s: State)
    requires Shaped(s) && Indices(s) && Conservation(s) && SlotsHold(s) && AnalysedWhole(s) && Enabled(s, AnalyseDone)
    ensures AnalysedWhole(Apply(s, AnalyseDone))
  {
  }

  lemma {:induction false} AnalysedAfterRelease(s: State)
    requires Shaped(s) && Indices(s) && Conservation(s) && AnalysedWhole(s) && Enabled(s, Release)
    requires Indices(Apply(s, Release))
    ensures AnalysedWhole(Apply(s, Release))
  {
  }

  lemma {:induction false} AnalysedAfterFlag(s: State, seen: bool)
    requires Shaped(s) && Indices(s) && Conservation(s) && AnalysedWhole(s) && Enabled(s, ReadFlag(seen))
    requires Indices(Apply(s, ReadFlag(seen)))
    ensures AnalysedWhole(Apply(s, ReadFlag(seen)))
  {
  }

  lemma {:induction false} AnalysedAfterMeter(s: State)
    requires Shaped(s) && Indices(s) && Conservation(s) && AnalysedWhole(s) && Enabled(s, MeterDone)
    requires Indices(Apply(s, MeterDone))
    ensures AnalysedWhole(Apply(s, MeterDone))
  {
    var t := Apply(s, MeterDone);
    assert t.current == [] && t.analysed == s.analysed && t.frames == s.frames && t.worker == Analysing;
  }

  lemma {:induction false} AnalysedElsewhere(s: State, step: Step)
    requires Shaped(s) && Indices(s) && Conservation(s) && AnalysedWhole(s) && Enabled(s, step)
    requires step.Poll? || step.MeterSample? || step.Exit? || step.RequestStop?
    requires Conservation(Apply(s, step)) && Indices(Apply(s, step))
    ensures AnalysedWhole(Apply(s, step))
  {
  }

  lemma {:induction false} AnalysedKeptByWorker(s: State, step: Step)
    requires Shaped(s) && Indices(s) && Conservation(s) && SlotsHold(s) && AnalysedWhole(s) && Enabled(s, step)
    requires !OfCallback(step)
    requires Conservation(Apply(s, step)) && Indices(Apply(s, step))
    ensures AnalysedWhole(Apply(s, step))
  {
    match step
    case AnalyseSample => AnalysedAfterSample(s);
    case AnalyseDone => AnalysedAfterDone(s);
    case Release => AnalysedAfterRelease(s);
    case ReadFlag(seen) => AnalysedAfterFlag(s, seen);
    case MeterDone => AnalysedAfterMeter(s);
    case _ => AnalysedElsewhere(s, step);
  }

  lemma {:induction false} AnalysedKept(s: State, step: Step)
    requires Shaped(s) && Indices(s) && Conservation(s) && SlotsHold(s) && AnalysedWhole(s) && Enabled(s, step)
    requires Conservation(Apply(s, step)) && Indices(Apply(s, step))
    ensures AnalysedWhole(Apply(s, step))
  {
    if OfCallback(step) {
      AnalysedKeptByCallback(s, step);
    } else {
      AnalysedKeptByWorker(s, step);
    }
  }

  lemma {:induction false} MeterAfterSample(s: State)
    requires Inv(s) && Enabled(s, MeterSample)
    ensures MeterContiguous(Apply(s, MeterSample))
  {
  }

  lemma {:induction false} MeterKeptByCallback(s: State, step: Step)
    requires Shaped(s) && Indices(s) && Conservation(s) && Flags(s) && MeterContiguous(s)
    requires OfCallback(step)
    requires Enabled(s, step) && step != MeterSample && Conservation(Apply(s, step))
    ensures MeterContiguous(Apply(s, step))
  {
  }

  lemma {:induction false} MeterAfterFlag(s: State, seen: bool)
    requires Shaped(s) && Indices(s) && Conservation(s) && Flags(s) && MeterContiguous(s)
    requires Enabled(s, ReadFlag(seen))
    ensures MeterContiguous(Apply(s, ReadFlag(seen)))
  {
  }

  lemma {:induction false} MeterAfterDone(s: State)
    requires Shaped(s) && Indices(s) && Conservation(s) && Flags(s) && MeterContiguous(s)
    requires Enabled(s, MeterDone)
    ensures MeterContiguous(Apply(s, MeterDone))
  {
    if s.windows + 1 >= 5 {
      assert Apply(s, MeterDone).metered == s.metered + 1;
    }
  }

  lemma {:induction false} MeterKeptInAnalysis(s: State, step: Step)
    requires Shaped(s) && Indices(s) && Conservation(s) && Flags(s) && MeterContiguous(s)
    requires Analyses(step) && Enabled(s, step) && Conservation(Apply(s, step))
    ensures MeterContiguous(Apply(s, step))
  {
  }

  lemma {:induction false} MeterKeptInControl(s: State, step: Step)
    requires Shaped(s) && Indices(s) && Conservation(s) && Flags(s) && MeterContiguous(s)
    requires !OfCallback(step) && !Meters(step) && !Analyses(step) && Enabled(s, step) && Conservation(Apply(s, step))
    ensures MeterContiguous(Apply(s, step))
  {
  }

  lemma {:induction false} MeterKeptByWorker(s: State, step: Step)
    requires Shaped(s) && Indices(s) && Conservation(s) && Flags(s) && MeterContiguous(s)
    requires !OfCallback(step)
    requires Enabled(s, step) && step != MeterSample && Conservation(Apply(s, step))
    ensures MeterContiguous(Apply(s, step))
  {
    match step
    case ReadFlag(seen) => MeterAfterFlag(s, seen);
    case MeterDone => MeterAfterDone(s);
    case _ =>
      if Analyses(step) {
        MeterKeptInAnalysis(s, step);
      } else {
        MeterKeptInControl(s, step);
      }
  }

  lemma {:induction false} MeterKept(s: State, step: Step)
    requires Shaped(s) && Indices(s) && Conservation(s) && Flags(s) && MeterContiguous(s)
    requires Enabled(s, step) && step != MeterSample && Conservation(Apply(s, step))
    ensures MeterContiguous(Apply(s, step))
  {
    if OfCallback(step) {
      MeterKeptByCallback(s, step);
    } else {
      MeterKeptByWorker(s, step);
    }
  }

  lemma {:induction false} PublishedAfterSample(s: State)
    requires Shaped(s) && Published(s) && Enabled(s, MeterSample)
    ensures Published(Apply(s, MeterSample))
  {
    var t := Apply(s, MeterSample);
    forall i | 0 <= i < |s.stored|
      ensures StoredFrom(t.measure, t.meter, t.stored[i], i)
    {
      assert StoredFrom(s.measure, s.meter, s.stored[i], i);
      assert t.meter[..10240 * (i + 1)] == s.meter[..10240 * (i + 1)];
    }
  }

  lemma {:induction false} PublishedAfterDone(s: State)
    requires Shaped(s) && Published(s) && Enabled(s, MeterDone) && |s.meter| == 2048 * s.metered + 2048
    ensures Published(Apply(s, MeterDone))
  {
    var t, n := Apply(s, MeterDone), |s.stored|;
    if s.windows == 4 {
      assert s.meter[..10240 * (n + 1)] == s.meter;
      assert StoredFrom(t.measure, t.meter, t.stored[n], n);
    }
  }

  lemma {:induction false} PublishedKept(s: State, step: Step)
    requires Shaped(s) && Indices(s) && Conservation(s) && MeterContiguous(s) && Published(s) && Enabled(s, step)
    ensures Published(Apply(s, step))
  {
    match step
    case MeterSample => PublishedAfterSample(s);
    case MeterDone => PublishedAfterDone(s);
    case _ =>
  }

  lemma {:induction false} StepKeepsInv(s: State, step: Step)
    requires Inv(s) && Enabled(s, step)
    ensures Inv(Apply(s, step))
  {
    IndicesKept(s, step);
    ConservationKept(s, step);
    InOrderKept(s, step);
    FlagsKept(s, step);
    SlotsKept(s, step);
    AnalysedKept(s, step);
    PublishedKept(s, step);
    if step == MeterSample {
      MeterAfterSample(s);
    } else {
      MeterKept(s, step);
    }
  }

  // ----- every run

  /** The i-th step of a run is enabled and leads to the next state. */
  ghost predicate StepAt(run: seq<State>, steps: seq<Step>, i: int)
    requires 0 <= i < |steps| < |run|
  {
    Shaped(run[i]) && Enabled(run[i], steps[i]) && run[i + 1] == Apply(run[i], steps[i])
  }

  /** A run of one session: states, each reached from the one before by an enabled step. */
  ghost predicate IsRun(run: seq<State>, steps: seq<Step>) {
    |run| == |steps| + 1 && Init(run[0]) && forall i :: 0 <= i < |steps| ==> StepAt(run, steps, i)
  }

  lemma {:induction false} RunKeepsInv(run: seq<State>, steps: seq<Step>, i: nat)
    requires IsRun(run, steps) && i < |run|
    ensures Inv(run[i])
    decreases i
  {
    if i == 0 {
      InitInv(run[0]);
    } else {
      RunKeepsInv(run, steps, i - 1);
      assert StepAt(run, steps, i - 1);
      StepKeepsInv(run[i - 1], steps[i - 1]);
    }
  }

  lemma {:induction false} RunKeepsIndices(run: seq<State>, steps: seq<Step>, i: nat)
    requires IsRun(run, steps) && i < |run|
    ensures Indices(run[i])
  {
    RunKeepsInv(run, steps, i);
  }

  /** The producer never writes into the slot that the worker is reading. */
  lemma {:induction false} NoSlotShared(run: seq<State>, steps: seq<Step>, i: nat)
    requires IsRun(run, steps) && i < |run|
    ensures run[i].producer.Copying? && (run[i].worker.Metering? || run[i].worker.Analysing?) ==>
              SlotOf(run[i].writeIndex) != SlotOf(run[i].readIndex)
  {
    RunKeepsIndices(run, steps, i);
    if run[i].readIndex < run[i].writeIndex < run[i].readIndex + 4 {
      SlotsApart(run[i].readIndex, run[i].writeIndex);
    }
  }

  /** The analyzer reads whole frames of the stream, in production order and none twice, and no sample is
      lost but those of the dropped frames. */
  lemma {:induction false} AnalysisReadsStream(run: seq<State>, steps: seq<Step>, i: nat)
    requires IsRun(run, steps) && i < |run|
    ensures var s := run[i];
            && |s.analysed| <= |s.numbers| == s.writeIndex
            && (forall k :: 0 <= k < |s.analysed| ==> IsFrame(s.pushed, s.numbers[k], s.analysed[k]))
            && (forall j, k :: 0 <= j < k < |s.analysed| ==> s.numbers[j] < s.numbers[k])
            && |s.pushed| == 2048 * (s.writeIndex + s.dropped) + |s.partial|
  {
    RunKeepsInv(run, steps, i);
  }

  /** What the loudness meter was fed is a gap-free prefix of the stream that never reaches the first
      dropped frame; and the n-th loudness value stored is the meter's reading of the first 5 (n + 1) frames of the
      stream, not one sample more or less. */
  lemma {:induction false} LoudnessIsContiguous(run: seq<State>, steps: seq<Step>, i: nat)
    requires IsRun(run, steps) && i < |run|
    ensures var s := run[i];
            && s.meter <= s.pushed
            && (s.dropped > 0 ==> |s.meter| <= 2048 * s.firstDrop)
            && (forall n :: 0 <= n < |s.stored| ==> StoredFrom(s.measure, s.pushed, s.stored[n], n))
    // the first dropped frame is the one numbered firstDrop: all before it were enqueued
    ensures var s := run[i];
            s.dropped > 0 ==> s.firstDrop <= |s.numbers| && forall k :: 0 <= k < s.firstDrop ==> s.numbers[k] == k
  {
    RunKeepsInv(run, steps, i);
    var s := run[i];
    forall n | 0 <= n < |s.stored|
      ensures StoredFrom(s.measure, s.pushed, s.stored[n], n)
    {
      assert StoredFrom(s.measure, s.meter, s.stored[n], n);
      assert s.pushed[..10240 * (n + 1)] == s.meter[..10240 * (n + 1)];
    }
  }

  /** The meter's reading is the same function in every state of a run. */
  lemma {:induction false} SameMeasure(run: seq<State>, steps: seq<Step>, i: nat)
    requires IsRun(run, steps) && i < |run|
    ensures run[i].measure == run[0].measure
    decreases i
  {
    if i > 0 {
      SameMeasure(run, steps, i - 1);
      assert StepAt(run, steps, i - 1);
      if OfCallback(steps[i - 1]) {
        CallbackLeavesConsumption(run[i - 1], steps[i - 1]);
      } else {
        WorkerLeavesProduction(run[i - 1], steps[i - 1]);
      }
    }
  }

  // ----- the queue as a bounded FIFO with drops

  datatype Fifo = Fifo(queue: seq<Frame>, delivered: seq<Frame>, lost: nat)

  /** The steps of the FIFO: stutter, accept a frame when there is room, lose one, deliver the oldest. */
  ghost predicate FifoStep(a: Fifo, b: Fifo) {
    || b == a
    || (exists f: Frame :: |a.queue| < 4 && b == a.(queue := a.queue + [f]))
    || b == a.(lost := a.lost + 1)
    || (|a.queue| > 0 && b == a.(queue := a.queue[1..], delivered := a.delivered + [a.queue[0]]))
  }

  ghost function Abstract(s: State): Fifo
    requires s.readIndex <= |s.frames|
  {
    Fifo(s.frames[s.readIndex..], s.frames[..s.readIndex], s.dropped)
  }

  lemma {:induction false} PublishRefines(s: State)
    requires Shaped(s) && Indices(s) && Conservation(s) && Enabled(s, Publish)
    ensures |Abstract(s).queue| < 4
    ensures Abstract(Apply(s, Publish)) == Abstract(s).(queue := Abstract(s).queue + [s.partial])
  {
  }

  lemma {:induction false} ReleaseRefines(s: State)
    requires Shaped(s) && Indices(s) && Conservation(s) && AnalysedWhole(s) && Enabled(s, Release)
    ensures var a := Abstract(s);
            && a.queue != [] && s.analysed[s.readIndex] == a.queue[0]
            && Abstract(Apply(s, Release)) == a.(queue := a.queue[1..], delivered := a.delivered + [a.queue[0]])
  {
  }

  lemma {:induction false} OtherStepsRefine(s: State, step: Step)
    requires Shaped(s) && Indices(s) && Conservation(s) && Enabled(s, step) && step != Publish && step != Release
    requires Conservation(Apply(s, step)) && Indices(Apply(s, step))
    ensures var a, b := Abstract(s), Abstract(Apply(s, step));
            b == if step == CountDrop then a.(lost := a.lost + 1) else a
  {
  }

  /** Every step of the two threads is a step of the FIFO, and it never holds more than 4 frames. */
  lemma {:induction false} StepRefinesFifo(s: State, step: Step)
    requires Inv(s) && Enabled(s, step)
    ensures Inv(Apply(s, step))
    ensures FifoStep(Abstract(s), Abstract(Apply(s, step))) && |Abstract(s).queue| <= 4
    // what is delivered is what the analyzer read
    ensures step == Release ==> Abstract(s).queue != [] && s.analysed[s.readIndex] == Abstract(s).queue[0]
  {
    StepKeepsInv(s, step);
    if step == Publish {
      PublishRefines(s);
    } else if step == Release {
      ReleaseRefines(s);
    } else {
      OtherStepsRefine(s, step);
    }
  }

  /** A frame is dropped only when the producer saw all four slots taken. */
  lemma {:induction false} DropOnlyWhenSeenFull(s: State, view: nat)
    requires Inv(s) && Enabled(s, LoadIndices(view))
    ensures Apply(s, LoadIndices(view)).producer.Dropping? <==> s.writeIndex == view + 4
    ensures view == s.readIndex ==>
              (Apply(s, LoadIndices(view)).producer.Dropping? <==> |Abstract(s).queue| == 4)
  {
  }
}
