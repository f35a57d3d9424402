/** What the two threads of the spectrum queue are sure to get done, stated on the steps of a run. */
module QueueProgress {
  import opened SpectrumQueue

  predicate OfWorker(step: Step) {
    !OfCallback(step) && !step.RequestStop?
  }

  // ----- the indices are counts of steps

  function Releases(steps: seq<Step>, n: nat): nat
    requires n <= |steps|
  {
    if n == 0 then 0 else Releases(steps, n - 1) + if steps[n - 1].Release? then 1 else 0
  }

  function Publications(steps: seq<Step>, n: nat): nat
    requires n <= |steps|
  {
    if n == 0 then 0 else Publications(steps, n - 1) + if steps[n - 1].Publish? then 1 else 0
  }

  lemma {:induction false} IndicesMove(s: State, step: Step)
    requires Shaped(s) && Enabled(s, step)
    ensures var t := Apply(s, step);
            && t.readIndex == s.readIndex + (if step.Release? then 1 else 0)
            && t.writeIndex == s.writeIndex + (if step.Publish? then 1 else 0)
  {
    if OfCallback(step) {
      CallbackLeavesConsumption(s, step);
    } else {
      WorkerLeavesProduction(s, step);
    }
  }

  lemma {:induction false} IndicesAreCounts(run: seq<State>, steps: seq<Step>, i: nat)
    requires IsRun(run, steps) && i < |run|
    ensures run[i].readIndex == Releases(steps, i) && run[i].writeIndex == Publications(steps, i)
    decreases i
  {
    if i > 0 {
      IndicesAreCounts(run, steps, i - 1);
      assert StepAt(run, steps, i - 1);
      IndicesMove(run[i - 1], steps[i - 1]);
    }
  }

  // ----- one turn of the worker

  predicate Busy(s: State) {
    !s.worker.Idle? && !s.worker.Waiting? && !s.worker.Exited?
  }

  /** After a poll the worker waits exactly if it saw no more frames than have been released, and else takes one up. */
  lemma {:induction false} PollTakesUp(run: seq<State>, steps: seq<Step>, i: nat)
    requires IsRun(run, steps) && i < |steps| && steps[i].Poll?
    ensures Releases(steps, i) <= steps[i].seenWrite <= Publications(steps, i)
    ensures run[i + 1].worker.Waiting? <==> steps[i].seenWrite == Releases(steps, i)
    ensures Busy(run[i + 1]) <==> steps[i].seenWrite > Releases(steps, i)
  {
    assert StepAt(run, steps, i);
    RunKeepsIndices(run, steps, i);
    IndicesAreCounts(run, steps, i);
  }

  /** A bound for the worker's steps until it releases the frame in hand. */
  function Turn(s: State): nat {
    match s.worker
    case Idle => 0
    case Waiting => 0
    case Exited => 0
    case Chosen => 4100
    case Metering(done) => if done <= 2048 then 2048 - done + 2051 else 2051
    case Analysing => if |s.current| <= 2048 then 2048 - |s.current| + 2 else 2
    case Releasing => 1
  }

  /** Every step of a busy worker but the release brings it nearer and leaves it busy; the release ends the turn. */
  lemma {:induction false} TurnGoesOn(s: State, step: Step)
    requires Shaped(s) && Enabled(s, step) && Busy(s) && OfWorker(step)
    ensures var t := Apply(s, step);
            if step.Release? then t.worker.Idle? && Turn(s) == 1 else Busy(t) && Turn(t) < Turn(s)
  {
  }

  lemma {:induction false} OthersLeaveTurn(s: State, step: Step)
    requires Shaped(s) && Enabled(s, step) && !OfWorker(step)
    ensures var t := Apply(s, step); t.worker == s.worker && t.current == s.current && !step.Release?
  {
    if OfCallback(step) {
      CallbackLeavesConsumption(s, step);
    }
  }

  /** While the flag is set nobody has seen it cleared, and every publication has seen it set. */
  ghost predicate Truthful(s: State) {
    s.contiguous ==> !s.sawGap && forall i :: 0 <= i < |s.flagAt| ==> s.flagAt[i]
  }

  lemma {:induction false} TruthfulKept(s: State, step: Step)
    requires Shaped(s) && Enabled(s, step) && Truthful(s)
    ensures Truthful(Apply(s, step))
  {
    if OfCallback(step) {
      CallbackLeavesConsumption(s, step);
    } else {
      WorkerLeavesProduction(s, step);
    }
  }

  lemma {:induction false} RunIsTruthful(run: seq<State>, steps: seq<Step>, i: nat)
    requires IsRun(run, steps) && i < |run|
    ensures Truthful(run[i])
    decreases i
  {
    if i > 0 {
      RunIsTruthful(run, steps, i - 1);
      assert StepAt(run, steps, i - 1);
      TruthfulKept(run[i - 1], steps[i - 1]);
    }
  }

  /** A busy worker is never stuck. */
  lemma {:induction false} BusyCanStep(s: State) returns (step: Step)
    requires Shaped(s) && Indices(s) && |s.flagAt| == s.writeIndex && Truthful(s) && Busy(s)
    ensures OfWorker(step) && Enabled(s, step)
  {
    match s.worker
    case Chosen => step := ReadFlag(s.contiguous);
    case Metering(done) => step := if done < 2048 then MeterSample else MeterDone;
    case Analysing => step := if |s.current| < 2048 then AnalyseSample else AnalyseDone;
    case Releasing => step := Release;
  }

  lemma {:induction false} RunCanStep(run: seq<State>, steps: seq<Step>, i: nat) returns (step: Step)
    requires IsRun(run, steps) && i < |run| && Busy(run[i])
    ensures OfWorker(step) && Enabled(run[i], step)
  {
    RunKeepsInv(run, steps, i);
    RunIsTruthful(run, steps, i);
    step := BusyCanStep(run[i]);
  }

  function WorkerSteps(steps: seq<Step>, i: nat, j: nat): nat
    requires i <= j <= |steps|
    decreases j
  {
    if i == j then 0 else WorkerSteps(steps, i, j - 1) + if OfWorker(steps[j - 1]) then 1 else 0
  }

  ghost predicate NoRelease(steps: seq<Step>, i: nat, j: nat)
    requires i <= j <= |steps|
  {
    forall k :: i <= k < j ==> !steps[k].Release?
  }

  /** Until it releases the frame the worker stays busy, and its steps are bounded. */
  lemma {:induction false} TurnIsBounded(run: seq<State>, steps: seq<Step>, i: nat, j: nat)
    requires IsRun(run, steps) && i <= j < |run| && Busy(run[i]) && NoRelease(steps, i, j)
    ensures Busy(run[j]) && WorkerSteps(steps, i, j) + Turn(run[j]) <= Turn(run[i])
    ensures Releases(steps, j) == Releases(steps, i)
    decreases j
  {
    if i < j {
      TurnIsBounded(run, steps, i, j - 1);
      assert StepAt(run, steps, j - 1);
      assert !steps[j - 1].Release?;
      if OfWorker(steps[j - 1]) {
        TurnGoesOn(run[j - 1], steps[j - 1]);
      } else {
        OthersLeaveTurn(run[j - 1], steps[j - 1]);
      }
    }
  }

  lemma {:induction false} FramesGrow(run: seq<State>, steps: seq<Step>, i: nat, j: nat)
    requires IsRun(run, steps) && i <= j < |run|
    ensures run[i].frames <= run[j].frames
    decreases j
  {
    if i < j {
      FramesGrow(run, steps, i, j - 1);
      assert StepAt(run, steps, j - 1);
      if !OfCallback(steps[j - 1]) {
        WorkerLeavesProduction(run[j - 1], steps[j - 1]);
      }
    }
  }

  /** What has been analysed are the first frames. */
  lemma {:induction false} AnalysedIsPrefix(run: seq<State>, steps: seq<Step>, i: nat)
    requires IsRun(run, steps) && i < |run|
    ensures var s := run[i];
            && |s.analysed| == Releases(steps, i) + (if s.worker.Releasing? then 1 else 0)
            && |s.analysed| <= |s.frames| == Publications(steps, i) && s.analysed == s.frames[..|s.analysed|]
  {
    RunKeepsInv(run, steps, i);
    IndicesAreCounts(run, steps, i);
  }

  /** A poll that sees an unreleased frame starts a turn. Until its release the worker is busy, never stuck, and takes
      fewer than 4100 steps; the release then ends the turn, with exactly the next frame added to what was analysed. */
  lemma {:induction false} TurnCompletes(run: seq<State>, steps: seq<Step>, i: nat, j: nat)
    requires IsRun(run, steps) && i < j <= |steps| && NoRelease(steps, i + 1, j)
    requires steps[i].Poll? && steps[i].seenWrite > Releases(steps, i)
    ensures Busy(run[j]) && WorkerSteps(steps, i + 1, j) < 4100
    ensures exists step :: OfWorker(step) && Enabled(run[j], step)
    ensures j < |steps| && steps[j].Release? ==>
              && run[j + 1].worker.Idle? && Releases(steps, j + 1) == Releases(steps, i) + 1
              && |run[i].analysed| < |run[j].frames|
              && run[j + 1].analysed == run[i].analysed + [run[j].frames[|run[i].analysed|]]
  {
    PollTakesUp(run, steps, i);
    assert StepAt(run, steps, i);
    TurnIsBounded(run, steps, i + 1, j);
    var step := RunCanStep(run, steps, j);
    if j < |steps| && steps[j].Release? {
      ReleaseEndsTurn(run, steps, i, j);
    }
  }

  lemma {:induction false} ReleaseEndsTurn(run: seq<State>, steps: seq<Step>, i: nat, j: nat)
    requires IsRun(run, steps) && i < j < |steps| && steps[j].Release? && steps[i].Poll?
    requires Releases(steps, j) == Releases(steps, i)
    ensures run[j + 1].worker.Idle? && Releases(steps, j + 1) == Releases(steps, i) + 1
    ensures |run[i].analysed| < |run[j].frames|
    ensures run[j + 1].analysed == run[i].analysed + [run[j].frames[|run[i].analysed|]]
  {
    assert StepAt(run, steps, i) && StepAt(run, steps, j);
    AnalysedIsPrefix(run, steps, i);
    AnalysedIsPrefix(run, steps, j);
    AnalysedIsPrefix(run, steps, j + 1);
    FramesGrow(run, steps, i, j);
    WorkerLeavesProduction(run[j], steps[j]);
    var r := |run[i].analysed|;
    assert run[j].frames[..r + 1] == run[j].frames[..r] + [run[j].frames[r]];
    assert run[i].frames[..r] == run[j].frames[..r];
  }

  // ----- nothing is left unmetered without a drop

  /** As long as no frame was dropped, a worker between two frames has metered all that it has analysed, and stored a value for every
      five frames of it. */
  lemma {:induction false} UndroppedIsMetered(run: seq<State>, steps: seq<Step>, i: nat)
    requires IsRun(run, steps) && i < |run|
    ensures var s := run[i];
            s.dropped == 0 && s.meterReady && !Busy(s) ==>
              && |s.meter| == 2048 * |s.analysed| && s.meter <= s.pushed
              && 5 * |s.stored| <= |s.analysed| < 5 * |s.stored| + 5
  {
    RunKeepsInv(run, steps, i);
    RunIsTruthful(run, steps, i);
  }

  // ----- shutdown

  lemma {:induction false} StopStays(run: seq<State>, steps: seq<Step>, r: nat, i: nat)
    requires IsRun(run, steps) && r < i < |run| && steps[r].RequestStop?
    ensures run[i].stop
    decreases i
  {
    assert StepAt(run, steps, i - 1);
    if r < i - 1 {
      StopStays(run, steps, r, i - 1);
    }
  }

  /** A step after the callback has gone: of the worker, polls see every publication, and a worker that has found the
      queue empty exits. */
  ghost predicate DrainStep(run: seq<State>, steps: seq<Step>, k: int)
    requires 0 <= k < |steps| < |run|
  {
    && OfWorker(steps[k])
    && (steps[k].Poll? ==> steps[k].seenWrite == Publications(steps, k))
    && (run[k].worker.Waiting? ==> steps[k].Exit?)
  }

  ghost predicate Drains(run: seq<State>, steps: seq<Step>, i: nat) {
    |steps| < |run| && forall k :: i <= k < |steps| ==> DrainStep(run, steps, k)
  }

  /** A bound for the steps left until the exit. */
  function Left(s: State): int {
    var queued := s.writeIndex - s.readIndex;
    match s.worker
    case Exited => 0
    case Waiting => 1
    case Idle => 4101 * queued + 2
    case _ => Turn(s) + 4101 * (queued - 1) + 2
  }

  lemma {:induction false} DrainAfterPoll(run: seq<State>, steps: seq<Step>, k: nat)
    requires IsRun(run, steps) && k < |steps| && DrainStep(run, steps, k) && steps[k].Poll?
    ensures Left(run[k + 1]) < Left(run[k])
  {
    assert StepAt(run, steps, k);
    RunKeepsIndices(run, steps, k);
    IndicesAreCounts(run, steps, k);
    WorkerLeavesProduction(run[k], steps[k]);
  }

  lemma {:induction false} DrainInTurn(run: seq<State>, steps: seq<Step>, k: nat)
    requires IsRun(run, steps) && k < |steps| && DrainStep(run, steps, k) && Busy(run[k])
    ensures Left(run[k + 1]) < Left(run[k])
  {
    assert StepAt(run, steps, k);
    TurnGoesOn(run[k], steps[k]);
    IndicesMove(run[k], steps[k]);
  }

  lemma {:induction false} DrainsOn(run: seq<State>, steps: seq<Step>, k: nat)
    requires IsRun(run, steps) && k < |steps| && DrainStep(run, steps, k)
    ensures Left(run[k + 1]) < Left(run[k])
  {
    assert StepAt(run, steps, k);
    if Busy(run[k]) {
      DrainInTurn(run, steps, k);
    } else if steps[k].Poll? {
      DrainAfterPoll(run, steps, k);
    } else {
      assert steps[k].Exit?;
    }
  }

  lemma {:induction false} DrainIsBounded(run: seq<State>, steps: seq<Step>, i: nat, k: nat)
    requires IsRun(run, steps) && Drains(run, steps, i) && i <= k <= |steps|
    ensures k - i + Left(run[k]) <= Left(run[i])
    decreases k
  {
    if i < k {
      DrainIsBounded(run, steps, i, k - 1);
      assert DrainStep(run, steps, k - 1);
      DrainsOn(run, steps, k - 1);
    }
  }

  lemma {:induction false} LeftIsBounded(run: seq<State>, steps: seq<Step>, k: nat)
    requires IsRun(run, steps) && k <= |steps|
    ensures 0 <= Left(run[k]) <= 4101 * (run[k].writeIndex - run[k].readIndex) + 2
  {
    RunKeepsInv(run, steps, k);
  }

  /** Once a stop has been requested and the callback has gone: however the worker goes on, it does so for at most 4101
      steps a queued frame and two more; until it has exited it is not stuck; and when it has, every frame ever published
      has been analysed, if and only if it was not already waiting, with a frame published since, when the callback
      went. */
  lemma {:induction false} ShutdownDrains(run: seq<State>, steps: seq<Step>, r: nat, i: nat)
    requires IsRun(run, steps) && r < i <= |steps| && steps[r].RequestStop? && Drains(run, steps, i)
    requires !run[i].worker.Exited?
    ensures |steps| - i <= 4101 * (Publications(steps, i) - Releases(steps, i)) + 2
    ensures var s := run[|steps|];
            if s.worker.Exited? then
              && |s.frames| == Publications(steps, i)
              && (s.analysed == s.frames <==> !(run[i].worker.Waiting? && Publications(steps, i) > Releases(steps, i)))
            else exists step :: OfWorker(step) && Enabled(s, step) && (s.worker.Waiting? ==> step.Exit?)
  {
    var n := |steps|;
    DrainIsBounded(run, steps, i, n);
    LeftIsBounded(run, steps, i);
    LeftIsBounded(run, steps, n);
    IndicesAreCounts(run, steps, i);
    if !run[n].worker.Exited? {
      var step := CanDrain(run, steps, r, n);
    } else if run[i].worker.Waiting? {
      WaitingExits(run, steps, i, n);
    } else {
      ExitLeavesNothing(run, steps, i, n);
    }
  }

  lemma {:induction false} WaitingExits(run: seq<State>, steps: seq<Step>, i: nat, n: nat)
    requires IsRun(run, steps) && Drains(run, steps, i) && i <= n == |steps| && run[i].worker.Waiting? && run[n].worker.Exited?
    ensures |run[n].frames| == Publications(steps, i) && |run[n].analysed| == Releases(steps, i)
    ensures run[n].analysed == run[n].frames <==> Publications(steps, i) == Releases(steps, i)
  {
    assert StepAt(run, steps, i) && DrainStep(run, steps, i);
    WaitsAfterPoll(run[i], steps[i]);
    assert i + 1 < n ==> StepAt(run, steps, i + 1) && DrainStep(run, steps, i + 1);
    assert n == i + 1;
    NoPublications(run, steps, i, n);
    AnalysedIsPrefix(run, steps, n);
  }

  lemma {:induction false} CanDrain(run: seq<State>, steps: seq<Step>, r: nat, n: nat) returns (step: Step)
    requires IsRun(run, steps) && r < n == |steps| && steps[r].RequestStop? && !run[n].worker.Exited?
    ensures OfWorker(step) && Enabled(run[n], step) && (run[n].worker.Waiting? ==> step.Exit?)
  {
    StopStays(run, steps, r, n);
    RunKeepsIndices(run, steps, n);
    if Busy(run[n]) {
      step := RunCanStep(run, steps, n);
    } else if run[n].worker.Waiting? {
      step := Exit;
    } else {
      step := Poll(run[n].writeIndex);
    }
  }

  lemma {:induction false} NoPublications(run: seq<State>, steps: seq<Step>, i: nat, k: nat)
    requires IsRun(run, steps) && Drains(run, steps, i) && i <= k <= |steps|
    ensures Publications(steps, k) == Publications(steps, i)
    decreases k
  {
    if i < k {
      NoPublications(run, steps, i, k - 1);
      assert DrainStep(run, steps, k - 1);
    }
  }

  /** Only a poll makes the worker wait, and only a waiting worker exits. */
  lemma {:induction false} WaitsAfterPoll(s: State, step: Step)
    requires Shaped(s) && Enabled(s, step) && OfWorker(step)
    ensures Apply(s, step).worker.Waiting? ==> step.Poll?
    ensures Apply(s, step).worker.Exited? <==> step.Exit?
    ensures step.Exit? ==> s.worker.Waiting? && s.stop
  {
  }

  /** The exit follows a poll that saw every publication released. */
  lemma {:induction false} ExitLeavesNothing(run: seq<State>, steps: seq<Step>, i: nat, n: nat)
    requires IsRun(run, steps) && Drains(run, steps, i) && i <= n <= |steps|
    requires !run[i].worker.Exited? && !run[i].worker.Waiting? && run[n].worker.Exited?
    ensures run[n].analysed == run[n].frames && |run[n].frames| == Publications(steps, i)
  {
    var k := n - 1;
    assert StepAt(run, steps, k) && DrainStep(run, steps, k);
    WaitsAfterPoll(run[k], steps[k]);
    assert StepAt(run, steps, k - 1) && DrainStep(run, steps, k - 1);
    WaitsAfterPoll(run[k - 1], steps[k - 1]);
    PollTakesUp(run, steps, k - 1);
    NoPublications(run, steps, i, n);
    NoPublications(run, steps, i, k - 1);
    AnalysedIsPrefix(run, steps, n);
  }

  /** In any run the worker exits only when a stop was requested and its last look found no frame unreleased. */
  lemma {:induction false} ExitIsAsked(run: seq<State>, steps: seq<Step>, k: nat)
    requires IsRun(run, steps) && k < |steps| && steps[k].Exit?
    ensures exists r: nat :: r < k && steps[r].RequestStop?
    ensures run[k].writeView == Releases(steps, k)
  {
    assert StepAt(run, steps, k);
    RunKeepsIndices(run, steps, k);
    IndicesAreCounts(run, steps, k);
    var r := StopWasRequested(run, steps, k);
  }

  lemma {:induction false} StopWasRequested(run: seq<State>, steps: seq<Step>, i: nat) returns (r: nat)
    requires IsRun(run, steps) && i < |run| && run[i].stop
    ensures r < i && steps[r].RequestStop?
    decreases i
  {
    assert i > 0 ==> StepAt(run, steps, i - 1);
    if i > 0 && run[i - 1].stop {
      r := StopWasRequested(run, steps, i - 1);
    } else {
      r := i - 1;
    }
  }

  // ----- the callback

  /** The callback is never made to wait: in every state one of its steps is enabled. */
  lemma {:induction false} CallbackNeverWaits(run: seq<State>, steps: seq<Step>, i: nat, x: Sample) returns (step: Step)
    requires IsRun(run, steps) && i < |run|
    ensures OfCallback(step) && Enabled(run[i], step)
  {
    RunKeepsInv(run, steps, i);
    var s := run[i];
    match s.producer
    case Filling => step := if |s.partial| < 2048 then Push(x) else LoadIndices(s.readIndex);
    case Copying(done) => step := if done < 2048 then CopySample else Publish;
    case Dropping => step := CountDrop;
    case Flagging => step := ClearFlag;
  }

  /** A bound for the callback's steps until the full frame is dealt with. */
  function FrameLeft(s: State): nat {
    match s.producer
    case Filling => if |s.partial| == 2048 then 2050 else 0
    case Copying(done) => if done <= 2048 then 2048 - done + 1 else 1
    case Dropping => 2
    case Flagging => 1
  }

  /** A full frame is dealt with in at most 2050 steps of the callback: each brings the end nearer, and at the end it has
      either been published, as it was filled, or counted as dropped. */
  lemma {:induction false} FrameIsDealtWith(s: State, step: Step)
    requires Inv(s) && Enabled(s, step) && OfCallback(step) && FrameLeft(s) > 0
    ensures var t := Apply(s, step);
            && FrameLeft(t) < FrameLeft(s)
            && (step.Publish? ==> t.frames == s.frames + [s.partial] && t.dropped == s.dropped)
            && (step.CountDrop? ==> t.frames == s.frames && t.dropped == s.dropped + 1)
            && (!step.Publish? && !step.CountDrop? ==> t.frames == s.frames && t.dropped == s.dropped)
            && (FrameLeft(t) == 0 ==> step.Publish? || step.ClearFlag?)
  {
  }

  // ----- a frame that is left

  /** One step more. */
  lemma {:induction false} Extend(run: seq<State>, steps: seq<Step>, step: Step)
    requires IsRun(run, steps) && Shaped(run[|steps|]) && Enabled(run[|steps|], step)
    ensures IsRun(run + [Apply(run[|steps|], step)], steps + [step])
  {
    var next, more := run + [Apply(run[|steps|], step)], steps + [step];
    forall i | 0 <= i < |more|
      ensures StepAt(next, more, i)
    {
      if i < |steps| {
        assert StepAt(run, steps, i);
      }
    }
  }

  /** The worker has found the empty queue, and the callback is at its first frame. */
  ghost predicate FirstFrame(s: State) {
    && Shaped(s) && s.worker.Waiting? && s.readIndex == 0 && s.readView == 0 && s.writeIndex == 0 && s.dropped == 0
    && s.frames == [] && s.analysed == []
  }

  lemma {:induction false} FillFrame(run: seq<State>, steps: seq<Step>, k: nat) returns (more: seq<State>, next: seq<Step>)
    requires IsRun(run, steps) && k <= 2048
    requires var s := run[|steps|]; FirstFrame(s) && s.producer.Filling? && |s.partial| == 2048 - k
    ensures IsRun(more, next) && var s := more[|next|]; FirstFrame(s) && s.producer.Filling? && |s.partial| == 2048
    decreases k
  {
    more, next := run, steps;
    if k > 0 {
      Extend(run, steps, Push(0.0));
      more, next := FillFrame(run + [Apply(run[|steps|], Push(0.0))], steps + [Push(0.0)], k - 1);
    }
  }

  lemma {:induction false} CopyFrame(run: seq<State>, steps: seq<Step>, k: nat) returns (more: seq<State>, next: seq<Step>)
    requires IsRun(run, steps) && k <= 2048
    requires var s := run[|steps|]; FirstFrame(s) && s.producer == Copying(2048 - k)
    ensures IsRun(more, next) && var s := more[|next|]; FirstFrame(s) && s.producer == Copying(2048)
    decreases k
  {
    more, next := run, steps;
    if k > 0 {
      Extend(run, steps, CopySample);
      more, next := CopyFrame(run + [Apply(run[|steps|], CopySample)], steps + [CopySample], k - 1);
    }
  }

  /** A failing input: the worker finds the queue empty, a frame is published, a stop is requested, and the worker exits
      with the frame never analysed. */
  lemma {:induction false} FrameCanBeLeft(start: State) returns (run: seq<State>, steps: seq<Step>)
    requires Init(start)
    ensures IsRun(run, steps)
    ensures var s := run[|steps|]; s.worker.Exited? && |s.frames| == 1 && s.analysed == []
  {
    run, steps := [start], [];
    Extend(run, steps, Poll(0));
    run, steps := run + [Apply(run[|steps|], Poll(0))], steps + [Poll(0)];
    run, steps := FillFrame(run, steps, 2048);
    Extend(run, steps, LoadIndices(0));
    run, steps := run + [Apply(run[|steps|], LoadIndices(0))], steps + [LoadIndices(0)];
    run, steps := CopyFrame(run, steps, 2048);
    Extend(run, steps, Publish);
    run, steps := run + [Apply(run[|steps|], Publish)], steps + [Publish];
    Extend(run, steps, RequestStop);
    run, steps := run + [Apply(run[|steps|], RequestStop)], steps + [RequestStop];
    Extend(run, steps, Exit);
    run, steps := run + [Apply(run[|steps|], Exit)], steps + [Exit];
  }
}
