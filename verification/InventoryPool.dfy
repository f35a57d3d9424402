/** The bounded worker pool that hashes the installation: a dispatcher, a few workers and a collector that
    communicate over channels, as a state machine over their steps. */
module InventoryPool {
  import opened VerifyRecords

  /** What hashing a file gives. */
  datatype Digest = Hashed(record: Record) | Unreadable

  type Digester = string -> Digest

  datatype Worker = Waiting | Hashing(path: string) | Sending(path: string) | Done

  /** The jobs channel is unbuffered: a path goes from the dispatcher straight to a waiting worker. The
      results channel buffers as many results as there are workers. */
  datatype State = State(
    pending: seq<string>,
    workers: seq<Worker>,
    jobsClosed: bool,
    results: seq<string>,
    resultsClosed: bool,
    collected: seq<string>,
    finished: bool)

  /** At least one worker, at most four, and never more than there are paths. */
  function WorkerCount(processors: nat, paths: nat): (w: nat)
    ensures w <= 4 && w <= paths && w <= processors && (w == 4 || w == paths || w == processors)
  {
    var w := if processors > 4 then 4 else processors;
    if w > paths then paths else w
  }

  function Start(paths: seq<string>, workers: nat): State {
    State(paths, seq(workers, _ => Waiting), false, [], false, [], false)
  }

  datatype Step =
    | Dispatch(w: nat)
    | CloseJobs
    | Hash(w: nat)
    | Send(w: nat)
    | Retire(w: nat)
    | CloseResults
    | Collect
    | Finish

  predicate AllDone(workers: seq<Worker>) {
    forall w :: 0 <= w < |workers| ==> workers[w].Done?
  }

  predicate Enabled(s: State, step: Step) {
    match step
    case Dispatch(w) => !s.jobsClosed && s.pending != [] && w < |s.workers| && s.workers[w].Waiting?
    case CloseJobs => !s.jobsClosed && s.pending == []
    case Hash(w) => w < |s.workers| && s.workers[w].Hashing?
    case Send(w) => w < |s.workers| && s.workers[w].Sending? && |s.results| < |s.workers|
    case Retire(w) => s.jobsClosed && w < |s.workers| && s.workers[w].Waiting?
    case CloseResults => s.jobsClosed && !s.resultsClosed && AllDone(s.workers)
    case Collect => s.results != [] && !s.finished
    case Finish => s.results == [] && s.resultsClosed && !s.finished
  }

  function Apply(s: State, step: Step): State
    requires Enabled(s, step)
  {
    match step
    case Dispatch(w) => s.(pending := s.pending[1..], workers := s.workers[w := Hashing(s.pending[0])])
    case CloseJobs => s.(jobsClosed := true)
    case Hash(w) => s.(workers := s.workers[w := Sending(s.workers[w].path)])
    case Send(w) => s.(workers := s.workers[w := Waiting], results := s.results + [s.workers[w].path])
    case Retire(w) => s.(workers := s.workers[w := Done])
    case CloseResults => s.(resultsClosed := true)
    case Collect => s.(results := s.results[1..], collected := s.collected + [s.results[0]])
    case Finish => s.(finished := true)
  }

  // ----- every path is in exactly one place

  predicate Holds(w: Worker, p: string) {
    (w.Hashing? || w.Sending?) && w.path == p
  }

  /** How many workers have path p in hand. */
  function InHand(workers: seq<Worker>, p: string): nat {
    if workers == [] then 0
    else InHand(workers[..|workers| - 1], p) + One(Holds(workers[|workers| - 1], p))
  }

  lemma {:induction false} InHandUpdate(workers: seq<Worker>, w: nat, x: Worker, p: string)
    requires w < |workers|
    ensures InHand(workers[w := x], p) + One(Holds(workers[w], p)) == InHand(workers, p) + One(Holds(x, p))
    decreases |workers|
  {
    var n := |workers| - 1;
    if w < n {
      InHandUpdate(workers[..n], w, x, p);
      assert workers[w := x][..n] == workers[..n][w := x];
    } else {
      assert workers[w := x][..n] == workers[..n];
    }
  }

  lemma {:induction false} NoneInHand(workers: seq<Worker>, p: string)
    requires forall w :: 0 <= w < |workers| ==> workers[w].Waiting? || workers[w].Done?
    ensures InHand(workers, p) == 0
    decreases |workers|
  {
    if workers != [] {
      NoneInHand(workers[..|workers| - 1], p);
    }
  }

  function Occurrences(s: seq<string>, p: string): nat {
    multiset(s)[p]
  }

  /** In how many places path p is: pending, in a worker's hands, in the results channel, collected. */
  function Places(s: State, p: string): nat {
    Occurrences(s.pending, p) + InHand(s.workers, p) + Occurrences(s.results, p) + Occurrences(s.collected, p)
  }

  lemma {:induction false} FirstOccurrence(s: seq<string>, p: string)
    requires s != []
    ensures Occurrences(s, p) == Occurrences(s[1..], p) + One(s[0] == p)
  {
    assert s == [s[0]] + s[1..];
  }

  lemma {:induction false} LastOccurrence(s: seq<string>, x: string, p: string)
    ensures Occurrences(s + [x], p) == Occurrences(s, p) + One(x == p)
  {
  }

  /** No step loses a path or duplicates one. */
  lemma {:induction false} StepKeepsPlaces(s: State, step: Step, p: string)
    requires Enabled(s, step)
    ensures Places(Apply(s, step), p) == Places(s, p)
  {
    match step
    case Dispatch(w) =>
      InHandUpdate(s.workers, w, Hashing(s.pending[0]), p);
      FirstOccurrence(s.pending, p);
    case Hash(w) => InHandUpdate(s.workers, w, Sending(s.workers[w].path), p);
    case Send(w) =>
      InHandUpdate(s.workers, w, Waiting, p);
      LastOccurrence(s.results, s.workers[w].path, p);
    case Retire(w) => InHandUpdate(s.workers, w, Done, p);
    case Collect =>
      FirstOccurrence(s.results, p);
      LastOccurrence(s.collected, s.results[0], p);
    case _ =>
  }

  // ----- the control invariant

  ghost predicate Inv(s: State, workers: nat) {
    && |s.workers| == workers > 0
    && |s.results| <= workers
    && (s.jobsClosed ==> s.pending == [])
    && (forall w :: 0 <= w < |s.workers| && s.workers[w].Done? ==> s.jobsClosed)
    && (s.resultsClosed ==> s.jobsClosed && AllDone(s.workers))
    && (s.finished ==> s.resultsClosed && s.results == [])
  }

  lemma {:induction false} StepKeepsInv(s: State, step: Step, workers: nat)
    requires Inv(s, workers) && Enabled(s, step)
    ensures Inv(Apply(s, step), workers)
  {
  }

  /** The pool never deadlocks: until the collector has finished, somebody can move. */
  lemma {:induction false} NeverStuck(s: State, workers: nat) returns (step: Step)
    requires Inv(s, workers) && !s.finished
    ensures Enabled(s, step)
  {
    if s.results != [] {
      step := Collect;
    } else if w :| 0 <= w < |s.workers| && s.workers[w].Hashing? {
      step := Hash(w);
    } else if w :| 0 <= w < |s.workers| && s.workers[w].Sending? {
      step := Send(w);
    } else if !s.jobsClosed {
      step := if s.pending == [] then CloseJobs else Dispatch(0);
    } else if w :| 0 <= w < |s.workers| && s.workers[w].Waiting? {
      step := Retire(w);
    } else {
      step := if s.resultsClosed then Finish else CloseResults;
    }
  }

  // ----- every schedule has the same length

  function WorkLeft(w: Worker): nat {
    match w
    case Waiting => 1
    case Hashing(_) => 4
    case Sending(_) => 3
    case Done => 0
  }

  function WorkOf(workers: seq<Worker>): nat {
    if workers == [] then 0 else WorkOf(workers[..|workers| - 1]) + WorkLeft(workers[|workers| - 1])
  }

  lemma {:induction false} WorkUpdate(workers: seq<Worker>, w: nat, x: Worker)
    requires w < |workers|
    ensures WorkOf(workers[w := x]) + WorkLeft(workers[w]) == WorkOf(workers) + WorkLeft(x)
    decreases |workers|
  {
    var n := |workers| - 1;
    if w < n {
      WorkUpdate(workers[..n], w, x);
      assert workers[w := x][..n] == workers[..n][w := x];
    } else {
      assert workers[w := x][..n] == workers[..n];
    }
  }

  function One(b: bool): nat { if b then 1 else 0 }

  /** The steps still to come. */
  function StepsLeft(s: State): nat {
    4 * |s.pending| + WorkOf(s.workers) + |s.results| + One(!s.jobsClosed) + One(!s.resultsClosed) + One(!s.finished)
  }

  lemma {:induction false} StepCountsDown(s: State, step: Step)
    requires Enabled(s, step)
    ensures StepsLeft(Apply(s, step)) == StepsLeft(s) - 1
  {
    match step
    case Dispatch(w) => WorkUpdate(s.workers, w, Hashing(s.pending[0]));
    case Hash(w) => WorkUpdate(s.workers, w, Sending(s.workers[w].path));
    case Send(w) => WorkUpdate(s.workers, w, Waiting);
    case Retire(w) => WorkUpdate(s.workers, w, Done);
    case _ =>
  }

  lemma {:induction false} WorkAtStart(n: nat)
    ensures WorkOf(seq(n, _ => Waiting)) == n
    decreases n
  {
    if n > 0 {
      WorkAtStart(n - 1);
      assert seq(n, _ => Waiting)[..n - 1] == seq(n - 1, _ => Waiting);
    }
  }

  // ----- runs

  ghost predicate IsRun(paths: seq<string>, workers: nat, run: seq<State>, steps: seq<Step>) {
    && |run| == |steps| + 1 && run[0] == Start(paths, workers)
    && (forall i :: 0 <= i < |steps| ==> Enabled(run[i], steps[i]) && run[i + 1] == Apply(run[i], steps[i]))
  }

  lemma {:induction false} RunInvariant(paths: seq<string>, workers: nat, run: seq<State>, steps: seq<Step>, i: nat)
    requires IsRun(paths, workers, run, steps) && workers > 0 && i < |run|
    ensures Inv(run[i], workers)
    ensures forall p :: Places(run[i], p) == Occurrences(paths, p)
    ensures StepsLeft(run[i]) + i == 4 * |paths| + workers + 3
    decreases i
  {
    if i == 0 {
      WorkAtStart(workers);
      forall p
        ensures Places(run[0], p) == Occurrences(paths, p)
      {
        NoneInHand(run[0].workers, p);
      }
    } else {
      RunInvariant(paths, workers, run, steps, i - 1);
      StepKeepsInv(run[i - 1], steps[i - 1], workers);
      StepCountsDown(run[i - 1], steps[i - 1]);
      forall p
        ensures Places(run[i], p) == Occurrences(paths, p)
      {
        StepKeepsPlaces(run[i - 1], steps[i - 1], p);
      }
    }
  }

  /** A run that cannot go on has finished, after exactly four steps a path, one a worker and three more,
      and has collected every path exactly once. */
  lemma {:induction false} MaximalRunFinishes(paths: seq<string>, workers: nat, run: seq<State>, steps: seq<Step>)
    requires IsRun(paths, workers, run, steps) && workers > 0
    requires forall step :: !Enabled(run[|steps|], step)
    ensures var s := run[|steps|]; s.finished && multiset(s.collected) == multiset(paths)
    ensures |steps| == 4 * |paths| + workers + 3
  {
    var s := run[|steps|];
    RunInvariant(paths, workers, run, steps, |steps|);
    if !s.finished {
      var step := NeverStuck(s, workers);
    }
    FinishedState(s, workers);
    assert forall p :: multiset(s.collected)[p] == Places(s, p);
  }

  lemma {:induction false} FinishedState(s: State, workers: nat)
    requires Inv(s, workers) && s.finished
    ensures StepsLeft(s) == 0 && forall p :: Places(s, p) == Occurrences(s.collected, p)
  {
    WorkOfDone(s.workers);
    forall p
      ensures Places(s, p) == Occurrences(s.collected, p)
    {
      NoneInHand(s.workers, p);
    }
  }

  lemma {:induction false} WorkOfDone(workers: seq<Worker>)
    requires AllDone(workers)
    ensures WorkOf(workers) == 0
    decreases |workers|
  {
    if workers != [] {
      WorkOfDone(workers[..|workers| - 1]);
    }
  }

  // ----- the inventory

  /** The records of the paths that could be hashed, in order. */
  function Records(digest: Digester, paths: seq<string>): seq<Record> {
    if paths == [] then []
    else
      var n := |paths| - 1;
      Records(digest, paths[..n]) + match digest(paths[n]) case Hashed(r) => [r] case Unreadable => []
  }

  ghost predicate AllReadable(digest: Digester, paths: seq<string>) {
    forall p :: p in paths ==> digest(p).Hashed?
  }

  /** The inventory that hashing the paths one after the other would give. */
  ghost function SerialInventory(digest: Digester, paths: seq<string>): Inventory {
    if AllReadable(digest, paths) then Collected(Canonical(Records(digest, paths))) else Failed
  }

  /** The i-th result is the first one that failed, and it is that of this path. */
  ghost predicate FirstFailure(digest: Digester, results: seq<string>, i: nat, path: string) {
    i < |results| && results[i] == path && digest(path).Unreadable? && AllReadable(digest, results[..i])
  }

  /** The collector's loop over the results in arrival order. */
  method CollectResults(digest: Digester, results: seq<string>) returns (inventory: Inventory, firstError: string)
    ensures inventory == SerialInventory(digest, results)
    ensures inventory.Failed? ==> exists i: nat :: FirstFailure(digest, results, i, firstError)
  {
    var records, failed := [], false;
    firstError := "";
    for i := 0 to |results|
      invariant records == Records(digest, results[..i])
      invariant !failed <==> AllReadable(digest, results[..i])
      invariant failed ==> exists k: nat :: k < i && FirstFailure(digest, results, k, firstError)
    {
      assert results[..i + 1] == results[..i] + [results[i]];
      assert results[..i + 1][..i] == results[..i];
      match digest(results[i])
      case Unreadable =>
        if !failed {
          failed, firstError := true, results[i];
          assert FirstFailure(digest, results, i, firstError);
        }
      case Hashed(r) =>
        records := records + [r];
    }
    assert results[..|results|] == results;
    inventory := if failed then Failed else Collected(Canonical(records));
  }

  lemma {:induction false} RecordsConcat(digest: Digester, a: seq<string>, b: seq<string>)
    ensures Records(digest, a + b) == Records(digest, a) + Records(digest, b)
    decreases |b|
  {
    if b == [] {
      assert a + b == a;
    } else {
      var n := |b| - 1;
      RecordsConcat(digest, a, b[..n]);
      assert (a + b)[..|a| + n] == a + b[..n];
    }
  }

  /** Removing one occurrence of x. */
  lemma {:induction false} RemoveOne(b: seq<string>, x: string) returns (front: seq<string>, back: seq<string>)
    requires x in b
    ensures b == front + [x] + back && |front + back| == |b| - 1
    ensures multiset(front + back) == multiset(b) - multiset{x}
  {
    var i :| 0 <= i < |b| && b[i] == x;
    front, back := b[..i], b[i + 1..];
    assert b == front + [x] + back;
  }

  lemma {:induction false} RecordsUpToOrder(digest: Digester, a: seq<string>, b: seq<string>)
    requires multiset(a) == multiset(b)
    ensures multiset(Records(digest, a)) == multiset(Records(digest, b))
    decreases |a|
  {
    if a == [] {
      assert |multiset(b)| == |b|;
    } else {
      var n := |a| - 1;
      var x := a[n];
      assert a == a[..n] + [x];
      assert x in multiset(b);
      var front, back := RemoveOne(b, x);
      assert multiset(a[..n]) == multiset(a) - multiset{x};
      RecordsUpToOrder(digest, a[..n], front + back);
      MoveLast(digest, front, x, back);
      RecordsConcat(digest, front + back, [x]);
      RecordsConcat(digest, a[..n], [x]);
    }
  }

  lemma {:induction false} MoveLast(digest: Digester, a: seq<string>, x: string, b: seq<string>)
    ensures multiset(Records(digest, a + [x] + b)) == multiset(Records(digest, a + b + [x]))
  {
    RecordsConcat(digest, a + [x], b);
    RecordsConcat(digest, a, [x]);
    RecordsConcat(digest, a + b, [x]);
    RecordsConcat(digest, a, b);
  }

  /** If every path can be hashed, the records are those of the paths, one each and in order. */
  lemma {:induction false} RecordsOfReadable(digest: Digester, paths: seq<string>)
    requires AllReadable(digest, paths)
    ensures |Records(digest, paths)| == |paths|
    ensures forall i :: 0 <= i < |paths| ==> digest(paths[i]) == Hashed(Records(digest, paths)[i])
    decreases |paths|
  {
    if paths != [] {
      var n := |paths| - 1;
      assert paths == paths[..n] + [paths[n]];
      RecordsOfReadable(digest, paths[..n]);
      forall i | 0 <= i < n
        ensures digest(paths[i]) == Hashed(Records(digest, paths)[i])
      {
        assert paths[..n][i] == paths[i];
      }
    }
  }

  /** An inventory that is returned is sorted by path and holds exactly the digests of the paths. */
  lemma {:induction false} InventoryIsOfPaths(digest: Digester, paths: seq<string>)
    requires SerialInventory(digest, paths).Collected?
    ensures var records := SerialInventory(digest, paths).records;
            && Sorted(records) && |records| == |paths|
            && (forall p :: p in paths ==> digest(p).Hashed? && digest(p).record in records)
            && (forall r :: r in records ==> exists p :: p in paths && digest(p) == Hashed(r))
  {
    var all, records := Records(digest, paths), SerialInventory(digest, paths).records;
    RecordsOfReadable(digest, paths);
    CanonicalSorted(all);
    CanonicalContents(all);
    forall p | p in paths
      ensures digest(p).Hashed? && digest(p).record in records
    {
      var i :| 0 <= i < |paths| && paths[i] == p;
      assert all[i] in multiset(records);
    }
    forall r | r in records
      ensures exists p :: p in paths && digest(p) == Hashed(r)
    {
      assert r in multiset(all);
      var i :| 0 <= i < |all| && all[i] == r;
      assert paths[i] in paths;
    }
  }

  /** Whatever the schedule, the pool returns the sorted serial inventory, and an error exactly when some
      path cannot be hashed. */
  lemma {:induction false} PoolEqualsSerial(digest: Digester, paths: seq<string>, workers: nat, run: seq<State>, steps: seq<Step>)
    requires IsRun(paths, workers, run, steps) && workers > 0
    requires forall step :: !Enabled(run[|steps|], step)
    requires Distinct(Records(digest, paths))
    ensures SerialInventory(digest, run[|steps|].collected) == SerialInventory(digest, paths)
    ensures SerialInventory(digest, run[|steps|].collected).Failed? <==>
              exists p :: p in paths && digest(p).Unreadable?
  {
    var collected := run[|steps|].collected;
    MaximalRunFinishes(paths, workers, run, steps);
    assert forall p :: p in paths <==> p in multiset(paths);
    assert forall p :: p in collected <==> p in multiset(collected);
    RecordsUpToOrder(digest, paths, collected);
    ComparisonIgnoresOrder(Records(digest, paths), Records(digest, collected));
  }

  /** The pool that is started, with as many workers as `WorkerCount` gives on any machine: it finishes, and its
      inventory is the serial one. */
  lemma {:induction false} StartedPool(digest: Digester, paths: seq<string>, processors: nat, run: seq<State>, steps: seq<Step>)
    requires processors > 0 && paths != [] && IsRun(paths, WorkerCount(processors, |paths|), run, steps)
    requires forall step :: !Enabled(run[|steps|], step)
    requires Distinct(Records(digest, paths))
    ensures run[|steps|].finished && 4 * |paths| + 4 <= |steps| <= 4 * |paths| + 7
    ensures SerialInventory(digest, run[|steps|].collected) == SerialInventory(digest, paths)
  {
    var workers := WorkerCount(processors, |paths|);
    MaximalRunFinishes(paths, workers, run, steps);
    PoolEqualsSerial(digest, paths, workers, run, steps);
  }
}
