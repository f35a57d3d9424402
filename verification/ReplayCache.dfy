/** The replay cache of the command protocol. */
module ReplayCache {

  /** Clock readings, in nanoseconds. */
  type Time = int

  const CLOCK_SKEW: int := 30_000_000_000
  const MAX_REPLAY_NONCES: int := 4096

  /** Expiry times by nonce. */
  type Cache = map<string, Time>

  /** The entries whose expiry time has not passed. */
  function Unexpired(cache: Cache, now: Time): Cache {
    map k | k in cache && now <= cache[k] :: cache[k]
  }

  predicate Accepts(cache: Cache, nonce: string, now: Time) {
    nonce !in Unexpired(cache, now) && |Unexpired(cache, now)| < MAX_REPLAY_NONCES
  }

  /** The cache after one call. */
  function Consume(cache: Cache, nonce: string, now: Time): Cache {
    var live := Unexpired(cache, now);
    if Accepts(cache, nonce, now) then live[nonce := now + CLOCK_SKEW] else live
  }

  class ReplayNonces {
    var nonces: Cache

    constructor ()
      ensures nonces == map[]
    {
      nonces := map[];
    }

    /** Purge, then accept a nonce unless it is still cached or the cache is full. */
    method ConsumeNonce(nonce: string, now: Time) returns (accepted: bool)
      modifies this
      ensures accepted == Accepts(old(nonces), nonce, now)
      ensures nonces == Consume(old(nonces), nonce, now)
    {
      var keys := nonces.Keys;
      while keys != {}
        invariant keys <= nonces.Keys <= old(nonces).Keys
        invariant forall k :: k in nonces ==> nonces[k] == old(nonces)[k]
        invariant forall k :: k in old(nonces) && k !in keys ==> (k in nonces <==> now <= old(nonces)[k])
        invariant forall k :: k in keys ==> k in nonces
        decreases |keys|
      {
        var key :| key in keys;
        if now > nonces[key] {
          nonces := nonces - {key};
        }
        keys := keys - {key};
      }
      assert nonces == Unexpired(old(nonces), now);
      if nonce in nonces {
        return false;
      }
      if |nonces| >= MAX_REPLAY_NONCES {
        return false;
      }
      nonces := nonces[nonce := now + CLOCK_SKEW];
      return true;
    }
  }

  // ----- the cache as a window on the log of accepted nonces

  datatype Entry = Entry(nonce: string, at: Time)

  ghost predicate Logged(log: seq<Entry>, nonce: string, expiry: Time) {
    exists i :: 0 <= i < |log| && log[i] == Entry(nonce, expiry - CLOCK_SKEW)
  }

  /** The cache holds exactly the nonces accepted at most 30 s before t, with their expiry times. */
  ghost predicate WindowOf(cache: Cache, log: seq<Entry>, t: Time) {
    && (forall i :: 0 <= i < |log| ==> log[i].at <= t)
    && (forall i :: 0 <= i < |log| && t <= log[i].at + CLOCK_SKEW ==>
          log[i].nonce in cache && cache[log[i].nonce] == log[i].at + CLOCK_SKEW)
    && (forall k :: k in cache ==> t <= cache[k] && Logged(log, k, cache[k]))
    && |cache| <= MAX_REPLAY_NONCES
  }

  lemma {:induction false} UnexpiredFits(cache: Cache, now: Time)
    ensures |Unexpired(cache, now)| <= |cache|
  {
    assert Unexpired(cache, now).Keys <= cache.Keys;
    SubsetSize(Unexpired(cache, now).Keys, cache.Keys);
    assert |cache.Keys| == |cache|;
    assert |Unexpired(cache, now).Keys| == |Unexpired(cache, now)|;
  }

  lemma {:induction false} SubsetSize(a: set<string>, b: set<string>)
    requires a <= b
    ensures |a| <= |b|
    decreases |a|
  {
    if a != {} {
      var x :| x in a;
      SubsetSize(a - {x}, b - {x});
    }
  }

  lemma {:induction false} PurgeKeepsWindow(cache: Cache, log: seq<Entry>, t: Time, now: Time)
    requires WindowOf(cache, log, t) && t <= now
    ensures WindowOf(Unexpired(cache, now), log, now)
  {
    UnexpiredFits(cache, now);
  }

  function Extend(log: seq<Entry>, cache: Cache, nonce: string, now: Time): seq<Entry> {
    if Accepts(cache, nonce, now) then log + [Entry(nonce, now)] else log
  }

  /** A call at a time not before the last one keeps the cache a window on the log. */
  lemma {:induction false} ConsumeKeepsWindow(cache: Cache, log: seq<Entry>, t: Time, nonce: string, now: Time)
    requires WindowOf(cache, log, t) && t <= now
    ensures WindowOf(Consume(cache, nonce, now), Extend(log, cache, nonce, now), now)
  {
    PurgeKeepsWindow(cache, log, t, now);
    if Accepts(cache, nonce, now) {
      AddToWindow(Unexpired(cache, now), log, nonce, now);
    }
  }

  /** Accepted within the last 30 s. */
  ghost predicate RecentlyAccepted(log: seq<Entry>, nonce: string, now: Time) {
    exists i :: 0 <= i < |log| && log[i].nonce == nonce && now <= log[i].at + CLOCK_SKEW
  }

  /** A nonce is refused exactly when it was accepted in the last 30 s or the window is full: a live nonce
      is never evicted to make room. */
  lemma {:induction false} RefusedExactly(cache: Cache, log: seq<Entry>, t: Time, nonce: string, now: Time)
    requires WindowOf(cache, log, t) && t <= now
    ensures !Accepts(cache, nonce, now) <==>
              RecentlyAccepted(log, nonce, now) || |Unexpired(cache, now)| == MAX_REPLAY_NONCES
  {
    PurgeKeepsWindow(cache, log, t, now);
    var live := Unexpired(cache, now);
    if nonce in live {
      assert Logged(log, nonce, live[nonce]);
      var i :| 0 <= i < |log| && log[i] == Entry(nonce, live[nonce] - CLOCK_SKEW);
      assert now <= log[i].at + CLOCK_SKEW;
    }
  }

  lemma {:induction false} AddToWindow(live: Cache, log: seq<Entry>, nonce: string, now: Time)
    requires WindowOf(live, log, now) && nonce !in live && |live| < MAX_REPLAY_NONCES
    ensures WindowOf(live[nonce := now + CLOCK_SKEW], log + [Entry(nonce, now)], now)
  {
    var log', cache := log + [Entry(nonce, now)], live[nonce := now + CLOCK_SKEW];
    forall k | k in cache
      ensures now <= cache[k] && Logged(log', k, cache[k])
    {
      if k == nonce {
        assert log'[|log|] == Entry(k, cache[k] - CLOCK_SKEW);
      } else {
        assert Logged(log, k, live[k]);
        var i :| 0 <= i < |log| && log[i] == Entry(k, live[k] - CLOCK_SKEW);
        assert log'[i] == log[i];
      }
    }
    assert |cache| == |live| + 1;
  }

  // ----- every run of calls, in whatever order their clocks were read

  datatype Call = Call(nonce: string, now: Time)

  /** The cache after the first n calls. */
  function CacheAfter(calls: seq<Call>, n: nat): Cache
    requires n <= |calls|
  {
    if n == 0 then map[] else Consume(CacheAfter(calls, n - 1), calls[n - 1].nonce, calls[n - 1].now)
  }

  /** The nonces accepted by the first n calls. */
  function LogOf(calls: seq<Call>, n: nat): seq<Entry>
    requires n <= |calls|
  {
    if n == 0 then []
    else Extend(LogOf(calls, n - 1), CacheAfter(calls, n - 1), calls[n - 1].nonce, calls[n - 1].now)
  }

  predicate AcceptedAt(calls: seq<Call>, i: int)
    requires 0 <= i < |calls|
  {
    Accepts(CacheAfter(calls, i), calls[i].nonce, calls[i].now)
  }

  /** Whether some call after the i-th, up to and including the j-th, read the clock more than 30 s after it. */
  ghost predicate ReadPast(calls: seq<Call>, i: int, j: int)
    requires 0 <= i <= j < |calls|
  {
    exists k :: i < k <= j && calls[k].now > calls[i].now + CLOCK_SKEW
  }

  /** The entry of a nonce after one call that does not accept it. */
  lemma {:induction false} CachedOneMore(cache: Cache, nonce: string, call: Call)
    requires nonce == call.nonce ==> !Accepts(cache, nonce, call.now)
    ensures var next := Consume(cache, call.nonce, call.now);
            && (nonce in next <==> nonce in cache && call.now <= cache[nonce])
            && (nonce in next ==> next[nonce] == cache[nonce])
  {
  }

  /** A cached nonce stays cached while no call reads the clock past its expiry. */
  lemma {:induction false} StaysCached(calls: seq<Call>, nonce: string, expiry: Time, i: nat, j: nat)
    requires i <= j <= |calls| && nonce in CacheAfter(calls, i) && CacheAfter(calls, i)[nonce] == expiry
    requires forall k :: i <= k < j ==> calls[k].now <= expiry
    ensures nonce in CacheAfter(calls, j) && CacheAfter(calls, j)[nonce] == expiry
    decreases j
  {
    if i < j {
      StaysCached(calls, nonce, expiry, i, j - 1);
      CachedOneMore(CacheAfter(calls, j - 1), nonce, calls[j - 1]);
    }
  }

  /** No call from the i-th on, before the j-th, accepted this nonce. */
  ghost predicate NotAccepted(calls: seq<Call>, nonce: string, i: int, j: int)
    requires 0 <= i <= j <= |calls|
  {
    forall k :: i <= k < j && calls[k].nonce == nonce ==> !AcceptedAt(calls, k)
  }

  /** A nonce that is not cached and not accepted stays out of the cache. */
  lemma {:induction false} StaysOut(calls: seq<Call>, nonce: string, i: nat, j: nat)
    requires i <= j <= |calls| && nonce !in CacheAfter(calls, i) && NotAccepted(calls, nonce, i, j)
    ensures nonce !in CacheAfter(calls, j)
    decreases j
  {
    if i < j {
      StaysOut(calls, nonce, i, j - 1);
      CachedOneMore(CacheAfter(calls, j - 1), nonce, calls[j - 1]);
    }
  }

  /** A nonce that is cached with some expiry, and not accepted, keeps that expiry or leaves the cache. */
  lemma {:induction false} KeepsExpiry(calls: seq<Call>, nonce: string, expiry: Time, i: nat, j: nat)
    requires i <= j <= |calls| && NotAccepted(calls, nonce, i, j)
    requires nonce in CacheAfter(calls, i) ==> CacheAfter(calls, i)[nonce] == expiry
    ensures nonce in CacheAfter(calls, j) ==> CacheAfter(calls, j)[nonce] == expiry
    decreases j
  {
    if i < j {
      KeepsExpiry(calls, nonce, expiry, i, j - 1);
      CachedOneMore(CacheAfter(calls, j - 1), nonce, calls[j - 1]);
    }
  }

  /** A reading past its expiry forgets an accepted nonce. */
  lemma {:induction false} ForgottenOncePast(calls: seq<Call>, i: nat, j: nat)
    requires i < j < |calls| && AcceptedAt(calls, i) && NotAccepted(calls, calls[i].nonce, i + 1, j)
    requires ReadPast(calls, i, j - 1)
    ensures calls[i].nonce !in CacheAfter(calls, j)
  {
    var nonce, expiry := calls[i].nonce, calls[i].now + CLOCK_SKEW;
    var k :| i < k <= j - 1 && calls[k].now > expiry;
    KeepsExpiry(calls, nonce, expiry, i + 1, k);
    CachedOneMore(CacheAfter(calls, k), nonce, calls[k]);
    StaysOut(calls, nonce, k + 1, j);
  }

  /** The exact rule for a second acceptance, whatever the order of the clock readings: after the last
      acceptance of a nonce it is accepted again if and only if some call since then, this one included, read
      the clock past its expiry and the cache has room. */
  lemma {:induction false} AcceptedAgainExactly(calls: seq<Call>, i: nat, j: nat)
    requires i < j < |calls| && calls[i].nonce == calls[j].nonce
    requires AcceptedAt(calls, i) && NotAccepted(calls, calls[i].nonce, i + 1, j)
    ensures AcceptedAt(calls, j) <==>
              ReadPast(calls, i, j) && |Unexpired(CacheAfter(calls, j), calls[j].now)| < MAX_REPLAY_NONCES
  {
    LiveExactly(calls, i, j);
  }

  lemma {:induction false} ReadPastOneMore(calls: seq<Call>, i: nat, j: nat)
    requires i < j < |calls|
    ensures ReadPast(calls, i, j) <==> ReadPast(calls, i, j - 1) || calls[j].now > calls[i].now + CLOCK_SKEW
  {
  }

  lemma {:induction false} LiveExactly(calls: seq<Call>, i: nat, j: nat)
    requires i < j < |calls| && AcceptedAt(calls, i) && NotAccepted(calls, calls[i].nonce, i + 1, j)
    ensures calls[i].nonce in Unexpired(CacheAfter(calls, j), calls[j].now) <==> !ReadPast(calls, i, j)
  {
    ReadPastOneMore(calls, i, j);
    if ReadPast(calls, i, j - 1) {
      ForgottenOncePast(calls, i, j);
    } else {
      AcceptedStaysCached(calls, i, j);
    }
  }

  lemma {:induction false} AcceptedStaysCached(calls: seq<Call>, i: nat, j: nat)
    requires i < j < |calls| && AcceptedAt(calls, i) && !ReadPast(calls, i, j - 1)
    ensures calls[i].nonce in CacheAfter(calls, j) && CacheAfter(calls, j)[calls[i].nonce] == calls[i].now + CLOCK_SKEW
  {
    StaysCached(calls, calls[i].nonce, calls[i].now + CLOCK_SKEW, i + 1, j);
  }

  /** An accepted nonce is live as long as no call since then, this one included, has read past its expiry. */
  lemma {:induction false} StillLive(calls: seq<Call>, i: nat, j: nat)
    requires i < j < |calls| && AcceptedAt(calls, i) && !ReadPast(calls, i, j)
    ensures calls[i].nonce in Unexpired(CacheAfter(calls, j), calls[j].now)
  {
    ReadPastOneMore(calls, i, j);
    AcceptedStaysCached(calls, i, j);
  }

  /** Equal nonces are accepted only with a reading past the expiry of the first between them. */
  lemma {:induction false} AcceptedTwiceNeedsReading(calls: seq<Call>, i: nat, j: nat)
    requires i < j < |calls| && calls[i].nonce == calls[j].nonce && AcceptedAt(calls, i) && AcceptedAt(calls, j)
    ensures ReadPast(calls, i, j)
  {
    if !ReadPast(calls, i, j) {
      StillLive(calls, i, j);
    }
  }

  /** What is cached was accepted, and expires 30 s after its last acceptance. */
  lemma {:induction false} CachedWasAccepted(calls: seq<Call>, n: nat, nonce: string) returns (i: nat)
    requires n <= |calls| && nonce in CacheAfter(calls, n)
    ensures i < n && calls[i].nonce == nonce && AcceptedAt(calls, i) && NotAccepted(calls, nonce, i + 1, n)
    ensures CacheAfter(calls, n)[nonce] == calls[i].now + CLOCK_SKEW
    decreases n
  {
    if calls[n - 1].nonce == nonce && AcceptedAt(calls, n - 1) {
      i := n - 1;
    } else {
      CachedOneMore(CacheAfter(calls, n - 1), nonce, calls[n - 1]);
      i := CachedWasAccepted(calls, n - 1, nonce);
    }
  }

  /** The first n calls alone determine the cache after them. */
  lemma {:induction false} SamePrefix(a: seq<Call>, b: seq<Call>, n: nat)
    requires n <= |a| && a <= b
    ensures CacheAfter(a, n) == CacheAfter(b, n)
    decreases n
  {
    if n > 0 {
      SamePrefix(a, b, n - 1);
    }
  }

  // ----- runs in clock order

  ghost predicate InClockOrder(calls: seq<Call>) {
    forall i, j :: 0 <= i < j < |calls| ==> calls[i].now <= calls[j].now
  }

  /** In clock order, equal nonces are accepted more than 30 s apart. */
  lemma {:induction false} FarApartInClockOrder(calls: seq<Call>, i: nat, j: nat)
    requires InClockOrder(calls) && i < j < |calls| && calls[i].nonce == calls[j].nonce
    requires AcceptedAt(calls, i) && AcceptedAt(calls, j)
    ensures calls[j].now > calls[i].now + CLOCK_SKEW
  {
    AcceptedTwiceNeedsReading(calls, i, j);
    var k :| i < k <= j && calls[k].now > calls[i].now + CLOCK_SKEW;
    assert calls[k].now <= calls[j].now;
  }

  /** Every log entry is that of an accepted call. */
  lemma {:induction false} LogEntryIsCall(calls: seq<Call>, n: nat, a: nat) returns (i: nat)
    requires n <= |calls| && a < |LogOf(calls, n)|
    ensures i < n && AcceptedAt(calls, i) && |LogOf(calls, i)| == a
    ensures LogOf(calls, n)[a] == Entry(calls[i].nonce, calls[i].now)
    decreases n
  {
    if a < |LogOf(calls, n - 1)| {
      i := LogEntryIsCall(calls, n - 1, a);
    } else {
      i := n - 1;
    }
  }

  /** The log only grows. */
  lemma {:induction false} LogGrows(calls: seq<Call>, n: nat, m: nat)
    requires n <= m <= |calls|
    ensures |LogOf(calls, n)| <= |LogOf(calls, m)|
    decreases m
  {
    if n < m {
      LogGrows(calls, n, m - 1);
    }
  }

  /** Equal nonces of the log are more than 30 s apart. */
  ghost predicate FarApart(log: seq<Entry>) {
    forall a, b :: 0 <= a < b < |log| && log[a].nonce == log[b].nonce ==> log[b].at > log[a].at + CLOCK_SKEW
  }

  lemma {:induction false} LogIsFarApart(calls: seq<Call>)
    requires InClockOrder(calls)
    ensures FarApart(LogOf(calls, |calls|))
  {
    var log := LogOf(calls, |calls|);
    forall a, b | 0 <= a < b < |log| && log[a].nonce == log[b].nonce
      ensures log[b].at > log[a].at + CLOCK_SKEW
    {
      var i := LogEntryIsCall(calls, |calls|, a);
      var j := LogEntryIsCall(calls, |calls|, b);
      if j <= i {
        LogGrows(calls, j, i);
      }
      FarApartInClockOrder(calls, i, j);
    }
  }

  /** In clock order the cache is always the window on the log, and never holds more than 4096 nonces. */
  lemma {:induction false} RunIsWindow(calls: seq<Call>, n: nat)
    requires InClockOrder(calls) && 0 < n <= |calls|
    ensures WindowOf(CacheAfter(calls, n), LogOf(calls, n), calls[n - 1].now)
    decreases n
  {
    var c := calls[n - 1];
    if n == 1 {
      ConsumeKeepsWindow(map[], [], c.now, c.nonce, c.now);
    } else {
      RunIsWindow(calls, n - 1);
      ConsumeKeepsWindow(CacheAfter(calls, n - 1), LogOf(calls, n - 1), calls[n - 2].now, c.nonce, c.now);
    }
  }

  /** The cache is the window that the calls leave, seen from the last of them. */
  ghost predicate WindowOfCalls(cache: Cache, calls: seq<Call>) {
    var n := |calls|;
    n == 0 || (WindowOf(cache, LogOf(calls, n), calls[n - 1].now) && FarApart(LogOf(calls, n)))
  }

  lemma {:induction false} WholeRunIsWindow(calls: seq<Call>)
    requires InClockOrder(calls)
    ensures WindowOfCalls(CacheAfter(calls, |calls|), calls)
  {
    if calls != [] {
      RunIsWindow(calls, |calls|);
      LogIsFarApart(calls);
    }
  }

  // ----- replaying a command

  /** The timestamp check: within 30 s of the clock, on either side. */
  predicate Fresh(stamp: Time, now: Time) {
    now - stamp <= CLOCK_SKEW && stamp - now <= CLOCK_SKEW
  }

  /** No call after the i-th, up to the j-th, read the clock more than `lead` after a given time. */
  ghost predicate LeadsBy(calls: seq<Call>, i: int, j: int, time: Time, lead: int)
    requires 0 <= i <= j < |calls|
  {
    forall k :: i < k <= j ==> calls[k].now <= time + lead
  }

  /** Some run, whatever the order of its clock readings, accepts a command first at `first` and once more after its
      timestamp passed the check, with no reading up to then more than `lead` ahead of that check. */
  ghost predicate Replayable(nonce: string, stamp: Time, first: Time, lead: int) {
    exists calls: seq<Call>, i, j, checkedAt ::
      && 0 <= i < j < |calls| && AcceptedAt(calls, i) && AcceptedAt(calls, j)
      && calls[i] == Call(nonce, first) && calls[j].nonce == nonce
      && Fresh(stamp, checkedAt) && LeadsBy(calls, i, j, checkedAt, lead)
  }

  /** Two calls with the same nonce, the second after its expiry, are both accepted. */
  lemma {:induction false} TwoCalls(nonce: string, first: Time, second: Time)
    requires second > first + CLOCK_SKEW
    ensures var calls := [Call(nonce, first), Call(nonce, second)];
            InClockOrder(calls) && AcceptedAt(calls, 0) && AcceptedAt(calls, 1)
  {
    var calls := [Call(nonce, first), Call(nonce, second)];
    assert Unexpired(CacheAfter(calls, 0), first) == map[];
    assert CacheAfter(calls, 1) == map[][nonce := first + CLOCK_SKEW];
    assert Unexpired(CacheAfter(calls, 1), second) == map[];
  }

  /** A command can be accepted again if and only if some reading may be further ahead of its second timestamp check
      than its first acceptance was from the timestamp. */
  lemma {:induction false} ReplayableExactly(nonce: string, stamp: Time, first: Time, lead: int)
    ensures Replayable(nonce, stamp, first, lead) <==> lead > first - stamp
  {
    if Replayable(nonce, stamp, first, lead) {
      var calls: seq<Call>, i, j, checkedAt :|
        && 0 <= i < j < |calls| && AcceptedAt(calls, i) && AcceptedAt(calls, j)
        && calls[i] == Call(nonce, first) && calls[j].nonce == nonce
        && Fresh(stamp, checkedAt) && LeadsBy(calls, i, j, checkedAt, lead);
      AcceptedTwiceNeedsReading(calls, i, j);
    }
    if lead > first - stamp {
      var checkedAt := stamp + CLOCK_SKEW;
      TwoCalls(nonce, first, checkedAt + lead);
      var calls := [Call(nonce, first), Call(nonce, checkedAt + lead)];
      assert calls[0] == Call(nonce, first) && calls[1].nonce == nonce && Fresh(stamp, checkedAt);
      assert LeadsBy(calls, 0, 1, checkedAt, lead);
    }
  }

  /** Two failing inputs in clock order: a command stamped at its own acceptance is accepted again when its timestamp
      is checked exactly 30 s later and its nonce looked up a nanosecond after that; and so is one stamped a nanosecond
      in the future, looked up at the very time of its check. */
  lemma {:induction false} ReplaysHappen(nonce: string, t: Time)
    ensures Fresh(t, t + CLOCK_SKEW) && Fresh(t + 1, t + CLOCK_SKEW + 1)
    ensures var calls := [Call(nonce, t), Call(nonce, t + CLOCK_SKEW + 1)];
            InClockOrder(calls) && AcceptedAt(calls, 0) && AcceptedAt(calls, 1)
  {
    TwoCalls(nonce, t, t + CLOCK_SKEW + 1);
  }

  /** And one out of clock order: after another call has read past its expiry, a nonce is accepted again with a reading
      exactly 30 s after the first, at which a command stamped at its first acceptance still passes the check. */
  lemma {:induction false} OutOfOrderCalls(a: string, b: string, t: Time)
    requires a != b
    ensures Fresh(t, t + CLOCK_SKEW)
    ensures var calls := [Call(a, t), Call(b, t + CLOCK_SKEW + 1), Call(a, t + CLOCK_SKEW)];
            AcceptedAt(calls, 0) && AcceptedAt(calls, 1) && AcceptedAt(calls, 2)
  {
    var calls := [Call(a, t), Call(b, t + CLOCK_SKEW + 1), Call(a, t + CLOCK_SKEW)];
    assert Unexpired(CacheAfter(calls, 0), t) == map[];
    assert CacheAfter(calls, 1) == map[][a := t + CLOCK_SKEW];
    assert Unexpired(CacheAfter(calls, 1), t + CLOCK_SKEW + 1) == map[];
    var cache := CacheAfter(calls, 2);
    assert cache == map[][b := t + CLOCK_SKEW + 1 + CLOCK_SKEW];
    assert Unexpired(cache, t + CLOCK_SKEW) == cache;
  }
}
