/** The per-connection request loop of the bridge, and the service as a whole over all its connections. */
module Connection {
  import opened ReplayCache
  import opened Commands

  const MINIMUM_COMMAND_INTERVAL: int := 100_000_000

  /** The checks that the loop applies to a decoded command: validation against a clock reading, the signature,
      and which actions stay available in panic mode. */
  datatype Policy = Policy(validates: (Command, Time) -> bool, authentic: Command -> bool, readOnly: string -> bool)

  /** The bridge's own checks; `authentic` tells the commands signed with its secret and `audioTarget` the audio
      configurations that decode. */
  function BridgePolicy(authentic: Command -> bool, audioTarget: string -> bool): Policy {
    Policy((cmd, now) => Validates(cmd, now, audioTarget), authentic, action => action in READ_ONLY)
  }

  /** The instant of a command's timestamp. */
  function Stamp(cmd: Command): Time {
    cmd.timestampMs * 1_000_000
  }

  /** Validation includes the timestamp window. */
  ghost predicate ChecksFreshness(p: Policy) {
    forall cmd, now :: p.validates(cmd, now) ==> Fresh(Stamp(cmd), now)
  }

  lemma {:induction false} BridgeChecksFreshness(authentic: Command -> bool, audioTarget: string -> bool)
    ensures ChecksFreshness(BridgePolicy(authentic, audioTarget))
  {
  }

  /** What one read from the connection gives. */
  datatype Line = ReadFailed | TooLarge | Undecodable | Request(cmd: Command)

  /** The clock readings and conditions met while one request is handled. */
  datatype Env = Env(validateAt: Time, nonceAt: Time, rateAt: Time, integrityHealthy: bool, panic: bool, writeOk: bool)

  datatype Verdict =
    | Disconnected
    | Oversized
    | Untrusted
    | Garbled
    | Invalid
    | Unauthenticated
    | NonceRefused
    | PanicDenied
    | RateLimited
    | Dispatched

  datatype LastCommand = Never | At(time: Time)

  predicate TooSoon(last: LastCommand, now: Time) {
    last.At? && now - last.time < MINIMUM_COMMAND_INTERVAL
  }

  /** The first check that a request fails, in the order of the loop. */
  function Judge(p: Policy, line: Line, env: Env, cache: Cache, last: LastCommand): Verdict {
    if line.ReadFailed? then Disconnected
    else if line.TooLarge? then Oversized
    else if !env.integrityHealthy then Untrusted
    else if line.Undecodable? then Garbled
    else if !p.validates(line.cmd, env.validateAt) then Invalid
    else if !p.authentic(line.cmd) then Unauthenticated
    else if !Accepts(cache, line.cmd.nonce, env.nonceAt) then NonceRefused
    else if env.panic && !p.readOnly(line.cmd.action) then PanicDenied
    else if TooSoon(last, env.rateAt) then RateLimited
    else Dispatched
  }

  /** Whether the nonce of the request was looked up, and whether it was accepted. */
  predicate ReachesCache(v: Verdict) {
    v.NonceRefused? || AcceptsNonce(v)
  }

  predicate AcceptsNonce(v: Verdict) {
    v.PanicDenied? || v.RateLimited? || v.Dispatched?
  }

  predicate CountsInvalid(v: Verdict) {
    v.Garbled? || v.Invalid? || v.NonceRefused?
  }

  /** The connection's counters; `history` and `dispatches` record its verdicts and dispatch times. */
  datatype Conn = Conn(open: bool, authFailures: nat, invalidRequests: nat, last: LastCommand,
                       history: seq<Verdict>, dispatches: seq<Time>)

  const FRESH: Conn := Conn(true, 0, 0, Never, [], [])

  function Next(c: Conn, v: Verdict, env: Env): Conn {
    var auth := if v.Unauthenticated? then c.authFailures + 1 else if AcceptsNonce(v) then 0 else c.authFailures;
    var invalid := if CountsInvalid(v) then c.invalidRequests + 1 else if AcceptsNonce(v) then 0 else c.invalidRequests;
    var closes := v.Disconnected? || v.Oversized? || v.Untrusted? || !env.writeOk
                  || (v.Unauthenticated? && auth >= 5) || (CountsInvalid(v) && invalid >= 5);
    Conn(!closes, auth, invalid, if v.Dispatched? then At(env.rateAt) else c.last,
         c.history + [v], if v.Dispatched? then c.dispatches + [env.rateAt] else c.dispatches)
  }

  datatype Reply = NoReply | Reply(requestNonce: string)

  /** The nonce that the response to a request carries. */
  function ReplyTo(line: Line, v: Verdict): Reply {
    if v.Disconnected? then NoReply
    else if v.Oversized? || v.Untrusted? || v.Garbled? || !line.Request? then Reply("")
    else Reply(line.cmd.nonce)
  }

  // ----- the loop body

  class Session {
    const policy: Policy
    var open: bool
    var authFailures: nat
    var invalidRequests: nat
    var lastCommandAt: LastCommand
    var requestNonce: string
    ghost var history: seq<Verdict>
    ghost var dispatches: seq<Time>

    constructor (policy: Policy)
      ensures this.policy == policy && View() == FRESH
    {
      this.policy := policy;
      open, authFailures, invalidRequests, lastCommandAt, requestNonce := true, 0, 0, Never, "";
      history, dispatches := [], [];
    }

    ghost function View(): Conn
      reads this
    {
      Conn(open, authFailures, invalidRequests, lastCommandAt, history, dispatches)
    }

    /** One turn of the loop: the verdict is that of the first failing check, and the response is bound to
        this request only. */
    method Serve(line: Line, env: Env, replay: ReplayNonces) returns (v: Verdict, reply: Reply)
      requires open
      modifies this, replay
      ensures v == Judge(policy, line, env, old(replay.nonces), old(lastCommandAt))
      ensures View() == Next(old(View()), v, env) && reply == ReplyTo(line, v)
      ensures reply.NoReply? <==> line.ReadFailed?
      ensures reply.Reply? ==>
                reply.requestNonce == if line.Request? && env.integrityHealthy then line.cmd.nonce else ""
      ensures replay.nonces == if ReachesCache(v) then Consume(old(replay.nonces), line.cmd.nonce, env.nonceAt)
                               else old(replay.nonces)
    {
      requestNonce := "";
      v, reply := Check(line, env, replay);
      Record(v, env);
    }

    /** The counters, the rate limit and the closing of the connection after a verdict. */
    method Record(v: Verdict, env: Env)
      requires open
      modifies this`open, this`authFailures, this`invalidRequests, this`lastCommandAt, this`history, this`dispatches
      ensures View() == Next(old(View()), v, env)
    {
      if v.Unauthenticated? {
        authFailures := authFailures + 1;
      } else if CountsInvalid(v) {
        invalidRequests := invalidRequests + 1;
      } else if AcceptsNonce(v) {
        invalidRequests, authFailures := 0, 0;
      }
      if v.Dispatched? {
        lastCommandAt := At(env.rateAt);
        dispatches := dispatches + [env.rateAt];
      }
      if v.Disconnected? || v.Oversized? || v.Untrusted? || !env.writeOk {
        open := false;
      } else if v.Unauthenticated? && authFailures >= 5 {
        open := false;
      } else if CountsInvalid(v) && invalidRequests >= 5 {
        open := false;
      }
      history := history + [v];
    }

    /** The checks of one request, in order, up to the first that fails. */
    method Check(line: Line, env: Env, replay: ReplayNonces) returns (v: Verdict, reply: Reply)
      requires requestNonce == ""
      modifies this`requestNonce, replay
      ensures v == Judge(policy, line, env, old(replay.nonces), lastCommandAt) && reply == ReplyTo(line, v)
      ensures replay.nonces == if ReachesCache(v) then Consume(old(replay.nonces), line.cmd.nonce, env.nonceAt)
                               else old(replay.nonces)
    {
      match line
      case ReadFailed => return Disconnected, NoReply;
      case TooLarge => return Oversized, Reply(requestNonce);
      case Undecodable => return (if env.integrityHealthy then Garbled else Untrusted), Reply(requestNonce);
      case Request(cmd) =>
        if !env.integrityHealthy {
          return Untrusted, Reply(requestNonce);
        }
        requestNonce := cmd.nonce;
        reply := Reply(requestNonce);
        if !policy.validates(cmd, env.validateAt) {
          return Invalid, reply;
        }
        if !policy.authentic(cmd) {
          return Unauthenticated, reply;
        }
        var accepted := replay.ConsumeNonce(cmd.nonce, env.nonceAt);
        if !accepted {
          return NonceRefused, reply;
        }
        if env.panic && !policy.readOnly(cmd.action) {
          return PanicDenied, reply;
        }
        if TooSoon(lastCommandAt, env.rateAt) {
          return RateLimited, reply;
        }
        return Dispatched, reply;
    }
  }

  // ----- what every turn keeps

  /** Rejections of one kind since a nonce was last accepted. */
  function InvalidSince(history: seq<Verdict>): nat {
    if history == [] then 0
    else
      var v := history[|history| - 1];
      if AcceptsNonce(v) then 0 else InvalidSince(history[..|history| - 1]) + if CountsInvalid(v) then 1 else 0
  }

  function UnauthenticatedSince(history: seq<Verdict>): nat {
    if history == [] then 0
    else
      var v := history[|history| - 1];
      if AcceptsNonce(v) then 0
      else UnauthenticatedSince(history[..|history| - 1]) + if v.Unauthenticated? then 1 else 0
  }

  ghost predicate Spaced(times: seq<Time>) {
    forall i, j :: 0 <= i < j < |times| ==> times[j] - times[i] >= MINIMUM_COMMAND_INTERVAL
  }

  /** The counters count since the last accepted nonce, and stay below five while the connection is open. */
  ghost predicate Counted(c: Conn) {
    && c.invalidRequests == InvalidSince(c.history) && c.authFailures == UnauthenticatedSince(c.history)
    && (c.open ==> c.invalidRequests <= 4 && c.authFailures <= 4)
  }

  /** Dispatches are spaced, and the last one is the one remembered. */
  ghost predicate Paced(c: Conn) {
    && c.last == (if c.dispatches == [] then Never else At(c.dispatches[|c.dispatches| - 1]))
    && Spaced(c.dispatches)
  }

  ghost predicate ConnInv(c: Conn) {
    Counted(c) && Paced(c)
  }

  lemma {:induction false} CountersStep(history: seq<Verdict>, v: Verdict)
    ensures InvalidSince(history + [v])
         == if AcceptsNonce(v) then 0 else InvalidSince(history) + if CountsInvalid(v) then 1 else 0
    ensures UnauthenticatedSince(history + [v])
         == if AcceptsNonce(v) then 0 else UnauthenticatedSince(history) + if v.Unauthenticated? then 1 else 0
  {
    assert (history + [v])[..|history|] == history;
  }

  lemma {:induction false} SpacedStep(times: seq<Time>, t: Time)
    requires Spaced(times) && (times != [] ==> t - times[|times| - 1] >= MINIMUM_COMMAND_INTERVAL)
    ensures Spaced(times + [t])
  {
    var all := times + [t];
    forall i, j | 0 <= i < j < |all|
      ensures all[j] - all[i] >= MINIMUM_COMMAND_INTERVAL
    {
      if j == |times| && i < j - 1 {
        assert times[j - 1] - times[i] >= MINIMUM_COMMAND_INTERVAL;
      }
    }
  }

  lemma {:induction false} NextKeepsCounted(c: Conn, v: Verdict, env: Env)
    requires c.open && Counted(c)
    ensures Counted(Next(c, v, env))
  {
    CountersStep(c.history, v);
  }

  lemma {:induction false} NextKeepsPaced(c: Conn, v: Verdict, env: Env)
    requires Paced(c) && (v.Dispatched? ==> !TooSoon(c.last, env.rateAt))
    ensures Paced(Next(c, v, env))
  {
    if v.Dispatched? {
      SpacedStep(c.dispatches, env.rateAt);
    }
  }

  /** A command is dispatched only if it does not come too soon. */
  lemma {:induction false} DispatchedInTime(p: Policy, line: Line, env: Env, cache: Cache, last: LastCommand)
    ensures Judge(p, line, env, cache, last).Dispatched? ==> !TooSoon(last, env.rateAt)
  {
  }

  lemma {:induction false} TurnKeepsConnInv(c: Conn, p: Policy, line: Line, env: Env, cache: Cache)
    requires c.open && ConnInv(c)
    ensures ConnInv(Next(c, Judge(p, line, env, cache, c.last), env))
  {
    var v := Judge(p, line, env, cache, c.last);
    DispatchedInTime(p, line, env, cache, c.last);
    NextKeepsCounted(c, v, env);
    NextKeepsPaced(c, v, env);
  }

  /** How many of the last verdicts, in a row, rejected the request as invalid or unauthenticated. */
  function RejectionsInARow(history: seq<Verdict>): nat {
    if history == [] then 0
    else
      var v := history[|history| - 1];
      if CountsInvalid(v) || v.Unauthenticated? then 1 + RejectionsInARow(history[..|history| - 1]) else 0
  }

  lemma {:induction false} RejectionsAreCounted(history: seq<Verdict>)
    ensures RejectionsInARow(history) <= InvalidSince(history) + UnauthenticatedSince(history)
    decreases |history|
  {
    if history != [] {
      RejectionsAreCounted(history[..|history| - 1]);
    }
  }

  /** A connection survives at most eight rejections in a row: the ninth closes it. */
  lemma {:induction false} NinthRejectionCloses(c: Conn)
    requires ConnInv(c)
    ensures RejectionsInARow(c.history) >= 9 ==> !c.open
    ensures c.open ==> InvalidSince(c.history) <= 4 && UnauthenticatedSince(c.history) <= 4
  {
    RejectionsAreCounted(c.history);
  }

  // ----- the service: any number of connections, one replay cache

  datatype Event = Event(id: nat, line: Line, env: Env)

  datatype Service = Service(cache: Cache, conns: map<nat, Conn>)

  function ConnOf(s: Service, id: nat): Conn {
    if id in s.conns then s.conns[id] else FRESH
  }

  function VerdictOf(p: Policy, s: Service, e: Event): Verdict {
    Judge(p, e.line, e.env, s.cache, ConnOf(s, e.id).last)
  }

  function Handle(p: Policy, s: Service, e: Event): Service {
    var v := VerdictOf(p, s, e);
    Service(if ReachesCache(v) then Consume(s.cache, e.line.cmd.nonce, e.env.nonceAt) else s.cache,
            s.conns[e.id := Next(ConnOf(s, e.id), v, e.env)])
  }

  /** The service after the first n events. */
  function After(p: Policy, events: seq<Event>, n: nat): Service
    requires n <= |events|
  {
    if n == 0 then Service(map[], map[]) else Handle(p, After(p, events, n - 1), events[n - 1])
  }

  /** The verdict on the i-th request handled. */
  function VerdictAt(p: Policy, events: seq<Event>, i: int): Verdict
    requires 0 <= i < |events|
  {
    VerdictOf(p, After(p, events, i), events[i])
  }

  predicate OpenAt(p: Policy, events: seq<Event>, i: int)
    requires 0 <= i < |events|
  {
    ConnOf(After(p, events, i), events[i].id).open
  }

  /** Requests are read only from open connections. */
  ghost predicate IsRun(p: Policy, events: seq<Event>) {
    forall i :: 0 <= i < |events| ==> OpenAt(p, events, i)
  }

  predicate LooksUp(p: Policy, events: seq<Event>, i: int)
    requires 0 <= i < |events|
  {
    ReachesCache(VerdictAt(p, events, i))
  }

  predicate AcceptedIn(p: Policy, events: seq<Event>, i: int)
    requires 0 <= i < |events|
  {
    AcceptsNonce(VerdictAt(p, events, i))
  }

  predicate DispatchedIn(p: Policy, events: seq<Event>, i: int)
    requires 0 <= i < |events|
  {
    VerdictAt(p, events, i).Dispatched?
  }

  /** The nonces are looked up in the order of the clock readings. */
  ghost predicate InLookupOrder(p: Policy, events: seq<Event>) {
    forall i, j :: 0 <= i < j < |events| && LooksUp(p, events, i) && LooksUp(p, events, j) ==>
                     events[i].env.nonceAt <= events[j].env.nonceAt
  }

  // ----- the connections of a run

  lemma {:induction false} HandleKeepsConnInv(p: Policy, s: Service, e: Event, id: nat, t: Service)
    requires ConnInv(ConnOf(s, id)) && ConnOf(s, e.id).open && t == Handle(p, s, e)
    ensures ConnInv(ConnOf(t, id))
  {
    if id == e.id {
      TurnKeepsConnInv(ConnOf(s, id), p, e.line, e.env, s.cache);
    }
  }

  /** In every run all connections keep their invariant. */
  lemma {:induction false} ConnsKeepInv(p: Policy, events: seq<Event>, n: nat, id: nat)
    requires IsRun(p, events) && n <= |events|
    ensures ConnInv(ConnOf(After(p, events, n), id))
    decreases n
  {
    if n > 0 {
      ConnsKeepInv(p, events, n - 1, id);
      assert OpenAt(p, events, n - 1);
      HandleKeepsConnInv(p, After(p, events, n - 1), events[n - 1], id, After(p, events, n));
    }
  }

  /** In every run, on every connection: dispatches are at least 100 ms apart, and an open connection has at
      most four invalid and four unauthenticated requests since its last accepted nonce. */
  lemma {:induction false} EveryConnectionBehaves(p: Policy, events: seq<Event>, n: nat, id: nat)
    requires IsRun(p, events) && n <= |events|
    ensures var c := ConnOf(After(p, events, n), id);
            && Spaced(c.dispatches)
            && (c.open ==> InvalidSince(c.history) <= 4 && UnauthenticatedSince(c.history) <= 4)
            && (RejectionsInARow(c.history) >= 9 ==> !c.open)
  {
    ConnsKeepInv(p, events, n, id);
    NinthRejectionCloses(ConnOf(After(p, events, n), id));
  }

  /** The latest dispatch among the first n events on a connection, given which events were dispatched. */
  function LastAmong(events: seq<Event>, sent: seq<bool>, n: nat, id: nat): LastCommand
    requires n <= |events| == |sent|
  {
    if n == 0 then Never
    else if sent[n - 1] && events[n - 1].id == id then At(events[n - 1].env.rateAt)
    else LastAmong(events, sent, n - 1, id)
  }

  ghost function Dispatches(p: Policy, events: seq<Event>): (r: seq<bool>)
    ensures |r| == |events| && forall i :: 0 <= i < |r| ==> r[i] == DispatchedIn(p, events, i)
  {
    seq(|events|, i requires 0 <= i < |events| => DispatchedIn(p, events, i))
  }

  lemma {:induction false} LastOneMore(p: Policy, s: Service, e: Event, id: nat, sent: bool)
    requires sent == VerdictOf(p, s, e).Dispatched?
    ensures ConnOf(Handle(p, s, e), id).last
         == if sent && e.id == id then At(e.env.rateAt) else ConnOf(s, id).last
  {
  }

  /** The i-th mark tells whether the i-th event was dispatched. */
  ghost predicate Marks(p: Policy, events: seq<Event>, sent: seq<bool>, i: int)
    requires 0 <= i < |events| == |sent|
  {
    sent[i] == DispatchedIn(p, events, i)
  }

  lemma {:induction false} LastIsAmong(p: Policy, events: seq<Event>, sent: seq<bool>, n: nat, id: nat)
    requires n <= |events| == |sent| && forall i :: 0 <= i < n ==> Marks(p, events, sent, i)
    ensures ConnOf(After(p, events, n), id).last == LastAmong(events, sent, n, id)
    decreases n
  {
    if n > 0 {
      LastIsAmong(p, events, sent, n - 1, id);
      assert Marks(p, events, sent, n - 1);
      LastOneMore(p, After(p, events, n - 1), events[n - 1], id, sent[n - 1]);
    }
  }

  /** Nothing is dispatched too soon. */
  ghost predicate NoneTooSoon(events: seq<Event>, sent: seq<bool>)
    requires |sent| == |events|
  {
    forall i :: 0 <= i < |sent| && sent[i] ==> !TooSoon(LastAmong(events, sent, i, events[i].id), events[i].env.rateAt)
  }

  lemma {:induction false} DispatchesAreLimited(p: Policy, events: seq<Event>)
    ensures NoneTooSoon(events, Dispatches(p, events))
  {
    forall i | 0 <= i < |events| && DispatchedIn(p, events, i)
      ensures !TooSoon(LastAmong(events, Dispatches(p, events), i, events[i].id), events[i].env.rateAt)
    {
      LastIsAmong(p, events, Dispatches(p, events), i, events[i].id);
    }
  }

  /** The rate limit compares with a time no earlier than any dispatch on the connection. */
  lemma {:induction false} LastIsLatest(events: seq<Event>, sent: seq<bool>, n: nat, h: nat)
    requires h < n <= |events| == |sent| && sent[h] && NoneTooSoon(events, sent)
    ensures var last := LastAmong(events, sent, n, events[h].id); last.At? && last.time >= events[h].env.rateAt
    decreases n
  {
    if h < n - 1 {
      LastIsLatest(events, sent, n - 1, h);
    }
  }

  /** And that time is the time of one of them. */
  lemma {:induction false} LastWasDispatched(events: seq<Event>, sent: seq<bool>, n: nat, id: nat) returns (h: nat)
    requires n <= |events| == |sent| && LastAmong(events, sent, n, id).At?
    ensures h < n && events[h].id == id && sent[h] && LastAmong(events, sent, n, id) == At(events[h].env.rateAt)
    decreases n
  {
    if sent[n - 1] && events[n - 1].id == id {
      h := n - 1;
    } else {
      h := LastWasDispatched(events, sent, n - 1, id);
    }
  }

  // ----- the objects of the service

  /** The sessions and the replay cache are in a state of the service. */
  ghost predicate Represents(p: Policy, sessions: map<nat, Session>, replay: ReplayNonces, s: Service)
    reads sessions.Values, replay
  {
    && replay.nonces == s.cache
    && (forall id :: id in sessions ==> sessions[id].policy == p && sessions[id].View() == ConnOf(s, id))
    && (forall id :: id !in sessions ==> ConnOf(s, id) == FRESH)
    && (forall a, b :: a in sessions && b in sessions && a != b ==> sessions[a] != sessions[b])
  }

  /** One event, served by the session of its connection. */
  method ServeEvent(p: Policy, sessions: map<nat, Session>, replay: ReplayNonces, e: Event, ghost s: Service)
    returns (v: Verdict, reply: Reply)
    requires e.id in sessions && Represents(p, sessions, replay, s) && ConnOf(s, e.id).open
    modifies sessions[e.id], replay
    ensures v == VerdictOf(p, s, e) && reply == ReplyTo(e.line, v)
    ensures Represents(p, sessions, replay, Handle(p, s, e))
  {
    v, reply := sessions[e.id].Serve(e.line, e.env, replay);
  }

  /** A session for a connection, new if there was none. */
  method SessionFor(p: Policy, sessions: map<nat, Session>, replay: ReplayNonces, id: nat, ghost s: Service)
    returns (all: map<nat, Session>)
    requires Represents(p, sessions, replay, s)
    ensures id in all && Represents(p, all, replay, s)
    ensures forall k :: k in all ==> fresh(all[k]) || (k in sessions && all[k] == sessions[k])
  {
    all := sessions;
    if id !in sessions {
      var session := new Session(p);
      all := sessions[id := session];
    }
  }

  ghost predicate ServedAt(p: Policy, events: seq<Event>, i: int, v: Verdict, reply: Reply)
    requires 0 <= i < |events|
  {
    v == VerdictAt(p, events, i) && reply == ReplyTo(events[i].line, v)
  }

  /** The first verdicts and replies of a run. */
  ghost predicate Served(p: Policy, events: seq<Event>, verdicts: seq<Verdict>, replies: seq<Reply>) {
    && |verdicts| == |replies| <= |events|
    && forall i :: 0 <= i < |verdicts| ==> ServedAt(p, events, i, verdicts[i], replies[i])
  }

  lemma {:induction false} ServedOneMore(p: Policy, events: seq<Event>, verdicts: seq<Verdict>, replies: seq<Reply>,
                                         v: Verdict, reply: Reply, i: nat)
    requires Served(p, events, verdicts, replies) && i == |verdicts| < |events|
    requires ServedAt(p, events, i, v, reply)
    ensures Served(p, events, verdicts + [v], replies + [reply])
  {
    var vs, rs := verdicts + [v], replies + [reply];
    forall k | 0 <= k < |vs|
      ensures ServedAt(p, events, k, vs[k], rs[k])
    {
      if k < i {
        assert ServedAt(p, events, k, verdicts[k], replies[k]);
      }
    }
  }

  /** The i-th request of a run, served by the session of its connection. */
  method ServeNext(p: Policy, events: seq<Event>, i: nat, sessions: map<nat, Session>, replay: ReplayNonces)
    returns (all: map<nat, Session>, v: Verdict, reply: Reply)
    requires i < |events| && OpenAt(p, events, i)
    requires Represents(p, sessions, replay, After(p, events, i))
    modifies sessions.Values, replay
    ensures Represents(p, all, replay, After(p, events, i + 1)) && ServedAt(p, events, i, v, reply)
    ensures forall k :: k in all ==> fresh(all[k]) || (k in sessions && all[k] == sessions[k])
  {
    all := SessionFor(p, sessions, replay, events[i].id, After(p, events, i));
    v, reply := ServeEvent(p, all, replay, events[i], After(p, events, i));
  }

  /** Serving the requests of a run one after the other, with a session for each connection and one replay cache, gives
      the verdicts of the run. */
  method ServeAll(p: Policy, events: seq<Event>) returns (verdicts: seq<Verdict>, replies: seq<Reply>)
    requires IsRun(p, events)
    ensures |verdicts| == |events| && Served(p, events, verdicts, replies)
  {
    var replay := new ReplayNonces();
    var sessions: map<nat, Session> := map[];
    verdicts, replies := [], [];
    for i := 0 to |events|
      invariant fresh(replay) && (forall id :: id in sessions ==> fresh(sessions[id]))
      invariant Represents(p, sessions, replay, After(p, events, i))
      invariant |verdicts| == i && Served(p, events, verdicts, replies)
    {
      var v, reply;
      assert OpenAt(p, events, i);
      sessions, v, reply := ServeNext(p, events, i, sessions, replay);
      ServedOneMore(p, events, verdicts, replies, v, reply, i);
      verdicts, replies := verdicts + [v], replies + [reply];
    }
  }

  // ----- the lookups of a run, as calls of the replay cache

  function CallOf(e: Event): Call {
    Call(if e.line.Request? then e.line.cmd.nonce else "", e.env.nonceAt)
  }

  /** The calls made by the first n events, given which events look their nonce up. */
  function CallsAmong(events: seq<Event>, looks: seq<bool>, n: nat): seq<Call>
    requires n <= |events| == |looks|
  {
    if n == 0 then []
    else if looks[n - 1] then CallsAmong(events, looks, n - 1) + [CallOf(events[n - 1])]
    else CallsAmong(events, looks, n - 1)
  }

  lemma {:induction false} CallsGrow(events: seq<Event>, looks: seq<bool>, m: nat, n: nat)
    requires m <= n <= |events| == |looks|
    ensures CallsAmong(events, looks, m) <= CallsAmong(events, looks, n)
    decreases n
  {
    if m < n {
      CallsGrow(events, looks, m, n - 1);
    }
  }

  /** The call that an event makes. */
  lemma {:induction false} PlaceOfEvent(events: seq<Event>, looks: seq<bool>, i: nat, n: nat)
    requires i < n <= |events| == |looks| && looks[i]
    ensures var calls, before := CallsAmong(events, looks, n), CallsAmong(events, looks, i);
            before <= calls && |before| < |calls| && calls[|before|] == CallOf(events[i])
  {
    var before, with := CallsAmong(events, looks, i), CallsAmong(events, looks, i + 1);
    assert with == before + [CallOf(events[i])];
    CallsGrow(events, looks, i + 1, n);
  }

  /** The event that makes a call. */
  lemma {:induction false} EventOfCall(events: seq<Event>, looks: seq<bool>, n: nat, a: nat) returns (i: nat)
    requires n <= |events| == |looks| && a < |CallsAmong(events, looks, n)|
    ensures i < n && looks[i] && |CallsAmong(events, looks, i)| == a
    ensures CallsAmong(events, looks, n)[a] == CallOf(events[i])
    decreases n
  {
    if a < |CallsAmong(events, looks, n - 1)| {
      i := EventOfCall(events, looks, n - 1, a);
    } else {
      i := n - 1;
    }
  }

  /** Events are in the order of their calls. */
  lemma {:induction false} EventsInOrder(events: seq<Event>, looks: seq<bool>, i: nat, j: nat)
    requires i < |events| && j < |events| == |looks| && looks[i] && looks[j]
    ensures i < j <==> |CallsAmong(events, looks, i)| < |CallsAmong(events, looks, j)|
  {
    if i < j {
      PlaceOfEvent(events, looks, i, j);
    } else {
      CallsGrow(events, looks, j, i);
    }
  }

  ghost function Lookups(p: Policy, events: seq<Event>): (r: seq<bool>)
    ensures |r| == |events| && forall i :: 0 <= i < |r| ==> r[i] == LooksUp(p, events, i)
  {
    seq(|events|, i requires 0 <= i < |events| => LooksUp(p, events, i))
  }

  /** The lookups made by the first n events. */
  ghost function Calls(p: Policy, events: seq<Event>, n: nat): seq<Call>
    requires n <= |events|
  {
    CallsAmong(events, Lookups(p, events), n)
  }

  /** What one event does to the cache. */
  lemma {:induction false} CacheOneMore(p: Policy, s: Service, e: Event)
    ensures var v, call := VerdictOf(p, s, e), CallOf(e);
            && Handle(p, s, e).cache == (if ReachesCache(v) then Consume(s.cache, call.nonce, call.now) else s.cache)
            && (ReachesCache(v) ==> e.line.Request? && (AcceptsNonce(v) <==> Accepts(s.cache, call.nonce, call.now)))
            && (AcceptsNonce(v) ==> ReachesCache(v))
  {
  }

  lemma {:induction false} CallOneMore(p: Policy, s: Service, e: Event, calls: seq<Call>, next: seq<Call>)
    requires s.cache == CacheAfter(calls, |calls|)
    requires next == if ReachesCache(VerdictOf(p, s, e)) then calls + [CallOf(e)] else calls
    ensures Handle(p, s, e).cache == CacheAfter(next, |next|)
  {
    CacheOneMore(p, s, e);
    SamePrefix(calls, next, |calls|);
  }

  /** The cache of the service is that of its lookups. */
  lemma {:induction false} CacheIsOfCalls(p: Policy, events: seq<Event>, n: nat)
    requires n <= |events|
    ensures After(p, events, n).cache == CacheAfter(Calls(p, events, n), |Calls(p, events, n)|)
    decreases n
  {
    if n > 0 {
      CacheIsOfCalls(p, events, n - 1);
      assert Lookups(p, events)[n - 1] == LooksUp(p, events, n - 1);
      CallOneMore(p, After(p, events, n - 1), events[n - 1], Calls(p, events, n - 1), Calls(p, events, n));
    }
  }

  /** The call that an event makes, and whether it is accepted. */
  lemma {:induction false} CallOfEvent(p: Policy, events: seq<Event>, i: nat, n: nat, a: nat)
    requires i < n <= |events| && LooksUp(p, events, i) && a == |Calls(p, events, i)|
    ensures a < |Calls(p, events, n)| && events[i].line.Request?
    ensures Calls(p, events, n)[a] == CallOf(events[i])
    ensures AcceptedAt(Calls(p, events, n), a) <==> AcceptedIn(p, events, i)
    ensures CacheAfter(Calls(p, events, n), a) == After(p, events, i).cache
  {
    PlaceOfEvent(events, Lookups(p, events), i, n);
    CacheIsOfCalls(p, events, i);
    SamePrefix(Calls(p, events, i), Calls(p, events, n), a);
    CacheOneMore(p, After(p, events, i), events[i]);
  }

  lemma {:induction false} CallsInClockOrder(p: Policy, events: seq<Event>)
    requires InLookupOrder(p, events)
    ensures InClockOrder(Calls(p, events, |events|))
  {
    var looks, calls := Lookups(p, events), Calls(p, events, |events|);
    forall a, b | 0 <= a < b < |calls|
      ensures calls[a].now <= calls[b].now
    {
      var i := EventOfCall(events, looks, |events|, a);
      var j := EventOfCall(events, looks, |events|, b);
      EventsInOrder(events, looks, i, j);
      assert LooksUp(p, events, i) && LooksUp(p, events, j);
    }
  }

  /** In every run in clock order the cache is a window on the log of accepted nonces. */
  lemma {:induction false} CacheIsWindow(p: Policy, events: seq<Event>)
    requires InLookupOrder(p, events)
    ensures WindowOfCalls(After(p, events, |events|).cache, Calls(p, events, |events|))
  {
    CallsInClockOrder(p, events);
    CacheIsOfCalls(p, events, |events|);
    WholeRunIsWindow(Calls(p, events, |events|));
  }

  // ----- equal nonces, on whatever connections

  /** Some lookup after the i-th event, up to the j-th, read the clock more than 30 s after it. */
  ghost predicate ReadPastIn(p: Policy, events: seq<Event>, i: int, j: int)
    requires 0 <= i <= j < |events|
  {
    exists k :: i < k <= j && LooksUp(p, events, k) && events[k].env.nonceAt > events[i].env.nonceAt + CLOCK_SKEW
  }

  lemma {:induction false} ReadPastOfCalls(p: Policy, events: seq<Event>, i: nat, j: nat, a: nat, b: nat)
    requires i < j < |events| && LooksUp(p, events, i) && LooksUp(p, events, j)
    requires a == |Calls(p, events, i)| < b == |Calls(p, events, j)| < |Calls(p, events, |events|)|
    ensures ReadPast(Calls(p, events, |events|), a, b) <==> ReadPastIn(p, events, i, j)
  {
    var n, looks, calls := |events|, Lookups(p, events), Calls(p, events, |events|);
    CallOfEvent(p, events, i, n, a);
    if ReadPast(calls, a, b) {
      var c :| a < c <= b && calls[c].now > calls[a].now + CLOCK_SKEW;
      var k := EventOfCall(events, looks, n, c);
      CallOfEvent(p, events, k, n, c);
      EventsInOrder(events, looks, i, k);
      EventsInOrder(events, looks, j, k);
    }
    if ReadPastIn(p, events, i, j) {
      var k :| i < k <= j && LooksUp(p, events, k) && events[k].env.nonceAt > events[i].env.nonceAt + CLOCK_SKEW;
      var c := |Calls(p, events, k)|;
      CallOfEvent(p, events, k, n, c);
      EventsInOrder(events, looks, i, k);
      EventsInOrder(events, looks, j, k);
    }
  }

  predicate SameNonce(d: Event, e: Event) {
    CallOf(d).nonce == CallOf(e).nonce
  }

  lemma {:induction false} AcceptedTwiceReadsPast(p: Policy, events: seq<Event>, i: nat, j: nat)
    requires i < j < |events| && SameNonce(events[i], events[j]) && AcceptedIn(p, events, i) && AcceptedIn(p, events, j)
    ensures ReadPastIn(p, events, i, j)
  {
    var n, looks := |events|, Lookups(p, events);
    var a, b := |Calls(p, events, i)|, |Calls(p, events, j)|;
    CallOfEvent(p, events, i, n, a);
    CallOfEvent(p, events, j, n, b);
    EventsInOrder(events, looks, i, j);
    AcceptedTwiceNeedsReading(Calls(p, events, n), a, b);
    ReadPastOfCalls(p, events, i, j, a, b);
  }

  // ----- the live nonces, stated on the events

  /** Since the h-th event some lookup, or the i-th event itself, read the clock more than 30 s after it. */
  ghost predicate Forgotten(p: Policy, events: seq<Event>, h: int, i: int)
    requires 0 <= h <= i < |events|
  {
    exists k :: h < k <= i && (k == i || LooksUp(p, events, k))
                && events[k].env.nonceAt > events[h].env.nonceAt + 30_000_000_000
  }

  /** The nonces accepted on any connection before the i-th event and not forgotten since. */
  ghost function LiveNonces(p: Policy, events: seq<Event>, i: int): set<string>
    requires 0 <= i < |events|
  {
    set h | 0 <= h < i && AcceptedIn(p, events, h) && !Forgotten(p, events, h, i) :: CallOf(events[h]).nonce
  }

  lemma {:induction false} LiveIsUnexpired(p: Policy, events: seq<Event>, h: nat, i: nat)
    requires h < i < |events| && AcceptedIn(p, events, h) && LooksUp(p, events, i) && !Forgotten(p, events, h, i)
    ensures CallOf(events[h]).nonce in Unexpired(After(p, events, i).cache, events[i].env.nonceAt)
  {
    var n, looks := |events|, Lookups(p, events);
    var a, b := |Calls(p, events, h)|, |Calls(p, events, i)|;
    CallOfEvent(p, events, h, n, a);
    CallOfEvent(p, events, i, n, b);
    EventsInOrder(events, looks, h, i);
    ReadPastOfCalls(p, events, h, i, a, b);
    StillLive(Calls(p, events, n), a, b);
  }

  lemma {:induction false} UnexpiredIsLive(p: Policy, events: seq<Event>, i: nat, nonce: string) returns (h: nat)
    requires i < |events| && LooksUp(p, events, i)
    requires nonce in Unexpired(After(p, events, i).cache, events[i].env.nonceAt)
    ensures h < i && AcceptedIn(p, events, h) && CallOf(events[h]).nonce == nonce && !Forgotten(p, events, h, i)
  {
    var n, looks, calls := |events|, Lookups(p, events), Calls(p, events, |events|);
    var b := |Calls(p, events, i)|;
    CallOfEvent(p, events, i, n, b);
    var a := CachedWasAccepted(calls, b, nonce);
    h := EventOfCall(events, looks, n, a);
    CallOfEvent(p, events, h, n, a);
    EventsInOrder(events, looks, h, i);
    LiveExactly(calls, a, b);
    ReadPastOfCalls(p, events, h, i, a, b);
  }

  /** At every lookup the unexpired entries of the cache are the live nonces. */
  lemma {:induction false} UnexpiredAreLive(p: Policy, events: seq<Event>, i: nat)
    requires i < |events| && LooksUp(p, events, i)
    ensures Unexpired(After(p, events, i).cache, events[i].env.nonceAt).Keys == LiveNonces(p, events, i)
  {
    var live := Unexpired(After(p, events, i).cache, events[i].env.nonceAt);
    forall nonce | nonce in live.Keys
      ensures nonce in LiveNonces(p, events, i)
    {
      var h := UnexpiredIsLive(p, events, i, nonce);
    }
    forall nonce | nonce in LiveNonces(p, events, i)
      ensures nonce in live.Keys
    {
      var h :| 0 <= h < i && AcceptedIn(p, events, h) && !Forgotten(p, events, h, i) && nonce == CallOf(events[h]).nonce;
      LiveIsUnexpired(p, events, h, i);
    }
  }

  /** Whatever the order of the clock readings, a nonce that is looked up is accepted exactly when it is not live and
      fewer than 4096 nonces are. */
  lemma {:induction false} NonceCheckExactly(p: Policy, events: seq<Event>, i: nat)
    requires i < |events| && LooksUp(p, events, i)
    ensures AcceptedIn(p, events, i) <==>
              CallOf(events[i]).nonce !in LiveNonces(p, events, i) && |LiveNonces(p, events, i)| < MAX_REPLAY_NONCES
  {
    var live := Unexpired(After(p, events, i).cache, events[i].env.nonceAt);
    CacheOneMore(p, After(p, events, i), events[i]);
    UnexpiredAreLive(p, events, i);
    assert |live| == |live.Keys|;
  }

  /** After its last acceptance, on any connection, a nonce that is looked up is accepted again if and only if some
      lookup since then read the clock past its expiry and fewer than 4096 nonces are live. */
  lemma {:induction false} NonceAcceptedAgain(p: Policy, events: seq<Event>, i: nat, j: nat)
    requires i < j < |events| && SameNonce(events[i], events[j]) && AcceptedIn(p, events, i) && LooksUp(p, events, j)
    requires forall k :: i < k < j && SameNonce(events[k], events[i]) ==> !AcceptedIn(p, events, k)
    ensures AcceptedIn(p, events, j) <==> ReadPastIn(p, events, i, j) && |LiveNonces(p, events, j)| < 4096
  {
    NonceCheckExactly(p, events, j);
    assert ReadPastIn(p, events, i, j) <==> Forgotten(p, events, i, j);
    if !Forgotten(p, events, i, j) {
      assert CallOf(events[i]).nonce in LiveNonces(p, events, j);
    } else if CallOf(events[j]).nonce in LiveNonces(p, events, j) {
      var h :| 0 <= h < j && AcceptedIn(p, events, h) && !Forgotten(p, events, h, j)
               && CallOf(events[j]).nonce == CallOf(events[h]).nonce;
      ForgottenSinceEarlier(p, events, h, i, j);
    }
  }

  /** What a later acceptance of the same nonce has outlived, an earlier one has not survived. */
  lemma {:induction false} ForgottenSinceEarlier(p: Policy, events: seq<Event>, h: nat, i: nat, j: nat)
    requires h <= i < j < |events| && SameNonce(events[h], events[i]) && Forgotten(p, events, i, j)
    requires AcceptedIn(p, events, h) && AcceptedIn(p, events, i)
    ensures Forgotten(p, events, h, j)
  {
    if h < i {
      AcceptedTwiceReadsPast(p, events, h, i);
      var k :| h < k <= i && LooksUp(p, events, k) && events[k].env.nonceAt > events[h].env.nonceAt + CLOCK_SKEW;
    }
  }

  ghost predicate ReadsNoLater(p: Policy, events: seq<Event>, k: int, i: int)
    requires 0 <= k <= i < |events|
  {
    LooksUp(p, events, k) ==> events[k].env.nonceAt <= events[i].env.nonceAt
  }

  /** No lookup before the i-th event read a later clock than it does. */
  ghost predicate LatestReading(p: Policy, events: seq<Event>, i: int)
    requires 0 <= i < |events|
  {
    forall k :: 0 <= k < i ==> ReadsNoLater(p, events, k, i)
  }

  lemma {:induction false} ReadNoLater(p: Policy, events: seq<Event>, k: nat, i: nat)
    requires k <= i < |events| && LatestReading(p, events, i) && LooksUp(p, events, k)
    ensures events[k].env.nonceAt <= events[i].env.nonceAt
  {
    assert k < i ==> ReadsNoLater(p, events, k, i);
  }

  /** A reading past the expiry, in clock order, means that the last reading is past it. */
  lemma {:induction false} ReadPastInOrder(p: Policy, events: seq<Event>, i: nat, j: nat)
    requires i < j < |events| && LatestReading(p, events, j) && ReadPastIn(p, events, i, j)
    ensures events[j].env.nonceAt > events[i].env.nonceAt + CLOCK_SKEW
  {
    var k :| i < k <= j && LooksUp(p, events, k) && events[k].env.nonceAt > events[i].env.nonceAt + CLOCK_SKEW;
    ReadNoLater(p, events, k, j);
  }

  /** In clock order, two accepted requests with the same nonce are more than 30 s apart. */
  lemma {:induction false} AcceptedFarApart(p: Policy, events: seq<Event>, i: nat, j: nat)
    requires i < j < |events| && LatestReading(p, events, j) && SameNonce(events[i], events[j])
    requires AcceptedIn(p, events, i) && AcceptedIn(p, events, j)
    ensures events[j].env.nonceAt > events[i].env.nonceAt + CLOCK_SKEW
  {
    AcceptedTwiceReadsPast(p, events, i, j);
    ReadPastInOrder(p, events, i, j);
  }

  /** The nonces accepted on any connection at most 30 s before the i-th event. */
  ghost function RecentNonces(p: Policy, events: seq<Event>, i: int): set<string>
    requires 0 <= i < |events|
  {
    set h | 0 <= h < i && AcceptedIn(p, events, h) && events[i].env.nonceAt <= events[h].env.nonceAt + 30_000_000_000 ::
      CallOf(events[h]).nonce
  }

  /** In clock order the live nonces are those accepted at most 30 s before. */
  lemma {:induction false} LiveInClockOrder(p: Policy, events: seq<Event>, i: nat)
    requires i < |events| && LatestReading(p, events, i)
    ensures LiveNonces(p, events, i) == RecentNonces(p, events, i)
  {
    forall h | 0 <= h < i
      ensures Forgotten(p, events, h, i) <==> events[i].env.nonceAt > events[h].env.nonceAt + CLOCK_SKEW
    {
      if Forgotten(p, events, h, i) {
        var k :| h < k <= i && (k == i || LooksUp(p, events, k))
                 && events[k].env.nonceAt > events[h].env.nonceAt + CLOCK_SKEW;
        assert k < i ==> ReadsNoLater(p, events, k, i);
      }
    }
  }

  // ----- what a dispatched command has passed

  /** Every earlier dispatch on the same connection is at least 100 ms older. */
  ghost predicate WellSpaced(p: Policy, events: seq<Event>, i: int)
    requires 0 <= i < |events|
  {
    forall h :: 0 <= h < i && DispatchedIn(p, events, h) && events[h].id == events[i].id ==>
                  events[i].env.rateAt - events[h].env.rateAt >= 100_000_000
  }

  lemma {:induction false} RateLimitExactly(p: Policy, events: seq<Event>, i: nat)
    requires i < |events|
    ensures TooSoon(ConnOf(After(p, events, i), events[i].id).last, events[i].env.rateAt) <==> !WellSpaced(p, events, i)
  {
    var last, sent := ConnOf(After(p, events, i), events[i].id).last, Dispatches(p, events);
    LastIsAmong(p, events, sent, i, events[i].id);
    DispatchesAreLimited(p, events);
    if TooSoon(last, events[i].env.rateAt) {
      var h := LastWasDispatched(events, sent, i, events[i].id);
    } else {
      forall h | 0 <= h < i && DispatchedIn(p, events, h) && events[h].id == events[i].id
        ensures events[i].env.rateAt - events[h].env.rateAt >= MINIMUM_COMMAND_INTERVAL
      {
        LastIsLatest(events, sent, i, h);
      }
    }
  }

  /** The checks before the nonce is looked up, and those after it was accepted. */
  lemma {:induction false} ChecksOfVerdict(p: Policy, s: Service, e: Event)
    ensures var v := VerdictOf(p, s, e);
            && (ReachesCache(v) <==> e.line.Request? && e.env.integrityHealthy && p.validates(e.line.cmd, e.env.validateAt)
                                     && p.authentic(e.line.cmd))
            && (v.Dispatched? <==> ReachesCache(v) && AcceptsNonce(v) && (e.env.panic ==> p.readOnly(e.line.cmd.action))
                                   && !TooSoon(ConnOf(s, e.id).last, e.env.rateAt))
  {
  }

  /** What becomes of a request once its nonce is accepted: panic mode denies it unless it only reads, and else it is
      dispatched exactly if every earlier dispatch on its connection is at least 100 ms older. */
  lemma {:induction false} AcceptedVerdicts(p: Policy, events: seq<Event>, i: nat)
    requires i < |events| && AcceptedIn(p, events, i)
    ensures events[i].line.Request?
    ensures VerdictAt(p, events, i)
         == if events[i].env.panic && !p.readOnly(events[i].line.cmd.action) then PanicDenied
            else if WellSpaced(p, events, i) then Dispatched else RateLimited
  {
    RateLimitExactly(p, events, i);
  }

  /** The request of the i-th event passes every check but those of the nonce. */
  ghost predicate PassesOtherChecks(p: Policy, events: seq<Event>, i: int, audioTarget: string -> bool)
    requires 0 <= i < |events|
  {
    var line, env := events[i].line, events[i].env;
    && line.Request? && env.integrityHealthy
    && Validates(line.cmd, env.validateAt, audioTarget) && p.authentic(line.cmd)
    && (env.panic ==> line.cmd.action in READ_ONLY)
    && WellSpaced(p, events, i)
  }

  /** In every run, whatever the order of the clock readings, the bridge dispatches a command if and only if it is a
      decoded request, met by a healthy installation, valid and authentic, its nonce is not live on any connection,
      fewer than 4096 nonces are, it is read-only if panic mode is on, and every earlier dispatch on its connection is
      at least 100 ms older. */
  lemma {:induction false} DispatchedExactly(authentic: Command -> bool, audioTarget: string -> bool, events: seq<Event>, i: nat)
    requires i < |events|
    ensures var p := BridgePolicy(authentic, audioTarget);
            DispatchedIn(p, events, i) <==>
              && PassesOtherChecks(p, events, i, audioTarget)
              && events[i].line.cmd.nonce !in LiveNonces(p, events, i)
              && |LiveNonces(p, events, i)| < 4096
  {
    var p := BridgePolicy(authentic, audioTarget);
    RateLimitExactly(p, events, i);
    ChecksOfVerdict(p, After(p, events, i), events[i]);
    if LooksUp(p, events, i) {
      NonceCheckExactly(p, events, i);
    }
  }

  /** So in clock order: not one of the nonces accepted in the last 30 s, and fewer than 4096 of those. */
  lemma {:induction false} DispatchedInClockOrder(authentic: Command -> bool, audioTarget: string -> bool,
                                                  events: seq<Event>, i: nat)
    requires i < |events| && LatestReading(BridgePolicy(authentic, audioTarget), events, i)
    ensures var p := BridgePolicy(authentic, audioTarget);
            DispatchedIn(p, events, i) <==>
              && PassesOtherChecks(p, events, i, audioTarget)
              && events[i].line.cmd.nonce !in RecentNonces(p, events, i)
              && |RecentNonces(p, events, i)| < 4096
  {
    DispatchedExactly(authentic, audioTarget, events, i);
    LiveInClockOrder(BridgePolicy(authentic, audioTarget), events, i);
  }

  // ----- when a connection stays open

  /** A decoded request, met by a healthy installation, that is valid and authentic. */
  predicate Checked(p: Policy, e: Event) {
    e.line.Request? && e.env.integrityHealthy && p.validates(e.line.cmd, e.env.validateAt) && p.authentic(e.line.cmd)
  }

  /** Its nonce is not live, and fewer than 4096 are. */
  ghost predicate NonceFree(p: Policy, events: seq<Event>, i: int)
    requires 0 <= i < |events|
  {
    CallOf(events[i]).nonce !in LiveNonces(p, events, i) && |LiveNonces(p, events, i)| < 4096
  }

  /** An event that counts as invalid: a text that does not decode, a command that is not valid, or an authentic one
      whose nonce is refused. */
  ghost predicate InvalidEvent(p: Policy, events: seq<Event>, i: int)
    requires 0 <= i < |events|
  {
    var line, env := events[i].line, events[i].env;
    && env.integrityHealthy
    && (line.Undecodable? || (line.Request? && !p.validates(line.cmd, env.validateAt))
        || (Checked(p, events[i]) && !NonceFree(p, events, i)))
  }

  /** A valid command that is not authentic. */
  predicate UnauthenticEvent(p: Policy, e: Event) {
    e.env.integrityHealthy && e.line.Request? && p.validates(e.line.cmd, e.env.validateAt) && !p.authentic(e.line.cmd)
  }

  ghost predicate AcceptedEvent(p: Policy, events: seq<Event>, i: int)
    requires 0 <= i < |events|
  {
    Checked(p, events[i]) && NonceFree(p, events, i)
  }

  /** The verdicts before a nonce is looked up. */
  lemma {:induction false} EarlyVerdicts(p: Policy, s: Service, e: Event)
    ensures var v := VerdictOf(p, s, e);
            && (ReachesCache(v) <==> Checked(p, e))
            && (v.Unauthenticated? <==> UnauthenticEvent(p, e))
            && (v.Garbled? <==> e.env.integrityHealthy && e.line.Undecodable?)
            && (v.Invalid? <==> e.env.integrityHealthy && e.line.Request? && !p.validates(e.line.cmd, e.env.validateAt))
            && (v.Disconnected? || v.Oversized? || v.Untrusted? <==>
                  e.line.ReadFailed? || e.line.TooLarge? || !e.env.integrityHealthy)
            && (AcceptsNonce(v) ==> ReachesCache(v)) && (v.NonceRefused? <==> ReachesCache(v) && !AcceptsNonce(v))
  {
  }

  /** Which events count as invalid, which as unauthenticated, and which start the counts anew. */
  lemma {:induction false} EventsCount(p: Policy, events: seq<Event>, i: nat)
    requires i < |events|
    ensures var v := VerdictAt(p, events, i);
            && (CountsInvalid(v) <==> InvalidEvent(p, events, i))
            && (v.Unauthenticated? <==> UnauthenticEvent(p, events[i]))
            && (AcceptsNonce(v) <==> AcceptedEvent(p, events, i))
  {
    EarlyVerdicts(p, After(p, events, i), events[i]);
    if LooksUp(p, events, i) {
      NonceCheckExactly(p, events, i);
    }
  }

  /** How many of the first n events on a connection are marked, since the last one on it that starts anew. */
  function CountSince(events: seq<Event>, marked: seq<bool>, anew: seq<bool>, n: nat, id: nat): nat
    requires n <= |events| == |marked| == |anew|
  {
    if n == 0 then 0
    else if events[n - 1].id != id then CountSince(events, marked, anew, n - 1, id)
    else if anew[n - 1] then 0
    else CountSince(events, marked, anew, n - 1, id) + if marked[n - 1] then 1 else 0
  }

  ghost function InvalidEvents(p: Policy, events: seq<Event>): (r: seq<bool>)
    ensures |r| == |events| && forall i :: 0 <= i < |r| ==> r[i] == InvalidEvent(p, events, i)
  {
    seq(|events|, i requires 0 <= i < |events| => InvalidEvent(p, events, i))
  }

  ghost function UnauthenticEvents(p: Policy, events: seq<Event>): (r: seq<bool>)
    ensures |r| == |events| && forall i :: 0 <= i < |r| ==> r[i] == UnauthenticEvent(p, events[i])
  {
    seq(|events|, i requires 0 <= i < |events| => UnauthenticEvent(p, events[i]))
  }

  ghost function AcceptedEvents(p: Policy, events: seq<Event>): (r: seq<bool>)
    ensures |r| == |events| && forall i :: 0 <= i < |r| ==> r[i] == AcceptedEvent(p, events, i)
  {
    seq(|events|, i requires 0 <= i < |events| => AcceptedEvent(p, events, i))
  }

  /** The invalid and the unauthenticated requests on a connection since a nonce was last accepted on it. */
  ghost function InvalidOn(p: Policy, events: seq<Event>, n: nat, id: nat): nat
    requires n <= |events|
  {
    CountSince(events, InvalidEvents(p, events), AcceptedEvents(p, events), n, id)
  }

  ghost function UnauthenticOn(p: Policy, events: seq<Event>, n: nat, id: nat): nat
    requires n <= |events|
  {
    CountSince(events, UnauthenticEvents(p, events), AcceptedEvents(p, events), n, id)
  }

  /** The marks of an event tell what its verdict counts as. */
  ghost predicate MarksVerdict(v: Verdict, invalid: bool, unauthentic: bool, anew: bool) {
    invalid == CountsInvalid(v) && unauthentic == v.Unauthenticated? && anew == AcceptsNonce(v)
  }

  ghost predicate MarkedAt(p: Policy, events: seq<Event>, invalid: seq<bool>, unauthentic: seq<bool>, anew: seq<bool>, i: int)
    requires 0 <= i < |events| == |invalid| == |unauthentic| == |anew|
  {
    MarksVerdict(VerdictAt(p, events, i), invalid[i], unauthentic[i], anew[i])
  }

  lemma {:induction false} EventsAreMarked(p: Policy, events: seq<Event>, i: nat)
    requires i < |events|
    ensures MarkedAt(p, events, InvalidEvents(p, events), UnauthenticEvents(p, events), AcceptedEvents(p, events), i)
  {
    EventsCount(p, events, i);
  }

  lemma {:induction false} NextCounters(p: Policy, s: Service, e: Event, id: nat, v: Verdict, t: Service)
    requires v == VerdictOf(p, s, e) && t == Handle(p, s, e)
    ensures var c, d := ConnOf(s, id), ConnOf(t, id);
            if id != e.id then d == c
            else && d.invalidRequests == (if AcceptsNonce(v) then 0 else c.invalidRequests + if CountsInvalid(v) then 1 else 0)
                 && d.authFailures == (if AcceptsNonce(v) then 0 else c.authFailures + if v.Unauthenticated? then 1 else 0)
  {
  }

  lemma {:induction false} CountersAreMarks(p: Policy, events: seq<Event>, invalid: seq<bool>, unauthentic: seq<bool>,
                                            anew: seq<bool>, n: nat, id: nat)
    requires n <= |events| == |invalid| == |unauthentic| == |anew|
    requires forall i :: 0 <= i < n ==> MarkedAt(p, events, invalid, unauthentic, anew, i)
    ensures var c := ConnOf(After(p, events, n), id);
            && c.invalidRequests == CountSince(events, invalid, anew, n, id)
            && c.authFailures == CountSince(events, unauthentic, anew, n, id)
    decreases n
  {
    if n > 0 {
      CountersAreMarks(p, events, invalid, unauthentic, anew, n - 1, id);
      assert MarkedAt(p, events, invalid, unauthentic, anew, n - 1);
      NextCounters(p, After(p, events, n - 1), events[n - 1], id, VerdictAt(p, events, n - 1), After(p, events, n));
    }
  }

  lemma {:induction false} CountersAreOfEvents(p: Policy, events: seq<Event>, n: nat, id: nat)
    requires n <= |events|
    ensures var c := ConnOf(After(p, events, n), id);
            c.invalidRequests == InvalidOn(p, events, n, id) && c.authFailures == UnauthenticOn(p, events, n, id)
  {
    var invalid, unauthentic, anew := InvalidEvents(p, events), UnauthenticEvents(p, events), AcceptedEvents(p, events);
    forall i | 0 <= i < n
      ensures MarkedAt(p, events, invalid, unauthentic, anew, i)
    {
      EventsAreMarked(p, events, i);
    }
    CountersAreMarks(p, events, invalid, unauthentic, anew, n, id);
  }

  /** The i-th event leaves its connection open. */
  ghost predicate LeavesOpen(p: Policy, events: seq<Event>, i: int)
    requires 0 <= i < |events|
  {
    var e := events[i];
    && !e.line.ReadFailed? && !e.line.TooLarge? && e.env.integrityHealthy && e.env.writeOk
    && InvalidOn(p, events, i + 1, e.id) < 5 && UnauthenticOn(p, events, i + 1, e.id) < 5
  }

  lemma {:induction false} TurnLeavesOpen(p: Policy, s: Service, e: Event, c: Conn)
    requires c == ConnOf(s, e.id) && c.open && c.invalidRequests < 5 && c.authFailures < 5
    ensures var d := ConnOf(Handle(p, s, e), e.id);
            d.open <==> !e.line.ReadFailed? && !e.line.TooLarge? && e.env.integrityHealthy && e.env.writeOk
                        && d.invalidRequests < 5 && d.authFailures < 5
  {
    EarlyVerdicts(p, s, e);
  }

  lemma {:induction false} EventLeavesOpen(p: Policy, events: seq<Event>, i: nat)
    requires IsRun(p, events) && i < |events|
    ensures ConnOf(After(p, events, i + 1), events[i].id).open <==> LeavesOpen(p, events, i)
  {
    var s, e := After(p, events, i), events[i];
    assert OpenAt(p, events, i);
    ConnsKeepInv(p, events, i, e.id);
    TurnLeavesOpen(p, s, e, ConnOf(s, e.id));
    CountersAreOfEvents(p, events, i + 1, e.id);
    assert After(p, events, i + 1) == Handle(p, s, e);
  }

  /** The i-th event is on another connection, or leaves this one open. */
  ghost predicate KeepsOpen(p: Policy, events: seq<Event>, i: int, id: nat)
    requires 0 <= i < |events|
  {
    events[i].id == id ==> LeavesOpen(p, events, i)
  }

  predicate IsOpen(p: Policy, events: seq<Event>, n: nat, id: nat)
    requires n <= |events|
  {
    ConnOf(After(p, events, n), id).open
  }

  lemma {:induction false} OpenOneMore(p: Policy, events: seq<Event>, i: nat, n: nat, id: nat)
    requires IsRun(p, events) && i < |events| && n == i + 1
    ensures IsOpen(p, events, n, id) <==> IsOpen(p, events, i, id) && KeepsOpen(p, events, i, id)
  {
    if events[i].id == id {
      EventLeavesOpen(p, events, i);
      assert OpenAt(p, events, i);
    } else {
      NextCounters(p, After(p, events, i), events[i], id, VerdictAt(p, events, i), After(p, events, n));
    }
  }

  lemma {:induction false} OpenAfter(p: Policy, events: seq<Event>, n: nat, id: nat) returns (i: nat)
    requires IsRun(p, events) && n <= |events|
    ensures IsOpen(p, events, n, id) ==> forall k :: 0 <= k < n ==> KeepsOpen(p, events, k, id)
    ensures !IsOpen(p, events, n, id) ==> i < n && !KeepsOpen(p, events, i, id)
    decreases n
  {
    i := 0;
    if n > 0 {
      i := OpenAfter(p, events, n - 1, id);
      OpenOneMore(p, events, n - 1, n, id);
      if IsOpen(p, events, n - 1, id) {
        i := n - 1;
      }
    }
  }

  /** In every run: a connection is open exactly if on it no read failed, no request was too large, none met an unhealthy
      installation, every response could be written, and never were there five invalid or five unauthenticated requests
      since its last accepted nonce. */
  lemma {:induction false} OpenExactly(p: Policy, events: seq<Event>, n: nat, id: nat)
    requires IsRun(p, events) && n <= |events|
    ensures IsOpen(p, events, n, id) <==> forall i :: 0 <= i < n ==> KeepsOpen(p, events, i, id)
  {
    var i := OpenAfter(p, events, n, id);
  }

  // ----- replayed commands

  predicate SameCommand(d: Event, e: Event) {
    d.line.Request? && e.line.Request? && d.line.cmd.nonce == e.line.cmd.nonce
    && d.line.cmd.timestampMs == e.line.cmd.timestampMs
  }

  /** A command is dispatched again, on whatever connections and in whatever order the clocks are read, only if some
      lookup between the two read the clock further ahead of the second timestamp check than the first lookup was from
      the timestamp. */
  lemma {:induction false} DispatchedAgainNeedsReading(p: Policy, events: seq<Event>, i: nat, j: nat) returns (k: nat)
    requires ChecksFreshness(p) && i < j < |events|
    requires DispatchedIn(p, events, i) && DispatchedIn(p, events, j) && SameCommand(events[i], events[j])
    ensures i < k <= j && LooksUp(p, events, k)
    ensures events[k].env.nonceAt - events[j].env.validateAt > events[i].env.nonceAt - Stamp(events[i].line.cmd)
  {
    AcceptedTwiceReadsPast(p, events, i, j);
    k :| i < k <= j && LooksUp(p, events, k) && events[k].env.nonceAt > events[i].env.nonceAt + CLOCK_SKEW;
    assert p.validates(events[j].line.cmd, events[j].env.validateAt);
  }

  /** In clock order that lookup can be taken to be its own: the two readings of the second request are further apart
      than the first lookup was from the timestamp. */
  lemma {:induction false} DispatchedAgainNeedsDelay(p: Policy, events: seq<Event>, i: nat, j: nat)
    requires ChecksFreshness(p) && i < j < |events| && LatestReading(p, events, j)
    requires DispatchedIn(p, events, i) && DispatchedIn(p, events, j) && SameCommand(events[i], events[j])
    ensures events[j].env.nonceAt - events[j].env.validateAt > events[i].env.nonceAt - Stamp(events[i].line.cmd)
  {
    var k := DispatchedAgainNeedsReading(p, events, i, j);
    ReadNoLater(p, events, k, j);
  }

  /** The clock is read in the order of the checks. */
  predicate ReadsInOrder(e: Event) {
    e.env.validateAt <= e.env.nonceAt <= e.env.rateAt
  }

  /** A run, whose requests read the clock in the order of their checks, that dispatches a command twice. */
  ghost predicate DispatchesTwice(p: Policy, events: seq<Event>, cmd: Command, i: int, j: int) {
    && IsRun(p, events) && (forall k :: 0 <= k < |events| ==> ReadsInOrder(events[k]))
    && 0 <= i < j < |events| && DispatchedIn(p, events, i) && DispatchedIn(p, events, j)
    && events[i].line == Request(cmd) && events[j].line == Request(cmd)
  }

  /** No lookup read the clock more than `lead` after the timestamp check of its own request or a later one. */
  ghost predicate ReadsLead(p: Policy, events: seq<Event>, lead: int) {
    forall k, j :: 0 <= k <= j < |events| && LooksUp(p, events, k) && LooksUp(p, events, j) ==>
                     events[k].env.nonceAt <= events[j].env.validateAt + lead
  }

  /** Some run with such a bound dispatches the command twice, the first time with its nonce looked up at `first`. */
  ghost predicate DispatchableTwice(p: Policy, cmd: Command, first: Time, lead: int) {
    exists events: seq<Event>, i, j ::
      DispatchesTwice(p, events, cmd, i, j) && ReadsLead(p, events, lead) && events[i].env.nonceAt == first
  }

  /** Some run dispatches it twice, with `delay` between the two clock readings of the second request. */
  ghost predicate DispatchableWithDelay(p: Policy, cmd: Command, first: Time, delay: int) {
    exists events: seq<Event>, i, j ::
      DispatchesTwice(p, events, cmd, i, j) && events[i].env.nonceAt == first
      && events[j].env.nonceAt - events[j].env.validateAt == delay
  }

  /** Some run in clock order does. */
  ghost predicate DispatchableInOrder(p: Policy, cmd: Command, first: Time, delay: int) {
    exists events: seq<Event>, i, j ::
      DispatchesTwice(p, events, cmd, i, j) && InLookupOrder(p, events) && events[i].env.nonceAt == first
      && events[j].env.nonceAt - events[j].env.validateAt == delay
  }

  function PlainRequest(id: nat, cmd: Command, validateAt: Time, nonceAt: Time): Event {
    Event(id, Request(cmd), Env(validateAt, nonceAt, nonceAt, true, false, true))
  }

  /** A command that the bridge would accept at any time within 30 s of its timestamp. */
  ghost predicate Acceptable(p: Policy, cmd: Command) {
    p.authentic(cmd) && forall t :: Fresh(Stamp(cmd), t) ==> p.validates(cmd, t)
  }

  /** The last and the first request for it that can still be accepted, looked up as late as wanted. */
  function LatestCheck(cmd: Command): Time {
    Stamp(cmd) + CLOCK_SKEW
  }

  function FirstRequest(cmd: Command, first: Time): Event {
    PlainRequest(0, cmd, if first <= LatestCheck(cmd) then first else LatestCheck(cmd), first)
  }

  /** A plain request for a command with a nonce that is not cached, on a connection of its own. */
  lemma {:induction false} PlainIsDispatched(p: Policy, s: Service, e: Event, cmd: Command, live: Cache)
    requires e == PlainRequest(e.id, cmd, e.env.validateAt, e.env.nonceAt) && ConnOf(s, e.id) == FRESH
    requires p.authentic(cmd) && p.validates(cmd, e.env.validateAt)
    requires live == Unexpired(s.cache, e.env.nonceAt) && cmd.nonce !in live && |live| < MAX_REPLAY_NONCES
    ensures VerdictOf(p, s, e) == Dispatched
    ensures Handle(p, s, e).cache == live[cmd.nonce := e.env.nonceAt + CLOCK_SKEW]
    ensures forall id :: id != e.id ==> ConnOf(Handle(p, s, e), id) == ConnOf(s, id)
  {
  }

  lemma {:induction false} TwoRequests(p: Policy, cmd: Command, d: Event, e: Event)
    requires d == PlainRequest(0, cmd, d.env.validateAt, d.env.nonceAt)
    requires e == PlainRequest(1, cmd, e.env.validateAt, e.env.nonceAt)
    requires p.authentic(cmd) && p.validates(cmd, d.env.validateAt) && p.validates(cmd, e.env.validateAt)
    requires e.env.nonceAt > d.env.nonceAt + CLOCK_SKEW
    ensures IsRun(p, [d, e]) && DispatchedIn(p, [d, e], 0) && DispatchedIn(p, [d, e], 1)
  {
    var s := After(p, [d, e], 0);
    assert Unexpired(s.cache, d.env.nonceAt) == map[];
    PlainIsDispatched(p, s, d, cmd, map[]);
    var t := After(p, [d, e], 1);
    assert t == Handle(p, s, d);
    assert Unexpired(t.cache, e.env.nonceAt) == map[];
    PlainIsDispatched(p, t, e, cmd, map[]);
  }

  /** The run of two requests for a command, the second with a lead that exceeds its age at the first lookup. */
  lemma {:induction false} LeadMakesReplay(p: Policy, cmd: Command, first: Time, lead: nat)
    requires Acceptable(p, cmd) && first >= Stamp(cmd) - CLOCK_SKEW && lead > first - Stamp(cmd)
    ensures DispatchableTwice(p, cmd, first, lead) && DispatchableInOrder(p, cmd, first, lead)
  {
    var d := FirstRequest(cmd, first);
    var e := PlainRequest(1, cmd, LatestCheck(cmd), LatestCheck(cmd) + lead);
    TwoRequests(p, cmd, d, e);
    var events := [d, e];
    assert ReadsInOrder(events[0]) && ReadsInOrder(events[1]);
    assert DispatchesTwice(p, events, cmd, 0, 1);
    assert events[0].env.nonceAt == first && events[1].env.nonceAt - events[1].env.validateAt == lead;
    assert ReadsLead(p, events, lead) && InLookupOrder(p, events);
  }

  /** An acceptable command that can be dispatched with its nonce looked up at `first` can be dispatched again if and
      only if lookups may read the clock further ahead of timestamp checks than the command was old at `first`. */
  lemma {:induction false} DispatchableTwiceExactly(p: Policy, cmd: Command, first: Time, lead: nat)
    requires ChecksFreshness(p) && Acceptable(p, cmd) && first >= Stamp(cmd) - CLOCK_SKEW
    ensures DispatchableTwice(p, cmd, first, lead) <==> lead > first - Stamp(cmd)
  {
    if DispatchableTwice(p, cmd, first, lead) {
      var events: seq<Event>, i, j :|
        DispatchesTwice(p, events, cmd, i, j) && ReadsLead(p, events, lead) && events[i].env.nonceAt == first;
      var k := DispatchedAgainNeedsReading(p, events, i, j);
    }
    if lead > first - Stamp(cmd) {
      LeadMakesReplay(p, cmd, first, lead);
    }
  }

  /** In clock order the lead is the delay between the two readings of the second request. */
  lemma {:induction false} DispatchableInOrderExactly(p: Policy, cmd: Command, first: Time, delay: nat)
    requires ChecksFreshness(p) && Acceptable(p, cmd) && first >= Stamp(cmd) - CLOCK_SKEW
    ensures DispatchableInOrder(p, cmd, first, delay) <==> delay > first - Stamp(cmd)
  {
    if DispatchableInOrder(p, cmd, first, delay) {
      var events: seq<Event>, i, j :|
        DispatchesTwice(p, events, cmd, i, j) && InLookupOrder(p, events) && events[i].env.nonceAt == first
        && events[j].env.nonceAt - events[j].env.validateAt == delay;
      assert LatestReading(p, events, j);
      DispatchedAgainNeedsDelay(p, events, i, j);
    }
    if delay > first - Stamp(cmd) {
      LeadMakesReplay(p, cmd, first, delay);
    }
  }

  /** A command, another one whose lookup reads past the expiry of its nonce, and the command again. */
  lemma {:induction false} ThreeRequests(p: Policy, cmd: Command, other: Command, d: Event, e: Event, f: Event)
    requires d == PlainRequest(0, cmd, d.env.validateAt, d.env.nonceAt)
    requires e == PlainRequest(1, other, e.env.validateAt, e.env.nonceAt)
    requires f == PlainRequest(2, cmd, f.env.validateAt, f.env.nonceAt)
    requires p.authentic(cmd) && p.validates(cmd, d.env.validateAt) && p.validates(cmd, f.env.validateAt)
    requires p.authentic(other) && p.validates(other, e.env.validateAt) && cmd.nonce != other.nonce
    requires e.env.nonceAt > d.env.nonceAt + CLOCK_SKEW
    ensures IsRun(p, [d, e, f]) && DispatchedIn(p, [d, e, f], 0) && DispatchedIn(p, [d, e, f], 2)
  {
    var events := [d, e, f];
    var s := After(p, events, 0);
    assert Unexpired(s.cache, d.env.nonceAt) == map[];
    PlainIsDispatched(p, s, d, cmd, map[]);
    var t := After(p, events, 1);
    assert t == Handle(p, s, d);
    assert Unexpired(t.cache, e.env.nonceAt) == map[];
    PlainIsDispatched(p, t, e, other, map[]);
    var u := After(p, events, 2);
    assert u == Handle(p, t, e);
    var live := Unexpired(u.cache, f.env.nonceAt);
    assert live == u.cache || live == map[];
    PlainIsDispatched(p, u, f, cmd, live);
  }

  /** Out of clock order no delay is needed: while any other command is authentic and valid at some time, a command
      can be dispatched twice whatever its age and whatever the delay of the second request. */
  lemma {:induction false} DelayIsNoProtection(p: Policy, cmd: Command, other: Command, validAt: Time, first: Time, delay: nat)
    requires Acceptable(p, cmd) && first >= Stamp(cmd) - CLOCK_SKEW
    requires p.authentic(other) && p.validates(other, validAt) && cmd.nonce != other.nonce
    ensures DispatchableWithDelay(p, cmd, first, delay)
  {
    var past := first + CLOCK_SKEW + 1;
    var d := FirstRequest(cmd, first);
    var e := PlainRequest(1, other, validAt, if validAt <= past then past else validAt);
    var f := PlainRequest(2, cmd, LatestCheck(cmd), LatestCheck(cmd) + delay);
    ThreeRequests(p, cmd, other, d, e, f);
    var events := [d, e, f];
    assert events[0] == d && events[1] == e && events[2] == f;
    assert ReadsInOrder(d) && ReadsInOrder(e) && ReadsInOrder(f);
    assert DispatchesTwice(p, events, cmd, 0, 2);
  }

  lemma {:induction false} ValidIsAcceptable(authentic: Command -> bool, audioTarget: string -> bool, cmd: Command, validAt: Time)
    requires authentic(cmd) && Validates(cmd, validAt, audioTarget)
    ensures Acceptable(BridgePolicy(authentic, audioTarget), cmd)
  {
  }

  /** For the bridge, and every authentic command that is valid at some time: the exact condition for a second dispatch,
      the one in clock order, and that out of clock order there is none on the delay. */
  lemma {:induction false} BridgeDispatchesTwice(authentic: Command -> bool, audioTarget: string -> bool, cmd: Command,
                                                 validAt: Time, other: Command, otherAt: Time, first: Time, n: nat)
    requires authentic(cmd) && Validates(cmd, validAt, audioTarget) && first >= Stamp(cmd) - CLOCK_SKEW
    requires authentic(other) && Validates(other, otherAt, audioTarget) && cmd.nonce != other.nonce
    ensures var p := BridgePolicy(authentic, audioTarget);
            && (DispatchableTwice(p, cmd, first, n) <==> n > first - Stamp(cmd))
            && (DispatchableInOrder(p, cmd, first, n) <==> n > first - Stamp(cmd))
            && DispatchableWithDelay(p, cmd, first, n)
  {
    var p := BridgePolicy(authentic, audioTarget);
    BridgeChecksFreshness(authentic, audioTarget);
    ValidIsAcceptable(authentic, audioTarget, cmd, validAt);
    DispatchableTwiceExactly(p, cmd, first, n);
    DispatchableInOrderExactly(p, cmd, first, n);
    DelayIsNoProtection(p, cmd, other, otherAt, first, n);
  }
}
