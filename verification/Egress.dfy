/**
 One WebSocket connection's outbound path (src/runtime/ingress/websocket.ts): direct send, bounded
 queue, microtask drain, back-off timer and close, against a socket that may answer anything.
 The path refines a FIFO channel.
 */
module Egress {
  import opened Prelude

  datatype Outbound = Outbound(data: string, bytes: nat)

  datatype SendStatus = Accepted | Backpressured | Dropped | Threw

  /** One attempt to send: what the socket has buffered before, how it answers, what it has buffered after. */
  datatype SocketReply = SocketReply(bufferedBefore: nat, status: SendStatus, bufferedAfter: nat)

  datatype Config = Config(
    maxQueueMessages: nat,
    maxQueueBytes: nat,
    maxSocketBufferBytes: nat,
    byteLength: string -> nat,
    socket: nat -> SocketReply)     // the answer to the n-th attempt, chosen by an adversary

  datatype Connection = Connection(
    outboundQueue: seq<Outbound>,
    outboundQueuedBytes: int,
    drainScheduled: bool,
    pendingDrains: nat,             // drain microtasks not yet run
    retryArmed: bool,
    closed: bool,
    attempts: nat,
    submitted: seq<string>,         // what callers enqueued while the connection was open
    accepted: seq<string>)          // what the socket took

  const FRESH := Connection([], 0, false, 0, false, false, 0, [], [])

  datatype Outcome = Sent | NotSent | Failed

  function Close(c: Connection): Connection {
    if c.closed then c else c.(closed := true, retryArmed := false)
  }

  function TrySendNow(cfg: Config, c: Connection, data: string): (Connection, Outcome) {
    var reply := cfg.socket(c.attempts);
    var tried := c.(attempts := c.attempts + 1);
    if reply.bufferedBefore > cfg.maxSocketBufferBytes then (Close(tried), Failed)
    else
      match reply.status
      case Threw => (Close(tried), Failed)
      case Backpressured => (tried, NotSent)
      case Dropped => (Close(tried), Failed)
      case Accepted =>
        var taken := tried.(accepted := tried.accepted + [data]);
        if reply.bufferedAfter > cfg.maxSocketBufferBytes then (Close(taken), Failed) else (taken, Sent)
  }

  function ScheduleDrainRetry(c: Connection): Connection {
    if c.closed || c.retryArmed then c else c.(retryArmed := true)
  }

  function ScheduleDrain(c: Connection): Connection {
    if c.drainScheduled || c.closed then c
    else c.(drainScheduled := true, pendingDrains := c.pendingDrains + 1)
  }

  function Shifted(c: Connection): Connection
    requires c.outboundQueue != []
  {
    c.(outboundQueue := c.outboundQueue[1..], outboundQueuedBytes := c.outboundQueuedBytes - c.outboundQueue[0].bytes)
  }

  function PutBack(c: Connection, next: Outbound): Connection {
    c.(outboundQueue := [next] + c.outboundQueue, outboundQueuedBytes := c.outboundQueuedBytes + next.bytes)
  }

  function DrainLoop(cfg: Config, c: Connection): Connection
    decreases |c.outboundQueue|
  {
    if c.closed || c.outboundQueue == [] then c
    else
      var next := c.outboundQueue[0];
      var (tried, outcome) := TrySendNow(cfg, Shifted(c), next.data);
      match outcome
      case Sent => DrainLoop(cfg, tried)
      case NotSent => ScheduleDrainRetry(PutBack(tried, next))
      case Failed => tried
  }

  function DrainOutboundQueue(cfg: Config, c: Connection): Connection {
    DrainLoop(cfg, c.(drainScheduled := false))
  }

  /** `enqueueOutbound`; the flag tells whether it throws. */
  function EnqueueOutbound(cfg: Config, c: Connection, data: string): (Connection, bool) {
    if c.closed then (c, false)
    else
      var submitted := c.(submitted := c.submitted + [data]);
      var direct := c.outboundQueue == [] && !c.drainScheduled && !c.retryArmed;
      var (tried, outcome) := if direct then TrySendNow(cfg, submitted, data) else (submitted, NotSent);
      match outcome
      case Sent => (tried, false)
      case Failed => (tried, true)
      case NotSent =>
        var bytes := cfg.byteLength(data);
        if |tried.outboundQueue| + 1 > cfg.maxQueueMessages
           || tried.outboundQueuedBytes + bytes > cfg.maxQueueBytes then
          (Close(tried), true)
        else
          var pushed := tried.(
            outboundQueue := tried.outboundQueue + [Outbound(data, bytes)],
            outboundQueuedBytes := tried.outboundQueuedBytes + bytes);
          (if direct then ScheduleDrainRetry(pushed)
           else if pushed.retryArmed then pushed
           else ScheduleDrain(pushed),
           false)
  }

  function FireRetry(c: Connection): Connection {
    var disarmed := c.(retryArmed := false);
    if disarmed.outboundQueue != [] then ScheduleDrain(disarmed) else disarmed
  }

  // ---- Runs ----

  datatype Event = Submit(data: string) | DrainMicrotask | RetryTimer | CloseNow

  function Step(cfg: Config, c: Connection, event: Event): Connection {
    match event
    case Submit(data) => EnqueueOutbound(cfg, c, data).0
    case DrainMicrotask =>
      if c.pendingDrains > 0 then DrainOutboundQueue(cfg, c.(pendingDrains := c.pendingDrains - 1)) else c
    case RetryTimer => if c.retryArmed then FireRetry(c) else c
    case CloseNow => Close(c)
  }

  function Run(cfg: Config, c: Connection, events: seq<Event>): Connection
    decreases |events|
  {
    if events == [] then c else Run(cfg, Step(cfg, c, events[0]), events[1..])
  }

  // ---- The FIFO channel ----

  function Payloads(queue: seq<Outbound>): (r: seq<string>)
    ensures |r| == |queue|
    ensures forall i :: 0 <= i < |r| ==> r[i] == queue[i].data
  {
    seq(|queue|, i requires 0 <= i < |queue| => queue[i].data)
  }

  function SumBytes(queue: seq<Outbound>): nat {
    if queue == [] then 0 else SumBytes(queue[..|queue| - 1]) + queue[|queue| - 1].bytes
  }

  lemma {:induction false} SumBytesHead(queue: seq<Outbound>)
    requires queue != []
    ensures SumBytes(queue) == queue[0].bytes + SumBytes(queue[1..])
  {
    if |queue| > 1 {
      SumBytesHead(queue[..|queue| - 1]);
      assert queue[1..][..|queue| - 2] == queue[..|queue| - 1][1..];
    }
  }

  /**
   The simulation relation with a FIFO channel: nothing is invented, reordered or duplicated, and
   while the connection is open nothing is lost either. The accounting matches the queue.
   */
  ghost predicate Fifo(cfg: Config, c: Connection) {
    && c.accepted <= c.submitted
    && (!c.closed ==> c.accepted + Payloads(c.outboundQueue) == c.submitted)
    && c.outboundQueuedBytes == SumBytes(c.outboundQueue)
    && |c.outboundQueue| <= cfg.maxQueueMessages
    && c.outboundQueuedBytes <= cfg.maxQueueBytes
  }

  /** An open connection has exactly one wake-up pending while something is queued, and none otherwise. */
  ghost predicate Awake(c: Connection) {
    && c.pendingDrains == (if c.drainScheduled then 1 else 0)
    && (c.closed ==> !c.retryArmed)
    && (!c.closed ==>
          && (c.outboundQueue != [] <==> c.drainScheduled || c.retryArmed)
          && !(c.drainScheduled && c.retryArmed))
  }

  ghost predicate Inv(cfg: Config, c: Connection) {
    Fifo(cfg, c) && Awake(c)
  }

  /** No wake-up is pending: the state a drain runs in. */
  ghost predicate Quiet(c: Connection) {
    !c.drainScheduled && !c.retryArmed && c.pendingDrains == 0
  }

  /** What the queue's head leaves behind once it is taken out. */
  lemma ShiftedFacts(c: Connection)
    requires c.outboundQueue != [] && c.outboundQueuedBytes == SumBytes(c.outboundQueue)
    ensures var next, rest := c.outboundQueue[0], Shifted(c);
      && Payloads(c.outboundQueue) == [next.data] + Payloads(rest.outboundQueue)
      && rest.outboundQueuedBytes == SumBytes(rest.outboundQueue) && PutBack(rest, next) == c
  {
    SumBytesHead(c.outboundQueue);
    PayloadsHead(c.outboundQueue);
    HeadFirst(c.outboundQueue);
  }

  lemma PayloadsHead(queue: seq<Outbound>)
    requires queue != []
    ensures Payloads(queue) == [queue[0].data] + Payloads(queue[1..])
  {
    var left, right := Payloads(queue), [queue[0].data] + Payloads(queue[1..]);
    assert |left| == |right|;
    forall i | 0 <= i < |left| ensures left[i] == right[i] {
      if i > 0 { assert right[i] == Payloads(queue[1..])[i - 1]; }
    }
  }

  /** One turn of the drain loop keeps the channel a FIFO, whatever the socket does. */
  lemma DrainTurn(cfg: Config, c: Connection)
    requires Fifo(cfg, c) && Quiet(c) && !c.closed && c.outboundQueue != []
    ensures var next := c.outboundQueue[0];
      var (tried, outcome) := TrySendNow(cfg, Shifted(c), next.data);
      match outcome
      case Sent => Fifo(cfg, tried) && Quiet(tried)
      case NotSent => Inv(cfg, ScheduleDrainRetry(PutBack(tried, next)))
      case Failed => Inv(cfg, tried)
  {
    var next, rest := c.outboundQueue[0], Shifted(c);
    ShiftedFacts(c);
    ConcatAssociative(c.accepted, [next.data], Payloads(rest.outboundQueue));
    PrefixOfSum(c.accepted + [next.data], Payloads(rest.outboundQueue));
    TrySendEffect(cfg, rest, next.data);
    assert PutBack(rest.(attempts := c.attempts + 1), next) == c.(attempts := c.attempts + 1);
  }

  lemma TrySendEffect(cfg: Config, c: Connection, data: string)
    requires !c.closed
    ensures var (tried, outcome) := TrySendNow(cfg, c, data);
      var untaken := c.(attempts := c.attempts + 1);
      var taken := untaken.(accepted := c.accepted + [data]);
      match outcome
      case Sent => tried == taken
      case NotSent => tried == untaken
      case Failed => tried == Close(untaken) || tried == Close(taken)
  {
  }

  lemma {:induction false} DrainLoopInv(cfg: Config, c: Connection)
    requires Fifo(cfg, c) && Quiet(c)
    ensures Inv(cfg, DrainLoop(cfg, c))
    decreases |c.outboundQueue|
  {
    if !c.closed && c.outboundQueue != [] {
      DrainTurn(cfg, c);
      var (tried, outcome) := TrySendNow(cfg, Shifted(c), c.outboundQueue[0].data);
      if outcome == Sent { DrainLoopInv(cfg, tried); }
    }
  }

  lemma EnqueueInv(cfg: Config, c: Connection, data: string)
    requires Inv(cfg, c)
    ensures Inv(cfg, EnqueueOutbound(cfg, c, data).0)
  {
    if !c.closed {
      var item := Outbound(data, cfg.byteLength(data));
      var longer := c.outboundQueue + [item];
      assert longer[..|longer| - 1] == c.outboundQueue;
      assert Payloads(longer) == Payloads(c.outboundQueue) + [data];
      assert c.accepted + Payloads(longer) == c.submitted + [data];
      if c.outboundQueue == [] { assert c.accepted == c.submitted; }
    }
  }

  lemma StepInv(cfg: Config, c: Connection, event: Event)
    requires Inv(cfg, c)
    ensures Inv(cfg, Step(cfg, c, event))
  {
    match event
    case Submit(data) => EnqueueInv(cfg, c, data);
    case DrainMicrotask =>
      if c.pendingDrains > 0 {
        DrainLoopInv(cfg, c.(pendingDrains := c.pendingDrains - 1, drainScheduled := false));
      }
    case _ =>
  }

  /**
   In every run against every socket: accepted ++ queued = submitted while open, accepted is a
   prefix of submitted always, the byte count and both limits hold, and a non-empty open queue has
   exactly one wake-up pending.
   */
  lemma {:induction false} EgressRefinesFifo(cfg: Config, c: Connection, events: seq<Event>)
    requires Inv(cfg, c)
    ensures Inv(cfg, Run(cfg, c, events))
    decreases |events|
  {
    if events != [] {
      StepInv(cfg, c, events[0]);
      EgressRefinesFifo(cfg, Step(cfg, c, events[0]), events[1..]);
    }
  }

  lemma FreshInv(cfg: Config)
    ensures Inv(cfg, FRESH)
  {
  }

  /** Nothing reaches the socket after close, and a closed connection stays closed. */
  lemma {:induction false} ClosedIsFinal(cfg: Config, c: Connection, events: seq<Event>)
    requires Inv(cfg, c) && c.closed
    ensures var later := Run(cfg, c, events);
      later.closed && later.accepted == c.accepted && later.attempts == c.attempts && later.submitted == c.submitted
    decreases |events|
  {
    if events != [] {
      StepInv(cfg, c, events[0]);
      ClosedIsFinal(cfg, Step(cfg, c, events[0]), events[1..]);
    }
  }

  // ---- What a caller and a wake-up find ----

  /** The socket takes the message and stays within its buffer. */
  ghost predicate Takes(cfg: Config, reply: SocketReply) {
    && reply.status == Accepted
    && reply.bufferedBefore <= cfg.maxSocketBufferBytes && reply.bufferedAfter <= cfg.maxSocketBufferBytes
  }

  /** The attempt ends the connection: the buffer is over its limit, the message was dropped, or sending threw. */
  ghost predicate Refuses(cfg: Config, reply: SocketReply) {
    || reply.bufferedBefore > cfg.maxSocketBufferBytes
    || reply.status in {Dropped, Threw}
    || (reply.status == Accepted && reply.bufferedAfter > cfg.maxSocketBufferBytes)
  }

  ghost predicate NoRoom(cfg: Config, c: Connection, data: string) {
    || |c.outboundQueue| == cfg.maxQueueMessages
    || SumBytes(c.outboundQueue) + cfg.byteLength(data) > cfg.maxQueueBytes
  }

  /**
   Enqueueing throws and closes exactly when a direct attempt is refused, or the message is not sent at
   once and does not fit the queue. Otherwise it is with the socket, or last in the queue with a wake-up
   to come: the back-off timer after a direct attempt, the wake-up already owed when others wait.
   */
  lemma EnqueueMeans(cfg: Config, c: Connection, data: string)
    requires Inv(cfg, c) && !c.closed
    ensures var (later, threw) := EnqueueOutbound(cfg, c, data);
      var reply, direct := cfg.socket(c.attempts), c.outboundQueue == [];
      && (threw <==> later.closed)
      && (threw <==> (direct && Refuses(cfg, reply)) || (!(direct && Takes(cfg, reply)) && NoRoom(cfg, c, data)))
      && (!threw && direct && Takes(cfg, reply) ==>
            later.accepted == c.accepted + [data] && later.outboundQueue == [] && !later.drainScheduled && !later.retryArmed)
      && (!threw && !(direct && Takes(cfg, reply)) ==>
            later.accepted == c.accepted && later.outboundQueue == c.outboundQueue + [Outbound(data, cfg.byteLength(data))])
      && (!threw && direct && !Takes(cfg, reply) ==> later.retryArmed && !later.drainScheduled)
      && (!threw && !direct ==> later.retryArmed == c.retryArmed && later.drainScheduled == c.drainScheduled)
      && later.submitted == c.submitted + [data]
      && later.attempts == c.attempts + (if direct then 1 else 0)
  {
  }

  /**
   A drain hands over the queue in order up to the first attempt that is not taken: all of it, or as much
   as was taken with the rest kept for the back-off timer, or as much as was taken before the close.
   */
  lemma {:induction false} DrainMeans(cfg: Config, c: Connection, k: nat)
    requires !c.closed && !c.retryArmed && k <= |c.outboundQueue|
    requires forall j :: c.attempts <= j < c.attempts + k ==> Takes(cfg, cfg.socket(j))
    requires k < |c.outboundQueue| ==> !Takes(cfg, cfg.socket(c.attempts + k))
    ensures var later, handedOver := DrainLoop(cfg, c), c.accepted + Payloads(c.outboundQueue[..k]);
      var stopped, reply := k < |c.outboundQueue|, cfg.socket(c.attempts + k);
      && (later.closed <==> stopped && Refuses(cfg, reply))
      && (!later.closed ==> later.accepted == handedOver && later.outboundQueue == c.outboundQueue[k..])
      && (later.closed ==> handedOver <= later.accepted <= handedOver + [c.outboundQueue[k].data])
      && (later.retryArmed <==> stopped && !Refuses(cfg, reply))
      && later.attempts == c.attempts + k + (if stopped then 1 else 0)
      && later.drainScheduled == c.drainScheduled && later.submitted == c.submitted
    decreases k
  {
    if k > 0 {
      var next, rest := c.outboundQueue[0], Shifted(c);
      assert Takes(cfg, cfg.socket(c.attempts));
      var tried := TrySendNow(cfg, rest, next.data).0;
      assert tried.outboundQueue == c.outboundQueue[1..];
      DrainMeans(cfg, tried, k - 1);
      assert c.outboundQueue[..k][1..] == c.outboundQueue[1..][..k - 1];
      PayloadsHead(c.outboundQueue[..k]);
      ConcatAssociative(c.accepted, [next.data], Payloads(c.outboundQueue[1..][..k - 1]));
    } else {
      assert Payloads(c.outboundQueue[..0]) == [];
      if c.outboundQueue != [] { HeadFirst(c.outboundQueue); }
    }
  }

  // ---- Delivery ----

  /** From attempt `from` on the socket takes everything and stays within its buffer. */
  ghost predicate Willing(cfg: Config, from: nat) {
    forall k :: k >= from ==>
      && cfg.socket(k).status == Accepted
      && cfg.socket(k).bufferedBefore <= cfg.maxSocketBufferBytes
      && cfg.socket(k).bufferedAfter <= cfg.maxSocketBufferBytes
  }

  lemma WillingSends(cfg: Config, c: Connection, data: string)
    requires !c.closed && Willing(cfg, c.attempts)
    ensures TrySendNow(cfg, c, data) == (c.(attempts := c.attempts + 1, accepted := c.accepted + [data]), Sent)
  {
  }

  lemma {:induction false} DrainDelivers(cfg: Config, c: Connection)
    requires !c.closed && Willing(cfg, c.attempts)
    ensures var later := DrainLoop(cfg, c);
      && !later.closed && later.outboundQueue == []
      && later.submitted == c.submitted && later.accepted == c.accepted + Payloads(c.outboundQueue)
    decreases |c.outboundQueue|
  {
    if c.outboundQueue != [] {
      var next, rest := c.outboundQueue[0], Shifted(c);
      WillingSends(cfg, rest, next.data);
      var tried := TrySendNow(cfg, rest, next.data).0;
      DrainDelivers(cfg, tried);
      PayloadsHead(c.outboundQueue);
      ConcatAssociative(c.accepted, [next.data], Payloads(rest.outboundQueue));
    }
  }

  /** The wake-ups an open connection is owed, in the order they come due. */
  ghost function OwedWakeUps(c: Connection): seq<Event> {
    if c.drainScheduled then [DrainMicrotask]
    else if c.retryArmed then [RetryTimer, DrainMicrotask]
    else []
  }

  /**
   The invariant is strong enough for progress: once the socket is willing, just letting the
   pending wake-ups happen delivers everything submitted so far.
   */
  lemma PendingWakeUpsDeliver(cfg: Config, c: Connection)
    requires Inv(cfg, c) && !c.closed && Willing(cfg, c.attempts)
    ensures var later := Run(cfg, c, OwedWakeUps(c));
      && !later.closed && later.outboundQueue == []
      && later.submitted == c.submitted && later.accepted == c.submitted
  {
    if c.drainScheduled {
      DrainDelivers(cfg, c.(pendingDrains := 0, drainScheduled := false));
      assert Run(cfg, c, [DrainMicrotask]) == Run(cfg, Step(cfg, c, DrainMicrotask), []);
    } else if c.retryArmed {
      var woken := Step(cfg, c, RetryTimer);
      DrainDelivers(cfg, woken.(pendingDrains := 0, drainScheduled := false));
      assert [RetryTimer, DrainMicrotask][1..] == [DrainMicrotask];
      assert Run(cfg, c, [RetryTimer, DrainMicrotask]) == Run(cfg, woken, [DrainMicrotask]);
      assert Run(cfg, woken, [DrainMicrotask]) == Run(cfg, Step(cfg, woken, DrainMicrotask), []);
    }
  }

  /** With everything sent directly in between, a run of submissions to a willing socket never queues. */
  lemma {:induction false} WillingSocketNeverQueues(cfg: Config, c: Connection, messages: seq<string>)
    requires Inv(cfg, c) && !c.closed && c.outboundQueue == [] && Willing(cfg, c.attempts)
    ensures var later := Run(cfg, c, seq(|messages|, i requires 0 <= i < |messages| => Submit(messages[i])));
      !later.closed && later.outboundQueue == [] && later.accepted == c.accepted + messages
    decreases |messages|
  {
    var events := seq(|messages|, i requires 0 <= i < |messages| => Submit(messages[i]));
    if messages != [] {
      var rest := messages[1..];
      assert events[1..] == seq(|rest|, i requires 0 <= i < |rest| => Submit(rest[i]));
      EnqueueInv(cfg, c, messages[0]);
      WillingSocketNeverQueues(cfg, Step(cfg, c, events[0]), rest);
      assert messages == [messages[0]] + rest;
    }
  }
}
