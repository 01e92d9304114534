/**
 The client's table of deliveries awaiting acknowledgement (src/sdk/runtime/client.ts): two stages per
 delivery, a timeout for each, waiters, and the ways a delivery leaves the table. User callbacks are
 taken not to call back into the client.
 */
module PendingDeliveries {
  import opened Prelude

  type MsgId = string
  type Waiter = nat

  datatype Result = Acked | Failed

  /** A handle that is kept after the timer has fired until it is cleared. */
  datatype Timer = NoTimer | Armed | Fired

  /** One acknowledgement stage; `writes` counts how often the outcome has been written. */
  datatype Stage = Stage(
    outcome: Option<Result>, writes: nat, issued: seq<Waiter>, settled: seq<Waiter>, waiters: seq<Waiter>)

  const NEW_STAGE := Stage(None, 0, [], [], [])

  datatype Pending = Pending(
    recv: Stage, handle: Stage, recvTimer: Timer, handleTimer: Timer,
    recvTimeoutMs: nat, handleTimeoutMs: nat, completed: bool)

  /** Every delivery object ever created, and those still in the table. */
  datatype State = State(deliveries: map<MsgId, Pending>, table: set<MsgId>)

  datatype Signal = RecvAck | RecvAckTimeout | HandleAck | HandleAckTimeout | TransportClosed | ErrorSignal | ProtocolError | RouteSignal

  // ---- Operations on one delivery ----

  function Write(s: Stage, result: Result): Stage {
    s.(outcome := Some(result), writes := s.writes + 1)
  }

  function Settle(s: Stage): Stage {
    s.(settled := s.settled + s.waiters, waiters := [])
  }

  function MarkFailure(s: Stage): Stage {
    if s.outcome.Some? then s else Write(s, Failed)
  }

  function ClearTimers(p: Pending): Pending {
    p.(recvTimer := NoTimer, handleTimer := NoTimer)
  }

  function Fail(p: Pending): Pending {
    ClearTimers(p).(recv := Settle(MarkFailure(p.recv)), handle := Settle(MarkFailure(p.handle)))
  }

  /** The delivery after a signal, and whether it leaves the table. */
  function Receive(p: Pending, signal: Signal): (Pending, bool) {
    match signal
    case RecvAck => (p.(recvTimer := NoTimer, recv := Settle(Write(p.recv, Acked))), false)
    case RecvAckTimeout => (p.(recvTimer := NoTimer, recv := Settle(Write(p.recv, Failed))), false)
    case HandleAck => (ClearTimers(p).(handle := Settle(Write(p.handle, Acked)), completed := true), true)
    case RouteSignal => (p, false)
    case _ => (Fail(p).(completed := true), true)
  }

  function Started(recvTimeoutMs: nat, handleTimeoutMs: nat): Pending {
    Pending(NEW_STAGE, NEW_STAGE,
            if recvTimeoutMs == 0 then NoTimer else Armed, if handleTimeoutMs == 0 then NoTimer else Armed,
            recvTimeoutMs, handleTimeoutMs, false)
  }

  function Await(s: Stage, w: Waiter): Stage {
    if s.outcome.Some? then s.(issued := s.issued + [w], settled := s.settled + [w])
    else s.(issued := s.issued + [w], waiters := s.waiters + [w])
  }

  // ---- Operations on the table ----

  function Create(s: State, m: MsgId, recvTimeoutMs: nat, handleTimeoutMs: nat): State {
    State(s.deliveries[m := Started(recvTimeoutMs, handleTimeoutMs)], s.table + {m})
  }

  function Emitted(s: State, m: MsgId, signal: Signal): State {
    if m !in s.table || m !in s.deliveries then s
    else
      var (p, leaves) := Receive(s.deliveries[m], signal);
      State(s.deliveries[m := p], if leaves then s.table - {m} else s.table)
  }

  function FireRecvTimer(s: State, m: MsgId): State
    requires m in s.deliveries
  {
    var p := s.deliveries[m];
    var fired := s.(deliveries := s.deliveries[m := p.(recvTimer := Fired)]);
    if p.recv.outcome.Some? || p.completed then fired else Emitted(fired, m, RecvAckTimeout)
  }

  function FireHandleTimer(s: State, m: MsgId): State
    requires m in s.deliveries
  {
    var p := s.deliveries[m];
    var fired := s.(deliveries := s.deliveries[m := p.(handleTimer := Fired)]);
    if p.handle.outcome.Some? || p.completed then fired else Emitted(fired, m, HandleAckTimeout)
  }

  function FailAllOnClose(s: State): State {
    State(map m | m in s.deliveries :: if m in s.table then Receive(s.deliveries[m], TransportClosed).0 else s.deliveries[m], {})
  }

  function Closed(s: State): State {
    State(map m | m in s.deliveries :: if m in s.table then Fail(s.deliveries[m]) else s.deliveries[m], {})
  }

  function WaitForHandleAck(s: State, m: MsgId, w: Waiter): State
    requires m in s.deliveries
  {
    s.(deliveries := s.deliveries[m := s.deliveries[m].(handle := Await(s.deliveries[m].handle, w))])
  }

  function WaitForRecvAck(s: State, m: MsgId, w: Waiter): State
    requires m in s.deliveries
  {
    s.(deliveries := s.deliveries[m := s.deliveries[m].(recv := Await(s.deliveries[m].recv, w))])
  }

  class PendingDeliveryTable {
    var deliveries: map<MsgId, Pending>
    var pendingDeliveries: set<MsgId>

    ghost function Abs(): State
      reads this
    {
      State(deliveries, pendingDeliveries)
    }

    ghost predicate Valid()
      reads this
    {
      pendingDeliveries <= deliveries.Keys
    }

    constructor ()
      ensures Valid() && Abs() == State(map[], {})
    {
      deliveries := map[];
      pendingDeliveries := {};
    }

    method CreatePendingDelivery(m: MsgId, recvTimeoutMs: nat, handleTimeoutMs: nat)
      requires Valid()
      modifies this
      ensures Valid() && Abs() == Create(old(Abs()), m, recvTimeoutMs, handleTimeoutMs)
    {
      var pending := Pending(NEW_STAGE, NEW_STAGE, NoTimer, NoTimer, recvTimeoutMs, handleTimeoutMs, false);
      pendingDeliveries := pendingDeliveries + {m};
      if recvTimeoutMs != 0 {
        pending := pending.(recvTimer := Armed);
      }
      if handleTimeoutMs != 0 {
        pending := pending.(handleTimer := Armed);
      }
      deliveries := deliveries[m := pending];
    }

    method EmitDeliveryEvent(m: MsgId, signal: Signal)
      requires Valid()
      modifies this
      ensures Valid() && Abs() == Emitted(old(Abs()), m, signal)
    {
      if m !in pendingDeliveries {
        return;
      }
      var pending := deliveries[m];
      match signal
      case RecvAck =>
        deliveries := deliveries[m := pending.(recvTimer := NoTimer, recv := Settle(Write(pending.recv, Acked)))];
      case RecvAckTimeout =>
        deliveries := deliveries[m := pending.(recvTimer := NoTimer, recv := Settle(Write(pending.recv, Failed)))];
      case HandleAck =>
        pending := ClearTimers(pending);
        deliveries := deliveries[m := pending.(handle := Settle(Write(pending.handle, Acked)), completed := true)];
        pendingDeliveries := pendingDeliveries - {m};
      case RouteSignal =>
        assert deliveries[m := pending] == deliveries;
      case _ =>
        deliveries := deliveries[m := Fail(pending).(completed := true)];
        pendingDeliveries := pendingDeliveries - {m};
    }

    /** The transport closed under the client: every delivery in the table is failed and leaves it. */
    method FailPendingDeliveriesOnClose()
      requires Valid()
      modifies this
      ensures Valid() && Abs() == FailAllOnClose(old(Abs()))
    {
      var todo := pendingDeliveries;
      while todo != {}
        invariant todo == pendingDeliveries && todo <= old(pendingDeliveries) <= deliveries.Keys
        invariant deliveries.Keys == old(deliveries).Keys
        invariant forall m :: m in deliveries && m in old(pendingDeliveries) - todo ==>
          deliveries[m] == Receive(old(deliveries)[m], TransportClosed).0
        invariant forall m :: m in deliveries && m !in old(pendingDeliveries) - todo ==> deliveries[m] == old(deliveries)[m]
        decreases todo
      {
        var m :| m in todo;
        EmitDeliveryEvent(m, TransportClosed);
        todo := todo - {m};
      }
    }

    /** `close()`: like a closing transport, but without events and without marking deliveries completed. */
    method Close()
      requires Valid()
      modifies this
      ensures Valid() && Abs() == Closed(old(Abs()))
    {
      var todo := pendingDeliveries;
      while todo != {}
        invariant todo <= pendingDeliveries == old(pendingDeliveries) <= deliveries.Keys
        invariant deliveries.Keys == old(deliveries).Keys
        invariant forall m :: m in deliveries && m in old(pendingDeliveries) - todo ==> deliveries[m] == Fail(old(deliveries)[m])
        invariant forall m :: m in deliveries && m !in old(pendingDeliveries) - todo ==> deliveries[m] == old(deliveries)[m]
        decreases todo
      {
        var m :| m in todo;
        deliveries := deliveries[m := Fail(deliveries[m])];
        todo := todo - {m};
      }
      pendingDeliveries := {};
    }
  }

  // ---- Runs ----

  datatype Event =
    | Send(m: MsgId, recvTimeoutMs: nat, handleTimeoutMs: nat)
    | Inbound(m: MsgId, signal: Signal)
    | RecvTimer(m: MsgId)
    | HandleTimer(m: MsgId)
    | TransportDown
    | ClientClose
    | AwaitHandle(m: MsgId, w: Waiter)
    | AwaitRecv(m: MsgId, w: Waiter)

  /** Message ids are fresh; the peer's own signals are everything but the two timeouts. */
  predicate Possible(s: State, event: Event) {
    match event
    case Send(m, _, _) => m !in s.deliveries
    case Inbound(_, signal) => signal != RecvAckTimeout && signal != HandleAckTimeout
    case _ => true
  }

  function Step(s: State, event: Event): State {
    match event
    case Send(m, r, h) => Create(s, m, r, h)
    case Inbound(m, signal) => Emitted(s, m, signal)
    case RecvTimer(m) => if m in s.deliveries && s.deliveries[m].recvTimer == Armed then FireRecvTimer(s, m) else s
    case HandleTimer(m) => if m in s.deliveries && s.deliveries[m].handleTimer == Armed then FireHandleTimer(s, m) else s
    case TransportDown => FailAllOnClose(s)
    case ClientClose => Closed(s)
    case AwaitHandle(m, w) => if m in s.deliveries then WaitForHandleAck(s, m, w) else s
    case AwaitRecv(m, w) => if m in s.deliveries then WaitForRecvAck(s, m, w) else s
  }

  function Run(s: State, events: seq<Event>): State
    decreases |events|
  {
    if events == [] then s else Run(Step(s, events[0]), events[1..])
  }

  ghost predicate PossibleRun(s: State, events: seq<Event>)
    decreases |events|
  {
    events == [] || (Possible(s, events[0]) && PossibleRun(Step(s, events[0]), events[1..]))
  }

  /** Waiters are served in order, each once, and none waits on a written outcome. */
  ghost predicate StageSound(s: Stage) {
    && s.issued == s.settled + s.waiters
    && (s.outcome.Some? ==> s.waiters == [])
    && (s.outcome.Some? <==> s.writes > 0)
  }

  ghost predicate Sound(p: Pending, inTable: bool) {
    && StageSound(p.recv) && StageSound(p.handle)
    && if inTable then
         && !p.completed
         && p.handle.outcome.None?
         && p.handleTimer == (if p.handleTimeoutMs == 0 then NoTimer else Armed)
         && p.recvTimer == (if p.recvTimeoutMs == 0 || p.recv.outcome.Some? then NoTimer else Armed)
       else
         && p.handleTimer == NoTimer && p.recvTimer == NoTimer
         && p.handle.outcome.Some? && p.handle.writes == 1
         && (p.recv.outcome.None? ==> p.handle.outcome == Some(Acked))
  }

  ghost predicate Inv(s: State) {
    && s.table <= s.deliveries.Keys
    && forall m :: m in s.deliveries ==> Sound(s.deliveries[m], m in s.table)
  }

  lemma ReceiveSound(p: Pending, signal: Signal)
    requires Sound(p, true)
    ensures var (q, leaves) := Receive(p, signal); Sound(q, !leaves)
  {
  }

  lemma FiredSound(p: Pending)
    requires Sound(p, true)
    ensures p.recvTimer == Armed ==> Sound(Receive(p.(recvTimer := Fired), RecvAckTimeout).0, true)
    ensures p.handleTimer == Armed ==> Sound(Receive(p.(handleTimer := Fired), HandleAckTimeout).0, false)
  {
  }

  lemma StepInv(s: State, event: Event)
    requires Inv(s) && Possible(s, event)
    ensures Inv(Step(s, event))
  {
    match event
    case Inbound(m, signal) => if m in s.table { ReceiveSound(s.deliveries[m], signal); }
    case RecvTimer(m) => if m in s.table { FiredSound(s.deliveries[m]); }
    case HandleTimer(m) => if m in s.table { FiredSound(s.deliveries[m]); }
    case TransportDown => CloseInv(s);
    case ClientClose => CloseInv(s);
    case AwaitHandle(m, w) => if m in s.deliveries { AwaitSound(s.deliveries[m].handle, w); }
    case AwaitRecv(m, w) => if m in s.deliveries { AwaitSound(s.deliveries[m].recv, w); }
    case _ =>
  }

  /** Failing every delivery in the table, with or without completing it. */
  lemma CloseInv(s: State)
    requires Inv(s)
    ensures Inv(FailAllOnClose(s)) && Inv(Closed(s))
  {
    forall m | m in s.table
      ensures Sound(Receive(s.deliveries[m], TransportClosed).0, false) && Sound(Fail(s.deliveries[m]), false)
    {
      ReceiveSound(s.deliveries[m], TransportClosed);
    }
  }

  lemma AwaitSound(s: Stage, w: Waiter)
    requires StageSound(s)
    ensures StageSound(Await(s, w)) && Await(s, w).outcome == s.outcome && Await(s, w).writes == s.writes
  {
    assert s.settled + (s.waiters + [w]) == (s.settled + s.waiters) + [w];
    assert s.outcome.Some? ==> s.settled + [] == s.settled;
  }

  /**
   In every run: while a delivery is in the table its handle-ack timer is armed exactly when it has a
   timeout, and its handle-ack outcome is unwritten; once it has left, both timers are off, the
   handle-ack outcome has been written exactly once and no handle-ack waiter is left. Each waiter is
   settled at most once, in order.
   */
  lemma {:induction false} DeliveriesSound(s: State, events: seq<Event>)
    requires Inv(s) && PossibleRun(s, events)
    ensures Inv(Run(s, events))
    decreases |events|
  {
    if events != [] {
      StepInv(s, events[0]);
      DeliveriesSound(Step(s, events[0]), events[1..]);
    }
  }

  // ---- What every signal and timer settles ----

  /** The stage's outcome is now this one, and everyone who waited for it has been answered. */
  ghost predicate Answered(before: Stage, after: Stage, outcome: Result) {
    && after.outcome == Some(outcome)
    && after.waiters == [] && after.settled == before.settled + before.waiters
  }

  /** The delivery is over: off the table and its timers stopped. */
  ghost predicate Over(after: State, m: MsgId) {
    m !in after.table && m in after.deliveries && after.deliveries[m].recvTimer == NoTimer == after.deliveries[m].handleTimer
  }

  /** A stage that had no outcome has failed; one that had keeps it. Nobody waits any more. */
  ghost predicate FailedIfOpen(before: Stage, after: Stage) {
    match before.outcome
    case None => Answered(before, after, Failed)
    case Some(outcome) => Answered(before, after, outcome)
  }

  ghost predicate OthersAlone(s: State, after: State, m: MsgId) {
    && s.table - {m} == after.table - {m} && s.deliveries.Keys == after.deliveries.Keys
    && forall other :: other in s.deliveries && other != m ==> after.deliveries[other] == s.deliveries[other]
  }

  /**
   Signal by signal, for a delivery in the table: a receive-ack acknowledges and its timeout fails the
   first stage; a handle-ack acknowledges the second stage and ends the delivery; everything else the
   peer or the transport reports fails what has no outcome yet and ends it, and a route report changes nothing.
   */
  lemma SignalMeans(s: State, m: MsgId, signal: Signal)
    requires Inv(s) && m in s.table
    ensures var after, p := Emitted(s, m, signal), s.deliveries[m];
      OthersAlone(s, after, m) &&
      var q := after.deliveries[m];
      match signal
      case RecvAck => Answered(p.recv, q.recv, Acked) && q.handle == p.handle && q.recvTimer == NoTimer && after.table == s.table
      case RecvAckTimeout => Answered(p.recv, q.recv, Failed) && q.handle == p.handle && q.recvTimer == NoTimer && after.table == s.table
      case HandleAck => Answered(p.handle, q.handle, Acked) && q.recv == p.recv && Over(after, m)
      case HandleAckTimeout => FailedIfOpen(p.recv, q.recv) && Answered(p.handle, q.handle, Failed) && Over(after, m)
      case TransportClosed => FailedIfOpen(p.recv, q.recv) && Answered(p.handle, q.handle, Failed) && Over(after, m)
      case ErrorSignal => FailedIfOpen(p.recv, q.recv) && Answered(p.handle, q.handle, Failed) && Over(after, m)
      case ProtocolError => FailedIfOpen(p.recv, q.recv) && Answered(p.handle, q.handle, Failed) && Over(after, m)
      case RouteSignal => after == s
  {
    var p := s.deliveries[m];
    assert Sound(p, true);
    assert p.recv.outcome.Some? ==> p.recv.settled + p.recv.waiters == p.recv.settled;
  }

  /** Signals about a delivery that has left the table are not heard any more. */
  lemma LateSignal(s: State, m: MsgId, signal: Signal)
    requires m !in s.table
    ensures Emitted(s, m, signal) == s
  {
  }

  /** A timer that runs out while it counts reports its own timeout; it never runs out after the outcome. */
  lemma TimerMeans(s: State, m: MsgId)
    requires Inv(s) && m in s.deliveries
    ensures s.deliveries[m].recvTimer == Armed ==>
      var q := FireRecvTimer(s, m).deliveries[m];
      m in s.table && m in FireRecvTimer(s, m).table && Answered(s.deliveries[m].recv, q.recv, Failed) && q.handle == s.deliveries[m].handle
    ensures s.deliveries[m].handleTimer == Armed ==>
      var after := FireHandleTimer(s, m);
      && m in s.table && Over(after, m)
      && Answered(s.deliveries[m].handle, after.deliveries[m].handle, Failed)
      && FailedIfOpen(s.deliveries[m].recv, after.deliveries[m].recv)
  {
    var p := s.deliveries[m];
    assert Sound(p, m in s.table);
    assert p.recv.outcome.Some? ==> p.recv.settled + p.recv.waiters == p.recv.settled;
  }

  /** Every delivery of the table is over, and what had no outcome yet has failed. */
  ghost predicate AllFailed(s: State, after: State, m: MsgId)
    requires m in s.deliveries
  {
    && after.table == {} && after.deliveries.Keys == s.deliveries.Keys
    && (m !in s.table ==> after.deliveries[m] == s.deliveries[m])
    && (m in s.table ==>
          && FailedIfOpen(s.deliveries[m].recv, after.deliveries[m].recv)
          && Answered(s.deliveries[m].handle, after.deliveries[m].handle, Failed) && Over(after, m))
  }

  /** A closing transport and a closing client do that alike. */
  lemma CloseMeans(s: State, m: MsgId)
    requires Inv(s) && m in s.deliveries
    ensures AllFailed(s, FailAllOnClose(s), m) && AllFailed(s, Closed(s), m)
  {
    var p := s.deliveries[m];
    assert Sound(p, m in s.table);
    assert p.recv.outcome.Some? ==> p.recv.settled + p.recv.waiters == p.recv.settled;
  }

  /** Who asks for an outcome is answered at once when there is one, and otherwise waits last in line. */
  lemma AwaitMeans(s: Stage, w: Waiter)
    ensures Await(s, w).outcome == s.outcome
    ensures s.outcome.Some? ==> Await(s, w).settled == s.settled + [w] && Await(s, w).waiters == s.waiters
    ensures s.outcome.None? ==> Await(s, w).settled == s.settled && Await(s, w).waiters == s.waiters + [w]
  {
  }

  // ---- The receive-ack stage has no such guarantee ----

  /**
   When a delivery in the table is signalled, receive-ack waiters are left behind for good exactly
   if the signal is a handle-ack that overtook the receive-ack.
   */
  lemma RecvWaitersLeftBehind(s: State, m: MsgId, signal: Signal)
    requires Inv(s) && m in s.table
    ensures var after := Emitted(s, m, signal);
      m !in after.table && after.deliveries[m].recv.waiters != []
      <==> signal == HandleAck && s.deliveries[m].recv.waiters != []
  {
    assert Sound(s.deliveries[m], true);
  }

  /** A delivery that left the table without a receive outcome. */
  ghost predicate LeftBehind(s: State, after: State, m: MsgId)
    requires m in s.deliveries
  {
    && m in after.deliveries && m !in after.table && after.deliveries[m].recv.outcome.None?
    && s.deliveries[m].recv.waiters <= after.deliveries[m].recv.waiters
    && after.deliveries[m].recv.settled == s.deliveries[m].recv.settled
  }

  lemma StaysBehind(s: State, event: Event, m: MsgId)
    requires Inv(s) && Possible(s, event)
    requires m in s.deliveries && m !in s.table && s.deliveries[m].recv.outcome.None?
    ensures LeftBehind(s, Step(s, event), m)
  {
    assert Sound(s.deliveries[m], false);
  }

  /** Once left behind they are never settled, whatever happens next. */
  lemma {:induction false} LeftBehindForever(s: State, events: seq<Event>, m: MsgId)
    requires Inv(s) && PossibleRun(s, events)
    requires m in s.deliveries && m !in s.table && s.deliveries[m].recv.outcome.None?
    ensures LeftBehind(s, Run(s, events), m)
    decreases |events|
  {
    if events != [] {
      StepInv(s, events[0]);
      StaysBehind(s, events[0], m);
      LeftBehindForever(Step(s, events[0]), events[1..], m);
    }
  }
}
