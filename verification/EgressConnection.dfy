/** The outbound path of Egress as the source runs it: one connection object updated in place. */
module EgressConnection {
  import opened Prelude
  import E = Egress

  class ConnectionState {
    const cfg: E.Config
    var outboundQueue: seq<E.Outbound>
    var outboundQueuedBytes: int
    var drainScheduled: bool
    var pendingDrains: nat
    var retryArmed: bool
    var closed: bool
    var attempts: nat
    ghost var submitted: seq<string>
    ghost var accepted: seq<string>

    ghost function Abs(): E.Connection
      reads this
    {
      E.Connection(outboundQueue, outboundQueuedBytes, drainScheduled, pendingDrains, retryArmed, closed,
                   attempts, submitted, accepted)
    }

    constructor (cfg: E.Config)
      ensures this.cfg == cfg && Abs() == E.FRESH
    {
      this.cfg := cfg;
      outboundQueue := [];
      outboundQueuedBytes := 0;
      drainScheduled := false;
      pendingDrains := 0;
      retryArmed := false;
      closed := false;
      attempts := 0;
      submitted := [];
      accepted := [];
    }

    method CloseConnection()
      modifies this
      ensures Abs() == E.Close(old(Abs()))
    {
      if closed {
        return;
      }
      closed := true;
      retryArmed := false;
    }

    method TrySendNow(data: string) returns (outcome: E.Outcome)
      modifies this
      ensures (Abs(), outcome) == E.TrySendNow(cfg, old(Abs()), data)
    {
      var reply := cfg.socket(attempts);
      attempts := attempts + 1;
      if reply.bufferedBefore > cfg.maxSocketBufferBytes {
        CloseConnection();
        return E.Failed;
      }
      match reply.status
      case Threw =>
        CloseConnection();
        return E.Failed;
      case Backpressured =>
        return E.NotSent;
      case Dropped =>
        CloseConnection();
        return E.Failed;
      case Accepted =>
        accepted := accepted + [data];
        if reply.bufferedAfter > cfg.maxSocketBufferBytes {
          CloseConnection();
          return E.Failed;
        }
        return E.Sent;
    }

    method ScheduleDrainRetry()
      modifies this
      ensures Abs() == E.ScheduleDrainRetry(old(Abs()))
    {
      if closed || retryArmed {
        return;
      }
      retryArmed := true;
    }

    method ScheduleDrain()
      modifies this
      ensures Abs() == E.ScheduleDrain(old(Abs()))
    {
      if drainScheduled || closed {
        return;
      }
      drainScheduled := true;
      pendingDrains := pendingDrains + 1;
    }

    method Shift() returns (next: E.Outbound)
      requires outboundQueue != []
      modifies this
      ensures next == old(Abs()).outboundQueue[0] && Abs() == E.Shifted(old(Abs()))
    {
      next := outboundQueue[0];
      outboundQueue := outboundQueue[1..];
      outboundQueuedBytes := outboundQueuedBytes - next.bytes;
    }

    method Unshift(next: E.Outbound)
      modifies this
      ensures Abs() == E.PutBack(old(Abs()), next)
    {
      outboundQueue := [next] + outboundQueue;
      outboundQueuedBytes := outboundQueuedBytes + next.bytes;
    }

    method DrainOutboundQueue()
      modifies this
      ensures Abs() == E.DrainOutboundQueue(cfg, old(Abs()))
    {
      drainScheduled := false;
      ghost var goal := E.DrainLoop(cfg, Abs());
      while !closed && |outboundQueue| > 0
        invariant E.DrainLoop(cfg, Abs()) == goal
        decreases |outboundQueue|
      {
        var next := Shift();
        var outcome := TrySendNow(next.data);
        if outcome == E.NotSent {
          Unshift(next);
          ScheduleDrainRetry();
          break;
        } else if outcome == E.Failed {
          break;
        }
      }
    }

    method EnqueueOutbound(data: string) returns (threw: bool)
      modifies this
      ensures (Abs(), threw) == E.EnqueueOutbound(cfg, old(Abs()), data)
    {
      if closed {
        return false;
      }
      submitted := submitted + [data];
      var bytes := cfg.byteLength(data);
      var canAttemptDirectSend := |outboundQueue| == 0 && !drainScheduled && !retryArmed;
      var directSendBackpressured := false;
      if canAttemptDirectSend {
        var outcome := TrySendNow(data);
        match outcome
        case Sent => return false;
        case Failed => return true;
        case NotSent => directSendBackpressured := true;
      }
      if |outboundQueue| + 1 > cfg.maxQueueMessages || outboundQueuedBytes + bytes > cfg.maxQueueBytes {
        CloseConnection();
        return true;
      }
      outboundQueue := outboundQueue + [E.Outbound(data, bytes)];
      outboundQueuedBytes := outboundQueuedBytes + bytes;
      if directSendBackpressured {
        ScheduleDrainRetry();
        return false;
      }
      if retryArmed {
        return false;
      }
      ScheduleDrain();
      return false;
    }

    /** The retry timer's callback. */
    method OnRetryTimer()
      modifies this
      ensures Abs() == E.FireRetry(old(Abs()))
    {
      retryArmed := false;
      if |outboundQueue| > 0 {
        ScheduleDrain();
      }
    }
  }
}
