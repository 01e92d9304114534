/**
 Cluster delivery taken apart at its waits. `deliverCluster` waits for an authentication check before
 each enqueue, so other calls, for the same message or another, may run in between. Every stretch
 between two waits is one step here.
 */
module ClusterOverlap {
  import opened Prelude
  import opened ClusterDelivery

  /** A call that waits for the authentication check of its first remaining target. */
  datatype Flight = Flight(msgId: string, targets: seq<ConnRef>, started: nat, delivered: seq<ConnRef>)

  datatype Hub = Hub(base: State, flights: map<nat, Flight>)

  /** Remote targets, and those without a listed authenticated connection, are passed over without waiting. */
  function PassOver(nodeId: string, listed: set<string>, targets: seq<ConnRef>): (rest: seq<ConnRef>)
    ensures |rest| <= |targets|
    ensures rest != [] ==> rest[0].connId in listed && rest[0].nodeId == nodeId
  {
    if targets == [] || (targets[0].connId in listed && targets[0].nodeId == nodeId) then targets
    else PassOver(nodeId, listed, targets[1..])
  }

  function Wait(h: Hub, id: nat, f: Flight): Hub {
    h.(flights := h.flights[id := f])
  }

  function Land(h: Hub, id: nat): Hub {
    h.(flights := h.flights - {id})
  }

  /** The end of a call: anything delivered starts the suppression of its message. */
  function Finish(h: Hub, id: nat, f: Flight): Hub {
    Land(if f.delivered == [] then h else h.(base := h.base.(recent := h.base.recent[f.msgId := f.started + h.base.ttlMs])), id)
  }

  /** Runs on to the next target to wait for, or to the end of the call. */
  function Settle(h: Hub, id: nat, f: Flight, listed: set<string>): (Hub, Option<Reply>) {
    var rest := PassOver(h.base.nodeId, listed, f.targets);
    if rest != [] then (Wait(h, id, f.(targets := rest)), None)
    else (Finish(h, id, f), Some(Delivered(f.delivered)))
  }

  function Begin(h: Hub, id: nat, msgId: string, targets: seq<ConnRef>, now: nat, refused: bool, listed: set<string>):
      (Hub, Option<Reply>)
  {
    if refused then (h, Some(Delivered([])))
    else
      var pruned := h.(base := Pruned(h.base, now));
      if IsDuplicate(pruned.base, msgId, now) then (pruned, Some(Delivered(Filter(LocalTo(h.base.nodeId), targets))))
      else Settle(pruned, id, Flight(msgId, targets, now, []), listed)
  }

  /** The check comes back: None when the context is no longer valid. A check that fails counts as throwing. */
  function Resume(h: Hub, id: nat, outcome: Option<Enqueue>, listed: set<string>): (Hub, Option<Reply>)
    requires id in h.flights && h.flights[id].targets != []
  {
    var f := h.flights[id];
    var target, passed := f.targets[0], f.(targets := f.targets[1..]);
    var served := passed.(delivered := f.delivered + [target]);
    match outcome
    case None => Settle(h, id, passed, listed)
    case Some(Throws) => (Land(h, id), Some(Threw))
    case Some(Swallows) => Settle(h, id, served, listed)
    case Some(Copies) => Settle(WithCopy(h, Copy(target.connId, f.msgId)), id, served, listed)
  }

  function WithCopy(h: Hub, copy: Copy): Hub {
    h.(base := h.base.(copies := h.base.copies + [copy]))
  }

  class ClusterDeliveryHandler {
    const nodeId: string
    const ttlMs: nat
    var recentClusterDeliveryByMsgId: map<string, nat>
    var flights: map<nat, Flight>
    ghost var copies: seq<Copy>

    ghost function Abs(): Hub
      reads this
    {
      Hub(State(nodeId, ttlMs, recentClusterDeliveryByMsgId, copies), flights)
    }

    constructor (nodeId: string, staleAfterMs: nat)
      ensures Abs() == Hub(State(nodeId, if staleAfterMs > 60_000 then staleAfterMs else 60_000, map[], []), map[])
    {
      this.nodeId := nodeId;
      this.ttlMs := if staleAfterMs > 60_000 then staleAfterMs else 60_000;
      recentClusterDeliveryByMsgId := map[];
      flights := map[];
      copies := [];
    }

    method PruneRecentClusterDeliveries(currentTime: nat)
      modifies this`recentClusterDeliveryByMsgId
      ensures recentClusterDeliveryByMsgId == Prune(old(recentClusterDeliveryByMsgId), currentTime)
    {
      var pending := recentClusterDeliveryByMsgId.Keys;
      ghost var was := recentClusterDeliveryByMsgId;
      while pending != {}
        invariant pending <= recentClusterDeliveryByMsgId.Keys <= was.Keys
        invariant forall m :: m in recentClusterDeliveryByMsgId ==> recentClusterDeliveryByMsgId[m] == was[m]
        invariant forall m :: m in was && m !in pending ==> (m in recentClusterDeliveryByMsgId <==> was[m] > currentTime)
        decreases pending
      {
        var msgId :| msgId in pending;
        pending := pending - {msgId};
        if recentClusterDeliveryByMsgId[msgId] <= currentTime {
          recentClusterDeliveryByMsgId := recentClusterDeliveryByMsgId - {msgId};
        }
      }
    }

    /** The stretch of the target loop up to the next wait, or the end of the call. */
    method RunToNextWait(id: nat, f: Flight, listed: set<string>) returns (reply: Option<Reply>)
      modifies this`recentClusterDeliveryByMsgId, this`flights
      ensures (Abs(), reply) == Settle(old(Abs()), id, f, listed)
    {
      var rest := f.targets;
      while rest != []
        invariant PassOver(nodeId, listed, rest) == PassOver(nodeId, listed, f.targets)
        decreases |rest|
      {
        var target := rest[0];
        if target.connId in listed && target.nodeId == nodeId {
          flights := flights[id := f.(targets := rest)];
          return None;
        }
        rest := rest[1..];
      }
      if |f.delivered| > 0 {
        recentClusterDeliveryByMsgId := recentClusterDeliveryByMsgId[f.msgId := f.started + ttlMs];
      }
      flights := flights - {id};
      return Some(Delivered(f.delivered));
    }

    method BeginDelivery(id: nat, msgId: string, targets: seq<ConnRef>, now: nat, refused: bool, listed: set<string>)
      returns (reply: Option<Reply>)
      modifies this
      ensures (Abs(), reply) == Begin(old(Abs()), id, msgId, targets, now, refused, listed)
    {
      if refused {
        return Some(Delivered([]));
      }
      PruneRecentClusterDeliveries(now);
      if msgId in recentClusterDeliveryByMsgId
         && recentClusterDeliveryByMsgId[msgId] != 0 && recentClusterDeliveryByMsgId[msgId] > now {
        return Some(Delivered(Filter(LocalTo(nodeId), targets)));
      }
      reply := RunToNextWait(id, Flight(msgId, targets, now, []), listed);
    }

    method ResumeDelivery(id: nat, outcome: Option<Enqueue>, listed: set<string>) returns (reply: Option<Reply>)
      requires id in flights && flights[id].targets != []
      modifies this
      ensures (Abs(), reply) == Resume(old(Abs()), id, outcome, listed)
    {
      var f := flights[id];
      var target, passed := f.targets[0], f.(targets := f.targets[1..]);
      if outcome.None? {
        reply := RunToNextWait(id, passed, listed);
        return;
      }
      if outcome.value == Throws {
        flights := flights - {id};
        return Some(Threw);
      }
      if outcome.value == Copies {
        copies := copies + [Copy(target.connId, f.msgId)];
      }
      reply := RunToNextWait(id, passed.(delivered := f.delivered + [target]), listed);
    }
  }

  // ---- Left alone, a call is the single step of ClusterDelivery ----

  /** Runs a waiting call to its end, its connections behaving as given. */
  function Drive(h: Hub, id: nat, conns: map<string, Enqueue>): (Hub, Reply)
    requires id in h.flights && h.flights[id].targets != []
    decreases |h.flights[id].targets|
  {
    var connId := h.flights[id].targets[0].connId;
    var outcome := if connId in conns then Some(conns[connId]) else None;
    var (next, reply) := Resume(h, id, outcome, conns.Keys);
    if reply.Some? then (next, reply.value) else Drive(next, id, conns)
  }

  function RunAlone(h: Hub, id: nat, call: Call): (Hub, Reply) {
    var (begun, reply) := Begin(h, id, call.msgId, call.targets, call.now, call.refused, call.conns.Keys);
    if reply.Some? then (begun, reply.value) else Drive(begun, id, call.conns)
  }

  lemma {:induction false} ServedAfterPassOver(nodeId: string, call: Call, targets: seq<ConnRef>)
    ensures Served(nodeId, call, targets) == Served(nodeId, call, PassOver(nodeId, call.conns.Keys, targets))
  {
    if targets != [] && !(targets[0].connId in call.conns && targets[0].nodeId == nodeId) {
      ServedAfterPassOver(nodeId, call, targets[1..]);
    }
  }

  lemma {:induction false} CopiesConcat(call: Call, a: seq<ConnRef>, b: seq<ConnRef>)
    ensures CopiesTo(call, a + b) == CopiesTo(call, a) + CopiesTo(call, b)
  {
    if b == [] {
      assert a + b == a;
    } else {
      var init := b[..|b| - 1];
      assert (a + b)[..|a + b| - 1] == a + init;
      CopiesConcat(call, a, init);
    }
  }

  /** The end of an undisturbed call: what is served from here on, recorded unless something throws. */
  ghost function Ending(h: Hub, id: nat, f: Flight, call: Call): (Hub, Reply) {
    var (served, threw) := Served(h.base.nodeId, call, f.targets);
    var sent := h.base.(copies := h.base.copies + CopiesTo(call, served));
    (Hub(if threw then sent else Recorded(sent, call, f.delivered + served), h.flights - {id}),
     if threw then Threw else Delivered(f.delivered + served))
  }

  lemma {:induction false} SettleThenDrive(h: Hub, id: nat, f: Flight, call: Call)
    requires f.msgId == call.msgId && f.started == call.now
    ensures var (next, reply) := Settle(h, id, f, call.conns.Keys);
      (if reply.Some? then (next, reply.value) else Drive(next, id, call.conns)) == Ending(h, id, f, call)
    decreases |f.targets|
  {
    ServedAfterPassOver(h.base.nodeId, call, f.targets);
    var (next, reply) := Settle(h, id, f, call.conns.Keys);
    if reply.None? {
      var waiting := next.flights[id];
      var target := waiting.targets[0];
      DriveTurn(next, id, call);
      assert next.flights - {id} == h.flights - {id};
    } else {
      assert f.delivered + [] == f.delivered;
      assert h.base.copies + [] == h.base.copies;
    }
  }

  /** From a waiting call on. */
  lemma {:induction false} DriveTurn(h: Hub, id: nat, call: Call)
    requires id in h.flights && h.flights[id].targets != []
    requires h.flights[id].msgId == call.msgId && h.flights[id].started == call.now
    requires h.flights[id].targets[0].connId in call.conns && h.flights[id].targets[0].nodeId == h.base.nodeId
    ensures Drive(h, id, call.conns) == Ending(h, id, h.flights[id], call)
    decreases |h.flights[id].targets|, 0
  {
    var f := h.flights[id];
    var target, rest := f.targets[0], f.targets[1..];
    var served := f.(targets := rest, delivered := f.delivered + [target]);
    if call.conns[target.connId] == Throws {
      assert h.base.copies + [] == h.base.copies;
    } else {
      var (later, threw) := Served(h.base.nodeId, call, rest);
      CopiesConcat(call, [target], later);
      ConcatAssociative(f.delivered, [target], later);
      var copied := if call.conns[target.connId] == Copies then WithCopy(h, Copy(target.connId, f.msgId)) else h;
      assert CopiesTo(call, [target]) ==
        if call.conns[target.connId] == Copies then [Copy(target.connId, f.msgId)] else [] by {
        assert [target][..0] == [];
      }
      ConcatAssociative(h.base.copies, CopiesTo(call, [target]), CopiesTo(call, later));
      assert h.base.copies + [] == h.base.copies;
      SettleThenDrive(copied, id, served, call);
    }
  }

  /** A call that no other call interrupts does exactly what `Deliver` says. */
  lemma AloneIsDeliver(h: Hub, id: nat, call: Call)
    requires id !in h.flights
    ensures RunAlone(h, id, call) == (Hub(Deliver(h.base, call).0, h.flights), Deliver(h.base, call).1)
  {
    assert h.flights - {id} == h.flights;
    if !call.refused && !IsDuplicate(Pruned(h.base, call.now), call.msgId, call.now) {
      var f := Flight(call.msgId, call.targets, call.now, []);
      SettleThenDrive(h.(base := Pruned(h.base, call.now)), id, f, call);
      var served := Served(h.base.nodeId, call, call.targets).0;
      assert [] + served == served;
    }
  }
}
