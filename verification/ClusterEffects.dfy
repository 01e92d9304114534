/**
 What one forwarded delivery does (`deliverCluster` in src/runtime/ingress/websocket.ts): whom it reaches,
 whom it copies the message to, what it answers and what it remembers.
 */
module ClusterEffects {
  import opened Prelude
  import opened ClusterDelivery
  import opened ClusterOverlap

  /** Local targets whose connection is listed, authenticated and still valid. */
  ghost predicate Reaches(nodeId: string, call: Call, t: ConnRef) {
    t.nodeId == nodeId && t.connId in call.conns
  }

  ghost function Reached(nodeId: string, call: Call, targets: seq<ConnRef>): seq<ConnRef> {
    Filter(t => Reaches(nodeId, call, t), targets)
  }

  ghost predicate Throwing(nodeId: string, call: Call, t: ConnRef) {
    Reaches(nodeId, call, t) && call.conns[t.connId] == Throws
  }

  /** Enqueueing throws on no target, or on the k-th for the first time. */
  ghost predicate NoneThrows(nodeId: string, call: Call, targets: seq<ConnRef>) {
    forall i :: 0 <= i < |targets| ==> !Throwing(nodeId, call, targets[i])
  }

  ghost predicate ThrowsAt(nodeId: string, call: Call, k: nat) {
    k < |call.targets| && Throwing(nodeId, call, call.targets[k]) && NoneThrows(nodeId, call, call.targets[..k])
  }

  /** One copy for every one of them that takes it, in order. */
  ghost function CopiesFor(call: Call, targets: seq<ConnRef>): seq<Copy> {
    var taking := Filter((t: ConnRef) => t.connId in call.conns && call.conns[t.connId] == Copies, targets);
    seq(|taking|, i requires 0 <= i < |taking| => Copy(taking[i].connId, call.msgId))
  }

  lemma {:induction false} ServedReached(nodeId: string, call: Call, targets: seq<ConnRef>)
    ensures NoneThrows(nodeId, call, targets) ==> Served(nodeId, call, targets) == (Reached(nodeId, call, targets), false)
  {
    if targets != [] {
      ServedReached(nodeId, call, targets[1..]);
      if NoneThrows(nodeId, call, targets) {
        assert forall i :: 0 <= i < |targets| - 1 ==> targets[1..][i] == targets[i + 1];
        assert !Throwing(nodeId, call, targets[0]);
      }
    }
  }

  lemma {:induction false} ServedUpTo(nodeId: string, call: Call, targets: seq<ConnRef>, k: nat)
    requires k < |targets| && Throwing(nodeId, call, targets[k]) && NoneThrows(nodeId, call, targets[..k])
    ensures Served(nodeId, call, targets) == (Reached(nodeId, call, targets[..k]), true)
  {
    if k > 0 {
      assert targets[..k][0] == targets[0] && !Throwing(nodeId, call, targets[0]);
      var rest := targets[1..][..k - 1];
      assert targets[..k][1..] == rest;
      forall i | 0 <= i < |rest| ensures !Throwing(nodeId, call, rest[i]) {
        assert targets[..k][i + 1] == rest[i];
      }
      ServedUpTo(nodeId, call, targets[1..], k - 1);
    }
  }

  lemma CopiesForLast(call: Call, targets: seq<ConnRef>)
    requires targets != []
    ensures var n := |targets| - 1;
      CopiesFor(call, targets) == CopiesFor(call, targets[..n]) +
        if targets[n].connId in call.conns && call.conns[targets[n].connId] == Copies then [Copy(targets[n].connId, call.msgId)] else []
  {
    var n := |targets| - 1;
    assert targets == targets[..n] + [targets[n]];
    FilterAppend((t: ConnRef) => t.connId in call.conns && call.conns[t.connId] == Copies, targets[..n], [targets[n]]);
  }

  lemma {:induction false} CopiesInOrder(call: Call, targets: seq<ConnRef>)
    ensures CopiesTo(call, targets) == CopiesFor(call, targets)
  {
    if targets != [] {
      CopiesInOrder(call, targets[..|targets| - 1]);
      CopiesForLast(call, targets);
    }
  }

  /** The message is still remembered. */
  ghost predicate Remembered(s: State, call: Call) {
    call.msgId in s.recent && s.recent[call.msgId] > call.now
  }

  /** What else was remembered stays exactly until its time. */
  ghost predicate ForgetsExpired(s: State, after: State, call: Call) {
    forall m :: m != call.msgId ==>
      (m in after.recent <==> m in s.recent && s.recent[m] > call.now) && (m in after.recent ==> after.recent[m] == s.recent[m])
  }

  /** A refused call does nothing and reports nothing. */
  lemma RefusedMeans(s: State, call: Call)
    requires call.refused
    ensures Deliver(s, call) == (s, Delivered([]))
  {
  }

  /** A call for a remembered message copies nothing, keeps the time to forget it, and reports its local targets. */
  lemma RememberedMeans(s: State, call: Call)
    requires !call.refused && Remembered(s, call)
    ensures var (after, reply) := Deliver(s, call);
      && after.copies == s.copies && call.msgId in after.recent && after.recent[call.msgId] == s.recent[call.msgId]
      && reply == Delivered(Filter((t: ConnRef) => t.nodeId == s.nodeId, call.targets))
      && ForgetsExpired(s, after, call)
  {
    SameFilter(LocalTo(s.nodeId), (t: ConnRef) => t.nodeId == s.nodeId, call.targets);
  }

  lemma {:induction false} SameFilter(p: ConnRef -> bool, q: ConnRef -> bool, s: seq<ConnRef>)
    requires forall t :: p(t) == q(t)
    ensures Filter(p, s) == Filter(q, s)
  {
    if s != [] { SameFilter(p, q, s[1..]); }
  }

  /** Any other call serves every target it reaches, in order, when none throws, and remembers the message if there was one. */
  lemma DeliverMeans(s: State, call: Call)
    requires !call.refused && !Remembered(s, call) && NoneThrows(s.nodeId, call, call.targets)
    ensures var (after, reply) := Deliver(s, call);
      var reached := Reached(s.nodeId, call, call.targets);
      && reply == Delivered(reached)
      && after.copies == s.copies + CopiesFor(call, reached)
      && (reached != [] ==> call.msgId in after.recent && after.recent[call.msgId] == call.now + s.ttlMs)
      && (reached == [] ==> call.msgId !in after.recent)
      && ForgetsExpired(s, after, call)
  {
    ServedReached(s.nodeId, call, call.targets);
    CopiesInOrder(call, Reached(s.nodeId, call, call.targets));
  }

  /** A call that throws has served exactly what it reached before the first target that throws, and remembers nothing. */
  lemma ThrowMeans(s: State, call: Call, k: nat)
    requires !call.refused && !Remembered(s, call) && ThrowsAt(s.nodeId, call, k)
    ensures var (after, reply) := Deliver(s, call);
      && reply == Threw
      && after.copies == s.copies + CopiesFor(call, Reached(s.nodeId, call, call.targets[..k]))
      && call.msgId !in after.recent && ForgetsExpired(s, after, call)
  {
    ServedUpTo(s.nodeId, call, call.targets, k);
    CopiesInOrder(call, Reached(s.nodeId, call, call.targets[..k]));
  }

  // ---- One stretch of a call that others may interrupt ----

  /** The next target to wait for: local, and listed as authenticated at this moment. */
  ghost predicate WaitsNext(nodeId: string, listed: set<string>, targets: seq<ConnRef>, k: int) {
    && 0 <= k < |targets| && targets[k].nodeId == nodeId && targets[k].connId in listed
    && forall i :: 0 <= i < k ==> !(targets[i].nodeId == nodeId && targets[i].connId in listed)
  }

  ghost predicate NobodyLeft(nodeId: string, listed: set<string>, targets: seq<ConnRef>) {
    forall t :: t in targets ==> !(t.nodeId == nodeId && t.connId in listed)
  }

  /** The call waits for its next target, or ends: it reports what it delivered and remembers the message if that is anything. */
  ghost predicate GoesOn(before: Hub, after: Hub, reply: Option<Reply>, id: nat, f: Flight, listed: set<string>) {
    && after.base.nodeId == before.base.nodeId && after.base.ttlMs == before.base.ttlMs && after.base.copies == before.base.copies
    && (forall k :: WaitsNext(before.base.nodeId, listed, f.targets, k) ==>
          reply == None && after.flights == before.flights[id := f.(targets := f.targets[k..])] && after.base.recent == before.base.recent)
    && (NobodyLeft(before.base.nodeId, listed, f.targets) ==>
          && reply == Some(Delivered(f.delivered)) && after.flights == before.flights - {id}
          && (f.delivered == [] ==> after.base.recent == before.base.recent)
          && (f.delivered != [] ==> after.base.recent == before.base.recent[f.msgId := f.started + before.base.ttlMs]))
  }

  lemma {:induction false} PassOverMeans(nodeId: string, listed: set<string>, targets: seq<ConnRef>)
    ensures forall k :: WaitsNext(nodeId, listed, targets, k) ==> PassOver(nodeId, listed, targets) == targets[k..]
    ensures NobodyLeft(nodeId, listed, targets) ==> PassOver(nodeId, listed, targets) == []
  {
    if targets != [] && !(targets[0].connId in listed && targets[0].nodeId == nodeId) {
      PassOverMeans(nodeId, listed, targets[1..]);
      forall k | WaitsNext(nodeId, listed, targets, k) ensures PassOver(nodeId, listed, targets) == targets[k..] {
        assert WaitsNext(nodeId, listed, targets[1..], k - 1);
      }
    } else if targets != [] {
      assert targets[0] in targets;
    }
  }

  lemma SettleMeans(h: Hub, id: nat, f: Flight, listed: set<string>)
    ensures GoesOn(h, Settle(h, id, f, listed).0, Settle(h, id, f, listed).1, id, f, listed)
  {
    PassOverMeans(h.base.nodeId, listed, f.targets);
  }

  /**
   When the check of the awaited target comes back: an invalid context passes it over, a throw ends the call
   without remembering anything, and otherwise the target counts as delivered, with a copy if it took one.
   */
  lemma ResumeMeans(h: Hub, id: nat, outcome: Option<Enqueue>, listed: set<string>)
    requires id in h.flights && h.flights[id].targets != []
    ensures var (after, reply) := Resume(h, id, outcome, listed);
      var f := h.flights[id];
      var target, rest := f.targets[0], f.(targets := f.targets[1..]);
      var served := rest.(delivered := f.delivered + [target]);
      match outcome
      case None => GoesOn(h, after, reply, id, rest, listed)
      case Some(Throws) => reply == Some(Threw) && after.base == h.base && after.flights == h.flights - {id}
      case Some(Swallows) => GoesOn(h, after, reply, id, served, listed)
      case Some(Copies) =>
        GoesOn(h.(base := h.base.(copies := h.base.copies + [Copy(target.connId, f.msgId)])), after, reply, id, served, listed)
  {
    var f := h.flights[id];
    var target, rest := f.targets[0], f.(targets := f.targets[1..]);
    var served := rest.(delivered := f.delivered + [target]);
    SettleMeans(h, id, rest, listed);
    SettleMeans(h, id, served, listed);
    SettleMeans(h.(base := h.base.(copies := h.base.copies + [Copy(target.connId, f.msgId)])), id, served, listed);
  }

  /** A call that begins is refused, answered as a repetition of a remembered message, or goes on to its first target. */
  lemma BeginMeans(h: Hub, id: nat, msgId: string, targets: seq<ConnRef>, now: nat, refused: bool, listed: set<string>)
    ensures var (after, reply) := Begin(h, id, msgId, targets, now, refused, listed);
      var unexpired := h.(base := h.base.(recent := map m | m in h.base.recent && h.base.recent[m] > now :: h.base.recent[m]));
      if refused then after == h && reply == Some(Delivered([]))
      else if msgId in unexpired.base.recent then
        after == unexpired && reply == Some(Delivered(Filter((t: ConnRef) => t.nodeId == h.base.nodeId, targets)))
      else GoesOn(unexpired, after, reply, id, Flight(msgId, targets, now, []), listed)
  {
    SameFilter(LocalTo(h.base.nodeId), (t: ConnRef) => t.nodeId == h.base.nodeId, targets);
    SettleMeans(h.(base := Pruned(h.base, now)), id, Flight(msgId, targets, now, []), listed);
  }
}
