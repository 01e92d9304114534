/**
 Delivery of a message forwarded by another node, and the suppression of repeated deliveries
 (`deliverCluster` in src/runtime/ingress/websocket.ts). The same message may arrive several times:
 a WebSocket attempt that falls back to HTTP, or a route that is retried.

 Here a call is one step, which is what it amounts to when no other call runs while it waits;
 ClusterOverlap takes it apart at every wait.
 */
module ClusterDelivery {
  import opened Prelude

  datatype ConnRef = ConnRef(nodeId: string, connId: string)

  /** What enqueueing does on a connection; one that is closed but still listed swallows the message. */
  datatype Enqueue = Copies | Swallows | Throws

  /** One call, its clock reading, and the connections that are listed, authenticated and still valid. */
  datatype Call = Call(msgId: string, targets: seq<ConnRef>, now: nat, refused: bool, conns: map<string, Enqueue>)

  datatype Copy = Copy(connId: string, msgId: string)

  datatype Reply = Delivered(targets: seq<ConnRef>) | Threw

  datatype State = State(
    nodeId: string,
    ttlMs: nat,
    recent: map<string, nat>,   // msgId to the time its suppression ends
    copies: seq<Copy>)          // every copy enqueued so far

  function Prune(recent: map<string, nat>, now: nat): map<string, nat> {
    map m | m in recent && recent[m] > now :: recent[m]
  }

  function Pruned(s: State, now: nat): State {
    s.(recent := Prune(s.recent, now))
  }

  predicate IsDuplicate(s: State, msgId: string, now: nat) {
    msgId in s.recent && s.recent[msgId] != 0 && s.recent[msgId] > now
  }

  /** The targets served before the first one that throws, and whether one does. */
  function Served(nodeId: string, call: Call, targets: seq<ConnRef>): (seq<ConnRef>, bool) {
    if targets == [] then ([], false)
    else if targets[0].connId !in call.conns || targets[0].nodeId != nodeId then Served(nodeId, call, targets[1..])
    else if call.conns[targets[0].connId] == Throws then ([], true)
    else
      var (rest, threw) := Served(nodeId, call, targets[1..]);
      ([targets[0]] + rest, threw)
  }

  /** The copies made for served targets. */
  function CopiesTo(call: Call, targets: seq<ConnRef>): (r: seq<Copy>)
    ensures forall copy :: copy in r ==>
      copy.msgId == call.msgId && copy.connId in call.conns && call.conns[copy.connId] == Copies
    ensures forall t :: t in targets && t.connId in call.conns && call.conns[t.connId] == Copies ==> Copy(t.connId, call.msgId) in r
    ensures forall copy :: copy in r ==> exists t :: t in targets && t.connId == copy.connId
  {
    if targets == [] then []
    else
      var init, last := targets[..|targets| - 1], targets[|targets| - 1];
      assert targets == init + [last];
      assert forall t :: t in targets <==> t in init || t == last;
      CopiesTo(call, init) +
      (if last.connId in call.conns && call.conns[last.connId] == Copies then [Copy(last.connId, call.msgId)] else [])
  }

  function LocalTo(nodeId: string): ConnRef -> bool {
    (target: ConnRef) => target.nodeId == nodeId
  }

  function Recorded(s: State, call: Call, served: seq<ConnRef>): State {
    if served == [] then s else s.(recent := s.recent[call.msgId := call.now + s.ttlMs])
  }

  function Deliver(s: State, call: Call): (State, Reply) {
    if call.refused then (s, Delivered([]))
    else
      var pruned := Pruned(s, call.now);
      if IsDuplicate(pruned, call.msgId, call.now) then (pruned, Delivered(Filter(LocalTo(s.nodeId), call.targets)))
      else
        var (served, threw) := Served(s.nodeId, call, call.targets);
        var sent := pruned.(copies := pruned.copies + CopiesTo(call, served));
        if threw then (sent, Threw) else (Recorded(sent, call, served), Delivered(served))
  }

  // ---- Runs of serialised calls ----

  function Run(s: State, calls: seq<Call>): State
    decreases |calls|
  {
    if calls == [] then s else Run(Deliver(s, calls[0]).0, calls[1..])
  }

  /** How many copies of a message have been enqueued for a connection. */
  function Count(copies: seq<Copy>, copy: Copy): nat {
    multiset(copies)[copy]
  }

  ghost predicate NonDecreasing(calls: seq<Call>) {
    forall i, j :: 0 <= i < j < |calls| ==> calls[i].now <= calls[j].now
  }

  ghost predicate DistinctTargets(targets: seq<ConnRef>) {
    forall i, j :: 0 <= i < j < |targets| ==> targets[i].connId != targets[j].connId
  }

  /** No connection has been given the message. */
  ghost predicate NotCopied(s: State, msgId: string) {
    forall copy :: copy in s.copies ==> copy.msgId != msgId
  }

  lemma {:induction false} ServedFrom(nodeId: string, call: Call, targets: seq<ConnRef>)
    ensures forall t :: t in Served(nodeId, call, targets).0 ==>
      t in targets && t.nodeId == nodeId && t.connId in call.conns && call.conns[t.connId] != Throws
    ensures DistinctTargets(targets) ==> DistinctTargets(Served(nodeId, call, targets).0)
  {
    if targets != [] {
      ServedFrom(nodeId, call, targets[1..]);
      var served := Served(nodeId, call, targets[1..]).0;
      if DistinctTargets(targets) {
        forall k | 0 <= k < |served| ensures served[k].connId != targets[0].connId {
          assert served[k] in targets[1..];
        }
      }
    }
  }

  lemma {:induction false} CopiedOnce(call: Call, targets: seq<ConnRef>, copy: Copy)
    requires DistinctTargets(targets)
    ensures Count(CopiesTo(call, targets), copy) <= 1
  {
    if targets != [] {
      var init, last := targets[..|targets| - 1], targets[|targets| - 1];
      CopiedOnce(call, init, copy);
      if copy in CopiesTo(call, init) {
        var t :| t in init && t.connId == copy.connId;
      }
    }
  }

  lemma CountAdds(a: seq<Copy>, b: seq<Copy>, copy: Copy)
    ensures Count(a + b, copy) == Count(a, copy) + Count(b, copy)
    ensures Count(a, copy) > 0 <==> copy in a
  {
  }

  lemma OtherLeavesCopies(s: State, call: Call, copy: Copy)
    requires call.msgId != copy.msgId
    ensures Count(Deliver(s, call).0.copies, copy) == Count(s.copies, copy)
  {
    CountAdds(s.copies, CopiesTo(call, Served(s.nodeId, call, call.targets).0), copy);
    CountAdds(CopiesTo(call, Served(s.nodeId, call, call.targets).0), [], copy);
  }

  /** Until its suppression ends, no further copy of a message is enqueued for anyone, and the suppression stays. */
  lemma {:induction false} SuppressedUntilExpiry(s: State, calls: seq<Call>, copy: Copy, expiry: nat)
    requires copy.msgId in s.recent && s.recent[copy.msgId] == expiry
    requires NonDecreasing(calls)
    requires forall call :: call in calls && call.msgId == copy.msgId ==> call.now < expiry
    ensures Count(Run(s, calls).copies, copy) == Count(s.copies, copy)
    ensures (forall call :: call in calls ==> call.now < expiry) ==>
      copy.msgId in Run(s, calls).recent && Run(s, calls).recent[copy.msgId] == expiry
    decreases |calls|
  {
    if calls != [] {
      var call, rest := calls[0], calls[1..];
      if call.now >= expiry {
        forall c | c in calls ensures c.msgId != copy.msgId {
          var i :| 0 <= i < |calls| && calls[i] == c;
          assert calls[0].now <= calls[i].now;
        }
        OthersLeaveCopies(s, calls, copy);
      } else {
        if call.msgId != copy.msgId { OtherLeavesCopies(s, call, copy); }
        SuppressedUntilExpiry(Deliver(s, call).0, rest, copy, expiry);
      }
    }
  }

  lemma {:induction false} OthersLeaveCopies(s: State, calls: seq<Call>, copy: Copy)
    requires forall call :: call in calls ==> call.msgId != copy.msgId
    ensures Count(Run(s, calls).copies, copy) == Count(s.copies, copy)
    decreases |calls|
  {
    if calls != [] {
      OtherLeavesCopies(s, calls[0], copy);
      OthersLeaveCopies(Deliver(s, calls[0]).0, calls[1..], copy);
    }
  }

  /** Later calls for the message of `first` start before its suppression ends; the clock does not run backwards. */
  ghost predicate InTime(first: Call, ttlMs: nat, after: seq<Call>) {
    && NonDecreasing(after)
    && forall call :: call in after && call.msgId == first.msgId ==> call.now < first.now + ttlMs
  }

  /** `first` is the first call that copies its message to anyone. */
  ghost predicate CopiesFirst(s: State, first: Call) {
    NotCopied(s, first.msgId) && Deliver(s, first).0.copies != s.copies
  }

  /** What the first copying call leaves behind. */
  lemma FirstCopies(s: State, first: Call)
    requires CopiesFirst(s, first)
    ensures var (state, reply) := Deliver(s, first);
      var served := Served(s.nodeId, first, first.targets).0;
      && !first.refused && !IsDuplicate(Pruned(s, first.now), first.msgId, first.now)
      && served != [] && CopiesTo(first, served) != []
      && state.copies == s.copies + CopiesTo(first, served)
      && (reply.Delivered? <==> !Served(s.nodeId, first, first.targets).1)
      && (reply.Delivered? ==> reply.targets == served && first.msgId in state.recent
                               && state.recent[first.msgId] == first.now + s.ttlMs)
      && (reply.Threw? ==> state.recent == Prune(s.recent, first.now))
      && state.nodeId == s.nodeId && state.ttlMs == s.ttlMs
  {
    assert s.copies + [] == s.copies;
  }

  /**
   At most one copy per connection: when the first call that copies the message returns normally
   with no connection listed twice, no later call within the time-to-live gives any connection a
   second copy, however calls for other messages are interleaved.
   */
  lemma AtMostOneCopy(s: State, first: Call, after: seq<Call>, copy: Copy)
    requires CopiesFirst(s, first) && Deliver(s, first).1.Delivered? && DistinctTargets(first.targets)
    requires InTime(first, s.ttlMs, after) && copy.msgId == first.msgId
    ensures Count(Run(Deliver(s, first).0, after).copies, copy)
         == (if copy in CopiesTo(first, Deliver(s, first).1.targets) then 1 else 0)
  {
    FirstCopies(s, first);
    var served := Served(s.nodeId, first, first.targets).0;
    ServedFrom(s.nodeId, first, first.targets);
    CopiedOnce(first, served, copy);
    CountAdds(s.copies, CopiesTo(first, served), copy);
    CountAdds(CopiesTo(first, served), [], copy);
    SuppressedUntilExpiry(Deliver(s, first).0, after, copy, first.now + s.ttlMs);
  }

  /** No way to go on after `first` gives a connection a second copy. */
  ghost predicate NeverTwice(s: State, first: Call) {
    forall after, connId :: InTime(first, s.ttlMs, after) ==> CopiedAtMostOnce(Deliver(s, first).0, after, Copy(connId, first.msgId))
  }

  ghost predicate CopiedAtMostOnce(s: State, after: seq<Call>, copy: Copy) {
    Count(Run(s, after).copies, copy) <= 1
  }

  /** The same call once its connections have stopped throwing. */
  function Retried(call: Call): Call {
    call.(conns := map id | id in call.conns :: if call.conns[id] == Throws then Copies else call.conns[id])
  }

  lemma {:induction false} RetryServesMore(nodeId: string, call: Call, targets: seq<ConnRef>)
    ensures forall t :: t in Served(nodeId, call, targets).0 ==> t in Served(nodeId, Retried(call), targets).0
  {
    if targets != [] {
      RetryServesMore(nodeId, call, targets[1..]);
      var retry, id := Retried(call), targets[0].connId;
      var rest, again := Served(nodeId, call, targets[1..]).0, Served(nodeId, retry, targets[1..]).0;
      if id in call.conns && targets[0].nodeId == nodeId {
        assert retry.conns[id] != Throws;
        assert Served(nodeId, retry, targets).0 == [targets[0]] + again;
        assert forall t :: t in [targets[0]] + rest ==> t == targets[0] || t in rest;
      } else {
        assert Served(nodeId, call, targets).0 == rest && Served(nodeId, retry, targets).0 == again;
      }
    }
  }

  /** A throwing first call is not remembered: repeating it once its connections recover makes a second copy. */
  lemma ThrowingCallIsNotRemembered(s: State, first: Call, connId: string)
    requires CopiesFirst(s, first) && Deliver(s, first).1.Threw? && s.ttlMs > 0
    requires Copy(connId, first.msgId) in Deliver(s, first).0.copies
    ensures InTime(first, s.ttlMs, [Retried(first)])
    ensures Count(Run(Deliver(s, first).0, [Retried(first)]).copies, Copy(connId, first.msgId)) >= 2
  {
    var retry, mid, copy := Retried(first), Deliver(s, first).0, Copy(connId, first.msgId);
    var again := CopiesTo(retry, Served(s.nodeId, retry, first.targets).0);
    RetryCopiesAgain(s, first, connId);
    CountAdds(mid.copies, again, copy);
    CountAdds(again, [], copy);
    CountAdds(mid.copies, [], copy);
    assert Run(mid, [retry]) == Run(Deliver(mid, retry).0, []);
  }

  lemma RetryCopiesAgain(s: State, first: Call, connId: string)
    requires CopiesFirst(s, first) && Deliver(s, first).1.Threw?
    requires Copy(connId, first.msgId) in Deliver(s, first).0.copies
    ensures var mid, retry := Deliver(s, first).0, Retried(first);
      var again := CopiesTo(retry, Served(s.nodeId, retry, first.targets).0);
      Copy(connId, first.msgId) in again && Deliver(mid, retry).0.copies == mid.copies + again
  {
    FirstCopies(s, first);
    var retry, mid, copy := Retried(first), Deliver(s, first).0, Copy(connId, first.msgId);
    var served := Served(s.nodeId, first, first.targets).0;
    RetryServesMore(s.nodeId, first, first.targets);
    assert copy in CopiesTo(first, served);
    var t :| t in served && t.connId == connId;
    assert retry.conns[connId] == Copies;
    assert Prune(mid.recent, first.now) == mid.recent;
  }

  /**
   Exactly when a message is never duplicated: for a first copying call with distinct targets, no
   continuation within the time-to-live gives any connection a second copy if and only if that
   call returns normally.
   */
  lemma NeverTwiceExactly(s: State, first: Call)
    requires CopiesFirst(s, first) && DistinctTargets(first.targets) && s.ttlMs > 0
    ensures NeverTwice(s, first) <==> Deliver(s, first).1.Delivered?
  {
    FirstCopies(s, first);
    var state := Deliver(s, first).0;
    if Deliver(s, first).1.Delivered? {
      forall after, connId | InTime(first, s.ttlMs, after) ensures CopiedAtMostOnce(state, after, Copy(connId, first.msgId)) {
        AtMostOneCopy(s, first, after, Copy(connId, first.msgId));
      }
    } else {
      var copy := CopiesTo(first, Served(s.nodeId, first, first.targets).0)[0];
      ThrowingCallIsNotRemembered(s, first, copy.connId);
      assert !CopiedAtMostOnce(state, [Retried(first)], Copy(copy.connId, first.msgId));
    }
  }

  // ---- What a suppressed call reports ----

  /** Every target of the reply has a copy of the message. */
  ghost predicate Truthful(s: State, msgId: string, reply: Reply) {
    reply.Delivered? && forall t :: t in reply.targets ==> Copy(t.connId, msgId) in s.copies
  }

  /** The connections a call gave its copies to: those it reported and did not find closed. */
  ghost function CopiedIds(call: Call, reply: Reply): set<string> {
    if reply.Threw? then {} else set t | t in reply.targets && t.connId in call.conns && call.conns[t.connId] == Copies :: t.connId
  }

  /**
   A later call for a message whose first copying call returned normally is suppressed; it copies
   nothing and reports every local target of its own. The report is truthful exactly when each of
   those connections was given its copy by the first call.
   */
  lemma DuplicateReport(s: State, first: Call, between: seq<Call>, call: Call)
    requires CopiesFirst(s, first) && Deliver(s, first).1.Delivered? && DistinctTargets(first.targets)
    requires NonDecreasing(between + [call]) && call.msgId == first.msgId && !call.refused
    requires call.now < first.now + s.ttlMs
    ensures var now := Run(Deliver(s, first).0, between);
      var (later, reply) := Deliver(now, call);
      && later.copies == now.copies
      && (Truthful(later, call.msgId, reply) <==>
            forall t :: t in call.targets && t.nodeId == s.nodeId ==> t.connId in CopiedIds(first, Deliver(s, first).1))
  {
    FirstCopies(s, first);
    var state, reply := Deliver(s, first).0, Deliver(s, first).1;
    var all := between + [call];
    forall c | c in between ensures c.now <= call.now {
      var i :| 0 <= i < |between| && between[i] == c;
      assert all[i] == c && all[|between|] == call;
    }
    forall i, j | 0 <= i < j < |between| ensures between[i].now <= between[j].now {
      assert all[i] == between[i] && all[j] == between[j];
    }
    RunKeepsNode(state, between);
    var now := Run(state, between);
    forall connId ensures Copy(connId, call.msgId) in now.copies <==> connId in CopiedIds(first, reply) {
      StillCopied(s, first, between, connId);
    }
    SuppressedUntilExpiry(state, between, Copy("", first.msgId), first.now + s.ttlMs);
    assert IsDuplicate(Pruned(now, call.now), call.msgId, call.now);
  }

  lemma StillCopied(s: State, first: Call, after: seq<Call>, connId: string)
    requires CopiesFirst(s, first) && Deliver(s, first).1.Delivered? && DistinctTargets(first.targets)
    requires InTime(first, s.ttlMs, after)
    ensures Copy(connId, first.msgId) in Run(Deliver(s, first).0, after).copies
       <==> connId in CopiedIds(first, Deliver(s, first).1)
  {
    var copy := Copy(connId, first.msgId);
    AtMostOneCopy(s, first, after, copy);
    CountAdds(Run(Deliver(s, first).0, after).copies, [], copy);
    FirstCopies(s, first);
    assert copy in CopiesTo(first, Deliver(s, first).1.targets) <==> connId in CopiedIds(first, Deliver(s, first).1);
  }

  lemma {:induction false} RunKeepsNode(s: State, calls: seq<Call>)
    ensures Run(s, calls).ttlMs == s.ttlMs && Run(s, calls).nodeId == s.nodeId
    decreases |calls|
  {
    if calls != [] { RunKeepsNode(Deliver(s, calls[0]).0, calls[1..]); }
  }

  /** A suppressed call to a connection the first one did not serve reports a delivery that never happened. */
  lemma UntruthfulReport(s: State, a: string, b: string, now: nat)
    requires s.recent == map[] && s.copies == [] && s.ttlMs > 0 && a != b
    ensures var first := Call("m", [ConnRef(s.nodeId, a)], now, false, map[a := Copies, b := Copies]);
      var second := first.(targets := [ConnRef(s.nodeId, b)]);
      var (state, reply) := Deliver(Deliver(s, first).0, second);
      reply == Delivered([ConnRef(s.nodeId, b)]) && Copy(b, "m") !in state.copies
  {
    var first := Call("m", [ConnRef(s.nodeId, a)], now, false, map[a := Copies, b := Copies]);
    var mid := Deliver(s, first).0;
    assert Served(s.nodeId, first, first.targets[1..]) == ([], false);
    assert Served(s.nodeId, first, first.targets).0 == [ConnRef(s.nodeId, a)];
    assert mid.recent == map["m" := now + s.ttlMs];
    assert Filter(LocalTo(s.nodeId), [ConnRef(s.nodeId, b)][1..]) == [];
  }
}
