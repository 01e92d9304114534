/**
 Exactly when interleaved calls of `deliverCluster` give a connection a second copy of a message
 (src/runtime/ingress/websocket.ts). Everything here is about one message and one connection.
 */
module ClusterInterleaving {
  import opened Prelude
  import opened ClusterDelivery
  import opened ClusterOverlap

  // ---- Runs of stretches ----

  datatype Event =
    | Started(id: nat, msgId: string, targets: seq<ConnRef>, now: nat, refused: bool, listed: set<string>)
    | Resumed(id: nat, outcome: Option<Enqueue>, listed: set<string>)

  function Step(h: Hub, event: Event): Hub {
    match event
    case Started(id, msgId, targets, now, refused, listed) => Begin(h, id, msgId, targets, now, refused, listed).0
    case Resumed(id, outcome, listed) =>
      if id in h.flights && h.flights[id].targets != [] then Resume(h, id, outcome, listed).0 else h
  }

  function Run(h: Hub, events: seq<Event>): Hub
    decreases |events|
  {
    if events == [] then h else Run(Step(h, events[0]), events[1..])
  }

  // ---- What waiting calls may still do, and what they have done ----

  /** How often the connection is still ahead among local targets. */
  function Reach(nodeId: string, targets: seq<ConnRef>, connId: string): nat {
    if targets == [] then 0
    else (if targets[0].nodeId == nodeId && targets[0].connId == connId then 1 else 0) + Reach(nodeId, targets[1..], connId)
  }

  ghost predicate Flies(h: Hub, id: nat, msgId: string) {
    id in h.flights && h.flights[id].msgId == msgId
  }

  function Ahead(h: Hub, f: Flight, connId: string): nat {
    Reach(h.base.nodeId, f.targets, connId)
  }

  ghost predicate HasServed(f: Flight, connId: string) {
    exists t :: t in f.delivered && t.connId == connId
  }

  /** A waiting call that has served the connection: when it ends it starts the suppression. */
  ghost predicate Carries(h: Hub, id: nat, copy: Copy) {
    Flies(h, id, copy.msgId) && HasServed(h.flights[id], copy.connId)
  }

  ghost predicate SuppressedUntil(h: Hub, msgId: string, horizon: nat) {
    msgId in h.base.recent && h.base.recent[msgId] >= horizon
  }

  // ---- Orderly events ----

  /** The call gets past the duplicate check. */
  predicate Enters(h: Hub, event: Event) {
    event.Started? && !event.refused && !IsDuplicate(Pruned(h.base, event.now), event.msgId, event.now)
  }

  /** The connection is not ahead of the new call; or it is, once, with no other call for the message about to serve it or under way after copying to it. */
  ghost predicate KeepsClear(h: Hub, event: Event, copy: Copy)
    requires event.Started?
  {
    var ahead := Reach(h.base.nodeId, PassOver(h.base.nodeId, event.listed, event.targets), copy.connId);
    || ahead == 0
    || (&& ahead == 1
        && (forall a :: Flies(h, a, copy.msgId) ==> Ahead(h, h.flights[a], copy.connId) == 0)
        && !(copy in h.base.copies && exists a :: Carries(h, a, copy)))
  }

  /** Call ids are fresh, the clock does not run backwards, and calls for the message begin within one time-to-live before `horizon`. */
  ghost predicate Timely(h: Hub, event: Event, msgId: string, horizon: nat, clock: nat) {
    event.Started? ==>
      && event.id !in h.flights && clock <= event.now
      && (event.msgId == msgId ==> event.now < horizon <= event.now + h.base.ttlMs)
  }

  /**
   A call for the message that enters keeps clear of the others; and a call that has served the
   connection its copy throws only if something else still stands for that copy: the suppression, or
   another call under way that served the connection.
   */
  ghost predicate Orderly(h: Hub, event: Event, copy: Copy, horizon: nat, clock: nat) {
    match event
    case Started(_, msgId, _, _, _, _) => msgId == copy.msgId && Enters(h, event) ==> KeepsClear(h, event, copy)
    case Resumed(id, outcome, _) =>
      outcome == Some(Throws) && copy in h.base.copies && Carries(h, id, copy) ==>
        clock >= horizon || SuppressedUntil(h, copy.msgId, horizon) || exists b :: b != id && Carries(h, b, copy)
  }

  function ClockAfter(event: Event, clock: nat): nat {
    if event.Started? then event.now else clock
  }

  ghost predicate OrderlyRun(h: Hub, events: seq<Event>, copy: Copy, horizon: nat, clock: nat)
    decreases |events|
  {
    events == [] ||
    (&& Timely(h, events[0], copy.msgId, horizon, clock) && Orderly(h, events[0], copy, horizon, clock)
     && OrderlyRun(Step(h, events[0]), events[1..], copy, horizon, ClockAfter(events[0], clock)))
  }

  // ---- The invariant ----

  function Made(h: Hub, copy: Copy): nat {
    if copy in h.base.copies then 1 else 0
  }

  ghost predicate CallSound(h: Hub, f: Flight, copy: Copy, horizon: nat, clock: nat) {
    && Made(h, copy) + Ahead(h, f, copy.connId) <= 1
    && f.started <= clock && horizon <= f.started + h.base.ttlMs
  }

  ghost predicate FlightSound(h: Hub, id: nat, copy: Copy, horizon: nat, clock: nat)
    requires id in h.flights
  {
    var f := h.flights[id];
    CallSound(h, f, copy, horizon, clock) && f.targets != [] && f.targets[0].nodeId == h.base.nodeId
  }

  ghost predicate Apart(h: Hub, a: Flight, b: Flight, connId: string) {
    Ahead(h, a, connId) == 0 || Ahead(h, b, connId) == 0
  }

  ghost predicate Kept(h: Hub, copy: Copy, horizon: nat, clock: nat) {
    clock >= horizon || SuppressedUntil(h, copy.msgId, horizon) || exists a :: Carries(h, a, copy)
  }

  /** At most one copy has been made or is still ahead, and a copy that was made is stood for. */
  ghost predicate Once(h: Hub, copy: Copy, horizon: nat, clock: nat) {
    && Count(h.base.copies, copy) <= 1
    && (forall a :: Flies(h, a, copy.msgId) ==> FlightSound(h, a, copy, horizon, clock))
    && (forall a, b :: Flies(h, a, copy.msgId) && Flies(h, b, copy.msgId) && a != b ==> Apart(h, h.flights[a], h.flights[b], copy.connId))
    && (copy in h.base.copies ==> Kept(h, copy, horizon, clock))
  }

  /** The same with call `id` standing at `f`, which has not reached its next wait yet. */
  ghost predicate OnceWith(h: Hub, id: nat, f: Flight, copy: Copy, horizon: nat, clock: nat) {
    && Count(h.base.copies, copy) <= 1
    && f.msgId == copy.msgId && CallSound(h, f, copy, horizon, clock)
    && (forall a :: Flies(h, a, copy.msgId) && a != id ==>
          FlightSound(h, a, copy, horizon, clock) && Apart(h, h.flights[a], f, copy.connId))
    && (forall a, b :: Flies(h, a, copy.msgId) && Flies(h, b, copy.msgId) && a != b && a != id && b != id ==>
          Apart(h, h.flights[a], h.flights[b], copy.connId))
    && (copy in h.base.copies ==>
          || clock >= horizon || SuppressedUntil(h, copy.msgId, horizon) || HasServed(f, copy.connId)
          || exists a :: a != id && Carries(h, a, copy))
  }

  // ---- Running on to the next wait ----

  lemma {:induction false} PassOverReach(nodeId: string, listed: set<string>, targets: seq<ConnRef>, connId: string)
    ensures Reach(nodeId, PassOver(nodeId, listed, targets), connId) <= Reach(nodeId, targets, connId)
    ensures connId in listed ==> Reach(nodeId, PassOver(nodeId, listed, targets), connId) == Reach(nodeId, targets, connId)
  {
    if targets != [] { PassOverReach(nodeId, listed, targets[1..], connId); }
  }

  lemma SettleOnce(h: Hub, id: nat, f: Flight, listed: set<string>, copy: Copy, horizon: nat, clock: nat)
    requires OnceWith(h, id, f, copy, horizon, clock)
    ensures Once(Settle(h, id, f, listed).0, copy, horizon, clock)
  {
    var rest := PassOver(h.base.nodeId, listed, f.targets);
    PassOverReach(h.base.nodeId, listed, f.targets, copy.connId);
    if rest != [] {
      WaitOnce(h, id, f.(targets := rest), copy, horizon, clock);
    } else {
      FinishOnce(h, id, f, copy, horizon, clock);
    }
  }

  lemma WaitOnce(h: Hub, id: nat, f: Flight, copy: Copy, horizon: nat, clock: nat)
    requires OnceWith(h, id, f, copy, horizon, clock) && f.targets != [] && f.targets[0].nodeId == h.base.nodeId
    ensures Once(Wait(h, id, f), copy, horizon, clock)
  {
    var after := Wait(h, id, f);
    forall a | Flies(after, a, copy.msgId) ensures FlightSound(after, a, copy, horizon, clock) {
      assert a != id ==> Flies(h, a, copy.msgId) && FlightSound(h, a, copy, horizon, clock);
    }
    forall a, b | Flies(after, a, copy.msgId) && Flies(after, b, copy.msgId) && a != b
      ensures Apart(after, after.flights[a], after.flights[b], copy.connId)
    {
      assert a != id ==> Flies(h, a, copy.msgId);
      assert b != id ==> Flies(h, b, copy.msgId);
    }
    if a :| a != id && Carries(h, a, copy) {
      assert Carries(after, a, copy);
    }
    if HasServed(f, copy.connId) {
      assert Carries(after, id, copy);
    }
  }

  lemma FinishOnce(h: Hub, id: nat, f: Flight, copy: Copy, horizon: nat, clock: nat)
    requires OnceWith(h, id, f, copy, horizon, clock)
    ensures Once(Finish(h, id, f), copy, horizon, clock)
  {
    var after := Finish(h, id, f);
    OthersOnce(h, after, id, copy, horizon, clock);
    if a :| a != id && Carries(h, a, copy) {
      assert Carries(after, a, copy);
    }
  }

  /** Once call `id` has gone, the others are as they were. */
  lemma OthersOnce(h: Hub, after: Hub, id: nat, copy: Copy, horizon: nat, clock: nat)
    requires after.flights == h.flights - {id}
    requires after.base.copies == h.base.copies && after.base.nodeId == h.base.nodeId && after.base.ttlMs == h.base.ttlMs
    requires forall a :: Flies(h, a, copy.msgId) && a != id ==> FlightSound(h, a, copy, horizon, clock)
    requires forall a, b :: Flies(h, a, copy.msgId) && Flies(h, b, copy.msgId) && a != b && a != id && b != id ==>
      Apart(h, h.flights[a], h.flights[b], copy.connId)
    ensures forall a :: Flies(after, a, copy.msgId) ==> FlightSound(after, a, copy, horizon, clock)
    ensures forall a, b :: Flies(after, a, copy.msgId) && Flies(after, b, copy.msgId) && a != b ==>
      Apart(after, after.flights[a], after.flights[b], copy.connId)
  {
    forall a | Flies(after, a, copy.msgId) ensures Flies(h, a, copy.msgId) && a != id && FlightSound(after, a, copy, horizon, clock) {
      assert FlightSound(h, a, copy, horizon, clock);
    }
  }

  // ---- Events of other messages ----

  /** Only call `id` changed, it is for another message, and the suppression was not shortened. */
  lemma OtherCall(h: Hub, after: Hub, id: nat, copy: Copy, horizon: nat, clock: nat)
    requires Once(h, copy, horizon, clock)
    requires !Flies(h, id, copy.msgId) && !Flies(after, id, copy.msgId) && after.flights - {id} == h.flights - {id}
    requires Count(after.base.copies, copy) == Count(h.base.copies, copy)
    requires after.base.ttlMs == h.base.ttlMs && after.base.nodeId == h.base.nodeId
    requires SuppressedUntil(h, copy.msgId, horizon) ==> SuppressedUntil(after, copy.msgId, horizon)
    ensures Once(after, copy, horizon, clock)
  {
    CountAdds(h.base.copies, [], copy);
    CountAdds(after.base.copies, [], copy);
    forall a ensures Flies(after, a, copy.msgId) <==> Flies(h, a, copy.msgId)
             ensures Flies(h, a, copy.msgId) ==> a in after.flights && after.flights[a] == h.flights[a] {
      SameElsewhere(h.flights, after.flights, id, a);
    }
    forall a | Flies(after, a, copy.msgId) ensures FlightSound(after, a, copy, horizon, clock) {
      assert FlightSound(h, a, copy, horizon, clock);
    }
    forall a, b | Flies(after, a, copy.msgId) && Flies(after, b, copy.msgId) && a != b
      ensures Apart(after, after.flights[a], after.flights[b], copy.connId)
    {
      assert Apart(h, h.flights[a], h.flights[b], copy.connId);
    }
    if a :| Carries(h, a, copy) {
      assert Carries(after, a, copy);
    }
  }

  lemma SameElsewhere<V>(m: map<nat, V>, n: map<nat, V>, id: nat, a: nat)
    requires m - {id} == n - {id}
    ensures a != id ==> (a in m <==> a in n) && (a in m ==> m[a] == n[a])
  {
    if a != id {
      assert a in m <==> a in m - {id};
      assert a in n <==> a in n - {id};
      assert a in m ==> (m - {id})[a] == m[a];
      assert a in n ==> (n - {id})[a] == n[a];
    }
  }

  lemma OtherSettle(h: Hub, id: nat, f: Flight, listed: set<string>, copy: Copy, horizon: nat, clock: nat)
    requires Once(h, copy, horizon, clock) && f.msgId != copy.msgId && !Flies(h, id, copy.msgId)
    ensures Once(Settle(h, id, f, listed).0, copy, horizon, clock)
  {
    var rest := PassOver(h.base.nodeId, listed, f.targets);
    if rest != [] {
      assert Wait(h, id, f.(targets := rest)).flights - {id} == h.flights - {id};
      OtherCall(h, Wait(h, id, f.(targets := rest)), id, copy, horizon, clock);
    } else {
      assert Finish(h, id, f).flights - {id} == h.flights - {id};
      OtherCall(h, Finish(h, id, f), id, copy, horizon, clock);
    }
  }

  lemma ResumeOther(h: Hub, event: Event, copy: Copy, horizon: nat, clock: nat)
    requires Once(h, copy, horizon, clock) && event.Resumed?
    requires event.id in h.flights && h.flights[event.id].targets != [] && h.flights[event.id].msgId != copy.msgId
    ensures Once(Step(h, event), copy, horizon, clock)
  {
    var id := event.id;
    var f := h.flights[id];
    if event.outcome == Some(Throws) {
      assert Land(h, id).flights - {id} == h.flights - {id};
      OtherCall(h, Land(h, id), id, copy, horizon, clock);
    } else {
      OtherGoesOn(h, id, f, event.outcome, event.listed, copy, horizon, clock);
    }
  }

  lemma OtherGoesOn(h: Hub, id: nat, f: Flight, outcome: Option<Enqueue>, listed: set<string>, copy: Copy, horizon: nat, clock: nat)
    requires Once(h, copy, horizon, clock) && id in h.flights && h.flights[id] == f
    requires f.targets != [] && f.msgId != copy.msgId && outcome != Some(Throws)
    ensures Once(Resume(h, id, outcome, listed).0, copy, horizon, clock)
  {
    var passed := f.(targets := f.targets[1..]);
    match outcome
    case None => OtherSettle(h, id, passed, listed, copy, horizon, clock);
    case Some(Swallows) => OtherSettle(h, id, passed.(delivered := f.delivered + [f.targets[0]]), listed, copy, horizon, clock);
    case Some(Copies) => OtherCopies(h, id, f, listed, copy, horizon, clock);
  }

  lemma OtherCopies(h: Hub, id: nat, f: Flight, listed: set<string>, copy: Copy, horizon: nat, clock: nat)
    requires Once(h, copy, horizon, clock) && id in h.flights && h.flights[id] == f
    requires f.targets != [] && f.msgId != copy.msgId
    ensures var served := f.(targets := f.targets[1..], delivered := f.delivered + [f.targets[0]]);
      Once(Settle(WithCopy(h, Copy(f.targets[0].connId, f.msgId)), id, served, listed).0, copy, horizon, clock)
  {
    var added := Copy(f.targets[0].connId, f.msgId);
    OtherCopy(h, id, added, copy, horizon, clock);
    OtherSettle(WithCopy(h, added), id, f.(targets := f.targets[1..], delivered := f.delivered + [f.targets[0]]),
                listed, copy, horizon, clock);
  }

  lemma OtherCopy(h: Hub, id: nat, added: Copy, copy: Copy, horizon: nat, clock: nat)
    requires Once(h, copy, horizon, clock) && added.msgId != copy.msgId && !Flies(h, id, copy.msgId)
    ensures Once(WithCopy(h, added), copy, horizon, clock) && !Flies(WithCopy(h, added), id, copy.msgId)
  {
    CountAdds(h.base.copies, [added], copy);
    CountAdds([added], [], copy);
    OtherCall(h, WithCopy(h, added), id, copy, horizon, clock);
  }

  // ---- Events of the message itself ----

  /** Time passing and pruning keep the invariant. */
  lemma PrunedOnce(h: Hub, copy: Copy, horizon: nat, clock: nat, now: nat)
    requires Once(h, copy, horizon, clock) && clock <= now
    ensures Once(h.(base := Pruned(h.base, now)), copy, horizon, now) && Once(h, copy, horizon, now)
  {
    var pruned := h.(base := Pruned(h.base, now));
    forall a ensures Flies(pruned, a, copy.msgId) <==> Flies(h, a, copy.msgId)
             ensures Carries(pruned, a, copy) <==> Carries(h, a, copy) {
    }
    forall a | Flies(h, a, copy.msgId) ensures FlightSound(pruned, a, copy, horizon, now) && FlightSound(h, a, copy, horizon, now) {
      assert FlightSound(h, a, copy, horizon, clock);
    }
    forall a, b | Flies(pruned, a, copy.msgId) && Flies(pruned, b, copy.msgId) && a != b
      ensures Apart(pruned, pruned.flights[a], pruned.flights[b], copy.connId)
    {
      assert Apart(h, h.flights[a], h.flights[b], copy.connId);
    }
  }

  lemma BeginOnce(h: Hub, event: Event, copy: Copy, horizon: nat, clock: nat)
    requires Once(h, copy, horizon, clock) && event.Started?
    requires Timely(h, event, copy.msgId, horizon, clock) && Orderly(h, event, copy, horizon, clock)
    ensures Once(Step(h, event), copy, horizon, event.now)
  {
    var pruned := h.(base := Pruned(h.base, event.now));
    PrunedOnce(h, copy, horizon, clock, event.now);
    if Enters(h, event) {
      var f := Flight(event.msgId, event.targets, event.now, []);
      if event.msgId != copy.msgId {
        OtherSettle(pruned, event.id, f, event.listed, copy, horizon, event.now);
      } else {
        var rest := PassOver(h.base.nodeId, event.listed, event.targets);
        EnterOnce(h, event, rest, copy, horizon);
        if rest != [] {
          WaitOnce(pruned, event.id, f.(targets := rest), copy, horizon, event.now);
        } else {
          FinishOnce(pruned, event.id, f.(targets := rest), copy, horizon, event.now);
        }
      }
    }
  }

  /** A call that keeps clear joins the calls under way. */
  lemma EnterOnce(h: Hub, event: Event, rest: seq<ConnRef>, copy: Copy, horizon: nat)
    requires event.Started? && Once(h, copy, horizon, event.now) && event.id !in h.flights
    requires event.msgId == copy.msgId && Enters(h, event) && event.now < horizon <= event.now + h.base.ttlMs
    requires rest == PassOver(h.base.nodeId, event.listed, event.targets) && KeepsClear(h, event, copy)
    ensures OnceWith(h.(base := Pruned(h.base, event.now)), event.id, Flight(event.msgId, rest, event.now, []), copy, horizon, event.now)
  {
    var pruned, f := h.(base := Pruned(h.base, event.now)), Flight(event.msgId, rest, event.now, []);
    PrunedOnce(h, copy, horizon, event.now, event.now);
    forall a ensures Flies(pruned, a, copy.msgId) <==> Flies(h, a, copy.msgId)
             ensures Carries(pruned, a, copy) <==> Carries(h, a, copy) {
    }
    forall a | Flies(pruned, a, copy.msgId) && a != event.id ensures Apart(pruned, pruned.flights[a], f, copy.connId) {
      assert Ahead(pruned, pruned.flights[a], copy.connId) == Ahead(h, h.flights[a], copy.connId);
    }
    assert !SuppressedUntil(pruned, copy.msgId, horizon);
    if a :| Carries(h, a, copy) {
      assert a != event.id && Carries(pruned, a, copy);
    }
  }

  lemma OnceGives(h: Hub, id: nat, copy: Copy, horizon: nat, clock: nat)
    requires Once(h, copy, horizon, clock) && Flies(h, id, copy.msgId)
    ensures OnceWith(h, id, h.flights[id], copy, horizon, clock)
  {
    assert FlightSound(h, id, copy, horizon, clock);
    if a :| Carries(h, a, copy) {
      assert a == id || Carries(h, a, copy);
    }
  }

  /** Its first target dealt with, whether or not that was served. */
  lemma TakeHead(h: Hub, id: nat, f: Flight, copy: Copy, horizon: nat, clock: nat)
    requires OnceWith(h, id, f, copy, horizon, clock) && f.targets != []
    ensures OnceWith(h, id, f.(targets := f.targets[1..]), copy, horizon, clock)
    ensures OnceWith(h, id, f.(targets := f.targets[1..], delivered := f.delivered + [f.targets[0]]), copy, horizon, clock)
  {
    ServedMore(f.delivered, f.targets[0], copy.connId);
  }

  lemma ServedMore(delivered: seq<ConnRef>, target: ConnRef, connId: string)
    ensures (exists t :: t in delivered + [target] && t.connId == connId)
       <==> (exists t :: t in delivered && t.connId == connId) || target.connId == connId
  {
    assert forall t :: t in delivered + [target] <==> t in delivered || t == target;
    assert target in delivered + [target];
  }

  /** Its first target copied to. */
  lemma TakeHeadCopy(h: Hub, id: nat, f: Flight, copy: Copy, horizon: nat, clock: nat)
    requires OnceWith(h, id, f, copy, horizon, clock) && f.targets != [] && f.targets[0].nodeId == h.base.nodeId
    ensures var served := f.(targets := f.targets[1..], delivered := f.delivered + [f.targets[0]]);
      OnceWith(WithCopy(h, Copy(f.targets[0].connId, f.msgId)), id, served, copy, horizon, clock)
  {
    var added := Copy(f.targets[0].connId, f.msgId);
    var later := WithCopy(h, added);
    MadeOnce(h, added, copy);
    ServedMore(f.delivered, f.targets[0], copy.connId);
    forall a | Flies(later, a, copy.msgId) && a != id
      ensures FlightSound(later, a, copy, horizon, clock) && Apart(later, later.flights[a], f, copy.connId)
    {
      assert Flies(h, a, copy.msgId) && FlightSound(h, a, copy, horizon, clock) && Apart(h, h.flights[a], f, copy.connId);
    }
    forall a, b | Flies(later, a, copy.msgId) && Flies(later, b, copy.msgId) && a != b && a != id && b != id
      ensures Apart(later, later.flights[a], later.flights[b], copy.connId)
    {
      assert Flies(h, a, copy.msgId) && Flies(h, b, copy.msgId) && Apart(h, h.flights[a], h.flights[b], copy.connId);
    }
    if a :| a != id && Carries(h, a, copy) {
      assert Carries(later, a, copy);
    }
  }

  lemma MadeOnce(h: Hub, added: Copy, copy: Copy)
    requires Count(h.base.copies, copy) <= 1
    ensures Made(WithCopy(h, added), copy) == (if added == copy then 1 else Made(h, copy))
    ensures Count(WithCopy(h, added).base.copies, copy) == Made(h, copy) + if added == copy then 1 else 0
  {
    CountAdds(h.base.copies, [added], copy);
    CountAdds([added], [], copy);
    CountAdds(h.base.copies, [], copy);
    CountAdds(WithCopy(h, added).base.copies, [], copy);
  }

  lemma ResumeOwn(h: Hub, event: Event, copy: Copy, horizon: nat, clock: nat)
    requires Once(h, copy, horizon, clock) && event.Resumed? && Orderly(h, event, copy, horizon, clock)
    requires event.id in h.flights && h.flights[event.id].targets != [] && Flies(h, event.id, copy.msgId)
    ensures Once(Step(h, event), copy, horizon, clock)
  {
    var id := event.id;
    var f := h.flights[id];
    OnceGives(h, id, copy, horizon, clock);
    assert FlightSound(h, id, copy, horizon, clock);
    if event.outcome == Some(Throws) {
      ThrowOnce(h, event, copy, horizon, clock);
    } else {
      GoOnOnce(h, id, f, event.outcome, event.listed, copy, horizon, clock);
    }
  }

  /** The call goes on to its next wait. */
  lemma GoOnOnce(h: Hub, id: nat, f: Flight, outcome: Option<Enqueue>, listed: set<string>, copy: Copy, horizon: nat, clock: nat)
    requires OnceWith(h, id, f, copy, horizon, clock) && f.targets != [] && f.targets[0].nodeId == h.base.nodeId
    requires outcome != Some(Throws)
    requires id in h.flights && h.flights[id] == f
    ensures Once(Resume(h, id, outcome, listed).0, copy, horizon, clock)
  {
    if outcome == Some(Copies) {
      CopyOnce(h, id, f, listed, copy, horizon, clock);
    } else {
      TakeHead(h, id, f, copy, horizon, clock);
      var passed := f.(targets := f.targets[1..]);
      SettleOnce(h, id, if outcome == None then passed else passed.(delivered := f.delivered + [f.targets[0]]),
                 listed, copy, horizon, clock);
    }
  }

  lemma CopyOnce(h: Hub, id: nat, f: Flight, listed: set<string>, copy: Copy, horizon: nat, clock: nat)
    requires OnceWith(h, id, f, copy, horizon, clock) && f.targets != [] && f.targets[0].nodeId == h.base.nodeId
    ensures var served := f.(targets := f.targets[1..], delivered := f.delivered + [f.targets[0]]);
      Once(Settle(WithCopy(h, Copy(f.targets[0].connId, f.msgId)), id, served, listed).0, copy, horizon, clock)
  {
    TakeHeadCopy(h, id, f, copy, horizon, clock);
    SettleOnce(WithCopy(h, Copy(f.targets[0].connId, f.msgId)), id,
               f.(targets := f.targets[1..], delivered := f.delivered + [f.targets[0]]), listed, copy, horizon, clock);
  }

  lemma ThrowOnce(h: Hub, event: Event, copy: Copy, horizon: nat, clock: nat)
    requires Once(h, copy, horizon, clock) && event.Resumed? && event.outcome == Some(Throws)
    requires Orderly(h, event, copy, horizon, clock)
    ensures Once(Land(h, event.id), copy, horizon, clock)
  {
    var after := Land(h, event.id);
    OthersOnce(h, after, event.id, copy, horizon, clock);
    if a :| a != event.id && Carries(h, a, copy) {
      assert Carries(after, a, copy);
    }
  }

  lemma StepOnce(h: Hub, event: Event, copy: Copy, horizon: nat, clock: nat)
    requires Once(h, copy, horizon, clock)
    requires Timely(h, event, copy.msgId, horizon, clock) && Orderly(h, event, copy, horizon, clock)
    ensures Once(Step(h, event), copy, horizon, ClockAfter(event, clock))
  {
    if event.Started? {
      BeginOnce(h, event, copy, horizon, clock);
    } else if event.id in h.flights && h.flights[event.id].targets != [] {
      if h.flights[event.id].msgId == copy.msgId {
        assert Flies(h, event.id, copy.msgId);
        ResumeOwn(h, event, copy, horizon, clock);
      } else {
        ResumeOther(h, event, copy, horizon, clock);
      }
    }
  }

  /** In orderly runs, calls for this and other messages interleaved at every wait, the connection never gets a second copy. */
  lemma {:induction false} OncePerConnection(h: Hub, events: seq<Event>, copy: Copy, horizon: nat, clock: nat)
    requires Once(h, copy, horizon, clock) && OrderlyRun(h, events, copy, horizon, clock)
    ensures Count(Run(h, events).base.copies, copy) <= 1
    decreases |events|
  {
    if events != [] {
      StepOnce(h, events[0], copy, horizon, clock);
      OncePerConnection(Step(h, events[0]), events[1..], copy, horizon, ClockAfter(events[0], clock));
    }
  }

  /** From a hub that has neither copied the message to the connection nor has a call for it under way. */
  lemma OnceFromFresh(h: Hub, events: seq<Event>, copy: Copy, horizon: nat, clock: nat)
    requires copy !in h.base.copies && forall id :: !Flies(h, id, copy.msgId)
    requires OrderlyRun(h, events, copy, horizon, clock)
    ensures Count(Run(h, events).base.copies, copy) <= 1
  {
    CountAdds(h.base.copies, [], copy);
    OncePerConnection(h, events, copy, horizon, clock);
  }

  // ---- The conditions are exact ----

  /** Calls go on without throwing. */
  ghost predicate Calm(events: seq<Event>) {
    forall e :: e in events ==> e.Resumed? && e.outcome != Some(Throws)
  }

  lemma {:induction false} CalmIsOrderly(h: Hub, events: seq<Event>, copy: Copy, horizon: nat, clock: nat)
    requires Calm(events)
    ensures OrderlyRun(h, events, copy, horizon, clock)
    decreases |events|
  {
    if events != [] {
      assert events[0] in events && forall e :: e in events[1..] ==> e in events;
      CalmIsOrderly(Step(h, events[0]), events[1..], copy, horizon, clock);
    }
  }

  lemma {:induction false} RunConcat(h: Hub, a: seq<Event>, b: seq<Event>)
    ensures Run(h, a + b) == Run(Run(h, a), b)
    decreases |a|
  {
    if a == [] {
      assert a + b == b;
    } else {
      assert (a + b)[0] == a[0] && (a + b)[1..] == a[1..] + b;
      RunConcat(Step(h, a[0]), a[1..], b);
    }
  }

  /** What driving a waiting call up to and past a connection has done. */
  ghost predicate Driven(h: Hub, id: nat, copy: Copy, after: Hub)
    requires id in h.flights
  {
    && Count(after.base.copies, copy) == Count(h.base.copies, copy) + 1
    && after.base.nodeId == h.base.nodeId
    && (forall a :: a != id ==> (a in after.flights <==> a in h.flights) && (a in h.flights ==> after.flights[a] == h.flights[a]))
    && (Ahead(h, h.flights[id], copy.connId) >= 2 ==>
          && Flies(after, id, copy.msgId) && after.flights[id].targets != []
          && Ahead(after, after.flights[id], copy.connId) == Ahead(h, h.flights[id], copy.connId) - 1)
  }

  /** A waiting call with the connection ahead can go on, without anything throwing, and copy to it. */
  lemma {:induction false} DriveTo(h: Hub, id: nat, copy: Copy) returns (events: seq<Event>)
    requires Flies(h, id, copy.msgId) && h.flights[id].targets != [] && Ahead(h, h.flights[id], copy.connId) >= 1
    ensures Calm(events) && Driven(h, id, copy, Run(h, events))
    decreases |h.flights[id].targets|
  {
    var f, listed := h.flights[id], {copy.connId};
    var head, rest := f.targets[0], f.targets[1..];
    PassOverReach(h.base.nodeId, listed, rest, copy.connId);
    if head.nodeId == h.base.nodeId && head.connId == copy.connId {
      var event := Resumed(id, Some(Copies), listed);
      events := [event];
      CountAdds(h.base.copies, [copy], copy);
      assert Step(h, event).base.copies == h.base.copies + [copy];
      assert Run(h, events) == Run(Step(h, event), []);
    } else {
      var event := Resumed(id, None, listed);
      var next := Step(h, event);
      assert next.flights == h.flights[id := f.(targets := PassOver(h.base.nodeId, listed, rest))];
      var later := DriveTo(next, id, copy);
      events := [event] + later;
      assert events[1..] == later;
    }
  }

  /** A continuation in which the connection gets a second copy. */
  ghost predicate Duplicates(h: Hub, rest: seq<Event>, copy: Copy, horizon: nat, clock: nat) {
    OrderlyRun(h, rest, copy, horizon, clock) && Count(Run(h, rest).base.copies, copy) >= 2
  }

  /** A call that does not keep clear: it and the others merely going on make two copies. */
  lemma IntruderDuplicates(h: Hub, event: Event, copy: Copy, horizon: nat, clock: nat) returns (rest: seq<Event>)
    requires Once(h, copy, horizon, clock) && event.Started? && Timely(h, event, copy.msgId, horizon, clock)
    requires event.msgId == copy.msgId && Enters(h, event) && !KeepsClear(h, event, copy)
    ensures Duplicates(Step(h, event), rest, copy, horizon, event.now)
  {
    var after := Step(h, event);
    var f := Flight(event.msgId, PassOver(h.base.nodeId, event.listed, event.targets), event.now, []);
    assert after.base.copies == h.base.copies && after.base.nodeId == h.base.nodeId;
    assert after.flights == h.flights[event.id := f];
    CountAdds(h.base.copies, [], copy);
    var first := DriveTo(after, event.id, copy);
    var mid := Run(after, first);
    if Ahead(after, f, copy.connId) >= 2 {
      var second := DriveTo(mid, event.id, copy);
      rest := Joined(after, first, second);
    } else if a :| Flies(h, a, copy.msgId) && Ahead(h, h.flights[a], copy.connId) != 0 {
      assert FlightSound(h, a, copy, horizon, clock);
      assert mid.flights[a] == h.flights[a];
      var second := DriveTo(mid, a, copy);
      rest := Joined(after, first, second);
    } else {
      rest := first;
    }
    CalmIsOrderly(after, rest, copy, horizon, event.now);
  }

  lemma Joined(h: Hub, first: seq<Event>, second: seq<Event>) returns (both: seq<Event>)
    requires Calm(first) && Calm(second)
    ensures both == first + second && Calm(both) && Run(h, both) == Run(Run(h, first), second)
  {
    both := first + second;
    RunConcat(h, first, second);
  }

  lemma {:induction false} FreshId(ids: set<nat>) returns (id: nat)
    ensures id !in ids && forall x :: x in ids ==> x < id
    decreases ids
  {
    if ids == {} {
      id := 0;
    } else {
      var x :| x in ids;
      var rest := FreshId(ids - {x});
      id := if x < rest then rest else x + 1;
      assert forall y :: y in ids ==> y == x || y in ids - {x};
    }
  }

  /** A call that throws when nothing else stands for the copy it made: a later, orderly call makes another. */
  lemma LostCopyDuplicates(h: Hub, event: Event, copy: Copy, horizon: nat, clock: nat) returns (rest: seq<Event>)
    requires Once(h, copy, horizon, clock) && event.Resumed? && !Orderly(h, event, copy, horizon, clock)
    ensures Duplicates(Step(h, event), rest, copy, horizon, clock)
  {
    var after, m := Land(h, event.id), copy.msgId;
    assert FlightSound(h, event.id, copy, horizon, clock);
    var id := FreshId(after.flights.Keys);
    var now := if m in h.base.recent && h.base.recent[m] > clock then h.base.recent[m] else clock;
    var target, listed := ConnRef(h.base.nodeId, copy.connId), {copy.connId};
    var retry, copies := Started(id, m, [target], now, false, listed), Resumed(id, Some(Copies), listed);
    assert Reach(h.base.nodeId, [target], copy.connId) == 1 && PassOver(h.base.nodeId, listed, [target]) == [target];
    forall a | Flies(after, a, m) ensures Ahead(after, after.flights[a], copy.connId) == 0 && !Carries(after, a, copy) {
      assert Flies(h, a, m) && FlightSound(h, a, copy, horizon, clock);
      assert Carries(after, a, copy) ==> Carries(h, a, copy);
    }
    assert Timely(after, retry, m, horizon, clock) && Orderly(after, retry, copy, horizon, clock);
    RetryCopies(after, retry, copies, target, copy, horizon, clock);
    rest := [retry, copies];
  }

  /** An orderly call to the one connection, and its enqueue. */
  lemma RetryCopies(h: Hub, retry: Event, copies: Event, target: ConnRef, copy: Copy, horizon: nat, clock: nat)
    requires target == ConnRef(h.base.nodeId, copy.connId) && copy in h.base.copies
    requires retry.Started? && retry.msgId == copy.msgId && retry.targets == [target] && retry.listed == {copy.connId}
    requires retry.id !in h.flights && Enters(h, retry) && copies == Resumed(retry.id, Some(Copies), retry.listed)
    requires Timely(h, retry, copy.msgId, horizon, clock) && Orderly(h, retry, copy, horizon, clock)
    ensures Duplicates(h, [retry, copies], copy, horizon, clock)
  {
    var begun := Step(h, retry);
    assert PassOver(h.base.nodeId, retry.listed, [target]) == [target];
    assert begun.flights[retry.id] == Flight(copy.msgId, [target], retry.now, []) && begun.base.copies == h.base.copies;
    var done := Step(begun, copies);
    assert done.base.copies == h.base.copies + [copy];
    CountAdds(h.base.copies, [copy], copy);
    CountAdds(h.base.copies, [], copy);
    assert [retry, copies][1..] == [copies] && [copies][1..] == [];
    assert Run(h, [retry, copies]) == Run(begun, [copies]) && Run(begun, [copies]) == Run(done, []);
    CalmIsOrderly(begun, [copies], copy, horizon, retry.now);
  }

  /** Every orderly continuation leaves the connection with at most one copy. */
  ghost predicate NeverDuplicated(h: Hub, copy: Copy, horizon: nat, clock: nat) {
    forall rest :: !Duplicates(h, rest, copy, horizon, clock)
  }

  /**
   Orderliness is exactly what is needed: where at most one copy has been made or is still ahead, an
   event keeps every orderly continuation from making a second copy if and only if it is orderly.
   */
  lemma OrderlyExactly(h: Hub, event: Event, copy: Copy, horizon: nat, clock: nat)
    requires Once(h, copy, horizon, clock) && Timely(h, event, copy.msgId, horizon, clock)
    ensures Orderly(h, event, copy, horizon, clock)
       <==> NeverDuplicated(Step(h, event), copy, horizon, ClockAfter(event, clock))
  {
    var after, later := Step(h, event), ClockAfter(event, clock);
    if Orderly(h, event, copy, horizon, clock) {
      StepOnce(h, event, copy, horizon, clock);
      forall rest ensures !Duplicates(after, rest, copy, horizon, later) {
        if OrderlyRun(after, rest, copy, horizon, later) {
          OncePerConnection(after, rest, copy, horizon, later);
        }
      }
    } else if event.Started? {
      var rest := IntruderDuplicates(h, event, copy, horizon, clock);
      assert Duplicates(after, rest, copy, horizon, later);
    } else {
      var rest := LostCopyDuplicates(h, event, copy, horizon, clock);
      assert Duplicates(after, rest, copy, horizon, later);
    }
  }

  /** In particular a call may begin, whatever connection is asked about, if it shares none with the calls under way. */
  lemma DisjointCallIsOrderly(h: Hub, event: Event, copy: Copy, horizon: nat, clock: nat)
    requires event.Started? && DistinctTargets(event.targets)
    requires forall a, t, u :: Flies(h, a, copy.msgId) && t in event.targets && u in h.flights[a].targets + h.flights[a].delivered ==>
      t.connId != u.connId
    ensures Orderly(h, event, copy, horizon, clock)
  {
    var rest := PassOver(h.base.nodeId, event.listed, event.targets);
    PassOverReach(h.base.nodeId, event.listed, event.targets, copy.connId);
    ReachDistinct(h.base.nodeId, event.targets, copy.connId);
    if Reach(h.base.nodeId, rest, copy.connId) > 0 {
      var t :| t in event.targets && t.connId == copy.connId;
      forall a | Flies(h, a, copy.msgId) ensures Ahead(h, h.flights[a], copy.connId) == 0 && !Carries(h, a, copy) {
        ReachMember(h.base.nodeId, h.flights[a].targets, copy.connId);
      }
    }
  }

  lemma {:induction false} ReachMember(nodeId: string, targets: seq<ConnRef>, connId: string)
    ensures Reach(nodeId, targets, connId) > 0 ==> exists t :: t in targets && t.connId == connId
  {
    if targets != [] {
      ReachMember(nodeId, targets[1..], connId);
      assert targets[0] in targets && forall t :: t in targets[1..] ==> t in targets;
    }
  }

  lemma {:induction false} ReachDistinct(nodeId: string, targets: seq<ConnRef>, connId: string)
    requires DistinctTargets(targets)
    ensures Reach(nodeId, targets, connId) <= 1
    ensures Reach(nodeId, targets, connId) > 0 ==> exists t :: t in targets && t.connId == connId
  {
    ReachMember(nodeId, targets, connId);
    if targets != [] {
      ReachDistinct(nodeId, targets[1..], connId);
      ReachMember(nodeId, targets[1..], connId);
    }
  }

  /**
   Such calls must not share a connection: while a call waits on a target, a second call for the same
   message to that target finds no suppression, and both copy.
   */
  lemma OverlapCopiesTwice(h: Hub, a: nat, b: nat, now: nat, listed: set<string>)
    requires a in h.flights && h.flights[a].targets != [] && b !in h.flights
    requires h.flights[a].targets[0].connId in listed && h.flights[a].targets[0].nodeId == h.base.nodeId
    requires !IsDuplicate(Pruned(h.base, now), h.flights[a].msgId, now)
    ensures var m, target := h.flights[a].msgId, h.flights[a].targets[0];
      var run := [Started(b, m, [target], now, false, listed), Resumed(a, Some(Copies), listed), Resumed(b, Some(Copies), listed)];
      Count(Run(h, run).base.copies, Copy(target.connId, m)) == Count(h.base.copies, Copy(target.connId, m)) + 2
  {
    var m, target := h.flights[a].msgId, h.flights[a].targets[0];
    var e1, e2, e3 := Started(b, m, [target], now, false, listed), Resumed(a, Some(Copies), listed), Resumed(b, Some(Copies), listed);
    var copy := Copy(target.connId, m);
    var h1 := Step(h, e1);
    assert h1.flights[b] == Flight(m, [target], now, []) && h1.flights[a] == h.flights[a] && h1.base.copies == h.base.copies;
    var h2 := Step(h1, e2);
    assert b in h2.flights && h2.flights[b] == h1.flights[b] && h2.base.copies == h1.base.copies + [copy];
    var h3 := Step(h2, e3);
    assert h3.base.copies == h2.base.copies + [copy];
    assert [e1, e2, e3][1..] == [e2, e3] && [e2, e3][1..] == [e3] && [e3][1..] == [];
    assert Run(h, [e1, e2, e3]) == Run(h1, [e2, e3]) && Run(h1, [e2, e3]) == Run(h2, [e3]) && Run(h2, [e3]) == Run(h3, []);
  }
}
