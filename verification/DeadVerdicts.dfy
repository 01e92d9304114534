/** How long a dead verdict lasts (src/runtime/cluster/health.ts): exactly until something revives the peer. */
module DeadVerdicts {
  import opened Prelude
  import opened PeerHealth
  import opened Beliefs
  import opened Gossip

  ghost predicate IsDead(s: State, n: NodeId) {
    n in s.entries && s.entries[n].status == Dead
  }

  /**
   What ends a dead verdict: any local sign of life or suspicion; over an open channel, a disconnect or
   a dead verdict that is announced anew; a greater rumor, unless it says dead with the channel closed;
   and a topology without the peer.
   */
  predicate Revives(s: State, event: Event, n: NodeId)
    requires n in s.entries
  {
    match event
    case AliveEvent(m, _) => m == n
    case SuspectEvent(m, _) => m == n
    case DeadEvent(m, detail) => m == n && n in s.channels && !(s.entries[n].source == Local && s.entries[n].detail == detail)
    case DisconnectEvent(m, _) => m == n && n in s.channels
    case RumorEvent(r, _) => r.nodeId == n && ShouldApplyRumor(s.entries[n], r) && (r.status != Dead || n in s.channels)
    case TopologyEvent(peers) => n !in peers
    case _ => false
  }

  lemma DeadUntilRevived(s: State, event: Event, n: NodeId)
    requires Inv(s) && WellFormedEvent(event) && IsDead(s, n)
    ensures IsDead(Step(s, event), n) <==> !Revives(s, event, n)
  {
    assert Settled(s, n);
    match event
    case AliveEvent(m, detail) => if m != n { AliveOthers(s, m, detail, n); }
    case SuspectEvent(m, detail) => if m != n { SuspectOthers(s, m, detail, n); }
    case DeadEvent(m, detail) => if m != n { DeadOthers(s, m, detail, n); } else { DeadAgain(s, n, detail); }
    case DisconnectEvent(m, reason) => if m != n { DisconnectOthers(s, m, reason, n); }
    case RumorEvent(r, reporter) => if r.nodeId != n { ApplyRumorOthers(s, r, reporter, n); } else { DeadHears(s, r, reporter); }
    case TimerEvent(t) =>
      if t in s.armed && s.armed[t].deadline <= s.now { TimerOthers(s, t, n); }
    case _ =>
  }

  lemma DeadAgain(s: State, n: NodeId, detail: Option<string>)
    requires IsDead(s, n) && !IsUnknownPeer(s, n)
    ensures IsDead(MarkDead(s, n, detail), n) <==>
      n !in s.channels || (s.entries[n].source == Local && s.entries[n].detail == detail)
  {
  }

  lemma DeadHears(s: State, r: Rumor, reporter: NodeId)
    requires WellFormedRumor(r) && IsDead(s, r.nodeId) && !IsUnknownPeer(s, r.nodeId)
    ensures IsDead(ApplyRumor(s, r, reporter), r.nodeId) <==>
      !(ShouldApplyRumor(s.entries[r.nodeId], r) && (r.status != Dead || r.nodeId in s.channels))
  {
    ApplyRumorHears(s, r, reporter);
  }

  // Operations on one peer leave the entry of every other alone.

  lemma LocalOthers(s: State, m: NodeId, status: Status, detail: Option<string>, n: NodeId)
    requires m != n
    ensures var created := GetOrCreate(s, m);
      SameAt(s, created, n) && SameAt(s, Emit(WriteLocal(created, m, status, detail), m), n)
  {
    var written := WriteLocal(GetOrCreate(s, m), m, status, detail);
    assert SameAt(s, written, n);
    EmitOthers(written, m, n);
  }

  lemma AliveOthers(s: State, m: NodeId, detail: Option<string>, n: NodeId)
    requires m != n
    ensures SameAt(s, MarkAlive(s, m, detail), n)
  {
    LocalOthers(s, m, Alive, detail, n);
  }

  lemma DeadOthers(s: State, m: NodeId, detail: Option<string>, n: NodeId)
    requires m != n
    ensures SameAt(s, MarkDead(s, m, detail), n)
  {
    LocalOthers(s, m, Dead, detail, n);
  }

  lemma DisconnectOthers(s: State, m: NodeId, reason: string, n: NodeId)
    requires m != n
    ensures SameAt(s, DisconnectPeer(s, m, reason), n)
  {
    SuspectOthers(s.(channels := s.channels - {m}), m, Some(reason), n);
  }

  lemma TimerOthers(s: State, t: nat, n: NodeId)
    requires t in s.armed && s.armed[t].nodeId != n
    ensures SameAt(s, FireTimer(s, t), n)
  {
    var m := s.armed[t].nodeId;
    var fired := s.(armed := s.armed - {t});
    if m in s.entries && s.entries[m].status == Suspect {
      var disarmed := fired.(entries := s.entries[m := s.entries[m].(deadTimer := None)]);
      assert SameAt(s, disarmed, n);
      DeadOthers(disarmed, m, Some(s.armed[t].detail.GetOr("suspect_timeout")), n);
    }
  }

  ghost predicate DeadThroughout(s: State, events: seq<Event>, n: NodeId)
    decreases |events|
  {
    IsDead(s, n) && (events == [] || DeadThroughout(Step(s, events[0]), events[1..], n))
  }

  /** No event of the run ends the verdict when its turn comes. */
  ghost predicate LeftForDead(s: State, events: seq<Event>, n: NodeId)
    decreases |events|
  {
    events == [] || (n in s.entries && !Revives(s, events[0], n) && LeftForDead(Step(s, events[0]), events[1..], n))
  }

  /** A dead verdict stays throughout a run exactly as long as nothing revives the peer. */
  lemma {:induction false} DeadLastsExactly(s: State, events: seq<Event>, n: NodeId)
    requires Inv(s) && IsDead(s, n) && forall event :: event in events ==> WellFormedEvent(event)
    ensures DeadThroughout(s, events, n) <==> LeftForDead(s, events, n)
    decreases |events|
  {
    if events != [] {
      assert events[0] in events && forall event :: event in events[1..] ==> event in events;
      DeadUntilRevived(s, events[0], n);
      if !Revives(s, events[0], n) {
        StepInv(s, events[0]);
        DeadLastsExactly(Step(s, events[0]), events[1..], n);
      }
    }
  }
}
