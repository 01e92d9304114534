/**
 The peer-health store as the source runs it: fields updated in place, and a listener that is
 called back in the middle of an operation and may re-enter the store. Every method is proved to
 do exactly what the corresponding state function of PeerHealth says.
 */
module PeerHealthStore {
  import opened Prelude
  import H = PeerHealth

  class ClusterPeerHealthStore {
    var entries: map<H.NodeId, H.Entry>
    var knownPeerNodeIds: Option<set<H.NodeId>>
    var runtimePeerHealthByNodeId: map<H.NodeId, H.Status>
    var channelsByNodeId: set<H.NodeId>
    var armed: map<nat, H.ArmedTimer>
    var nextTimer: nat
    var now: int
    const suspectTimeoutMs: int
    ghost var log: seq<H.Emission>

    ghost function Abs(): H.State
      reads this
    {
      H.State(entries, knownPeerNodeIds, runtimePeerHealthByNodeId, channelsByNodeId,
              armed, nextTimer, now, suspectTimeoutMs, log)
    }

    /** As the app builds it: the configured peers are known, nothing has been heard yet. */
    constructor (peers: set<H.NodeId>, suspectTimeoutMs: int, now: int)
      ensures H.Inv(Abs()) && log == [] && knownPeerNodeIds == Some(peers) && entries == map[]
    {
      this.entries := map[];
      this.knownPeerNodeIds := Some(peers);
      this.runtimePeerHealthByNodeId := map[];
      this.channelsByNodeId := {};
      this.armed := map[];
      this.nextTimer := 0;
      this.now := now;
      this.suspectTimeoutMs := suspectTimeoutMs;
      this.log := [];
    }

    predicate IsUnknownPeer(nodeId: H.NodeId)
      reads this
    {
      knownPeerNodeIds.Some? && nodeId !in knownPeerNodeIds.value
    }

    method GetOrCreateEntry(nodeId: H.NodeId)
      modifies this
      ensures Abs() == H.GetOrCreate(old(Abs()), nodeId) && nodeId in entries
    {
      if nodeId !in entries {
        entries := entries[nodeId := H.FRESH];
      }
    }

    method ClearDeadTimer(nodeId: H.NodeId)
      requires nodeId in entries
      modifies this
      ensures Abs() == H.ClearDeadTimer(old(Abs()), nodeId)
    {
      var e := entries[nodeId];
      if e.deadTimer.Some? {
        armed := armed - {e.deadTimer.value};
        entries := entries[nodeId := e.(deadTimer := None)];
      }
    }

    method EnsureSuspectTimer(nodeId: H.NodeId, detail: Option<string>)
      modifies this
      ensures Abs() == H.EnsureSuspectTimer(old(Abs()), nodeId, detail)
    {
      if nodeId !in entries || entries[nodeId].deadTimer.Some? {
        return;
      }
      armed := armed[nextTimer := H.ArmedTimer(nodeId, detail, now + suspectTimeoutMs)];
      entries := entries[nodeId := entries[nodeId].(deadTimer := Some(nextTimer))];
      nextTimer := nextTimer + 1;
    }

    /** Calls the app's listener: topology view, outgoing rumor, and disconnect on a dead verdict. */
    method EmitSnapshot(nodeId: H.NodeId)
      requires nodeId in entries
      modifies this
      ensures Abs() == H.Emit(old(Abs()), nodeId)
      decreases channelsByNodeId, 1
    {
      runtimePeerHealthByNodeId := runtimePeerHealthByNodeId[nodeId := entries[nodeId].status];
      log := log + [H.Emitted(nodeId, H.VerdictOf(entries[nodeId]))];
      if entries[nodeId].status == H.Dead {
        DisconnectPeer(nodeId, H.DEAD_REASON);
      }
    }

    method ApplyLocalStatus(nodeId: H.NodeId, status: H.Status, detail: Option<string>)
      requires nodeId in entries
      modifies this
      ensures Abs() == H.Emit(H.WriteLocal(old(Abs()), nodeId, status, detail), nodeId)
      decreases channelsByNodeId, 2
    {
      ClearDeadTimer(nodeId);
      var e := entries[nodeId];
      entries := entries[nodeId := e.(status := status, incarnation := e.incarnation + 1, detail := detail, source := H.Local)];
      if status == H.Alive {
        entries := entries[nodeId := entries[nodeId].(lastAliveAt := Some(now))];
      }
      assert Abs() == H.WriteLocal(old(Abs()), nodeId, status, detail);
      EmitSnapshot(nodeId);
    }

    method MarkAlive(nodeId: H.NodeId, detail: Option<string>)
      modifies this
      ensures Abs() == H.MarkAlive(old(Abs()), nodeId, detail)
    {
      if IsUnknownPeer(nodeId) {
        return;
      }
      GetOrCreateEntry(nodeId);
      var current := entries[nodeId];
      if current.status == H.Alive && current.source == H.Local {
        entries := entries[nodeId := current.(lastAliveAt := Some(now), detail := detail)];
        return;
      }
      ApplyLocalStatus(nodeId, H.Alive, detail);
    }

    method MarkSuspect(nodeId: H.NodeId, detail: Option<string>)
      modifies this
      ensures Abs() == H.MarkSuspect(old(Abs()), nodeId, detail)
      decreases channelsByNodeId, 3
    {
      if IsUnknownPeer(nodeId) {
        return;
      }
      GetOrCreateEntry(nodeId);
      var current := entries[nodeId];
      if current.status == H.Suspect && current.source == H.Local {
        entries := entries[nodeId := current.(detail := detail)];
      } else {
        ApplyLocalStatus(nodeId, H.Suspect, detail);
      }
      EnsureSuspectTimer(nodeId, detail);
    }

    method MarkDead(nodeId: H.NodeId, detail: Option<string>)
      modifies this
      ensures Abs() == H.MarkDead(old(Abs()), nodeId, detail)
    {
      if IsUnknownPeer(nodeId) {
        return;
      }
      GetOrCreateEntry(nodeId);
      var current := entries[nodeId];
      if current.status == H.Dead && current.source == H.Local && current.detail == detail {
        return;
      }
      ApplyLocalStatus(nodeId, H.Dead, detail);
    }

    method ApplyRumor(rumor: H.Rumor, reportedBy: H.NodeId) returns (applied: bool)
      modifies this
      ensures Abs() == H.ApplyRumor(old(Abs()), rumor, reportedBy)
      ensures applied <==>
        && !old(IsUnknownPeer(rumor.nodeId))
        && (rumor.nodeId in old(entries) ==> H.ShouldApplyRumor(old(entries)[rumor.nodeId], rumor))
    {
      if IsUnknownPeer(rumor.nodeId) {
        return false;
      }
      GetOrCreateEntry(rumor.nodeId);
      var current := entries[rumor.nodeId];
      if !H.ShouldApplyRumor(current, rumor) {
        if H.RefreshesLastAlive(current, rumor) {
          entries := entries[rumor.nodeId := current.(
            lastAliveAt := rumor.lastAliveAt, source := H.Remote, detail := Some("gossip:" + reportedBy))];
        }
        return false;
      }
      ClearDeadTimer(rumor.nodeId);
      entries := entries[rumor.nodeId := H.AcceptedEntry(entries[rumor.nodeId], rumor, reportedBy, now)];
      if rumor.status == H.Suspect {
        EnsureSuspectTimer(rumor.nodeId, entries[rumor.nodeId].detail);
      }
      EmitSnapshot(rumor.nodeId);
      return true;
    }

    /** The suspect timer's callback. */
    method OnSuspectTimeout(timer: nat)
      requires timer in armed
      modifies this
      ensures Abs() == H.FireTimer(old(Abs()), timer)
    {
      var nodeId, detail := armed[timer].nodeId, armed[timer].detail;
      armed := armed - {timer};
      if nodeId !in entries || entries[nodeId].status != H.Suspect {
        return;
      }
      entries := entries[nodeId := entries[nodeId].(deadTimer := None)];
      MarkDead(nodeId, Some(detail.GetOr("suspect_timeout")));
    }

    /** The network's disconnect: closes the channel and reports the peer suspect, re-entering the store. */
    method DisconnectPeer(nodeId: H.NodeId, reason: string)
      modifies this
      ensures Abs() == H.DisconnectPeer(old(Abs()), nodeId, reason)
      decreases channelsByNodeId, 0
    {
      if nodeId !in channelsByNodeId {
        return;
      }
      channelsByNodeId := channelsByNodeId - {nodeId};
      MarkSuspect(nodeId, Some(reason));
    }

    /** `noteKnownPeers`: drops the entries of peers that left, disarming their timers. */
    method NoteKnownPeers(peers: set<H.NodeId>)
      modifies this`knownPeerNodeIds, this`entries, this`armed
      ensures knownPeerNodeIds == Some(peers)
      ensures entries == map n | n in old(entries) && n in peers :: old(entries)[n]
      ensures armed == H.TopologyChanged(old(Abs()), peers).armed
    {
      knownPeerNodeIds := Some(peers);
      var pending := entries.Keys;
      while pending != {}
        invariant knownPeerNodeIds == Some(peers)
        invariant pending <= entries.Keys <= old(entries).Keys
        invariant forall n :: n in old(entries) && (n in peers || n in pending) ==> n in entries
        invariant forall n :: n in entries && n !in pending ==> n in peers
        invariant forall n :: n in entries ==> entries[n] == old(entries)[n]
        invariant armed.Keys <= old(armed).Keys && forall t :: t in armed ==> armed[t] == old(armed)[t]
        invariant forall t :: t in old(armed) ==>
          (t !in armed <==> exists n :: n in old(entries) && n !in entries && old(entries)[n].deadTimer == Some(t))
        decreases pending
      {
        var existing :| existing in pending;
        pending := pending - {existing};
        if existing in peers {
          continue;
        }
        if entries[existing].deadTimer.Some? {
          armed := armed - {entries[existing].deadTimer.value};
        }
        entries := entries - {existing};
      }
      assert forall n :: n in old(entries) ==> (n !in entries <==> n !in peers);
      assert forall t :: t in old(armed) ==>
        (t !in armed <==> exists n :: n in old(entries) && n !in peers && old(entries)[n].deadTimer == Some(t));
    }

    /** The app's topology listener. */
    method OnTopologyChanged(peers: set<H.NodeId>)
      modifies this
      ensures Abs() == H.TopologyChanged(old(Abs()), peers)
    {
      NoteKnownPeers(peers);
      runtimePeerHealthByNodeId :=
        map n | n in runtimePeerHealthByNodeId && n in peers :: runtimePeerHealthByNodeId[n];
      channelsByNodeId := channelsByNodeId * peers;
      log := log + [H.Forgot(peers)];
    }
  }
}
