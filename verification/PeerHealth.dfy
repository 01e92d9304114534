/**
 One node's view of its peers' health: the gossip store (src/runtime/cluster/health.ts) together
 with the parts of the network and the runtime app it is wired to. A dead verdict re-enters the
 store: the app's listener disconnects the peer, and disconnecting marks it suspect.

 The state is a value, the source's operations are functions on it, and the class in PeerHealthStore.dfy
 performs them in place, call by call as the source does.
 */
module PeerHealth {
  import opened Prelude

  type NodeId = string

  datatype Status = Unknown | Alive | Suspect | Dead
  datatype Source = Local | Remote

  function Rank(status: Status): nat {
    match status
    case Unknown => 0
    case Alive => 1
    case Suspect => 2
    case Dead => 3
  }

  datatype Entry = Entry(
    status: Status,
    incarnation: int,
    source: Source,
    lastAliveAt: Option<int>,
    detail: Option<string>,
    deadTimer: Option<nat>)

  datatype Rumor = Rumor(nodeId: NodeId, status: Status, incarnation: int, lastAliveAt: Option<int>)

  /** What the wire format admits: a definite status and an incarnation of at least one. */
  predicate WellFormedRumor(rumor: Rumor) {
    rumor.status != Unknown && rumor.incarnation >= 1
  }

  const FRESH: Entry := Entry(Unknown, 0, Local, None, None, None)

  // ---- The order on verdicts ----

  datatype Verdict = Verdict(incarnation: int, rank: nat)

  predicate Below(a: Verdict, b: Verdict) {
    a.incarnation < b.incarnation || (a.incarnation == b.incarnation && a.rank < b.rank)
  }

  predicate AtMost(a: Verdict, b: Verdict) {
    a == b || Below(a, b)
  }

  function VerdictOf(e: Entry): Verdict {
    Verdict(e.incarnation, Rank(e.status))
  }

  function RumorVerdict(r: Rumor): Verdict {
    Verdict(r.incarnation, Rank(r.status))
  }

  // ---- State ----

  datatype ArmedTimer = ArmedTimer(nodeId: NodeId, detail: Option<string>, deadline: int)

  /** What left the store: a snapshot handed to the listener, or the entries outside `kept` being dropped. */
  datatype Emission = Emitted(nodeId: NodeId, verdict: Verdict) | Forgot(kept: set<NodeId>)

  datatype State = State(
    entries: map<NodeId, Entry>,
    known: Option<set<NodeId>>,
    view: map<NodeId, Status>,      // the topology store's runtime peer health
    channels: set<NodeId>,          // peers with an open cluster channel
    armed: map<nat, ArmedTimer>,
    nextTimer: nat,
    now: int,
    suspectTimeoutMs: int,
    log: seq<Emission>)

  predicate IsUnknownPeer(s: State, nodeId: NodeId) {
    s.known.Some? && nodeId !in s.known.value
  }

  function GetOrCreate(s: State, nodeId: NodeId): State {
    if nodeId in s.entries then s else s.(entries := s.entries[nodeId := FRESH])
  }

  function ClearDeadTimer(s: State, nodeId: NodeId): State
    requires nodeId in s.entries
  {
    var e := s.entries[nodeId];
    if e.deadTimer.None? then s
    else s.(armed := s.armed - {e.deadTimer.value}, entries := s.entries[nodeId := e.(deadTimer := None)])
  }

  /** `ensureSuspectTimer`: an armed timer is left alone. */
  function EnsureSuspectTimer(s: State, nodeId: NodeId, detail: Option<string>): State {
    if nodeId !in s.entries || s.entries[nodeId].deadTimer.Some? then s
    else
      s.(entries := s.entries[nodeId := s.entries[nodeId].(deadTimer := Some(s.nextTimer))],
         armed := s.armed[s.nextTimer := ArmedTimer(nodeId, detail, s.now + s.suspectTimeoutMs)],
         nextTimer := s.nextTimer + 1)
  }

  /** The part of the listener every snapshot runs: the topology view and the outgoing rumor. */
  function Publish(s: State, nodeId: NodeId): State
    requires nodeId in s.entries
  {
    s.(view := s.view[nodeId := s.entries[nodeId].status],
       log := s.log + [Emitted(nodeId, VerdictOf(s.entries[nodeId]))])
  }

  function WriteLocal(s: State, nodeId: NodeId, status: Status, detail: Option<string>): State
    requires nodeId in s.entries
  {
    var cleared := ClearDeadTimer(s, nodeId);
    var e := cleared.entries[nodeId];
    cleared.(entries := cleared.entries[nodeId := e.(
      status := status,
      incarnation := e.incarnation + 1,
      detail := detail,
      source := Local,
      lastAliveAt := if status == Alive then Some(s.now) else e.lastAliveAt)])
  }

  function MarkSuspect(s: State, nodeId: NodeId, detail: Option<string>): State {
    if IsUnknownPeer(s, nodeId) then s
    else
      var created := GetOrCreate(s, nodeId);
      var e := created.entries[nodeId];
      var written :=
        if e.status == Suspect && e.source == Local then
          created.(entries := created.entries[nodeId := e.(detail := detail)])
        else Publish(WriteLocal(created, nodeId, Suspect, detail), nodeId);
      EnsureSuspectTimer(written, nodeId, detail)
  }

  const DEAD_REASON: string := "cluster peer marked dead"

  function DisconnectPeer(s: State, nodeId: NodeId, reason: string): State {
    if nodeId !in s.channels then s
    else MarkSuspect(s.(channels := s.channels - {nodeId}), nodeId, Some(reason))
  }

  /** Handing a snapshot to the app's listener, including the re-entrant dead -> disconnect -> suspect path. */
  function Emit(s: State, nodeId: NodeId): State
    requires nodeId in s.entries
  {
    var published := Publish(s, nodeId);
    if s.entries[nodeId].status == Dead then DisconnectPeer(published, nodeId, DEAD_REASON) else published
  }

  function MarkAlive(s: State, nodeId: NodeId, detail: Option<string>): State {
    if IsUnknownPeer(s, nodeId) then s
    else
      var created := GetOrCreate(s, nodeId);
      var e := created.entries[nodeId];
      if e.status == Alive && e.source == Local then
        created.(entries := created.entries[nodeId := e.(lastAliveAt := Some(s.now), detail := detail)])
      else Emit(WriteLocal(created, nodeId, Alive, detail), nodeId)
  }

  function MarkDead(s: State, nodeId: NodeId, detail: Option<string>): State {
    if IsUnknownPeer(s, nodeId) then s
    else
      var created := GetOrCreate(s, nodeId);
      var e := created.entries[nodeId];
      if e.status == Dead && e.source == Local && e.detail == detail then created
      else Emit(WriteLocal(created, nodeId, Dead, detail), nodeId)
  }

  predicate ShouldApplyRumor(e: Entry, rumor: Rumor) {
    || e.status == Unknown
    || rumor.incarnation > e.incarnation
    || (rumor.incarnation == e.incarnation && e.source == Remote && Rank(rumor.status) > Rank(e.status))
  }

  /** A rumor that is not applied may still refresh the last-alive time, which makes the entry remote. */
  predicate RefreshesLastAlive(e: Entry, rumor: Rumor) {
    e.status == rumor.status && rumor.lastAliveAt.Some? && rumor.lastAliveAt.value > e.lastAliveAt.GetOr(0)
  }

  function AcceptedEntry(e: Entry, rumor: Rumor, reportedBy: NodeId, now: int): Entry {
    e.(status := rumor.status,
       incarnation := rumor.incarnation,
       lastAliveAt := if rumor.status != Alive then e.lastAliveAt
                      else if rumor.lastAliveAt.Some? then rumor.lastAliveAt
                      else Some(e.lastAliveAt.GetOr(now)),
       detail := Some("gossip:" + reportedBy),
       source := Remote,
       deadTimer := None)
  }

  function WriteRumor(s: State, rumor: Rumor, reportedBy: NodeId): State
    requires rumor.nodeId in s.entries
  {
    var cleared := ClearDeadTimer(s, rumor.nodeId);
    var accepted := AcceptedEntry(cleared.entries[rumor.nodeId], rumor, reportedBy, s.now);
    cleared.(entries := cleared.entries[rumor.nodeId := accepted])
  }

  function ApplyRumor(s: State, rumor: Rumor, reportedBy: NodeId): State {
    if IsUnknownPeer(s, rumor.nodeId) then s
    else
      var created := GetOrCreate(s, rumor.nodeId);
      var e := created.entries[rumor.nodeId];
      if !ShouldApplyRumor(e, rumor) then
        if RefreshesLastAlive(e, rumor) then
          created.(entries := created.entries[rumor.nodeId := e.(
            lastAliveAt := rumor.lastAliveAt, source := Remote, detail := Some("gossip:" + reportedBy))])
        else created
      else
        var written := WriteRumor(created, rumor, reportedBy);
        var detail := written.entries[rumor.nodeId].detail;
        Emit(if rumor.status == Suspect then EnsureSuspectTimer(written, rumor.nodeId, detail) else written,
             rumor.nodeId)
  }

  /** The suspect timer's callback. */
  function FireTimer(s: State, timer: nat): State
    requires timer in s.armed
  {
    var fired := s.(armed := s.armed - {timer});
    var nodeId := s.armed[timer].nodeId;
    if nodeId !in s.entries || s.entries[nodeId].status != Suspect then fired
    else
      var disarmed := fired.(entries := s.entries[nodeId := s.entries[nodeId].(deadTimer := None)]);
      MarkDead(disarmed, nodeId, Some(s.armed[timer].detail.GetOr("suspect_timeout")))
  }

  /** The app's topology listener: known peers, topology view and channels all shrink to the new peer set. */
  function TopologyChanged(s: State, peers: set<NodeId>): State {
    s.(known := Some(peers),
       entries := map n | n in s.entries && n in peers :: s.entries[n],
       view := map n | n in s.view && n in peers :: s.view[n],
       channels := s.channels * peers,
       armed := map t | t in s.armed && !(exists n :: n in s.entries && n !in peers && s.entries[n].deadTimer == Some(t))
                 :: s.armed[t],
       log := s.log + [Forgot(peers)])
  }

  // ---- Runs ----

  datatype Event =
    | AliveEvent(nodeId: NodeId, detail: Option<string>)
    | SuspectEvent(nodeId: NodeId, detail: Option<string>)
    | DeadEvent(nodeId: NodeId, detail: Option<string>)
    | RumorEvent(rumor: Rumor, reportedBy: NodeId)
    | TimerEvent(timer: nat)
    | TopologyEvent(peers: set<NodeId>)
    | DisconnectEvent(nodeId: NodeId, reason: string)
    | ChannelOpened(nodeId: NodeId)
    | ChannelClosed(nodeId: NodeId)
    | TimePasses(ms: nat)

  predicate WellFormedEvent(event: Event) {
    event.RumorEvent? ==> WellFormedRumor(event.rumor)
  }

  function Step(s: State, event: Event): State {
    match event
    case AliveEvent(n, detail) => MarkAlive(s, n, detail)
    case SuspectEvent(n, detail) => MarkSuspect(s, n, detail)
    case DeadEvent(n, detail) => MarkDead(s, n, detail)
    case RumorEvent(rumor, reporter) => ApplyRumor(s, rumor, reporter)
    case TimerEvent(t) => if t in s.armed && s.armed[t].deadline <= s.now then FireTimer(s, t) else s
    case TopologyEvent(peers) => TopologyChanged(s, peers)
    case DisconnectEvent(n, reason) => DisconnectPeer(s, n, reason)
    case ChannelOpened(n) => s.(channels := s.channels + {n})
    case ChannelClosed(n) => s.(channels := s.channels - {n})
    case TimePasses(ms) => s.(now := s.now + ms)
  }

  function Run(s: State, events: seq<Event>): State
    decreases |events|
  {
    if events == [] then s else Run(Step(s, events[0]), events[1..])
  }

  // ---- Agreement of timers, entries, known peers and the topology view ----

  /** Timers and entries refer to each other, one to one. */
  ghost predicate TimersLinked(s: State) {
    && (forall n :: n in s.entries && s.entries[n].deadTimer.Some? ==>
          s.entries[n].deadTimer.value in s.armed && s.armed[s.entries[n].deadTimer.value].nodeId == n)
    && (forall t :: t in s.armed ==>
          t < s.nextTimer && s.armed[t].nodeId in s.entries && s.entries[s.armed[t].nodeId].deadTimer == Some(t))
  }

  /** A definite status shown in the topology view, and a dead timer armed exactly while suspect. */
  ghost predicate Settled(s: State, n: NodeId) {
    && (n in s.view <==> n in s.entries)
    && (n in s.entries ==>
          && s.view[n] == s.entries[n].status
          && s.entries[n].status != Unknown
          && s.entries[n].incarnation >= 1
          && (s.entries[n].deadTimer.Some? <==> s.entries[n].status == Suspect))
  }

  ghost predicate SettledExcept(s: State, skip: set<NodeId>) {
    && (s.known.Some? ==> s.entries.Keys <= s.known.value)
    && forall n :: n !in skip ==> Settled(s, n)
  }

  ghost predicate Inv(s: State) {
    TimersLinked(s) && SettledExcept(s, {})
  }

  /** In the middle of an operation on `n`: everything else is settled, and `n` has an entry. */
  ghost predicate Writing(s: State, n: NodeId) {
    TimersLinked(s) && SettledExcept(s, {n}) && n in s.entries && s.entries[n].incarnation >= 0
  }

  lemma CreatedWriting(s: State, n: NodeId)
    requires Inv(s) && !IsUnknownPeer(s, n)
    ensures Writing(GetOrCreate(s, n), n)
  {
    var c := GetOrCreate(s, n);
    assert Settled(s, n);
    forall m | m != n ensures Settled(c, m) { assert Settled(s, m); }
  }

  lemma WriteLocalWriting(s: State, n: NodeId, status: Status, detail: Option<string>)
    requires Writing(s, n)
    ensures var w := WriteLocal(s, n, status, detail);
      && Writing(w, n)
      && w.entries[n].status == status && w.entries[n].deadTimer.None?
      && w.entries[n].incarnation == s.entries[n].incarnation + 1
  {
    var w := WriteLocal(s, n, status, detail);
    forall m | m != n ensures Settled(w, m) { assert Settled(s, m); }
  }

  lemma PublishWriting(s: State, n: NodeId)
    requires Writing(s, n)
    ensures Writing(Publish(s, n), n)
    ensures (&& s.entries[n].status != Unknown && s.entries[n].incarnation >= 1
             && (s.entries[n].deadTimer.Some? <==> s.entries[n].status == Suspect))
         ==> Inv(Publish(s, n))
  {
    var p := Publish(s, n);
    forall m | m != n ensures Settled(p, m) { assert Settled(s, m); }
  }

  lemma ArmSettles(s: State, n: NodeId, detail: Option<string>)
    requires Writing(s, n) && n in s.view
    requires s.entries[n].status == Suspect && s.entries[n].incarnation >= 1 && s.view[n] == Suspect
    ensures Inv(EnsureSuspectTimer(s, n, detail))
  {
    var a := EnsureSuspectTimer(s, n, detail);
    forall m ensures Settled(a, m) { if m != n { assert Settled(s, m); } }
  }

  lemma MarkSuspectInv(s: State, n: NodeId, detail: Option<string>)
    requires Inv(s)
    ensures Inv(MarkSuspect(s, n, detail))
  {
    if !IsUnknownPeer(s, n) {
      var created := GetOrCreate(s, n);
      CreatedWriting(s, n);
      var e := created.entries[n];
      if e.status == Suspect && e.source == Local {
        assert Settled(s, n);
        var written := created.(entries := created.entries[n := e.(detail := detail)]);
        forall m | m != n ensures Settled(written, m) { assert Settled(s, m); }
        ArmSettles(written, n, detail);
      } else {
        WriteLocalWriting(created, n, Suspect, detail);
        var w := WriteLocal(created, n, Suspect, detail);
        PublishWriting(w, n);
        ArmSettles(Publish(w, n), n, detail);
      }
    }
  }

  lemma DisconnectInv(s: State, n: NodeId, reason: string)
    requires Inv(s)
    ensures Inv(DisconnectPeer(s, n, reason))
  {
    var closed := s.(channels := s.channels - {n});
    forall m ensures Settled(closed, m) { assert Settled(s, m); }
    MarkSuspectInv(closed, n, Some(reason));
  }

  lemma EmitInv(s: State, n: NodeId)
    requires Writing(s, n)
    requires s.entries[n].status != Unknown && s.entries[n].incarnation >= 1
    requires s.entries[n].deadTimer.Some? <==> s.entries[n].status == Suspect
    ensures Inv(Emit(s, n))
  {
    PublishWriting(s, n);
    DisconnectInv(Publish(s, n), n, DEAD_REASON);
  }

  lemma LocalStatusInv(s: State, n: NodeId, status: Status, detail: Option<string>)
    requires Writing(s, n) && status in {Alive, Dead}
    ensures Inv(Emit(WriteLocal(s, n, status, detail), n))
  {
    WriteLocalWriting(s, n, status, detail);
    EmitInv(WriteLocal(s, n, status, detail), n);
  }

  lemma MarkAliveInv(s: State, n: NodeId, detail: Option<string>)
    requires Inv(s)
    ensures Inv(MarkAlive(s, n, detail))
  {
    if !IsUnknownPeer(s, n) {
      var created := GetOrCreate(s, n);
      CreatedWriting(s, n);
      if created.entries[n].status == Alive && created.entries[n].source == Local {
        forall m ensures Settled(MarkAlive(s, n, detail), m) { assert Settled(s, m); }
      } else {
        LocalStatusInv(created, n, Alive, detail);
      }
    }
  }

  lemma MarkDeadInv(s: State, n: NodeId, detail: Option<string>)
    requires Inv(s)
    ensures Inv(MarkDead(s, n, detail))
  {
    if !IsUnknownPeer(s, n) {
      var created := GetOrCreate(s, n);
      CreatedWriting(s, n);
      var e := created.entries[n];
      if !(e.status == Dead && e.source == Local && e.detail == detail) {
        LocalStatusInv(created, n, Dead, detail);
      }
    }
  }

  lemma WriteRumorWriting(s: State, rumor: Rumor, reportedBy: NodeId)
    requires Writing(s, rumor.nodeId) && WellFormedRumor(rumor)
    ensures var w := WriteRumor(s, rumor, reportedBy);
      && Writing(w, rumor.nodeId)
      && w.entries[rumor.nodeId].status == rumor.status
      && w.entries[rumor.nodeId].incarnation == rumor.incarnation
      && w.entries[rumor.nodeId].deadTimer.None?
  {
    var w := WriteRumor(s, rumor, reportedBy);
    forall m | m != rumor.nodeId ensures Settled(w, m) { assert Settled(s, m); }
  }

  lemma ArmWriting(s: State, n: NodeId, detail: Option<string>)
    requires Writing(s, n)
    ensures var a := EnsureSuspectTimer(s, n, detail);
      && Writing(a, n)
      && a.entries[n].deadTimer.Some?
      && VerdictOf(a.entries[n]) == VerdictOf(s.entries[n]) && a.entries[n].status == s.entries[n].status
  {
    var a := EnsureSuspectTimer(s, n, detail);
    forall m | m != n ensures Settled(a, m) { assert Settled(s, m); }
  }

  lemma ApplyRumorInv(s: State, rumor: Rumor, reportedBy: NodeId)
    requires Inv(s) && WellFormedRumor(rumor)
    ensures Inv(ApplyRumor(s, rumor, reportedBy))
  {
    var n := rumor.nodeId;
    if !IsUnknownPeer(s, n) {
      var created := GetOrCreate(s, n);
      CreatedWriting(s, n);
      if !ShouldApplyRumor(created.entries[n], rumor) {
        forall m ensures Settled(ApplyRumor(s, rumor, reportedBy), m) { assert Settled(s, m); }
      } else {
        WriteRumorWriting(created, rumor, reportedBy);
        var written := WriteRumor(created, rumor, reportedBy);
        if rumor.status == Suspect {
          ArmWriting(written, n, written.entries[n].detail);
          EmitInv(EnsureSuspectTimer(written, n, written.entries[n].detail), n);
        } else {
          EmitInv(written, n);
        }
      }
    }
  }

  lemma FireTimerInv(s: State, timer: nat)
    requires Inv(s) && timer in s.armed
    ensures Inv(FireTimer(s, timer))
  {
    var n := s.armed[timer].nodeId;
    assert Settled(s, n);
    assert s.entries[n].status == Suspect;
    var disarmed := s.(armed := s.armed - {timer}, entries := s.entries[n := s.entries[n].(deadTimer := None)]);
    assert Writing(disarmed, n) by {
      forall m | m != n ensures Settled(disarmed, m) { assert Settled(s, m); }
    }
    LocalStatusInv(disarmed, n, Dead, Some(s.armed[timer].detail.GetOr("suspect_timeout")));
  }

  lemma TopologyInv(s: State, peers: set<NodeId>)
    requires Inv(s)
    ensures Inv(TopologyChanged(s, peers))
  {
    var r := TopologyChanged(s, peers);
    forall n ensures Settled(r, n) { assert Settled(s, n); }
    forall t | t in r.armed ensures r.armed[t].nodeId in r.entries && r.entries[r.armed[t].nodeId].deadTimer == Some(t) {
      var n := s.armed[t].nodeId;
      assert s.entries[n].deadTimer == Some(t);
    }
  }

  lemma StepInv(s: State, event: Event)
    requires Inv(s) && WellFormedEvent(event)
    ensures Inv(Step(s, event))
  {
    match event
    case AliveEvent(n, detail) => MarkAliveInv(s, n, detail);
    case SuspectEvent(n, detail) => MarkSuspectInv(s, n, detail);
    case DeadEvent(n, detail) => MarkDeadInv(s, n, detail);
    case RumorEvent(rumor, reporter) => ApplyRumorInv(s, rumor, reporter);
    case TimerEvent(t) => if t in s.armed { FireTimerInv(s, t); }
    case TopologyEvent(peers) => TopologyInv(s, peers);
    case DisconnectEvent(n, reason) => DisconnectInv(s, n, reason);
    case _ => ElsewhereInv(s, Step(s, event).channels, Step(s, event).now);
  }

  /** Channels opening and closing, and time, are no part of the agreement. */
  lemma ElsewhereInv(s: State, channels: set<NodeId>, now: int)
    requires Inv(s)
    ensures Inv(s.(channels := channels, now := now))
  {
    forall n ensures Settled(s.(channels := channels, now := now), n) { assert Settled(s, n); }
  }

  /**
   After every top-level step of every run, re-entrant disconnects included: a dead timer is armed
   exactly for the suspect entries, entries belong to known peers, and the topology view shows
   exactly the store's statuses.
   */
  lemma {:induction false} RunInv(s: State, events: seq<Event>)
    requires Inv(s) && forall event :: event in events ==> WellFormedEvent(event)
    ensures Inv(Run(s, events))
    decreases |events|
  {
    if events != [] {
      StepInv(s, events[0]);
      RunInv(Step(s, events[0]), events[1..]);
    }
  }
}
