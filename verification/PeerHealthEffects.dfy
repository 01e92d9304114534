/**
 What every operation of the peer-health store does to the peer it is about, field by field, and that
 it leaves every other peer alone (src/runtime/cluster/health.ts). Read together, these say which
 verdict a caller finds in the entry and in the topology view, whose timer is running until when, and
 what was announced.
 */
module PeerHealthEffects {
  import opened Prelude
  import opened PeerHealth

  // ---- What can be read off a state ----

  ghost predicate Known(s: State, n: NodeId) {
    match s.known
    case None => true
    case Some(peers) => n in peers
  }

  ghost function IncarnationOf(s: State, n: NodeId): int {
    if n in s.entries then s.entries[n].incarnation else 0
  }

  ghost function LastAliveOf(s: State, n: NodeId): Option<int> {
    if n in s.entries then s.entries[n].lastAliveAt else None
  }

  ghost predicate Stands(s: State, n: NodeId, status: Status, source: Source) {
    n in s.entries && s.entries[n].status == status && s.entries[n].source == source
  }

  /** Store and topology view agree that the peer has this status. */
  ghost predicate Shows(s: State, n: NodeId, status: Status) {
    n in s.entries && n in s.view && s.entries[n].status == status && s.view[n] == status
  }

  ghost predicate Says(s: State, n: NodeId, incarnation: int, source: Source, lastAliveAt: Option<int>, detail: Option<string>) {
    && n in s.entries && s.entries[n].incarnation == incarnation && s.entries[n].source == source
    && s.entries[n].lastAliveAt == lastAliveAt && s.entries[n].detail == detail
  }

  ghost predicate Names(s: State, timer: nat, n: NodeId) {
    timer in s.armed && s.armed[timer].nodeId == n
  }

  ghost predicate NoTimer(s: State, n: NodeId) {
    n in s.entries && s.entries[n].deadTimer.None? && !(exists timer :: Names(s, timer, n))
  }

  /** One dead timer runs for the peer; it ends at the deadline. */
  ghost predicate TimerUntil(s: State, n: NodeId, deadline: int) {
    && n in s.entries && s.entries[n].deadTimer.Some?
    && s.entries[n].deadTimer.value in s.armed && s.armed[s.entries[n].deadTimer.value].deadline == deadline
    && forall timer :: Names(s, timer, n) <==> timer == s.entries[n].deadTimer.value
  }

  ghost predicate Untouched(s: State, later: State, n: NodeId) {
    && (n in later.entries <==> n in s.entries) && (n in s.entries ==> later.entries[n] == s.entries[n])
    && (n in later.view <==> n in s.view) && (n in s.view ==> later.view[n] == s.view[n])
    && (n in later.channels <==> n in s.channels)
    && forall timer :: Names(later, timer, n) || Names(s, timer, n) ==> SameTimer(s, later, timer)
  }

  ghost predicate SameTimer(s: State, later: State, timer: nat) {
    timer in later.armed && timer in s.armed && later.armed[timer] == s.armed[timer]
  }

  ghost predicate OthersUntouched(s: State, later: State, n: NodeId) {
    && later.known == s.known && later.now == s.now && later.suspectTimeoutMs == s.suspectTimeoutMs
    && forall m :: m != n ==> Untouched(s, later, m)
  }

  /** The numbers that order verdicts of one incarnation. */
  lemma WorseVerdicts(a: Status, b: Status)
    ensures Rank(a) < Rank(b) <==> (a, b) in {(Unknown, Alive), (Unknown, Suspect), (Unknown, Dead), (Alive, Suspect), (Alive, Dead), (Suspect, Dead)}
  {
  }

  // ---- Every part of an operation leaves the other peers alone ----

  lemma FrameChains(a: State, b: State, c: State, n: NodeId)
    requires OthersUntouched(a, b, n) && OthersUntouched(b, c, n)
    ensures OthersUntouched(a, c, n)
  {
    forall m | m != n ensures Untouched(a, c, m) {
      assert Untouched(a, b, m) && Untouched(b, c, m);
      forall timer | Names(c, timer, m) || Names(a, timer, m) ensures SameTimer(a, c, timer) {
        assert SameTimer(b, c, timer) || SameTimer(a, b, timer);
        assert Names(b, timer, m);
      }
    }
  }

  lemma CreateFrame(s: State, n: NodeId)
    ensures OthersUntouched(s, GetOrCreate(s, n), n)
  {
  }

  lemma ClearFrame(s: State, n: NodeId)
    requires TimersLinked(s) && n in s.entries
    ensures OthersUntouched(s, ClearDeadTimer(s, n), n)
  {
  }

  lemma WriteLocalFrame(s: State, n: NodeId, status: Status, detail: Option<string>)
    requires TimersLinked(s) && n in s.entries
    ensures OthersUntouched(s, WriteLocal(s, n, status, detail), n)
  {
    var cleared := ClearDeadTimer(s, n);
    ClearFrame(s, n);
    assert OthersUntouched(cleared, WriteLocal(s, n, status, detail), n);
    FrameChains(s, cleared, WriteLocal(s, n, status, detail), n);
  }

  lemma WriteRumorFrame(s: State, r: Rumor, reporter: NodeId)
    requires TimersLinked(s) && r.nodeId in s.entries
    ensures OthersUntouched(s, WriteRumor(s, r, reporter), r.nodeId)
  {
    var cleared := ClearDeadTimer(s, r.nodeId);
    ClearFrame(s, r.nodeId);
    assert OthersUntouched(cleared, WriteRumor(s, r, reporter), r.nodeId);
    FrameChains(s, cleared, WriteRumor(s, r, reporter), r.nodeId);
  }

  lemma PublishFrame(s: State, n: NodeId)
    requires n in s.entries
    ensures OthersUntouched(s, Publish(s, n), n)
  {
  }

  lemma ArmFrame(s: State, n: NodeId, detail: Option<string>)
    requires TimersLinked(s)
    ensures OthersUntouched(s, EnsureSuspectTimer(s, n, detail), n)
  {
  }

  lemma WrittenFrame(s: State, n: NodeId, detail: Option<string>)
    requires Writing(s, n)
    ensures var written := Publish(WriteLocal(s, n, Suspect, detail), n);
      TimersLinked(written) && OthersUntouched(s, written, n)
  {
    var w := WriteLocal(s, n, Suspect, detail);
    WriteLocalWriting(s, n, Suspect, detail);
    WriteLocalFrame(s, n, Suspect, detail);
    PublishFrame(w, n);
    FrameChains(s, w, Publish(w, n), n);
  }

  lemma RefreshedFrame(s: State, n: NodeId, detail: Option<string>)
    requires Writing(s, n)
    ensures var refreshed := s.(entries := s.entries[n := s.entries[n].(detail := detail)]);
      TimersLinked(refreshed) && OthersUntouched(s, refreshed, n)
  {
  }

  lemma SuspectFrame(s: State, n: NodeId, detail: Option<string>)
    requires Inv(s) && Known(s, n)
    ensures OthersUntouched(s, MarkSuspect(s, n, detail), n)
  {
    var created := GetOrCreate(s, n);
    CreateFrame(s, n);
    CreatedWriting(s, n);
    WrittenFrame(created, n, detail);
    RefreshedFrame(created, n, detail);
    var written :=
      if Stands(created, n, Suspect, Local) then created.(entries := created.entries[n := created.entries[n].(detail := detail)])
      else Publish(WriteLocal(created, n, Suspect, detail), n);
    ArmFrame(written, n, detail);
    assert MarkSuspect(s, n, detail) == EnsureSuspectTimer(written, n, detail);
    FrameChains(s, created, written, n);
    FrameChains(s, written, EnsureSuspectTimer(written, n, detail), n);
  }

  lemma ClosedInv(s: State, n: NodeId)
    requires Inv(s)
    ensures Inv(s.(channels := s.channels - {n})) && OthersUntouched(s, s.(channels := s.channels - {n}), n)
  {
    var closed := s.(channels := s.channels - {n});
    forall m ensures Settled(closed, m) { assert Settled(s, m); }
  }

  lemma DisconnectFrame(s: State, n: NodeId, reason: string)
    requires Inv(s) && Known(s, n)
    ensures OthersUntouched(s, DisconnectPeer(s, n, reason), n)
  {
    var closed := s.(channels := s.channels - {n});
    ClosedInv(s, n);
    SuspectFrame(closed, n, Some(reason));
    FrameChains(s, closed, MarkSuspect(closed, n, Some(reason)), n);
  }

  /** A finished entry, ready to be handed to the listener. */
  ghost predicate Ready(s: State, n: NodeId) {
    && Writing(s, n) && Known(s, n)
    && s.entries[n].status != Unknown && s.entries[n].incarnation >= 1
    && (s.entries[n].deadTimer.Some? <==> s.entries[n].status == Suspect)
  }

  lemma EmitFrame(s: State, n: NodeId)
    requires Ready(s, n)
    ensures OthersUntouched(s, Emit(s, n), n)
  {
    var p := Publish(s, n);
    PublishFrame(s, n);
    PublishWriting(s, n);
    DisconnectFrame(p, n, DEAD_REASON);
    FrameChains(s, p, DisconnectPeer(p, n, DEAD_REASON), n);
  }

  /** In an agreeing state the status alone decides whether a dead timer runs for a peer. */
  lemma TimersOf(s: State, n: NodeId)
    requires Inv(s) && n in s.entries
    ensures s.entries[n].status != Suspect ==> NoTimer(s, n)
    ensures s.entries[n].status == Suspect ==>
      && s.entries[n].deadTimer.Some? && s.entries[n].deadTimer.value in s.armed
      && TimerUntil(s, n, s.armed[s.entries[n].deadTimer.value].deadline)
  {
    assert Settled(s, n);
  }

  /**
   A newly reached dead verdict: with no channel open the peer is dead, one incarnation up, with no timer;
   with a channel open it loses the channel and is suspect two incarnations up, with the whole timeout ahead.
   */
  ghost predicate Dies(s: State, later: State, n: NodeId, incarnation: int, source: Source, detail: Option<string>) {
    && n !in later.channels
    && (n !in s.channels ==>
          && Shows(later, n, Dead) && Says(later, n, incarnation, source, LastAliveOf(s, n), detail) && NoTimer(later, n)
          && later.log == s.log + [Emitted(n, Verdict(incarnation, 3))])
    && (n in s.channels ==>
          && Shows(later, n, Suspect)
          && Says(later, n, incarnation + 1, Local, LastAliveOf(s, n), Some("cluster peer marked dead"))
          && TimerUntil(later, n, s.now + s.suspectTimeoutMs)
          && later.log == s.log + [Emitted(n, Verdict(incarnation, 3)), Emitted(n, Verdict(incarnation + 1, 2))])
    && OthersUntouched(s, later, n)
  }

  // ---- Handing a finished entry to the listener ----

  lemma WrittenSays(s: State, n: NodeId, status: Status, detail: Option<string>)
    requires n in s.entries
    ensures var later := Publish(WriteLocal(s, n, status, detail), n);
      && Shows(later, n, status) && later.entries[n].deadTimer.None?
      && Says(later, n, s.entries[n].incarnation + 1, Local,
              if status == Alive then Some(s.now) else s.entries[n].lastAliveAt, detail)
      && later.channels == s.channels && later.now == s.now && later.suspectTimeoutMs == s.suspectTimeoutMs
      && later.log == s.log + [Emitted(n, Verdict(s.entries[n].incarnation + 1, Rank(status)))]
  {
  }

  lemma ArmedSays(s: State, n: NodeId, detail: Option<string>)
    requires n in s.entries && n in s.view && s.entries[n].deadTimer.None?
    ensures var later := EnsureSuspectTimer(s, n, detail);
      && n in later.entries && later.entries[n] == s.entries[n].(deadTimer := Some(s.nextTimer))
      && s.nextTimer in later.armed && later.armed[s.nextTimer].deadline == s.now + s.suspectTimeoutMs
      && later.view == s.view && later.channels == s.channels && later.log == s.log
  {
  }

  lemma SuspectSays(s: State, n: NodeId, detail: Option<string>)
    requires Inv(s) && Known(s, n) && !Stands(s, n, Suspect, Local)
    ensures var later := MarkSuspect(s, n, detail);
      && Shows(later, n, Suspect)
      && Says(later, n, IncarnationOf(s, n) + 1, Local, LastAliveOf(s, n), detail)
      && TimerUntil(later, n, s.now + s.suspectTimeoutMs)
      && later.channels == s.channels
      && later.log == s.log + [Emitted(n, Verdict(IncarnationOf(s, n) + 1, 2))]
  {
    var created := GetOrCreate(s, n);
    assert Settled(s, n);
    CreatedWriting(s, n);
    WriteLocalWriting(created, n, Suspect, detail);
    var written := Publish(WriteLocal(created, n, Suspect, detail), n);
    WrittenSays(created, n, Suspect, detail);
    assert MarkSuspect(s, n, detail) == EnsureSuspectTimer(written, n, detail);
    ArmedSays(written, n, detail);
    MarkSuspectInv(s, n, detail);
    TimersOf(MarkSuspect(s, n, detail), n);
  }

  /** A finished entry that is not dead is published as it is. */
  lemma EmitSays(w: State, n: NodeId)
    requires Ready(w, n) && w.entries[n].status != Dead
    ensures var later := Emit(w, n);
      && Inv(later) && later.entries == w.entries && later.armed == w.armed && later.channels == w.channels
      && Shows(later, n, w.entries[n].status)
      && later.log == w.log + [Emitted(n, VerdictOf(w.entries[n]))]
      && OthersUntouched(w, later, n)
  {
    EmitFrame(w, n);
    PublishWriting(w, n);
  }

  lemma EmitDies(w: State, n: NodeId)
    requires Ready(w, n) && w.entries[n].status == Dead
    ensures Dies(w, Emit(w, n), n, w.entries[n].incarnation, w.entries[n].source, w.entries[n].detail)
  {
    EmitFrame(w, n);
    PublishWriting(w, n);
    var published := Publish(w, n);
    TimersOf(published, n);
    if n in w.channels {
      ClosedInv(published, n);
      SuspectSays(published.(channels := published.channels - {n}), n, Some(DEAD_REASON));
    }
  }

  lemma DiesFrom(s: State, w: State, later: State, n: NodeId, incarnation: int, source: Source, detail: Option<string>)
    requires Dies(w, later, n, incarnation, source, detail) && OthersUntouched(s, w, n)
    requires w.log == s.log && (n in w.channels <==> n in s.channels) && LastAliveOf(w, n) == LastAliveOf(s, n)
    ensures Dies(s, later, n, incarnation, source, detail)
  {
    FrameChains(s, w, later, n);
  }

  // ---- Local verdicts ----

  /** A sign of life: the peer is alive, in store and view, as of now, and nothing is counting down for it. */
  lemma AliveMeans(s: State, n: NodeId, detail: Option<string>)
    requires Inv(s) && Known(s, n)
    ensures var later := MarkAlive(s, n, detail);
      var already := Stands(s, n, Alive, Local);
      && Shows(later, n, Alive)
      && Says(later, n, IncarnationOf(s, n) + (if already then 0 else 1), Local, Some(s.now), detail)
      && NoTimer(later, n)
      && (n in later.channels <==> n in s.channels)
      && later.log == (if already then s.log else s.log + [Emitted(n, Verdict(IncarnationOf(s, n) + 1, 1))])
      && OthersUntouched(s, later, n)
  {
    assert Settled(s, n);
    var created := GetOrCreate(s, n);
    CreateFrame(s, n);
    CreatedWriting(s, n);
    if Stands(s, n, Alive, Local) {
      MarkAliveInv(s, n, detail);
      TimersOf(MarkAlive(s, n, detail), n);
    } else {
      var w := WriteLocal(created, n, Alive, detail);
      WriteLocalFrame(created, n, Alive, detail);
      WriteLocalWriting(created, n, Alive, detail);
      EmitSays(w, n);
      TimersOf(Emit(w, n), n);
      FrameChains(s, created, w, n);
      FrameChains(s, w, Emit(w, n), n);
    }
  }

  /**
   A suspicion: a peer that is not already suspected locally becomes suspect one incarnation up and has
   the whole timeout ahead of it; one that is keeps incarnation and timer.
   */
  lemma SuspectMeans(s: State, n: NodeId, detail: Option<string>)
    requires Inv(s) && Known(s, n)
    ensures var later := MarkSuspect(s, n, detail);
      var already := Stands(s, n, Suspect, Local);
      && Shows(later, n, Suspect)
      && Says(later, n, IncarnationOf(s, n) + (if already then 0 else 1), Local, LastAliveOf(s, n), detail)
      && (already ==> later.armed == s.armed && later.entries[n].deadTimer == s.entries[n].deadTimer)
      && (!already ==> TimerUntil(later, n, s.now + s.suspectTimeoutMs))
      && (n in later.channels <==> n in s.channels)
      && later.log == (if already then s.log else s.log + [Emitted(n, Verdict(IncarnationOf(s, n) + 1, 2))])
      && OthersUntouched(s, later, n)
  {
    assert Settled(s, n);
    SuspectFrame(s, n, detail);
    if !Stands(s, n, Suspect, Local) { SuspectSays(s, n, detail); }
  }

  /** Losing the channel to a peer is a suspicion; without a channel nothing happens. */
  lemma DisconnectMeans(s: State, n: NodeId, reason: string)
    requires Inv(s)
    ensures n !in s.channels ==> DisconnectPeer(s, n, reason) == s
    ensures n in s.channels && Known(s, n) ==>
      var later := DisconnectPeer(s, n, reason);
      var already := Stands(s, n, Suspect, Local);
      && n !in later.channels
      && Shows(later, n, Suspect)
      && Says(later, n, IncarnationOf(s, n) + (if already then 0 else 1), Local, LastAliveOf(s, n), Some(reason))
      && (already ==> later.armed == s.armed)
      && (!already ==> TimerUntil(later, n, s.now + s.suspectTimeoutMs))
      && OthersUntouched(s, later, n)
    ensures n in s.channels && !Known(s, n) ==> DisconnectPeer(s, n, reason) == s.(channels := s.channels - {n})
  {
    if n in s.channels && Known(s, n) {
      var closed := s.(channels := s.channels - {n});
      ClosedInv(s, n);
      SuspectMeans(closed, n, Some(reason));
      FrameChains(s, closed, MarkSuspect(closed, n, Some(reason)), n);
    }
  }

  lemma WritesDead(s: State, n: NodeId, detail: Option<string>)
    requires Writing(s, n) && Known(s, n)
    ensures Dies(s, Emit(WriteLocal(s, n, Dead, detail), n), n, s.entries[n].incarnation + 1, Local, detail)
  {
    var w := WriteLocal(s, n, Dead, detail);
    WriteLocalWriting(s, n, Dead, detail);
    WriteLocalFrame(s, n, Dead, detail);
    EmitDies(w, n);
    DiesFrom(s, w, Emit(w, n), n, s.entries[n].incarnation + 1, Local, detail);
  }

  lemma DiesFirst(s: State, n: NodeId, detail: Option<string>)
    requires Inv(s) && Known(s, n)
    ensures Dies(s, Emit(WriteLocal(GetOrCreate(s, n), n, Dead, detail), n), n, IncarnationOf(s, n) + 1, Local, detail)
  {
    var created := GetOrCreate(s, n);
    CreatedWriting(s, n);
    CreateFrame(s, n);
    WritesDead(created, n, detail);
    DiesFrom(s, created, Emit(WriteLocal(created, n, Dead, detail), n), n, IncarnationOf(s, n) + 1, Local, detail);
  }

  lemma DeadMeans(s: State, n: NodeId, detail: Option<string>)
    requires Inv(s) && Known(s, n)
    ensures var later := MarkDead(s, n, detail);
      if Stands(s, n, Dead, Local) && s.entries[n].detail == detail then later == s
      else Dies(s, later, n, IncarnationOf(s, n) + 1, Local, detail)
  {
    DiesFirst(s, n, detail);
  }

  /** Peers outside the topology are never given a verdict. */
  lemma UnknownPeerIgnored(s: State, n: NodeId, detail: Option<string>, rumor: Rumor, reporter: NodeId)
    requires !Known(s, n) && rumor.nodeId == n
    ensures MarkAlive(s, n, detail) == MarkSuspect(s, n, detail) == MarkDead(s, n, detail) == ApplyRumor(s, rumor, reporter) == s
  {
  }

  // ---- The timer ----

  lemma DisarmedWriting(s: State, timer: nat)
    requires Inv(s) && timer in s.armed
    ensures var n := s.armed[timer].nodeId;
      n in s.entries && Known(s, n) &&
      var disarmed := s.(armed := s.armed - {timer}, entries := s.entries[n := s.entries[n].(deadTimer := None)]);
      Writing(disarmed, n) && OthersUntouched(s, disarmed, n)
  {
    var n := s.armed[timer].nodeId;
    assert Settled(s, n);
    var disarmed := s.(armed := s.armed - {timer}, entries := s.entries[n := s.entries[n].(deadTimer := None)]);
    forall m | m != n ensures Settled(disarmed, m) { assert Settled(s, m); }
  }

  /** Why the peer was suspected, if anyone said. */
  ghost function TimeoutDetail(s: State, timer: nat): Option<string>
    requires timer in s.armed
  {
    if s.armed[timer].detail.Some? then s.armed[timer].detail else Some("suspect_timeout")
  }

  /** A dead timer that runs out makes its suspect peer dead; it never finds the peer in another state. */
  lemma TimerMeans(s: State, timer: nat)
    requires Inv(s) && timer in s.armed
    ensures var n := s.armed[timer].nodeId;
      && Shows(s, n, Suspect) && s.entries[n].deadTimer == Some(timer)
      && Dies(s, FireTimer(s, timer), n, IncarnationOf(s, n) + 1, Local, TimeoutDetail(s, timer))
  {
    var n := s.armed[timer].nodeId;
    assert Settled(s, n);
    var disarmed := s.(armed := s.armed - {timer}, entries := s.entries[n := s.entries[n].(deadTimer := None)]);
    DisarmedWriting(s, timer);
    WritesDead(disarmed, n, Some(s.armed[timer].detail.GetOr("suspect_timeout")));
    DiesFrom(s, disarmed, FireTimer(s, timer), n, IncarnationOf(s, n) + 1, Local, Some(s.armed[timer].detail.GetOr("suspect_timeout")));
  }

  /** It runs out no earlier than its deadline, and from then on whenever its turn comes. */
  lemma TimerRunsOutWhenDue(s: State, timer: nat)
    requires Inv(s) && timer in s.armed
    ensures s.now < s.armed[timer].deadline ==> Step(s, TimerEvent(timer)) == s
    ensures s.now >= s.armed[timer].deadline ==>
      var n := s.armed[timer].nodeId;
      Dies(s, Step(s, TimerEvent(timer)), n, IncarnationOf(s, n) + 1, Local, TimeoutDetail(s, timer))
  {
    TimerMeans(s, timer);
  }

  // ---- Rumors ----

  /** News about the peer: the first about it, a later incarnation, or a worse verdict on the incarnation learnt from others. */
  ghost predicate IsNews(s: State, r: Rumor) {
    || r.nodeId !in s.entries
    || r.incarnation > s.entries[r.nodeId].incarnation
    || (&& r.incarnation == s.entries[r.nodeId].incarnation && s.entries[r.nodeId].source == Remote
        && (s.entries[r.nodeId].status, r.status) in {(Alive, Suspect), (Alive, Dead), (Suspect, Dead)})
  }

  /** When the peer was last alive, after taking a rumor: alive rumors bring their own time, or else the known one, or now. */
  ghost function LastAliveAfter(s: State, r: Rumor): Option<int> {
    if r.status != Alive then LastAliveOf(s, r.nodeId)
    else if r.lastAliveAt.Some? then r.lastAliveAt
    else if LastAliveOf(s, r.nodeId).Some? then LastAliveOf(s, r.nodeId)
    else Some(s.now)
  }

  ghost predicate Learns(s: State, later: State, r: Rumor, reporter: NodeId) {
    && Shows(later, r.nodeId, r.status)
    && Says(later, r.nodeId, r.incarnation, Remote, LastAliveAfter(s, r), Some("gossip:" + reporter))
    && (if r.status == Suspect then TimerUntil(later, r.nodeId, s.now + s.suspectTimeoutMs) else NoTimer(later, r.nodeId))
    && (r.nodeId in later.channels <==> r.nodeId in s.channels)
    && later.log == s.log + [Emitted(r.nodeId, Verdict(r.incarnation, Rank(r.status)))]
    && OthersUntouched(s, later, r.nodeId)
  }

  ghost function Taken(s: State, r: Rumor, reporter: NodeId): State
    requires r.nodeId in s.entries
  {
    var w := WriteRumor(s, r, reporter);
    if r.status == Suspect then EnsureSuspectTimer(w, r.nodeId, w.entries[r.nodeId].detail) else w
  }

  lemma TakenReady(s: State, r: Rumor, reporter: NodeId)
    requires Writing(s, r.nodeId) && WellFormedRumor(r) && Known(s, r.nodeId)
    ensures var t := Taken(s, r, reporter);
      && Ready(t, r.nodeId) && OthersUntouched(s, t, r.nodeId)
      && t.channels == s.channels && t.log == s.log
      && t.entries[r.nodeId].status == r.status
      && Says(t, r.nodeId, r.incarnation, Remote, LastAliveAfter(s, r), Some("gossip:" + reporter))
      && (r.status == Suspect ==>
            && t.entries[r.nodeId].deadTimer.value in t.armed
            && t.armed[t.entries[r.nodeId].deadTimer.value].deadline == s.now + s.suspectTimeoutMs)
  {
    var n := r.nodeId;
    var w := WriteRumor(s, r, reporter);
    WriteRumorWriting(s, r, reporter);
    WriteRumorFrame(s, r, reporter);
    ArmWriting(w, n, w.entries[n].detail);
    ArmFrame(w, n, w.entries[n].detail);
    FrameChains(s, w, EnsureSuspectTimer(w, n, w.entries[n].detail), n);
  }

  lemma WritesNews(s: State, r: Rumor, reporter: NodeId)
    requires Writing(s, r.nodeId) && WellFormedRumor(r) && Known(s, r.nodeId)
    ensures var later := Emit(Taken(s, r, reporter), r.nodeId);
      && (r.status != Dead ==> Learns(s, later, r, reporter))
      && (r.status == Dead ==> Dies(s, later, r.nodeId, r.incarnation, Remote, Some("gossip:" + reporter)))
  {
    var t := Taken(s, r, reporter);
    TakenReady(s, r, reporter);
    if r.status == Dead {
      EmitDies(t, r.nodeId);
      DiesFrom(s, t, Emit(t, r.nodeId), r.nodeId, r.incarnation, Remote, Some("gossip:" + reporter));
    } else {
      EmitSays(t, r.nodeId);
      TimersOf(Emit(t, r.nodeId), r.nodeId);
      FrameChains(s, t, Emit(t, r.nodeId), r.nodeId);
    }
  }

  /** News is taken over as told; only a death told while a channel is open turns into a fresh local suspicion. */
  lemma NewsMeans(s: State, r: Rumor, reporter: NodeId)
    requires Inv(s) && WellFormedRumor(r) && Known(s, r.nodeId) && IsNews(s, r)
    ensures var later := ApplyRumor(s, r, reporter);
      && (r.status != Dead ==> Learns(s, later, r, reporter))
      && (r.status == Dead ==> Dies(s, later, r.nodeId, r.incarnation, Remote, Some("gossip:" + reporter)))
  {
    assert Settled(s, r.nodeId);
    var n := r.nodeId;
    var created := GetOrCreate(s, n);
    CreateFrame(s, n);
    CreatedWriting(s, n);
    WritesNews(created, r, reporter);
    if r.status == Dead {
      DiesFrom(s, created, ApplyRumor(s, r, reporter), n, r.incarnation, Remote, Some("gossip:" + reporter));
    } else {
      FrameChains(s, created, ApplyRumor(s, r, reporter), n);
    }
  }

  /** Old news changes no verdict; it may bring a later time of life for the status that stands, which makes the entry remote. */
  lemma OldNewsMeans(s: State, r: Rumor, reporter: NodeId)
    requires Inv(s) && WellFormedRumor(r) && Known(s, r.nodeId) && !IsNews(s, r)
    ensures var later := ApplyRumor(s, r, reporter);
      var e := s.entries[r.nodeId];
      var brings := r.status == e.status && r.lastAliveAt.Some?
        && (if e.lastAliveAt.Some? then r.lastAliveAt.value > e.lastAliveAt.value else r.lastAliveAt.value > 0);
      && (!brings ==> later == s)
      && (brings ==>
            && Shows(later, r.nodeId, e.status)
            && Says(later, r.nodeId, e.incarnation, Remote, r.lastAliveAt, Some("gossip:" + reporter))
            && later.log == s.log && later.armed == s.armed && later.entries[r.nodeId].deadTimer == e.deadTimer
            && (r.nodeId in later.channels <==> r.nodeId in s.channels)
            && OthersUntouched(s, later, r.nodeId))
  {
    assert Settled(s, r.nodeId);
  }

  // ---- The topology ----

  /** A topology change forgets exactly the peers outside it: entry, view, channel and running timer. */
  lemma TopologyMeans(s: State, peers: set<NodeId>, n: NodeId)
    requires Inv(s)
    ensures var later := TopologyChanged(s, peers);
      && (Known(later, n) <==> n in peers)
      && (n in peers ==> Untouched(s, later, n))
      && (n !in peers ==> n !in later.entries && n !in later.view && n !in later.channels
                          && !exists timer :: Names(later, timer, n))
  {
    var later := TopologyChanged(s, peers);
    if n in peers {
      forall timer | Names(s, timer, n) ensures timer in later.armed {
        assert s.entries[n].deadTimer == Some(timer);
      }
    }
  }
}
