/**
 Whole runs of the peer-health store: verdicts only climb while an entry lives, every snapshot
 handed out is strictly above the one before it, a rumor is taken at most once, and suspicion
 repeated locally does not push the dead deadline back.
 */
module PeerHealthRuns {
  import opened Prelude
  import opened PeerHealth

  /** What an observer of the store sees: the emissions so far and the current verdicts. */
  datatype Trace = Trace(log: seq<Emission>, verdicts: map<NodeId, Verdict>)

  ghost function TraceOf(s: State): Trace {
    Trace(s.log, map n | n in s.entries :: VerdictOf(s.entries[n]))
  }

  /** One strictly rising emission about `n`. */
  ghost predicate Raises(a: Trace, b: Trace, n: NodeId, v: Verdict) {
    && (n in a.verdicts ==> Below(a.verdicts[n], v))
    && b == Trace(a.log + [Emitted(n, v)], a.verdicts[n := v])
  }

  ghost predicate Forgets(a: Trace, b: Trace, kept: set<NodeId>) {
    && b.log == a.log + [Forgot(kept)]
    && b.verdicts.Keys == a.verdicts.Keys * kept
    && forall n :: n in b.verdicts ==> b.verdicts[n] == a.verdicts[n]
  }

  ghost predicate RaiseStep(a: Trace, b: Trace) {
    a == b || exists n, v :: Raises(a, b, n, v)
  }

  /** At most two rising emissions. */
  ghost predicate TraceStep(a: Trace, b: Trace) {
    exists mid :: RaiseStep(a, mid) && RaiseStep(mid, b)
  }

  // ---- Every operation is at most two rising emissions ----

  lemma PublishRaises(s: State, w: State, n: NodeId)
    requires n in w.entries && w.log == s.log
    requires n in s.entries ==> Below(VerdictOf(s.entries[n]), VerdictOf(w.entries[n]))
    requires forall m :: m != n ==> (m in w.entries <==> m in s.entries)
    requires forall m :: m != n && m in s.entries ==> VerdictOf(w.entries[m]) == VerdictOf(s.entries[m])
    ensures RaiseStep(TraceOf(s), TraceOf(Publish(w, n)))
  {
    assert Raises(TraceOf(s), TraceOf(Publish(w, n)), n, VerdictOf(w.entries[n]));
  }

  lemma ArmTrace(s: State, n: NodeId, detail: Option<string>)
    ensures TraceOf(EnsureSuspectTimer(s, n, detail)) == TraceOf(s)
  {
    var a := EnsureSuspectTimer(s, n, detail);
    assert a.entries.Keys == s.entries.Keys;
  }

  lemma MarkSuspectAtomic(s: State, n: NodeId, detail: Option<string>)
    requires Inv(s)
    ensures RaiseStep(TraceOf(s), TraceOf(MarkSuspect(s, n, detail)))
  {
    if !IsUnknownPeer(s, n) {
      var created := GetOrCreate(s, n);
      var e := created.entries[n];
      assert Settled(s, n);
      if e.status == Suspect && e.source == Local {
        var refreshed := created.(entries := created.entries[n := e.(detail := detail)]);
        assert TraceOf(refreshed) == TraceOf(s);
        ArmTrace(refreshed, n, detail);
      } else {
        CreatedWriting(s, n);
        WriteLocalWriting(created, n, Suspect, detail);
        var w := WriteLocal(created, n, Suspect, detail);
        PublishRaises(s, w, n);
        ArmTrace(Publish(w, n), n, detail);
      }
    }
  }

  lemma DisconnectAtomic(s: State, n: NodeId, reason: string)
    requires Inv(s)
    ensures RaiseStep(TraceOf(s), TraceOf(DisconnectPeer(s, n, reason)))
  {
    var closed := s.(channels := s.channels - {n});
    assert Inv(closed) by {
      forall m ensures Settled(closed, m) { assert Settled(s, m); }
    }
    MarkSuspectAtomic(closed, n, Some(reason));
    assert TraceOf(closed) == TraceOf(s);
  }

  lemma EmitTraceStep(s: State, w: State, n: NodeId)
    requires Writing(w, n) && w.log == s.log
    requires w.entries[n].status != Unknown && w.entries[n].incarnation >= 1
    requires w.entries[n].deadTimer.Some? <==> w.entries[n].status == Suspect
    requires n in s.entries ==> Below(VerdictOf(s.entries[n]), VerdictOf(w.entries[n]))
    requires forall m :: m != n ==> (m in w.entries <==> m in s.entries)
    requires forall m :: m != n && m in s.entries ==> VerdictOf(w.entries[m]) == VerdictOf(s.entries[m])
    ensures TraceStep(TraceOf(s), TraceOf(Emit(w, n)))
  {
    PublishRaises(s, w, n);
    PublishWriting(w, n);
    DisconnectAtomic(Publish(w, n), n, DEAD_REASON);
    assert RaiseStep(TraceOf(Publish(w, n)), TraceOf(Emit(w, n)));
  }

  lemma SelfStep(a: Trace, b: Trace)
    requires RaiseStep(a, b)
    ensures TraceStep(a, b)
  {
    assert RaiseStep(b, b);
  }

  lemma LocalTraceStep(s: State, base: State, n: NodeId, status: Status, detail: Option<string>)
    requires Writing(base, n) && status in {Alive, Dead} && base.log == s.log
    requires n in s.entries ==> VerdictOf(s.entries[n]) == VerdictOf(base.entries[n])
    requires forall m :: m != n ==> (m in base.entries <==> m in s.entries)
    requires forall m :: m != n && m in s.entries ==> VerdictOf(base.entries[m]) == VerdictOf(s.entries[m])
    ensures TraceStep(TraceOf(s), TraceOf(Emit(WriteLocal(base, n, status, detail), n)))
  {
    WriteLocalWriting(base, n, status, detail);
    EmitTraceStep(s, WriteLocal(base, n, status, detail), n);
  }

  lemma MarkAliveTrace(s: State, n: NodeId, detail: Option<string>)
    requires Inv(s)
    ensures TraceStep(TraceOf(s), TraceOf(MarkAlive(s, n, detail)))
  {
    if IsUnknownPeer(s, n) {
      SelfStep(TraceOf(s), TraceOf(s));
    } else {
      var created := GetOrCreate(s, n);
      CreatedWriting(s, n);
      if created.entries[n].status == Alive && created.entries[n].source == Local {
        assert TraceOf(MarkAlive(s, n, detail)) == TraceOf(s);
        SelfStep(TraceOf(s), TraceOf(s));
      } else {
        LocalTraceStep(s, created, n, Alive, detail);
      }
    }
  }

  lemma MarkDeadTrace(s: State, n: NodeId, detail: Option<string>)
    requires Inv(s)
    ensures TraceStep(TraceOf(s), TraceOf(MarkDead(s, n, detail)))
  {
    if IsUnknownPeer(s, n) {
      SelfStep(TraceOf(s), TraceOf(s));
    } else {
      var created := GetOrCreate(s, n);
      CreatedWriting(s, n);
      var e := created.entries[n];
      if e.status == Dead && e.source == Local && e.detail == detail {
        SelfStep(TraceOf(s), TraceOf(s));
      } else {
        LocalTraceStep(s, created, n, Dead, detail);
      }
    }
  }

  lemma ApplyRumorTrace(s: State, rumor: Rumor, reportedBy: NodeId)
    requires Inv(s) && WellFormedRumor(rumor)
    ensures TraceStep(TraceOf(s), TraceOf(ApplyRumor(s, rumor, reportedBy)))
  {
    var n := rumor.nodeId;
    if IsUnknownPeer(s, n) {
      SelfStep(TraceOf(s), TraceOf(s));
    } else {
      var created := GetOrCreate(s, n);
      CreatedWriting(s, n);
      assert Settled(s, n);
      if !ShouldApplyRumor(created.entries[n], rumor) {
        assert TraceOf(ApplyRumor(s, rumor, reportedBy)) == TraceOf(s);
        SelfStep(TraceOf(s), TraceOf(s));
      } else {
        WriteRumorWriting(created, rumor, reportedBy);
        var written := WriteRumor(created, rumor, reportedBy);
        if rumor.status == Suspect {
          ArmWriting(written, n, written.entries[n].detail);
          EmitTraceStep(s, EnsureSuspectTimer(written, n, written.entries[n].detail), n);
        } else {
          EmitTraceStep(s, written, n);
        }
      }
    }
  }

  lemma FireTimerTrace(s: State, timer: nat)
    requires Inv(s) && timer in s.armed
    ensures TraceStep(TraceOf(s), TraceOf(FireTimer(s, timer)))
  {
    var n := s.armed[timer].nodeId;
    assert Settled(s, n);
    var disarmed := s.(armed := s.armed - {timer}, entries := s.entries[n := s.entries[n].(deadTimer := None)]);
    assert Writing(disarmed, n) by {
      forall m | m != n ensures Settled(disarmed, m) { assert Settled(s, m); }
    }
    LocalTraceStep(s, disarmed, n, Dead, Some(s.armed[timer].detail.GetOr("suspect_timeout")));
  }

  lemma StepTrace(s: State, event: Event)
    requires Inv(s) && WellFormedEvent(event)
    ensures if event.TopologyEvent? then Forgets(TraceOf(s), TraceOf(Step(s, event)), event.peers)
            else TraceStep(TraceOf(s), TraceOf(Step(s, event)))
  {
    var a, b := TraceOf(s), TraceOf(Step(s, event));
    match event
    case AliveEvent(n, detail) => MarkAliveTrace(s, n, detail);
    case SuspectEvent(n, detail) => MarkSuspectAtomic(s, n, detail); SelfStep(a, b);
    case DeadEvent(n, detail) => MarkDeadTrace(s, n, detail);
    case RumorEvent(rumor, reporter) => ApplyRumorTrace(s, rumor, reporter);
    case TimerEvent(t) =>
      if t in s.armed && s.armed[t].deadline <= s.now { FireTimerTrace(s, t); } else { SelfStep(a, b); }
    case TopologyEvent(_) =>
    case DisconnectEvent(n, reason) => DisconnectAtomic(s, n, reason); SelfStep(a, b);
    case _ => SelfStep(a, b);
  }

  // ---- The emission log ----

  ghost predicate ForgottenBetween(log: seq<Emission>, i: int, j: int, n: NodeId) {
    exists k :: i < k < j && 0 <= k < |log| && log[k].Forgot? && n !in log[k].kept
  }

  /** Two emissions about one peer with no forgetting of it in between. */
  ghost predicate SameLife(log: seq<Emission>, i: nat, j: nat)
    requires i < j < |log|
  {
    && log[i].Emitted? && log[j].Emitted? && log[i].nodeId == log[j].nodeId
    && !ForgottenBetween(log, i, j, log[i].nodeId)
  }

  /**
   Within one lifetime of an entry every emitted verdict is strictly above the earlier ones, and
   the entry itself is at least the last of them.
   */
  ghost predicate LogRises(t: Trace) {
    && (forall i :: 0 <= i < |t.log| && t.log[i].Emitted? && !ForgottenBetween(t.log, i, |t.log|, t.log[i].nodeId) ==>
          t.log[i].nodeId in t.verdicts && AtMost(t.log[i].verdict, t.verdicts[t.log[i].nodeId]))
    && (forall i, j | 0 <= i < j < |t.log| && SameLife(t.log, i, j) :: Below(t.log[i].verdict, t.log[j].verdict))
  }

  lemma ForgottenExtends(log: seq<Emission>, item: Emission, i: int, j: int, n: NodeId)
    requires j <= |log|
    ensures ForgottenBetween(log + [item], i, j, n) <==> ForgottenBetween(log, i, j, n)
  {
    if ForgottenBetween(log, i, j, n) {
      var k :| i < k < j && 0 <= k < |log| && log[k].Forgot? && n !in log[k].kept;
      assert (log + [item])[k] == log[k];
    }
    if ForgottenBetween(log + [item], i, j, n) {
      var k :| i < k < j && 0 <= k < |log + [item]| && (log + [item])[k].Forgot? && n !in (log + [item])[k].kept;
      assert log[k] == (log + [item])[k];
    }
  }

  lemma ForgottenToEnd(log: seq<Emission>, item: Emission, i: int, n: NodeId)
    requires i < |log|
    ensures ForgottenBetween(log + [item], i, |log| + 1, n)
       <==> ForgottenBetween(log, i, |log|, n) || (item.Forgot? && n !in item.kept)
  {
    ForgottenExtends(log, item, i, |log|, n);
    var longer := log + [item];
    if ForgottenBetween(longer, i, |log|, n) {
      var k :| i < k < |log| && 0 <= k < |longer| && longer[k].Forgot? && n !in longer[k].kept;
      assert i < k < |log| + 1;
    }
    if item.Forgot? && n !in item.kept {
      assert longer[|log|] == item;
    }
  }

  lemma LogExtends(a: Trace, b: Trace, item: Emission)
    requires LogRises(a) && b.log == a.log + [item]
    requires (item.Emitted? && Raises(a, b, item.nodeId, item.verdict)) || (item.Forgot? && Forgets(a, b, item.kept))
    ensures LogRises(b)
  {
    forall i | 0 <= i < |b.log| && b.log[i].Emitted? && !ForgottenBetween(b.log, i, |b.log|, b.log[i].nodeId)
      ensures b.log[i].nodeId in b.verdicts && AtMost(b.log[i].verdict, b.verdicts[b.log[i].nodeId])
    {
      if i < |a.log| { ForgottenToEnd(a.log, item, i, b.log[i].nodeId); }
    }
    forall i, j | 0 <= i < j < |b.log| && SameLife(b.log, i, j) ensures Below(b.log[i].verdict, b.log[j].verdict) {
      ForgottenExtends(a.log, item, i, j, b.log[i].nodeId);
      if j < |a.log| {
        assert SameLife(a.log, i, j);
      } else {
        assert b.log[i].nodeId in a.verdicts && AtMost(a.log[i].verdict, a.verdicts[b.log[i].nodeId]);
      }
    }
  }

  lemma RaiseLog(a: Trace, b: Trace)
    requires LogRises(a) && RaiseStep(a, b)
    ensures LogRises(b)
  {
    if a != b {
      var n, v :| Raises(a, b, n, v);
      LogExtends(a, b, Emitted(n, v));
    }
  }

  /** Every run keeps the log rising, whatever it does in between. */
  lemma {:induction false} RunLog(s: State, events: seq<Event>)
    requires Inv(s) && LogRises(TraceOf(s))
    requires forall event :: event in events ==> WellFormedEvent(event)
    ensures LogRises(TraceOf(Run(s, events)))
    decreases |events|
  {
    if events != [] {
      var event := events[0];
      var a, b := TraceOf(s), TraceOf(Step(s, event));
      StepTrace(s, event);
      if event.TopologyEvent? {
        LogExtends(a, b, Forgot(event.peers));
      } else {
        var mid :| RaiseStep(a, mid) && RaiseStep(mid, b);
        RaiseLog(a, mid);
        RaiseLog(mid, b);
      }
      StepInv(s, event);
      RunLog(Step(s, event), events[1..]);
    }
  }

  // ---- Growth while an entry lives ----

  ghost predicate Keeps(event: Event, n: NodeId) {
    event.TopologyEvent? ==> n in event.peers
  }

  ghost predicate Grown(s: State, later: State, n: NodeId) {
    n in s.entries ==> n in later.entries && AtMost(VerdictOf(s.entries[n]), VerdictOf(later.entries[n]))
  }

  lemma StepGrows(s: State, event: Event, n: NodeId)
    requires Inv(s) && WellFormedEvent(event) && Keeps(event, n)
    ensures Grown(s, Step(s, event), n)
  {
    var a, b := TraceOf(s), TraceOf(Step(s, event));
    StepTrace(s, event);
    if n in s.entries && !event.TopologyEvent? {
      var mid :| RaiseStep(a, mid) && RaiseStep(mid, b);
      assert n in mid.verdicts && AtMost(a.verdicts[n], mid.verdicts[n]);
      assert n in b.verdicts && AtMost(mid.verdicts[n], b.verdicts[n]);
    }
  }

  /** As long as no topology change drops the peer, its verdict never goes down. */
  lemma {:induction false} RunGrows(s: State, events: seq<Event>, n: NodeId)
    requires Inv(s) && forall event :: event in events ==> WellFormedEvent(event) && Keeps(event, n)
    ensures Grown(s, Run(s, events), n)
    decreases |events|
  {
    if events != [] {
      StepGrows(s, events[0], n);
      StepInv(s, events[0]);
      RunGrows(Step(s, events[0]), events[1..], n);
    }
  }

  /**
   A rumor is taken, and so re-broadcast, at most once per lifetime of an entry: once applied, no
   run that keeps the peer makes the store willing to apply it again.
   */
  lemma RumorTakenOnce(s: State, rumor: Rumor, reportedBy: NodeId, events: seq<Event>)
    requires Inv(s) && WellFormedRumor(rumor) && !IsUnknownPeer(s, rumor.nodeId)
    requires rumor.nodeId in s.entries ==> ShouldApplyRumor(s.entries[rumor.nodeId], rumor)
    requires forall event :: event in events ==> WellFormedEvent(event) && Keeps(event, rumor.nodeId)
    ensures var later := Run(ApplyRumor(s, rumor, reportedBy), events);
      && rumor.nodeId in later.entries
      && AtMost(RumorVerdict(rumor), VerdictOf(later.entries[rumor.nodeId]))
      && !ShouldApplyRumor(later.entries[rumor.nodeId], rumor)
  {
    var n := rumor.nodeId;
    var applied := ApplyRumor(s, rumor, reportedBy);
    RumorTaken(s, rumor, reportedBy);
    ApplyRumorInv(s, rumor, reportedBy);
    RunGrows(applied, events, n);
    RunInv(applied, events);
    assert Settled(Run(applied, events), n);
  }

  lemma RumorTaken(s: State, rumor: Rumor, reportedBy: NodeId)
    requires Inv(s) && WellFormedRumor(rumor) && !IsUnknownPeer(s, rumor.nodeId)
    requires rumor.nodeId in s.entries ==> ShouldApplyRumor(s.entries[rumor.nodeId], rumor)
    ensures var applied := ApplyRumor(s, rumor, reportedBy);
      rumor.nodeId in applied.entries && AtMost(RumorVerdict(rumor), VerdictOf(applied.entries[rumor.nodeId]))
  {
    var n := rumor.nodeId;
    var created := GetOrCreate(s, n);
    CreatedWriting(s, n);
    WriteRumorWriting(created, rumor, reportedBy);
    var written := WriteRumor(created, rumor, reportedBy);
    var timed := if rumor.status == Suspect then EnsureSuspectTimer(written, n, written.entries[n].detail) else written;
    ArmWriting(written, n, written.entries[n].detail);
    PublishWriting(timed, n);
    var published := Publish(timed, n);
    DisconnectAtomic(published, n, DEAD_REASON);
    assert n in TraceOf(published).verdicts;
    assert n in TraceOf(DisconnectPeer(published, n, DEAD_REASON)).verdicts;
  }

  // ---- The dead deadline ----

  /**
   Suspecting a peer that is already suspected keeps the running dead timer exactly when the
   standing suspicion is local; a suspicion learnt from gossip is restarted.
   */
  lemma SuspicionKeepsTimer(s: State, n: NodeId, detail: Option<string>)
    requires Inv(s) && n in s.entries && s.entries[n].status == Suspect
    ensures var later := MarkSuspect(s, n, detail);
      && n in later.entries && later.entries[n].status == Suspect
      && (later.entries[n].deadTimer == s.entries[n].deadTimer <==> s.entries[n].source == Local)
      && (s.entries[n].source == Local ==> later.armed == s.armed && later.entries[n].source == Local)
      && (s.entries[n].source == Remote ==>
            && later.entries[n].deadTimer.Some?
            && later.entries[n].deadTimer.value in later.armed
            && later.armed[later.entries[n].deadTimer.value].deadline == s.now + s.suspectTimeoutMs)
  {
    assert Settled(s, n);
  }

  ghost predicate OnlySuspicion(event: Event, n: NodeId) {
    (event.SuspectEvent? && event.nodeId == n) || event.TimePasses?
  }

  /** However often a peer is suspected locally while time passes, its dead deadline does not move. */
  lemma {:induction false} RepeatedSuspicionKeepsDeadline(s: State, events: seq<Event>, n: NodeId)
    requires Inv(s) && n in s.entries && s.entries[n].status == Suspect && s.entries[n].source == Local
    requires forall event :: event in events ==> OnlySuspicion(event, n)
    ensures var later := Run(s, events);
      && later.armed == s.armed
      && n in later.entries && later.entries[n].status == Suspect
      && later.entries[n].deadTimer == s.entries[n].deadTimer
    decreases |events|
  {
    if events != [] {
      assert OnlySuspicion(events[0], n);
      if events[0].SuspectEvent? { SuspicionKeepsTimer(s, n, events[0].detail); }
      StepInv(s, events[0]);
      RepeatedSuspicionKeepsDeadline(Step(s, events[0]), events[1..], n);
    }
  }

  // ---- Does a dead verdict stick? ----

  /**
   A newly reached dead verdict stays dead exactly when no channel to the peer is open. With an
   open channel the listener's disconnect turns it into a fresh suspicion, two incarnations up,
   with the channel closed and a new dead timer running.
   */
  lemma DeadSticks(s: State, n: NodeId, detail: Option<string>)
    requires Inv(s) && n in s.entries && s.entries[n].status != Dead
    ensures var later := MarkDead(s, n, detail);
      && n in later.entries
      && n !in later.channels
      && (later.entries[n].status == Dead <==> n !in s.channels)
      && (n !in s.channels ==> later.entries[n].incarnation == s.entries[n].incarnation + 1)
      && (n in s.channels ==>
            && later.entries[n].status == Suspect
            && later.entries[n].incarnation == s.entries[n].incarnation + 2
            && later.entries[n].deadTimer.Some?)
  {
    assert Settled(s, n);
    var w := WriteLocal(s, n, Dead, detail);
    assert Emit(w, n) == DisconnectPeer(Publish(w, n), n, DEAD_REASON);
  }

  /** When the bounced suspicion's timer fires with the channel still closed, the peer is dead, in store and view. */
  lemma SecondTimeoutSticks(s: State, timer: nat)
    requires Inv(s) && timer in s.armed && s.armed[timer].nodeId !in s.channels
    ensures var n := s.armed[timer].nodeId;
      var later := FireTimer(s, timer);
      && n in later.entries && later.entries[n].status == Dead
      && n in later.view && later.view[n] == Dead
      && later.armed == s.armed - {timer}
  {
    assert Settled(s, s.armed[timer].nodeId);
  }
}
