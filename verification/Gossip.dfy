/**
 Gossip between stores (src/runtime/cluster/health.ts): exactly when hearing rumors amounts to taking
 their join, and exactly when stores that heard the same rumors agree.
 */
module Gossip {
  import opened Prelude
  import opened PeerHealth
  import opened PeerHealthRuns
  import opened Beliefs

  /** Rumors handed to a store one after the other. */
  ghost function Feed(s: State, rumors: seq<Rumor>, reportedBy: NodeId): State {
    if rumors == [] then s
    else ApplyRumor(Feed(s, rumors[..|rumors| - 1], reportedBy), rumors[|rumors| - 1], reportedBy)
  }

  /** Well-formed rumors about peers the store knows. */
  ghost predicate Admissible(s: State, rumors: seq<Rumor>) {
    WellFormedList(rumors) && forall r :: r in rumors ==> !IsUnknownPeer(s, r.nodeId)
  }

  ghost predicate SameAbout(a: seq<Rumor>, b: seq<Rumor>, n: NodeId) {
    forall v :: Carries(a, n, v) <==> Carries(b, n, v)
  }

  // ---- A store is one belief per peer ----

  function EntryFor(s: State, n: NodeId): Entry {
    if n in s.entries then s.entries[n] else FRESH
  }

  function BeliefOf(s: State, n: NodeId): Belief {
    var e := EntryFor(s, n);
    Belief(e.status, e.incarnation, e.source, e.lastAliveAt, n in s.channels)
  }

  ghost predicate SameAt(s: State, later: State, m: NodeId) {
    && (m in later.channels <==> m in s.channels)
    && (m in later.entries <==> m in s.entries)
    && (m in s.entries ==> later.entries[m] == s.entries[m])
  }

  lemma WriteOthers(s: State, r: Rumor, reportedBy: NodeId, m: NodeId)
    requires m != r.nodeId
    ensures var created := GetOrCreate(s, r.nodeId);
      SameAt(s, created, m) && SameAt(s, WriteRumor(created, r, reportedBy), m)
  {
  }

  lemma SuspectOthers(s: State, n: NodeId, detail: Option<string>, m: NodeId)
    requires m != n
    ensures SameAt(s, MarkSuspect(s, n, detail), m)
  {
    if !IsUnknownPeer(s, n) {
      var created := GetOrCreate(s, n);
      var noted := created.(entries := created.entries[n := created.entries[n].(detail := detail)]);
      ArmOthers(s, Publish(WriteLocal(created, n, Suspect, detail), n), n, detail, m);
      ArmOthers(s, noted, n, detail, m);
    }
  }

  lemma ArmOthers(s: State, t: State, n: NodeId, detail: Option<string>, m: NodeId)
    requires m != n && SameAt(s, t, m)
    ensures SameAt(s, EnsureSuspectTimer(t, n, detail), m)
  {
  }

  lemma EmitOthers(s: State, n: NodeId, m: NodeId)
    requires m != n && n in s.entries
    ensures SameAt(s, Emit(s, n), m)
  {
    SuspectOthers(Publish(s, n).(channels := s.channels - {n}), n, Some(DEAD_REASON), m);
  }

  /** A rumor touches its own peer only, bounced disconnects included. */
  lemma ApplyRumorOthers(s: State, r: Rumor, reportedBy: NodeId, m: NodeId)
    requires m != r.nodeId
    ensures SameAt(s, ApplyRumor(s, r, reportedBy), m)
  {
    var created := GetOrCreate(s, r.nodeId);
    WriteOthers(s, r, reportedBy, m);
    if !IsUnknownPeer(s, r.nodeId) && ShouldApplyRumor(created.entries[r.nodeId], r) {
      var written := WriteRumor(created, r, reportedBy);
      var armed := EnsureSuspectTimer(written, r.nodeId, written.entries[r.nodeId].detail);
      assert SameAt(written, armed, m);
      EmitOthers(if r.status == Suspect then armed else written, r.nodeId, m);
    }
  }

  lemma ApplyRumorKeeps(s: State, r: Rumor, reportedBy: NodeId)
    ensures ApplyRumor(s, r, reportedBy).known == s.known && ApplyRumor(s, r, reportedBy).now == s.now
  {
    var created := GetOrCreate(s, r.nodeId);
    if !IsUnknownPeer(s, r.nodeId) && ShouldApplyRumor(created.entries[r.nodeId], r) {
      var written := WriteRumor(created, r, reportedBy);
      var armed := EnsureSuspectTimer(written, r.nodeId, written.entries[r.nodeId].detail);
      EmitKeeps(if r.status == Suspect then armed else written, r.nodeId);
    }
  }

  lemma EmitKeeps(s: State, n: NodeId)
    requires n in s.entries
    ensures Emit(s, n).known == s.known && Emit(s, n).now == s.now
  {
  }

  /** What it does to that peer is what `Hears` says. */
  lemma ApplyRumorHears(s: State, r: Rumor, reportedBy: NodeId)
    requires WellFormedRumor(r) && !IsUnknownPeer(s, r.nodeId)
    ensures r.nodeId in ApplyRumor(s, r, reportedBy).entries
    ensures BeliefOf(ApplyRumor(s, r, reportedBy), r.nodeId) == Hears(BeliefOf(s, r.nodeId), r, s.now)
  {
    if !Takes(BeliefOf(s, r.nodeId), r) {
      RumorIgnored(s, r, reportedBy);
    } else if r.status == Dead && r.nodeId in s.channels {
      RumorBounces(s, r, reportedBy);
    } else {
      RumorTakenPlainly(s, r, reportedBy);
    }
  }

  lemma RumorIgnored(s: State, r: Rumor, reportedBy: NodeId)
    requires WellFormedRumor(r) && !IsUnknownPeer(s, r.nodeId) && !Takes(BeliefOf(s, r.nodeId), r)
    ensures r.nodeId in ApplyRumor(s, r, reportedBy).entries
    ensures BeliefOf(ApplyRumor(s, r, reportedBy), r.nodeId) == Hears(BeliefOf(s, r.nodeId), r, s.now)
  {
  }

  lemma RumorTakenPlainly(s: State, r: Rumor, reportedBy: NodeId)
    requires WellFormedRumor(r) && !IsUnknownPeer(s, r.nodeId) && Takes(BeliefOf(s, r.nodeId), r)
    requires r.status != Dead || r.nodeId !in s.channels
    ensures r.nodeId in ApplyRumor(s, r, reportedBy).entries
    ensures BeliefOf(ApplyRumor(s, r, reportedBy), r.nodeId) == Hears(BeliefOf(s, r.nodeId), r, s.now)
  {
    var written := WriteRumor(GetOrCreate(s, r.nodeId), r, reportedBy);
    assert written.entries[r.nodeId].status == r.status && written.channels == s.channels;
  }

  /** A death notice taken over an open channel closes it and ends as a suspicion one incarnation up. */
  lemma RumorBounces(s: State, r: Rumor, reportedBy: NodeId)
    requires WellFormedRumor(r) && !IsUnknownPeer(s, r.nodeId)
    requires Takes(BeliefOf(s, r.nodeId), r) && r.status == Dead && r.nodeId in s.channels
    ensures r.nodeId in ApplyRumor(s, r, reportedBy).entries
    ensures BeliefOf(ApplyRumor(s, r, reportedBy), r.nodeId)
         == Belief(Suspect, r.incarnation + 1, Local, EntryFor(s, r.nodeId).lastAliveAt, false)
  {
    var written := WriteRumor(GetOrCreate(s, r.nodeId), r, reportedBy);
    var published := Publish(written, r.nodeId);
    assert ApplyRumor(s, r, reportedBy) == DisconnectPeer(published, r.nodeId, DEAD_REASON);
    DeadDisconnects(published, r.nodeId);
  }

  lemma DeadDisconnects(s: State, n: NodeId)
    requires n in s.entries && n in s.channels && !IsUnknownPeer(s, n) && s.entries[n].status == Dead
    ensures var later := DisconnectPeer(s, n, DEAD_REASON);
      && n in later.entries
      && BeliefOf(later, n) == Belief(Suspect, s.entries[n].incarnation + 1, Local, s.entries[n].lastAliveAt, false)
  {
  }

  lemma {:induction false} FeedHears(s: State, rumors: seq<Rumor>, reportedBy: NodeId, n: NodeId)
    requires Admissible(s, rumors)
    ensures var later := Feed(s, rumors, reportedBy);
      && later.known == s.known && later.now == s.now
      && BeliefOf(later, n) == HearAll(BeliefOf(s, n), rumors, n, s.now)
      && (n in later.entries <==> n in s.entries || Mentions(rumors, n))
  {
    if rumors != [] {
      var init, last := rumors[..|rumors| - 1], rumors[|rumors| - 1];
      assert rumors == init + [last] && last in rumors && forall r :: r in init ==> r in rumors;
      FeedHears(s, init, reportedBy, n);
      ApplyRumorHears(Feed(s, init, reportedBy), last, reportedBy);
      ApplyRumorKeeps(Feed(s, init, reportedBy), last, reportedBy);
      if last.nodeId != n { ApplyRumorOthers(Feed(s, init, reportedBy), last, reportedBy, n); }
      CarriesAppend(init, last, n);
    }
  }

  /** What the store knew about the peer, and what it is about to hear. */
  function Heard(s: State, rumors: seq<Rumor>, n: NodeId): seq<Rumor> {
    Known(BeliefOf(s, n), n) + rumors
  }

  lemma NothingKnown(s: State, rumors: seq<Rumor>, n: NodeId)
    requires n !in s.entries
    ensures Blank(BeliefOf(s, n)) && Heard(s, rumors, n) == rumors
  {
    assert [] + rumors == rumors;
  }

  // ---- Exactly when the join is what remains ----

  /**
   A bounce at incarnation i does no lasting harm: something carried is at least two incarnations
   later, or the join is the suspicion the bounce itself left, or the bounced entry was reopened to
   the greatest death notice.
   */
  ghost predicate Survives(b: Belief, rumors: seq<Rumor>, n: NodeId, now: int, k: nat, join: Verdict)
    requires k < |rumors|
  {
    var i := rumors[k].incarnation;
    || join.incarnation >= i + 2
    || join == Verdict(i + 1, Rank(Suspect))
    || (join == Verdict(i + 1, Rank(Dead)) && Reopened(rumors, n, k, i, HearAll(b, rumors[..k], n, now).lastAliveAt))
  }

  /**
   Fed any list of rumors, a store that knows nothing about the peer, or what it learnt from a rumor,
   ends at the join of what it knew and what the list carries if and only if no death notice bounces,
   or the one that does is survived.
   */
  lemma FeedJoinsExactly(s: State, rumors: seq<Rumor>, reportedBy: NodeId, n: NodeId, join: Verdict)
    requires Admissible(s, rumors) && Ready(BeliefOf(s, n)) && IsJoin(Heard(s, rumors, n), n, join)
    ensures var later := Feed(s, rumors, reportedBy);
      && n in later.entries
      && (VerdictOf(later.entries[n]) == join <==>
            forall k: nat :: BouncesAt(BeliefOf(s, n), rumors, n, s.now, k) ==> Survives(BeliefOf(s, n), rumors, n, s.now, k, join))
  {
    var b := BeliefOf(s, n);
    FeedHears(s, rumors, reportedBy, n);
    MentionCarries(Heard(s, rumors, n), n);
    StillMentioned(s, rumors, n);
    BounceCloses(b, rumors, n, s.now);
    if HearAll(b, rumors, n, s.now).open == b.open {
      HeldJoin(b, rumors, n, s.now);
      JoinUnique(Heard(s, rumors, n), Heard(s, rumors, n), n, join, Held(HearAll(b, rumors, n, s.now)));
    } else {
      var k: nat :| BouncesAt(b, rumors, n, s.now, k);
      SurvivesExactly(b, rumors, n, s.now, k, join);
      forall other: nat | BouncesAt(b, rumors, n, s.now, other) ensures other == k {
        OneBounce(b, rumors, n, s.now, k, other);
      }
    }
  }

  lemma StillMentioned(s: State, rumors: seq<Rumor>, n: NodeId)
    requires Mentions(Heard(s, rumors, n), n)
    ensures n in s.entries || Mentions(rumors, n)
  {
    var r :| r in Heard(s, rumors, n) && r.nodeId == n;
    assert r in rumors || r in Known(BeliefOf(s, n), n);
  }

  lemma SurvivesExactly(b: Belief, rumors: seq<Rumor>, n: NodeId, now: int, k: nat, join: Verdict)
    requires Ready(b) && WellFormedList(rumors) && BouncesAt(b, rumors, n, now, k) && IsJoin(Known(b, n) + rumors, n, join)
    ensures Held(HearAll(b, rumors, n, now)) == join <==> Survives(b, rumors, n, now, k, join)
  {
    var i, all := rumors[k].incarnation, Known(b, n) + rumors;
    var heard, since := HearAll(b, rumors, n, now), HearAll(b, rumors[..k], n, now).lastAliveAt;
    Aftermath(b, rumors, n, now, k);
    AllOutrun(b, rumors, n, now, k, join);
    assert rumors[k] in rumors && Carries(rumors, n, Verdict(i, Rank(Dead)));
    CarriesConcat(Known(b, n), rumors, n, Verdict(i, Rank(Dead)));
    CarriesConcat(Known(b, n), rumors, n, Verdict(i + 1, Rank(Dead)));
    ReopenedCarries(rumors, n, k, i, since);
    if Outrun(rumors, n, i) { JoinUnique(all, all, n, join, Held(heard)); }
    BoundedRank(all, n, join);
  }

  /** What was known before a bounce cannot outrun it, so the join of the rumors outruns it exactly when the whole join does. */
  lemma AllOutrun(b: Belief, rumors: seq<Rumor>, n: NodeId, now: int, k: nat, join: Verdict)
    requires Ready(b) && WellFormedList(rumors) && BouncesAt(b, rumors, n, now, k) && IsJoin(Known(b, n) + rumors, n, join)
    ensures var i := rumors[k].incarnation;
      && (Outrun(rumors, n, i) <==> join.incarnation >= i + 2)
      && (Outrun(rumors, n, i) ==> forall v :: IsJoin(rumors, n, v) ==> IsJoin(Known(b, n) + rumors, n, v))
  {
    var i, known := rumors[k].incarnation, Known(b, n);
    TakenIsGreatest(b, rumors, n, now, k);
    NotOutrunCapped(rumors, n, i);
    forall v ensures Carries(known + rumors, n, v) <==> Carries(known, n, v) || Carries(rumors, n, v)
             ensures Carries(known, n, v) ==> v.incarnation <= i {
      CarriesConcat(known, rumors, n, v);
      CarriesConcat(known, rumors[..k], n, v);
    }
  }

  /** Outrun is a matter of the join alone. */
  lemma OutrunJoin(rumors: seq<Rumor>, n: NodeId, i: int, join: Verdict)
    requires IsJoin(rumors, n, join)
    ensures Outrun(rumors, n, i) <==> join.incarnation >= i + 2
  {
    NotOutrunCapped(rumors, n, i);
  }

  lemma {:induction false} StaysClosed(b: Belief, rumors: seq<Rumor>, n: NodeId, now: int, k: nat)
    requires k <= |rumors| && !HearAll(b, rumors[..k], n, now).open
    ensures !HearAll(b, rumors, n, now).open
    decreases |rumors|
  {
    if k < |rumors| {
      TakeTake(rumors, k, |rumors| - 1);
      StaysClosed(b, rumors[..|rumors| - 1], n, now, k);
    } else {
      TakeAll(rumors);
    }
  }

  lemma OneBounce(b: Belief, rumors: seq<Rumor>, n: NodeId, now: int, j: nat, k: nat)
    requires BouncesAt(b, rumors, n, now, j) && BouncesAt(b, rumors, n, now, k)
    ensures j == k
  {
    BounceOrder(b, rumors, n, now, j, k);
    BounceOrder(b, rumors, n, now, k, j);
  }

  lemma BounceOrder(b: Belief, rumors: seq<Rumor>, n: NodeId, now: int, j: nat, k: nat)
    requires BouncesAt(b, rumors, n, now, j) && BouncesAt(b, rumors, n, now, k)
    ensures !(j < k)
  {
    if j < k {
      var upTo := rumors[..k];
      TakeTake(rumors, j + 1, k);
      TakeTake(rumors, j, j + 1);
      assert rumors[..j + 1][j] == rumors[j];
      StaysClosed(b, upTo, n, now, j + 1);
    }
  }

  lemma SameRank(a: Status, b: Status)
    ensures Rank(a) == Rank(b) <==> a == b
  {
  }

  lemma JoinUnique(a: seq<Rumor>, b: seq<Rumor>, n: NodeId, v: Verdict, w: Verdict)
    requires IsJoin(a, n, v) && IsJoin(b, n, w) && SameAbout(a, b, n)
    ensures v == w
  {
    assert Carries(b, n, v) && Carries(a, n, w);
  }

  lemma SameJoin(a: seq<Rumor>, b: seq<Rumor>, n: NodeId, join: Verdict)
    requires SameAbout(a, b, n) && IsJoin(a, n, join)
    ensures IsJoin(b, n, join)
  {
  }

  /** A bounced entry can be reopened: a suspicion with a later last-alive time makes it remote, so the next death notice is taken. */
  lemma ReopenedReachesJoin(s: State, n: NodeId, reportedBy: NodeId)
    requires s.known.None? && n !in s.entries && n in s.channels
    ensures var rumors := [Rumor(n, Dead, 1, None), Rumor(n, Suspect, 1, Some(1)), Rumor(n, Dead, 2, None)];
      && IsJoin(rumors, n, Verdict(2, Rank(Dead)))
      && BouncesAt(BeliefOf(s, n), rumors, n, s.now, 0)
      && n in Feed(s, rumors, reportedBy).entries
      && VerdictOf(Feed(s, rumors, reportedBy).entries[n]) == Verdict(2, Rank(Dead))
  {
    var first, second, third := Rumor(n, Dead, 1, None), Rumor(n, Suspect, 1, Some(1)), Rumor(n, Dead, 2, None);
    var rumors, b := [first, second, third], BeliefOf(s, n);
    assert rumors[..2] == [first, second] && rumors[..1] == [first] && rumors[..0] == [];
    assert [first, second][..1] == [first] && [first][..0] == [];
    assert HearAll(b, [first], n, s.now) == Belief(Suspect, 2, Local, None, false);
    assert HearAll(b, [first, second], n, s.now) == Belief(Suspect, 2, Remote, Some(1), false);
    assert third in rumors && RumorVerdict(third) == Verdict(2, Rank(Dead));
    FeedHears(s, rumors, reportedBy, n);
    assert Mentions(rumors, n);
  }

  // ---- Whatever the order ----

  /** Every death notice the rumors carry is followed by something beyond the suspicion its bounce would leave. */
  ghost predicate Outlived(rumors: seq<Rumor>, n: NodeId) {
    OutlivedBy(rumors, rumors, n)
  }

  /** The same where more than the rumors themselves may outlive them. */
  ghost predicate OutlivedBy(rumors: seq<Rumor>, all: seq<Rumor>, n: NodeId) {
    forall d :: Carries(rumors, n, Verdict(d, Rank(Dead))) ==> OutlivedAt(all, n, d)
  }

  ghost predicate OutlivedAt(rumors: seq<Rumor>, n: NodeId, d: int) {
    exists v :: Carries(rumors, n, v) && AtMost(Verdict(d + 1, Rank(Suspect)), v)
  }

  lemma OutlivedAtJoin(rumors: seq<Rumor>, n: NodeId, d: int, join: Verdict)
    requires IsJoin(rumors, n, join)
    ensures OutlivedAt(rumors, n, d) <==> AtMost(Verdict(d + 1, Rank(Suspect)), join)
  {
  }

  ghost predicate EndsAt(s: State, rumors: seq<Rumor>, reportedBy: NodeId, n: NodeId, v: Verdict) {
    n in Feed(s, rumors, reportedBy).entries && VerdictOf(Feed(s, rumors, reportedBy).entries[n]) == v
  }

  /** The list with one of its own verdicts put first. */
  function Promoted(rumors: seq<Rumor>, r: Rumor): seq<Rumor> {
    [r] + rumors
  }

  lemma PromotedSame(s: State, rumors: seq<Rumor>, r: Rumor, n: NodeId)
    requires Admissible(s, rumors) && r in rumors && r.nodeId == n
    ensures Admissible(s, Promoted(rumors, r)) && SameAbout(rumors, Promoted(rumors, r), n)
  {
    var all := Promoted(rumors, r);
    assert forall x :: x in all <==> x == r || x in rumors;
    forall v ensures Carries(rumors, n, v) <==> Carries(all, n, v) {
      if Carries(rumors, n, v) {
        var x :| x in rumors && x.nodeId == n && RumorVerdict(x) == v;
        assert x in all;
      }
      if Carries(all, n, v) {
        var x :| x in all && x.nodeId == n && RumorVerdict(x) == v;
        assert x in rumors;
      }
    }
  }

  lemma CarriedRumor(rumors: seq<Rumor>, n: NodeId, incarnation: int, status: Status) returns (r: Rumor)
    requires Carries(rumors, n, Verdict(incarnation, Rank(status)))
    ensures r in rumors && r.nodeId == n && r.incarnation == incarnation && r.status == status
  {
    r :| r in rumors && r.nodeId == n && RumorVerdict(r) == Verdict(incarnation, Rank(status));
  }

  /** With the channel open and a death notice heard first, that notice bounces. */
  lemma DeathFirst(s: State, rumors: seq<Rumor>, r: Rumor, reportedBy: NodeId, n: NodeId, join: Verdict)
    requires Admissible(s, rumors) && n !in s.entries && n in s.channels && IsJoin(rumors, n, join)
    requires r in rumors && r.nodeId == n && r.status == Dead
    ensures var all := Promoted(rumors, r);
      && Admissible(s, all) && SameAbout(rumors, all, n)
      && n in Feed(s, all, reportedBy).entries
      && AfterBounce(BeliefOf(Feed(s, all, reportedBy), n), all, n, 0, r.incarnation, None)
      && (Outrun(all, n, r.incarnation) <==> join.incarnation >= r.incarnation + 2)
  {
    var all, b := Promoted(rumors, r), BeliefOf(s, n);
    PromotedSame(s, rumors, r, n);
    SameJoin(rumors, all, n, join);
    assert all[..0] == [] && all[0] == r && r in all;
    assert BouncesAt(b, all, n, s.now, 0);
    Aftermath(b, all, n, s.now, 0);
    FeedHears(s, all, reportedBy, n);
    OutrunJoin(all, n, r.incarnation, join);
    assert Mentions(all, n);
  }

  lemma ReopenedCarries(rumors: seq<Rumor>, n: NodeId, k: nat, i: int, since: Option<int>)
    ensures Reopened(rumors, n, k, i, since) ==> Carries(rumors, n, Verdict(i + 1, Rank(Dead)))
  {
    if p: nat, q: nat :| FlipsAt(rumors, n, k, since, p) && p < q < |rumors| && IsDeath(rumors[q], n, i + 1) {
      assert rumors[q] in rumors;
    }
  }

  /** Outliving every death notice is enough for the join, in any order. */
  lemma OutlivedJoins(s: State, rumors: seq<Rumor>, reportedBy: NodeId, n: NodeId, join: Verdict)
    requires Admissible(s, rumors) && Ready(BeliefOf(s, n)) && IsJoin(Heard(s, rumors, n), n, join)
    requires n !in s.channels || OutlivedBy(rumors, Heard(s, rumors, n), n)
    ensures EndsAt(s, rumors, reportedBy, n, join)
  {
    var b, all := BeliefOf(s, n), Heard(s, rumors, n);
    FeedJoinsExactly(s, rumors, reportedBy, n, join);
    forall k: nat | BouncesAt(b, rumors, n, s.now, k) ensures Survives(b, rumors, n, s.now, k, join) {
      OpenOnlyCloses(b, rumors[..k], n, s.now);
      var i := rumors[k].incarnation;
      assert rumors[k] in rumors && Carries(rumors, n, Verdict(i, Rank(Dead)));
      OutlivedAtJoin(all, n, i, join);
      OutlivedAtJoin(all, n, i + 1, join);
      BoundedRank(all, n, join);
      AllOutrun(b, rumors, n, s.now, k, join);
      TopIsHeard(b, rumors, n, s.now, k, join);
    }
  }

  /** A join at a death notice above the bounce was carried by the rumors, not known before. */
  lemma TopIsHeard(b: Belief, rumors: seq<Rumor>, n: NodeId, now: int, k: nat, join: Verdict)
    requires Ready(b) && WellFormedList(rumors) && BouncesAt(b, rumors, n, now, k) && IsJoin(Known(b, n) + rumors, n, join)
    ensures join.incarnation > rumors[k].incarnation ==> Carries(rumors, n, join)
  {
    TakenIsGreatest(b, rumors, n, now, k);
    CarriesConcat(Known(b, n), rumors, n, join);
    CarriesConcat(Known(b, n), rumors[..k], n, join);
  }

  lemma BoundedRank(rumors: seq<Rumor>, n: NodeId, v: Verdict)
    requires Carries(rumors, n, v)
    ensures v.rank <= Rank(Dead)
  {
  }

  /**
   The order does not matter exactly when the channel is closed or every death notice is outlived:
   only then does every list that carries the same verdicts about the peer end at their join.
   */
  lemma OrderFreeExactly(s: State, rumors: seq<Rumor>, reportedBy: NodeId, n: NodeId, join: Verdict)
    requires Admissible(s, rumors) && n !in s.entries && IsJoin(rumors, n, join)
    ensures (forall other :: Admissible(s, other) && SameAbout(rumors, other, n) ==> EndsAt(s, other, reportedBy, n, join))
       <==> n !in s.channels || Outlived(rumors, n)
  {
    if n !in s.channels || Outlived(rumors, n) {
      forall other | Admissible(s, other) && SameAbout(rumors, other, n) ensures EndsAt(s, other, reportedBy, n, join) {
        SameJoin(rumors, other, n, join);
        SameOutlived(rumors, other, n);
        NothingKnown(s, other, n);
        OutlivedJoins(s, other, reportedBy, n, join);
      }
    } else {
      var d :| Carries(rumors, n, Verdict(d, Rank(Dead))) && !OutlivedAt(rumors, n, d);
      var r := CarriedRumor(rumors, n, d, Dead);
      DeathFirst(s, rumors, r, reportedBy, n, join);
      StuckAbove(s, rumors, r, reportedBy, n, join);
      assert !EndsAt(s, Promoted(rumors, r), reportedBy, n, join);
    }
  }

  /** A death notice that is not outlived, heard first, leaves the store stuck one incarnation above it. */
  lemma StuckAbove(s: State, rumors: seq<Rumor>, r: Rumor, reportedBy: NodeId, n: NodeId, join: Verdict)
    requires Admissible(s, rumors) && n !in s.entries && n in s.channels && IsJoin(rumors, n, join)
    requires r in rumors && r.nodeId == n && r.status == Dead && !OutlivedAt(rumors, n, r.incarnation)
    ensures EndsAt(s, Promoted(rumors, r), reportedBy, n, Verdict(r.incarnation + 1, Rank(Suspect)))
    ensures join != Verdict(r.incarnation + 1, Rank(Suspect))
  {
    DeathFirst(s, rumors, r, reportedBy, n, join);
    OutlivedAtJoin(rumors, n, r.incarnation, join);
    var all := Promoted(rumors, r);
    ReopenedCarries(all, n, 0, r.incarnation, None);
    assert Carries(all, n, Verdict(r.incarnation + 1, Rank(Dead))) <==> Carries(rumors, n, Verdict(r.incarnation + 1, Rank(Dead)));
  }

  lemma SameOutlived(a: seq<Rumor>, b: seq<Rumor>, n: NodeId)
    requires SameAbout(a, b, n)
    ensures Outlived(a, n) <==> Outlived(b, n)
  {
    assert forall d :: OutlivedAt(a, n, d) <==> OutlivedAt(b, n, d);
  }

  // ---- Exactly when two stores agree ----

  ghost predicate Agree(s1: State, s2: State, a: seq<Rumor>, b: seq<Rumor>, from1: NodeId, from2: NodeId, n: NodeId) {
    var e1, e2 := Feed(s1, a, from1).entries, Feed(s2, b, from2).entries;
    n in e1 && n in e2 && e1[n].incarnation == e2[n].incarnation && e1[n].status == e2[n].status
  }

  lemma AgreeAt(s1: State, s2: State, a: seq<Rumor>, b: seq<Rumor>, from1: NodeId, from2: NodeId, n: NodeId, v: Verdict, w: Verdict)
    requires EndsAt(s1, a, from1, n, v) && EndsAt(s2, b, from2, n, w)
    ensures Agree(s1, s2, a, b, from1, from2, n) <==> v == w
  {
  }

  /**
   Convergence: two stores that know nothing about a peer, or what they learnt from rumors, agree on it
   once what they knew and heard carries the same verdicts, in whatever order and multiplicity, through
   whatever reporters, if each has no open channel to the peer or all death notices it hears are outlived.
   */
  lemma StoresConverge(s1: State, s2: State, a: seq<Rumor>, b: seq<Rumor>, from1: NodeId, from2: NodeId, n: NodeId)
    requires Admissible(s1, a) && Admissible(s2, b) && Ready(BeliefOf(s1, n)) && Ready(BeliefOf(s2, n))
    requires SameAbout(Heard(s1, a, n), Heard(s2, b, n), n) && Mentions(Heard(s1, a, n), n)
    requires n !in s1.channels || OutlivedBy(a, Heard(s1, a, n), n)
    requires n !in s2.channels || OutlivedBy(b, Heard(s2, b, n), n)
    ensures Agree(s1, s2, a, b, from1, from2, n)
  {
    var join := TheJoin(Heard(s1, a, n), n);
    SameJoin(Heard(s1, a, n), Heard(s2, b, n), n, join);
    OutlivedJoins(s1, a, from1, n, join);
    OutlivedJoins(s2, b, from2, n, join);
    AgreeAt(s1, s2, a, b, from1, from2, n, join, join);
  }

  lemma {:induction false} TheJoin(rumors: seq<Rumor>, n: NodeId) returns (join: Verdict)
    requires Mentions(rumors, n)
    ensures IsJoin(rumors, n, join)
    decreases |rumors|
  {
    var init, last := rumors[..|rumors| - 1], rumors[|rumors| - 1];
    assert rumors == init + [last];
    CarriesAppend(init, last, n);
    if Mentions(init, n) {
      join := TheJoin(init, n);
      if last.nodeId == n && AtMost(join, RumorVerdict(last)) {
        join := RumorVerdict(last);
      }
    } else {
      MentionCarries(init, n);
      join := RumorVerdict(last);
    }
  }

  /** All death notices the rumors carry are at the greatest incarnation. */
  ghost predicate DeathsAtTop(rumors: seq<Rumor>, n: NodeId, join: Verdict) {
    forall d :: Carries(rumors, n, Verdict(d, Rank(Dead))) ==> d == join.incarnation
  }

  /** What decides agreement, by how many of the two stores have an open channel to the peer. */
  ghost predicate Convergent(s1: State, s2: State, rumors: seq<Rumor>, n: NodeId, join: Verdict) {
    || (n !in s1.channels && n !in s2.channels)
    || Outlived(rumors, n)
    || (n in s1.channels && n in s2.channels && DeathsAtTop(rumors, n, join))
  }

  ghost predicate AlwaysAgree(s1: State, s2: State, rumors: seq<Rumor>, from1: NodeId, from2: NodeId, n: NodeId) {
    forall a, b :: Admissible(s1, a) && Admissible(s2, b) && SameAbout(rumors, a, n) && SameAbout(rumors, b, n) ==>
      Agree(s1, s2, a, b, from1, from2, n)
  }

  /** With the channel open and a death notice at the top, every order gets stuck above it. */
  lemma TopDeathSticks(s: State, rumors: seq<Rumor>, reportedBy: NodeId, n: NodeId, join: Verdict)
    requires Admissible(s, rumors) && n !in s.entries && n in s.channels && IsJoin(rumors, n, join)
    requires join.rank == Rank(Dead) && DeathsAtTop(rumors, n, join)
    ensures EndsAt(s, rumors, reportedBy, n, Verdict(join.incarnation + 1, Rank(Suspect)))
  {
    var b := BeliefOf(s, n);
    FeedHears(s, rumors, reportedBy, n);
    MentionCarries(rumors, n);
    BounceCloses(b, rumors, n, s.now);
    OpenOnlyCloses(b, rumors, n, s.now);
    if HearAll(b, rumors, n, s.now).open {
      HeldJoin(b, rumors, n, s.now);
      JoinUnique(rumors, rumors, n, join, Held(HearAll(b, rumors, n, s.now)));
      assert false;
    }
    var k: nat :| BouncesAt(b, rumors, n, s.now, k);
    var i, since := rumors[k].incarnation, HearAll(b, rumors[..k], n, s.now).lastAliveAt;
    assert rumors[k] in rumors && Carries(rumors, n, Verdict(i, Rank(Dead)));
    Aftermath(b, rumors, n, s.now, k);
    OutrunJoin(rumors, n, i, join);
    ReopenedCarries(rumors, n, k, i, since);
  }

  /** Heard first, a greatest verdict that is not a death notice keeps everything else out. */
  lemma {:induction false} TopFirst(b: Belief, rumors: seq<Rumor>, r: Rumor, n: NodeId, now: int)
    requires Blank(b) && r.nodeId == n && r.status != Dead && WellFormedRumor(r)
    requires forall x :: x in rumors && x.nodeId == n ==> WellFormedRumor(x) && AtMost(RumorVerdict(x), RumorVerdict(r))
    ensures var heard := HearAll(b, [r] + rumors, n, now);
      Held(heard) == RumorVerdict(r) && heard.source == Remote
    decreases |rumors|
  {
    if rumors == [] {
      assert [r] + rumors == [r] && [r][..0] == [];
    } else {
      var init, last := rumors[..|rumors| - 1], rumors[|rumors| - 1];
      assert last in rumors && forall x :: x in init ==> x in rumors;
      ConsInit(r, rumors);
      TopFirst(b, init, r, n, now);
      TopStays(HearAll(b, [r] + init, n, now), last, r, now);
    }
  }

  lemma TopStays(before: Belief, last: Rumor, r: Rumor, now: int)
    requires Held(before) == RumorVerdict(r) && before.source == Remote && WellFormedRumor(r)
    ensures AtMost(RumorVerdict(last), RumorVerdict(r)) ==>
      Held(Hears(before, last, now)) == RumorVerdict(r) && Hears(before, last, now).source == Remote
  {
  }

  lemma JoinFirst(s: State, rumors: seq<Rumor>, r: Rumor, reportedBy: NodeId, n: NodeId, join: Verdict)
    requires Admissible(s, rumors) && n !in s.entries && IsJoin(rumors, n, join)
    requires r in rumors && r.nodeId == n && RumorVerdict(r) == join && r.status != Dead
    ensures EndsAt(s, Promoted(rumors, r), reportedBy, n, join)
  {
    PromotedSame(s, rumors, r, n);
    forall x | x in rumors && x.nodeId == n ensures AtMost(RumorVerdict(x), join) {
      assert Carries(rumors, n, RumorVerdict(x));
    }
    TopFirst(BeliefOf(s, n), rumors, r, n, s.now);
    FeedHears(s, Promoted(rumors, r), reportedBy, n);
    assert r in Promoted(rumors, r);
  }

  /**
   When the condition fails, two orders of the same verdicts make the stores disagree. `s1` has the
   open channel; `s2` may have one too.
   */
  lemma Diverge(s1: State, s2: State, rumors: seq<Rumor>, from1: NodeId, from2: NodeId, n: NodeId, join: Verdict)
    requires Admissible(s1, rumors) && Admissible(s2, rumors) && n !in s1.entries && n !in s2.entries && IsJoin(rumors, n, join)
    requires n in s1.channels && !Convergent(s1, s2, rumors, n, join)
    ensures exists a, b :: Admissible(s1, a) && Admissible(s2, b) && SameAbout(rumors, a, n) && SameAbout(rumors, b, n)
                           && !Agree(s1, s2, a, b, from1, from2, n)
  {
    var d :| Carries(rumors, n, Verdict(d, Rank(Dead))) && !OutlivedAt(rumors, n, d);
    var r := CarriedRumor(rumors, n, d, Dead);
    var a, stuck := Promoted(rumors, r), Verdict(d + 1, Rank(Suspect));
    PromotedSame(s1, rumors, r, n);
    StuckAbove(s1, rumors, r, from1, n, join);
    OutlivedAtJoin(rumors, n, d, join);
    var b, w := OtherEnd(s2, rumors, from2, n, join, d);
    AgreeAt(s1, s2, a, b, from1, from2, n, stuck, w);
  }

  /** An order that does not leave the second store stuck above `d`. */
  lemma OtherEnd(s: State, rumors: seq<Rumor>, reportedBy: NodeId, n: NodeId, join: Verdict, d: int)
    returns (b: seq<Rumor>, w: Verdict)
    requires Admissible(s, rumors) && n !in s.entries && IsJoin(rumors, n, join)
    requires Carries(rumors, n, Verdict(d, Rank(Dead))) && !OutlivedAt(rumors, n, d)
    requires n in s.channels ==> !DeathsAtTop(rumors, n, join)
    ensures Admissible(s, b) && SameAbout(rumors, b, n) && EndsAt(s, b, reportedBy, n, w)
    ensures w != Verdict(d + 1, Rank(Suspect))
  {
    OutlivedAtJoin(rumors, n, d, join);
    var top :| top in rumors && top.nodeId == n && RumorVerdict(top) == join;
    if n !in s.channels {
      NothingKnown(s, rumors, n);
      OutlivedJoins(s, rumors, reportedBy, n, join);
      b, w := rumors, join;
    } else if top.status != Dead {
      PromotedSame(s, rumors, top, n);
      JoinFirst(s, rumors, top, reportedBy, n, join);
      b, w := Promoted(rumors, top), join;
    } else {
      var lower :| Carries(rumors, n, Verdict(lower, Rank(Dead))) && lower != join.incarnation;
      var r := CarriedRumor(rumors, n, lower, Dead);
      PromotedSame(s, rumors, r, n);
      DeathFirst(s, rumors, r, reportedBy, n, join);
      b := Promoted(rumors, r);
      SameJoin(rumors, b, n, join);
      w := VerdictOf(Feed(s, b, reportedBy).entries[n]);
      LowerDeathEnds(BeliefOf(Feed(s, b, reportedBy), n), b, n, lower, join);
    }
  }

  lemma LowerDeathEnds(heard: Belief, rumors: seq<Rumor>, n: NodeId, lower: int, join: Verdict)
    requires AfterBounce(heard, rumors, n, 0, lower, None) && IsJoin(rumors, n, join) && lower < join.incarnation
    ensures heard.incarnation == join.incarnation
  {
    OutrunJoin(rumors, n, lower, join);
    if Outrun(rumors, n, lower) { JoinUnique(rumors, rumors, n, join, Held(heard)); }
  }

  /**
   Exactly when stores agree: two stores without an entry for the peer agree on it after any two
   lists carrying the given verdicts if and only if neither has an open channel to it, or every death
   notice is outlived, or both have one and the only death notices are at the greatest incarnation.
   */
  lemma ConvergeExactly(s1: State, s2: State, rumors: seq<Rumor>, from1: NodeId, from2: NodeId, n: NodeId, join: Verdict)
    requires Admissible(s1, rumors) && Admissible(s2, rumors) && n !in s1.entries && n !in s2.entries && IsJoin(rumors, n, join)
    ensures AlwaysAgree(s1, s2, rumors, from1, from2, n) <==> Convergent(s1, s2, rumors, n, join)
  {
    if Convergent(s1, s2, rumors, n, join) {
      forall a, b | Admissible(s1, a) && Admissible(s2, b) && SameAbout(rumors, a, n) && SameAbout(rumors, b, n)
        ensures Agree(s1, s2, a, b, from1, from2, n)
      {
        ConvergentAgree(s1, s2, rumors, a, b, from1, from2, n, join);
      }
    } else if n in s1.channels {
      Diverge(s1, s2, rumors, from1, from2, n, join);
    } else {
      Diverge(s2, s1, rumors, from2, from1, n, join);
      var b, a :| Admissible(s2, b) && Admissible(s1, a) && SameAbout(rumors, b, n) && SameAbout(rumors, a, n)
                  && !Agree(s2, s1, b, a, from2, from1, n);
      assert !Agree(s1, s2, a, b, from1, from2, n);
    }
  }

  lemma ConvergentAgree(s1: State, s2: State, rumors: seq<Rumor>, a: seq<Rumor>, b: seq<Rumor>,
                        from1: NodeId, from2: NodeId, n: NodeId, join: Verdict)
    requires Admissible(s1, a) && Admissible(s2, b) && n !in s1.entries && n !in s2.entries && IsJoin(rumors, n, join)
    requires SameAbout(rumors, a, n) && SameAbout(rumors, b, n) && Convergent(s1, s2, rumors, n, join)
    ensures Agree(s1, s2, a, b, from1, from2, n)
  {
    SameJoin(rumors, a, n, join);
    SameJoin(rumors, b, n, join);
    SameOutlived(rumors, a, n);
    MentionCarries(a, n);
    if (n !in s1.channels && n !in s2.channels) || Outlived(rumors, n) {
      SameOutlived(rumors, b, n);
      NothingKnown(s1, a, n);
      NothingKnown(s2, b, n);
      StoresConverge(s1, s2, a, b, from1, from2, n);
    } else {
      var d :| Carries(rumors, n, Verdict(d, Rank(Dead))) && !OutlivedAt(rumors, n, d);
      OutlivedAtJoin(rumors, n, d, join);
      BoundedRank(rumors, n, join);
      TopDeathSticks(s1, a, from1, n, join);
      TopDeathSticks(s2, b, from2, n, join);
      var stuck := Verdict(join.incarnation + 1, Rank(Suspect));
      AgreeAt(s1, s2, a, b, from1, from2, n, stuck, stuck);
    }
  }

  /** The last-alive time is not part of what converges: it depends on the order of arrival. */
  lemma LastAliveDependsOnOrder(s: State, n: NodeId, reporter: NodeId)
    requires s.known.None? && n !in s.entries && n !in s.channels
    ensures var alive, suspect := Rumor(n, Alive, 1, Some(5)), Rumor(n, Suspect, 1, None);
      var forwards, backwards := Feed(s, [alive, suspect], reporter), Feed(s, [suspect, alive], reporter);
      && n in forwards.entries && n in backwards.entries
      && VerdictOf(forwards.entries[n]) == VerdictOf(backwards.entries[n])
      && forwards.entries[n].lastAliveAt == Some(5)
      && backwards.entries[n].lastAliveAt == None
  {
    var alive, suspect := Rumor(n, Alive, 1, Some(5)), Rumor(n, Suspect, 1, None);
    assert Feed(s, [alive], reporter) == ApplyRumor(s, alive, reporter);
    assert Feed(s, [suspect], reporter) == ApplyRumor(s, suspect, reporter);
    assert [alive, suspect][..1] == [alive] && [suspect, alive][..1] == [suspect];
  }
}
