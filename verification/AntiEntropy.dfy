/**
 The digest / repair-request / sync exchange between two stores (src/runtime/cluster/network.ts):
 what a receiver asks for, and what it is guaranteed to hold once the sync has been applied, even
 though both stores may move on between the messages.
 */
module AntiEntropy {
  import opened Prelude
  import opened PeerHealth
  import opened PeerHealthRuns
  import opened Gossip

  /** The wire form of one of the store's entries. */
  function RumorOf(s: State, n: NodeId): Rumor
    requires n in s.entries
  {
    var e := s.entries[n];
    Rumor(n, e.status, e.incarnation, e.lastAliveAt)
  }

  ghost predicate IsDigestOf(digests: seq<Rumor>, s: State) {
    && (forall d :: d in digests ==> d.nodeId in s.entries && d == RumorOf(s, d.nodeId))
    && (forall n :: n in s.entries ==> RumorOf(s, n) in digests)
  }

  /** The sender's answer to a repair request: its current snapshots of the requested peers. */
  ghost predicate IsSyncOf(rumors: seq<Rumor>, s: State, requested: seq<NodeId>) {
    && (forall r :: r in rumors ==> r.nodeId in requested && r.nodeId in s.entries && r == RumorOf(s, r.nodeId))
    && (forall n :: n in requested && n in s.entries ==> RumorOf(s, n) in rumors)
  }

  /** Whether a digest entry makes the receiver ask for the peer. */
  predicate Wanted(local: State, digest: Rumor) {
    if digest.nodeId !in local.entries || local.entries[digest.nodeId].status == Unknown then true
    else
      var e := local.entries[digest.nodeId];
      if digest.incarnation != e.incarnation then digest.incarnation > e.incarnation
      else
        || Rank(digest.status) > Rank(e.status)
        || (digest.status == e.status && e.source != Local && digest.lastAliveAt.GetOr(0) > e.lastAliveAt.GetOr(0))
  }

  method CollectPeerHealthRepairTargets(local: State, digests: seq<Rumor>) returns (requested: seq<NodeId>)
    ensures forall n :: n in requested <==> exists d :: d in digests && d.nodeId == n && Wanted(local, d)
  {
    requested := [];
    for i := 0 to |digests|
      invariant forall n :: n in requested <==> exists k :: 0 <= k < i && digests[k].nodeId == n && Wanted(local, digests[k])
    {
      var digest := digests[i];
      if digest.nodeId !in local.entries || local.entries[digest.nodeId].status == Unknown {
        requested := requested + [digest.nodeId];
        continue;
      }
      var e := local.entries[digest.nodeId];
      if digest.incarnation > e.incarnation {
        requested := requested + [digest.nodeId];
        continue;
      }
      if digest.incarnation < e.incarnation {
        continue;
      }
      if Rank(digest.status) > Rank(e.status) {
        requested := requested + [digest.nodeId];
        continue;
      }
      if digest.status == e.status && digest.lastAliveAt.GetOr(0) > e.lastAliveAt.GetOr(0) && e.source != Local {
        requested := requested + [digest.nodeId];
      }
    }
  }

  /**
   What is asked for, exactly: whatever would be applied, plus two kinds of entry that would not be,
   namely those a local verdict of equal incarnation outranks the store's readiness to accept, and
   those that only carry a later last-alive time.
   */
  lemma WantedExactly(local: State, d: Rumor)
    ensures Wanted(local, d)
       <==> || d.nodeId !in local.entries
            || ShouldApplyRumor(local.entries[d.nodeId], d)
            || (&& d.incarnation == local.entries[d.nodeId].incarnation
                && local.entries[d.nodeId].source == Local
                && Rank(d.status) > Rank(local.entries[d.nodeId].status))
            || (&& d.incarnation == local.entries[d.nodeId].incarnation
                && local.entries[d.nodeId].source == Remote
                && d.status == local.entries[d.nodeId].status
                && d.lastAliveAt.GetOr(0) > local.entries[d.nodeId].lastAliveAt.GetOr(0))
  {
  }

  // ---- Applying a sync ----

  lemma {:induction false} FeedInv(s: State, rumors: seq<Rumor>, reportedBy: NodeId, n: NodeId)
    requires Inv(s) && forall r :: r in rumors ==> WellFormedRumor(r)
    ensures Inv(Feed(s, rumors, reportedBy)) && Feed(s, rumors, reportedBy).known == s.known
    ensures Grown(s, Feed(s, rumors, reportedBy), n)
    decreases |rumors|
  {
    if rumors != [] {
      var init, last := rumors[..|rumors| - 1], rumors[|rumors| - 1];
      FeedInv(s, init, reportedBy, n);
      var before := Feed(s, init, reportedBy);
      ApplyRumorInv(before, last, reportedBy);
      ApplyRumorKeeps(before, last, reportedBy);
      StepGrows(before, RumorEvent(last, reportedBy), n);
      assert Step(before, RumorEvent(last, reportedBy)) == Feed(s, rumors, reportedBy);
    }
  }

  /** The rumor is covered: not above the store's verdict, unless a local verdict of that incarnation refused it. */
  ghost predicate Covered(s: State, r: Rumor) {
    && r.nodeId in s.entries
    && (|| AtMost(RumorVerdict(r), VerdictOf(s.entries[r.nodeId]))
        || (s.entries[r.nodeId].source == Local && s.entries[r.nodeId].incarnation == r.incarnation))
  }

  lemma ApplyCovers(s: State, r: Rumor, reportedBy: NodeId)
    requires Inv(s) && WellFormedRumor(r) && !IsUnknownPeer(s, r.nodeId)
    ensures Covered(ApplyRumor(s, r, reportedBy), r)
  {
    if r.nodeId in s.entries && !ShouldApplyRumor(s.entries[r.nodeId], r) {
      assert Settled(s, r.nodeId);
    } else {
      RumorTaken(s, r, reportedBy);
    }
  }

  lemma {:induction false} FeedCovers(s: State, rumors: seq<Rumor>, reportedBy: NodeId, r: Rumor)
    requires Inv(s) && !IsUnknownPeer(s, r.nodeId) && r in rumors
    requires forall q :: q in rumors ==> WellFormedRumor(q) && (q.nodeId == r.nodeId ==> q == r)
    ensures Covered(Feed(s, rumors, reportedBy), r)
    decreases |rumors|
  {
    var init, last := rumors[..|rumors| - 1], rumors[|rumors| - 1];
    FeedInv(s, init, reportedBy, r.nodeId);
    var before := Feed(s, init, reportedBy);
    if last.nodeId == r.nodeId {
      ApplyCovers(before, r, reportedBy);
    } else {
      FeedCovers(s, init, reportedBy, r);
      ApplyRumorOthers(before, last, reportedBy, r.nodeId);
    }
  }

  // ---- The round ----

  /**
   What a round owes for a digested peer: the digested incarnation, and the digested verdict unless a
   local verdict at the answered incarnation stands.
   */
  ghost predicate Repaired(sent: State, answering: State, repaired: State, n: NodeId)
    requires n in sent.entries
  {
    && n in repaired.entries
    && repaired.entries[n].incarnation >= sent.entries[n].incarnation
    && (|| AtMost(VerdictOf(sent.entries[n]), VerdictOf(repaired.entries[n]))
        || (&& n in answering.entries && repaired.entries[n].source == Local
            && repaired.entries[n].incarnation == answering.entries[n].incarnation))
  }

  /**
   One anti-entropy round loses nothing. The sender digests its store `sent`; the receiver, in state
   `heard`, requests what it wants; the sender answers from the possibly later state `answering`;
   the receiver, by then in state `receiving`, first notes the sender alive and then applies the
   sync. Afterwards, for every digested peer the receiver knows, its incarnation is at least the
   digested one, and so is its whole verdict unless a local verdict held at the answered
   incarnation stood in the way.
   */
  lemma AntiEntropyRound(
      sent: State, digests: seq<Rumor>, heard: State, requested: seq<NodeId>,
      answering: State, rumors: seq<Rumor>, receiving: State, sender: NodeId, detail: Option<string>, n: NodeId)
    requires Inv(sent) && Inv(heard) && Inv(answering) && Inv(receiving)
    requires IsDigestOf(digests, sent)
    requires forall m :: m in requested <==> exists d :: d in digests && d.nodeId == m && Wanted(heard, d)
    requires forall m :: Grown(sent, answering, m) && Grown(heard, receiving, m)
    requires IsSyncOf(rumors, answering, requested)
    requires n in sent.entries && !IsUnknownPeer(receiving, n)
    ensures Repaired(sent, answering, Feed(MarkAlive(receiving, sender, detail), rumors, sender), n)
  {
    var noted := MarkAlive(receiving, sender, detail);
    MarkAliveInv(receiving, sender, detail);
    StepGrows(receiving, AliveEvent(sender, detail), n);
    MarkAliveKnown(receiving, sender, detail);
    SyncWellFormed(rumors, answering, requested);
    FeedInv(noted, rumors, sender, n);
    assert Grown(sent, answering, n) && Grown(heard, receiving, n);
    if Wanted(heard, RumorOf(sent, n)) {
      assert n in requested;
      Answered(noted, rumors, sender, requested, sent, answering, n);
    } else {
      Unasked(sent, heard, answering, Feed(noted, rumors, sender), n);
    }
  }

  /** What was requested is answered by the sender's entry of that moment, which the receiver then covers. */
  lemma Answered(noted: State, rumors: seq<Rumor>, sender: NodeId, requested: seq<NodeId>, sent: State, answering: State, n: NodeId)
    requires Inv(noted) && IsSyncOf(rumors, answering, requested) && n in requested && !IsUnknownPeer(noted, n)
    requires n in sent.entries && Grown(sent, answering, n) && forall r :: r in rumors ==> WellFormedRumor(r)
    ensures Repaired(sent, answering, Feed(noted, rumors, sender), n)
  {
    FeedCovers(noted, rumors, sender, RumorOf(answering, n));
  }

  /** What was not requested the receiver had already, and it only grew. */
  lemma Unasked(sent: State, heard: State, answering: State, repaired: State, n: NodeId)
    requires n in sent.entries && !Wanted(heard, RumorOf(sent, n)) && Grown(heard, repaired, n)
    ensures Repaired(sent, answering, repaired, n)
  {
  }

  lemma MarkAliveKnown(s: State, n: NodeId, detail: Option<string>)
    ensures MarkAlive(s, n, detail).known == s.known
  {
  }

  lemma SyncWellFormed(rumors: seq<Rumor>, s: State, requested: seq<NodeId>)
    requires Inv(s) && IsSyncOf(rumors, s, requested)
    ensures forall r :: r in rumors ==> WellFormedRumor(r)
  {
    forall r | r in rumors ensures WellFormedRumor(r) { assert Settled(s, r.nodeId); }
  }

  /** When neither side of an exchange wants anything from the other, the two stores agree. */
  lemma QuietMeansAgreement(a: State, b: State, n: NodeId)
    requires Inv(a) && Inv(b)
    requires forall m :: m in a.entries ==> !Wanted(b, RumorOf(a, m))
    requires forall m :: m in b.entries ==> !Wanted(a, RumorOf(b, m))
    ensures (n in a.entries <==> n in b.entries)
    ensures n in a.entries ==>
      a.entries[n].status == b.entries[n].status && a.entries[n].incarnation == b.entries[n].incarnation
  {
    assert Settled(a, n) && Settled(b, n);
    if n in a.entries && n in b.entries {
      SameRank(a.entries[n].status, b.entries[n].status);
    }
  }
}
