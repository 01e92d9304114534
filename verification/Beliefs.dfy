/**
 What a store believes about one peer while it hears rumors (src/runtime/cluster/health.ts): the join of
 what it heard, unless a death notice arrives over an open channel and bounces into a local suspicion.
 */
module Beliefs {
  import opened Prelude
  import opened PeerHealth
  import opened PeerHealthRuns

  // ---- Lists of rumors ----

  ghost predicate Carries(rumors: seq<Rumor>, n: NodeId, v: Verdict) {
    exists r :: r in rumors && r.nodeId == n && RumorVerdict(r) == v
  }

  ghost predicate Mentions(rumors: seq<Rumor>, n: NodeId) {
    exists r :: r in rumors && r.nodeId == n
  }

  /** `v` is the greatest verdict the rumors carry about `n`. */
  ghost predicate IsJoin(rumors: seq<Rumor>, n: NodeId, v: Verdict) {
    && Carries(rumors, n, v)
    && forall w :: Carries(rumors, n, w) ==> AtMost(w, v)
  }

  ghost predicate WellFormedList(rumors: seq<Rumor>) {
    forall r :: r in rumors ==> WellFormedRumor(r)
  }

  lemma CarriesAppend(init: seq<Rumor>, last: Rumor, n: NodeId)
    ensures forall v :: Carries(init + [last], n, v) <==> Carries(init, n, v) || (last.nodeId == n && RumorVerdict(last) == v)
    ensures Mentions(init + [last], n) <==> Mentions(init, n) || last.nodeId == n
  {
    assert forall x :: x in init + [last] <==> x in init || x == last;
    assert last in init + [last];
    forall v | Carries(init, n, v) ensures Carries(init + [last], n, v) {
      var r :| r in init && r.nodeId == n && RumorVerdict(r) == v;
      assert r in init + [last];
    }
    if Mentions(init, n) {
      var r :| r in init && r.nodeId == n;
      assert r in init + [last];
    }
  }

  lemma MentionCarries(rumors: seq<Rumor>, n: NodeId)
    ensures Mentions(rumors, n) <==> exists v :: Carries(rumors, n, v)
  {
    if Mentions(rumors, n) {
      var r :| r in rumors && r.nodeId == n;
      assert Carries(rumors, n, RumorVerdict(r));
    }
  }

  // ---- One peer's entry while rumors arrive ----

  datatype Belief = Belief(status: Status, incarnation: int, source: Source, lastAliveAt: Option<int>, open: bool)

  function Held(b: Belief): Verdict {
    Verdict(b.incarnation, Rank(b.status))
  }

  predicate Takes(b: Belief, r: Rumor) {
    || b.status == Unknown
    || r.incarnation > b.incarnation
    || (r.incarnation == b.incarnation && b.source == Remote && Rank(r.status) > Rank(b.status))
  }

  predicate Later(r: Rumor, than: Option<int>) {
    r.lastAliveAt.Some? && r.lastAliveAt.value > than.GetOr(0)
  }

  function Hears(b: Belief, r: Rumor, now: int): Belief {
    if Takes(b, r) then
      if r.status == Dead && b.open then Belief(Suspect, r.incarnation + 1, Local, b.lastAliveAt, false)
      else
        Belief(r.status, r.incarnation, Remote,
               if r.status != Alive then b.lastAliveAt
               else if r.lastAliveAt.Some? then r.lastAliveAt else Some(b.lastAliveAt.GetOr(now)),
               b.open)
    else if b.status == r.status && Later(r, b.lastAliveAt) then b.(lastAliveAt := r.lastAliveAt, source := Remote)
    else b
  }

  /** The rumors about `n`, one after the other. */
  function HearAll(b: Belief, rumors: seq<Rumor>, n: NodeId, now: int): Belief {
    if rumors == [] then b
    else
      var before, last := HearAll(b, rumors[..|rumors| - 1], n, now), rumors[|rumors| - 1];
      if last.nodeId == n then Hears(before, last, now) else before
  }

  predicate Blank(b: Belief) {
    b.status == Unknown && b.incarnation == 0 && b.source == Local && b.lastAliveAt.None?
  }

  /** Nothing known, or something learnt from a rumor: local verdicts refuse rumors of their own incarnation. */
  predicate Ready(b: Belief) {
    Blank(b) || (b.source == Remote && b.status != Unknown)
  }

  /** The rumor a belief amounts to. */
  function Known(b: Belief, n: NodeId): seq<Rumor> {
    if b.status == Unknown then [] else [Rumor(n, b.status, b.incarnation, b.lastAliveAt)]
  }

  // ---- Without a bounce: the join ----

  lemma {:induction false} OpenOnlyCloses(b: Belief, rumors: seq<Rumor>, n: NodeId, now: int)
    ensures HearAll(b, rumors, n, now).open ==> b.open
    ensures HearAll(b, rumors, n, now).open && b.status != Dead ==> HearAll(b, rumors, n, now).status != Dead
  {
    if rumors != [] { OpenOnlyCloses(b, rumors[..|rumors| - 1], n, now); }
  }

  /** As long as nothing bounces, the peer is held at the join of what was known and what is heard. */
  lemma {:induction false} HeldJoin(b: Belief, rumors: seq<Rumor>, n: NodeId, now: int)
    requires Ready(b) && WellFormedList(rumors) && HearAll(b, rumors, n, now).open == b.open
    ensures var heard, all := HearAll(b, rumors, n, now), Known(b, n) + rumors;
      if Mentions(all, n) then IsJoin(all, n, Held(heard)) && heard.source == Remote && heard.status != Unknown
      else heard == b
    decreases |rumors|
  {
    if rumors == [] {
      KnownJoin(b, n);
    } else {
      var init, last := rumors[..|rumors| - 1], rumors[|rumors| - 1];
      assert rumors == init + [last] && last in rumors && forall r :: r in init ==> r in rumors;
      OpenOnlyCloses(b, init, n, now);
      HeldJoin(b, init, n, now);
      JoinStep(HearAll(b, init, n, now), Known(b, n) + init, last, n, now);
      ConcatAssociative(Known(b, n), init, [last]);
    }
  }

  lemma KnownJoin(b: Belief, n: NodeId)
    requires Ready(b)
    ensures Known(b, n) + [] == Known(b, n)
    ensures if b.status == Unknown then !Mentions(Known(b, n), n) && Blank(b) else IsJoin(Known(b, n), n, Held(b)) && Mentions(Known(b, n), n)
  {
    if b.status != Unknown {
      var r := Rumor(n, b.status, b.incarnation, b.lastAliveAt);
      assert r in Known(b, n) && RumorVerdict(r) == Held(b);
    }
  }

  /** One more rumor on a store that holds the join, or nothing. */
  lemma JoinStep(before: Belief, init: seq<Rumor>, last: Rumor, n: NodeId, now: int)
    requires WellFormedRumor(last)
    requires if Mentions(init, n) then IsJoin(init, n, Held(before)) && before.source == Remote && before.status != Unknown
             else Blank(before)
    requires last.nodeId == n ==> Hears(before, last, now).open == before.open
    ensures var heard := if last.nodeId == n then Hears(before, last, now) else before;
      if Mentions(init + [last], n) then IsJoin(init + [last], n, Held(heard)) && heard.source == Remote && heard.status != Unknown
      else heard == before
  {
    CarriesAppend(init, last, n);
    MentionCarries(init, n);
  }

  // ---- A bounce and what comes after it ----

  /** The k-th rumor is a death notice that is taken while the channel is open. */
  ghost predicate BouncesAt(b: Belief, rumors: seq<Rumor>, n: NodeId, now: int, k: nat) {
    && k < |rumors| && rumors[k].nodeId == n && rumors[k].status == Dead
    && HearAll(b, rumors[..k], n, now).open && Takes(HearAll(b, rumors[..k], n, now), rumors[k])
  }

  /** The channel is still as it was exactly if nothing has bounced. */
  lemma {:induction false} BounceCloses(b: Belief, rumors: seq<Rumor>, n: NodeId, now: int)
    ensures HearAll(b, rumors, n, now).open != b.open <==> exists k :: BouncesAt(b, rumors, n, now, k)
    decreases |rumors|
  {
    if rumors != [] {
      var last := |rumors| - 1;
      var init := rumors[..last];
      BounceCloses(b, init, n, now);
      OpenOnlyCloses(b, init, n, now);
      forall k | 0 <= k < last ensures BouncesAt(b, init, n, now, k) <==> BouncesAt(b, rumors, n, now, k) {
        TakeTake(rumors, k, last);
      }
      if HearAll(b, init, n, now).open != b.open {
        var k :| BouncesAt(b, init, n, now, k);
        assert BouncesAt(b, rumors, n, now, k);
      }
      if k: nat :| BouncesAt(b, rumors, n, now, k) {
        assert k < last ==> BouncesAt(b, init, n, now, k);
      }
      assert rumors[..last] == init;
      assert last < |rumors| && HearAll(b, rumors, n, now).open != HearAll(b, init, n, now).open ==> BouncesAt(b, rumors, n, now, last);
    }
  }

  /** Some rumor is two incarnations past the death notice. */
  ghost predicate Outrun(rumors: seq<Rumor>, n: NodeId, i: int) {
    exists r :: r in rumors && r.nodeId == n && r.incarnation >= i + 2
  }

  /** A suspicion heard after the bounce with a later last-alive time: it makes the local suspicion remote. */
  ghost predicate FlipsAt(rumors: seq<Rumor>, n: NodeId, k: nat, since: Option<int>, p: nat) {
    k < p < |rumors| && rumors[p].nodeId == n && rumors[p].status == Suspect && Later(rumors[p], since)
  }

  ghost predicate Flipped(rumors: seq<Rumor>, n: NodeId, k: nat, since: Option<int>) {
    exists p :: FlipsAt(rumors, n, k, since, p)
  }

  /** After such a suspicion, a death notice of the very incarnation the bounce has reached. */
  ghost predicate Reopened(rumors: seq<Rumor>, n: NodeId, k: nat, i: int, since: Option<int>) {
    exists p: nat, q: nat :: FlipsAt(rumors, n, k, since, p) && p < q < |rumors| && IsDeath(rumors[q], n, i + 1)
  }

  predicate IsDeath(r: Rumor, n: NodeId, i: int) {
    r.nodeId == n && r.status == Dead && r.incarnation == i
  }

  /** Where a belief stands after a bounce at incarnation `i`. */
  ghost predicate AfterBounce(heard: Belief, rumors: seq<Rumor>, n: NodeId, k: nat, i: int, since: Option<int>) {
    && !heard.open
    && if Outrun(rumors, n, i) then IsJoin(rumors, n, Held(heard)) && heard.source == Remote && heard.status != Unknown
       else if Reopened(rumors, n, k, i, since) then heard.status == Dead && heard.incarnation == i + 1 && heard.source == Remote
       else
         && heard.status == Suspect && heard.incarnation == i + 1
         && (heard.source == Remote <==> Flipped(rumors, n, k, since))
         && (heard.source == Local ==> heard.lastAliveAt == since)
  }

  lemma FlipsAtAppend(init: seq<Rumor>, last: Rumor, n: NodeId, k: nat, since: Option<int>, p: nat)
    requires k < |init|
    ensures p < |init| ==> (FlipsAt(init + [last], n, k, since, p) <==> FlipsAt(init, n, k, since, p))
    ensures p == |init| ==>
      (FlipsAt(init + [last], n, k, since, p) <==> last.nodeId == n && last.status == Suspect && Later(last, since))
    ensures p > |init| ==> !FlipsAt(init + [last], n, k, since, p)
  {
  }

  lemma FlippedAppend(init: seq<Rumor>, last: Rumor, n: NodeId, k: nat, since: Option<int>)
    requires k < |init|
    ensures Flipped(init + [last], n, k, since) <==>
      Flipped(init, n, k, since) || (last.nodeId == n && last.status == Suspect && Later(last, since))
  {
    FlipsAtAppend(init, last, n, k, since, |init|);
    if p: nat :| FlipsAt(init, n, k, since, p) {
      FlipsAtAppend(init, last, n, k, since, p);
    }
    if p: nat :| FlipsAt(init + [last], n, k, since, p) {
      FlipsAtAppend(init, last, n, k, since, p);
    }
  }

  lemma ReopenedAppend(init: seq<Rumor>, last: Rumor, n: NodeId, k: nat, i: int, since: Option<int>)
    requires k < |init|
    ensures Reopened(init + [last], n, k, i, since) <==>
      Reopened(init, n, k, i, since) || (Flipped(init, n, k, since) && IsDeath(last, n, i + 1))
  {
    var all := init + [last];
    if p: nat, q: nat :| FlipsAt(init, n, k, since, p) && p < q < |init| && IsDeath(init[q], n, i + 1) {
      FlipsAtAppend(init, last, n, k, since, p);
      assert all[q] == init[q];
    }
    if p: nat :| FlipsAt(init, n, k, since, p) {
      FlipsAtAppend(init, last, n, k, since, p);
      assert p < |init| && all[|init|] == last;
    }
    if p: nat, q: nat :| FlipsAt(all, n, k, since, p) && p < q < |all| && IsDeath(all[q], n, i + 1) {
      FlipsAtAppend(init, last, n, k, since, p);
      assert q < |init| ==> all[q] == init[q];
    }
  }

  lemma OutrunAppend(init: seq<Rumor>, last: Rumor, n: NodeId, i: int)
    ensures Outrun(init + [last], n, i) <==> Outrun(init, n, i) || (last.nodeId == n && last.incarnation >= i + 2)
  {
    assert forall x :: x in init + [last] <==> x in init || x == last;
    if Outrun(init, n, i) {
      var r :| r in init && r.nodeId == n && r.incarnation >= i + 2;
      assert r in init + [last];
    }
    assert last in init + [last];
  }

  /** The greatest incarnation heard so far when nothing is two past the death notice. */
  ghost predicate Capped(rumors: seq<Rumor>, n: NodeId, i: int) {
    forall v :: Carries(rumors, n, v) ==> v.incarnation <= i + 1
  }

  lemma NotOutrunCapped(rumors: seq<Rumor>, n: NodeId, i: int)
    ensures !Outrun(rumors, n, i) <==> Capped(rumors, n, i)
  {
    if r :| r in rumors && r.nodeId == n && r.incarnation >= i + 2 {
      assert Carries(rumors, n, RumorVerdict(r));
    }
  }

  lemma AfterStep(before: Belief, init: seq<Rumor>, last: Rumor, n: NodeId, now: int, k: nat, i: int, since: Option<int>)
    requires WellFormedRumor(last) && k < |init| && init[k].nodeId == n && AfterBounce(before, init, n, k, i, since)
    ensures AfterBounce(if last.nodeId == n then Hears(before, last, now) else before, init + [last], n, k, i, since)
  {
    FlippedAppend(init, last, n, k, since);
    ReopenedAppend(init, last, n, k, i, since);
    OutrunAppend(init, last, n, i);
    CarriesAppend(init, last, n);
    NotOutrunCapped(init, n, i);
    assert init[k] in init && Mentions(init, n);
    if last.nodeId == n && Outrun(init, n, i) {
      JoinStep(before, init, last, n, now);
    }
  }

  /** From the bounce on: outrun by a later incarnation, reopened, or stuck one incarnation above the death notice. */
  lemma {:induction false} Aftermath(b: Belief, rumors: seq<Rumor>, n: NodeId, now: int, k: nat)
    requires Ready(b) && WellFormedList(rumors) && BouncesAt(b, rumors, n, now, k)
    ensures AfterBounce(HearAll(b, rumors, n, now), rumors, n, k, rumors[k].incarnation, HearAll(b, rumors[..k], n, now).lastAliveAt)
    decreases |rumors|
  {
    var i, since := rumors[k].incarnation, HearAll(b, rumors[..k], n, now).lastAliveAt;
    var init, last := rumors[..|rumors| - 1], rumors[|rumors| - 1];
    assert rumors == init + [last] && last in rumors && forall r :: r in init ==> r in rumors;
    if k == |rumors| - 1 {
      NothingPast(b, rumors, n, now, k);
      assert !Flipped(rumors, n, k, since);
    } else {
      TakeTake(rumors, k, |rumors| - 1);
      Aftermath(b, init, n, now, k);
      AfterStep(HearAll(b, init, n, now), init, last, n, now, k, i, since);
    }
  }

  /** A death notice that is taken is at least as great as everything known and heard before it. */
  lemma TakenIsGreatest(b: Belief, rumors: seq<Rumor>, n: NodeId, now: int, k: nat)
    requires Ready(b) && WellFormedList(rumors) && BouncesAt(b, rumors, n, now, k)
    ensures forall v :: Carries(Known(b, n) + rumors[..k], n, v) ==> v.incarnation <= rumors[k].incarnation
  {
    var init := rumors[..k];
    assert forall r :: r in init ==> r in rumors;
    OpenOnlyCloses(b, init, n, now);
    HeldJoin(b, init, n, now);
    MentionCarries(Known(b, n) + init, n);
  }

  lemma CarriesConcat(a: seq<Rumor>, b: seq<Rumor>, n: NodeId, v: Verdict)
    ensures Carries(a + b, n, v) <==> Carries(a, n, v) || Carries(b, n, v)
  {
    if Carries(a, n, v) {
      var r :| r in a && r.nodeId == n && RumorVerdict(r) == v;
      assert r in a + b;
    }
    if Carries(b, n, v) {
      var r :| r in b && r.nodeId == n && RumorVerdict(r) == v;
      assert r in a + b;
    }
  }

  lemma NothingPast(b: Belief, rumors: seq<Rumor>, n: NodeId, now: int, k: nat)
    requires Ready(b) && WellFormedList(rumors) && BouncesAt(b, rumors, n, now, k) && k == |rumors| - 1
    ensures !Outrun(rumors, n, rumors[k].incarnation)
  {
    var init, last := rumors[..k], rumors[k];
    assert rumors == init + [last];
    TakenIsGreatest(b, rumors, n, now, k);
    forall v | Carries(init, n, v) ensures v.incarnation <= last.incarnation {
      CarriesConcat(Known(b, n), init, n, v);
    }
    OutrunAppend(init, last, n, last.incarnation);
    NotOutrunCapped(init, n, last.incarnation);
  }
}
