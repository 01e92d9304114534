/**
 What registering and unregistering do to the two indexes of the peer locator
 (src/runtime/routing/peer-locator.ts): where the connection is afterwards, in which place of its peer's
 group, and that every other connection stays where it was.
 */
module PeerLocatorMoves {
  import opened Prelude
  import opened PeerLocator

  ghost function GroupOf(s: State, peerId: string): Group {
    if peerId in s.connsByPeer then s.connsByPeer[peerId] else []
  }

  /** Both indexes know the connection, under its own peer. */
  ghost predicate IsAt(s: State, c: ConnRef) {
    c.connId in s.connsById && s.connsById[c.connId] == c && c in GroupOf(s, c.peerId)
  }

  /** Neither index knows the connection id. */
  ghost predicate Gone(s: State, connId: string) {
    connId !in s.connsById && forall peerId, c :: peerId in s.connsByPeer && c in s.connsByPeer[peerId] ==> c.connId != connId
  }

  ghost predicate OthersStay(s: State, after: State, connId: string) {
    forall c: ConnRef :: c.connId != connId ==> (IsAt(after, c) <==> IsAt(s, c))
  }

  lemma IndexedIsAt(s: State, c: ConnRef)
    requires Inv(s)
    ensures IsAt(s, c) <==> c.connId in s.connsById && s.connsById[c.connId] == c
  {
    assert Agrees(s, c.peerId);
  }

  lemma NotIndexedIsGone(s: State, connId: string)
    requires Inv(s) && connId !in s.connsById
    ensures Gone(s, connId)
  {
    forall peerId, c | peerId in s.connsByPeer && c in s.connsByPeer[peerId] ensures c.connId != connId {
      assert Agrees(s, peerId);
    }
  }

  /** An unregistered connection is in neither index any more, and every other one is where it was. */
  lemma UnregisterMeans(s: State, connId: string)
    requires Inv(s)
    ensures var after := Unregistered(s, connId);
      Inv(after) && Gone(after, connId) && OthersStay(s, after, connId)
  {
    var after := Unregistered(s, connId);
    if connId in s.connsById { DetachInv(s, s.connsById[connId]); }
    NotIndexedIsGone(after, connId);
    forall c: ConnRef | c.connId != connId ensures IsAt(after, c) <==> IsAt(s, c) {
      IndexedIsAt(s, c);
      IndexedIsAt(after, c);
    }
  }

  /** A registered connection is in both indexes as registered, nowhere else, and every other one is where it was. */
  lemma RegisterMeans(s: State, c: ConnRef)
    requires Inv(s)
    ensures var after := Registered(s, c);
      && Inv(after) && IsAt(after, c) && OthersStay(s, after, c.connId)
      && forall peerId, x :: peerId in after.connsByPeer && x in after.connsByPeer[peerId] && x.connId == c.connId ==> x == c
  {
    var after := Registered(s, c);
    RegisterInv(s, c);
    IndexedIsAt(after, c);
    forall x: ConnRef | x.connId != c.connId ensures IsAt(after, x) <==> IsAt(s, x) {
      IndexedIsAt(s, x);
      IndexedIsAt(after, x);
    }
    forall peerId, x | peerId in after.connsByPeer && x in after.connsByPeer[peerId] && x.connId == c.connId ensures x == c {
      assert Agrees(after, peerId);
    }
  }

  // ---- The order within a group ----

  lemma {:induction false} PutLast(group: Group, c: ConnRef)
    requires forall x :: x in group ==> x.connId != c.connId
    ensures Put(group, c) == group + [c]
  {
    if group != [] {
      PutLast(group[1..], c);
      assert group == [group[0]] + group[1..];
    }
  }

  ghost function With(a: Group, c: ConnRef, b: Group): Group {
    a + [c] + b
  }

  lemma {:induction false} PutInPlace(a: Group, prior: ConnRef, b: Group, c: ConnRef)
    requires DistinctConns(With(a, prior, b)) && prior.connId == c.connId
    ensures Put(With(a, prior, b), c) == With(a, c, b)
  {
    var group := With(a, prior, b);
    if a == [] {
      assert group[1..] == b;
    } else {
      assert group[|a|] == prior;
      assert group[1..] == With(a[1..], prior, b);
      PutInPlace(a[1..], prior, b, c);
      assert With(a, c, b) == [a[0]] + With(a[1..], c, b);
    }
  }

  lemma {:induction false} DropNone(group: Group, connId: string)
    requires forall x :: x in group ==> x.connId != connId
    ensures Drop(group, connId) == group
  {
    if group != [] { DropNone(group[1..], connId); }
  }

  lemma NotAround(a: Group, c: ConnRef, b: Group)
    requires DistinctConns(With(a, c, b))
    ensures forall x :: x in a || x in b ==> x.connId != c.connId
  {
    var group := With(a, c, b);
    assert group[|a|] == c;
    forall x | x in a ensures x.connId != c.connId {
      var i :| 0 <= i < |a| && a[i] == x;
      assert group[i] == x;
    }
    forall x | x in b ensures x.connId != c.connId {
      var i :| 0 <= i < |b| && b[i] == x;
      assert group[|a| + 1 + i] == x;
    }
  }

  lemma DropMiddle(a: Group, c: ConnRef, b: Group)
    requires DistinctConns(With(a, c, b))
    ensures Drop(With(a, c, b), c.connId) == a + b
  {
    NotAround(a, c, b);
    DropOne(a, c, b);
  }

  lemma {:induction false} DropOne(a: Group, c: ConnRef, b: Group)
    requires forall x :: x in a || x in b ==> x.connId != c.connId
    ensures Drop(With(a, c, b), c.connId) == a + b
  {
    var group := With(a, c, b);
    if a == [] {
      assert group[0] == c && group[1..] == b;
      DropNone(b, c.connId);
    } else {
      assert a[0] in a && group[0] == a[0] && group[1..] == With(a[1..], c, b);
      DropOne(a[1..], c, b);
      assert a + b == [a[0]] + (a[1..] + b);
    }
  }

  /** Unregistering closes the gap in the peer's group and leaves every other group as it is. */
  lemma UnregisterOrder(s: State, a: Group, c: ConnRef, b: Group)
    requires Inv(s) && IsAt(s, c) && GroupOf(s, c.peerId) == With(a, c, b)
    ensures var after := Unregistered(s, c.connId);
      && GroupOf(after, c.peerId) == a + b
      && forall peerId :: peerId != c.peerId ==> GroupOf(after, peerId) == GroupOf(s, peerId)
  {
    assert Agrees(s, c.peerId);
    DropMiddle(a, c, b);
  }

  /** A new connection comes last in its peer's group; all else is as it was. */
  lemma RegisterNewOrder(s: State, c: ConnRef)
    requires Inv(s) && c.connId !in s.connsById
    ensures var after := Registered(s, c);
      && GroupOf(after, c.peerId) == GroupOf(s, c.peerId) + [c]
      && forall peerId :: peerId != c.peerId ==> GroupOf(after, peerId) == GroupOf(s, peerId)
  {
    NotIndexedIsGone(s, c.connId);
    PutLast(GroupOf(s, c.peerId), c);
  }

  /** One that registers again keeps its place under the same peer, and comes last under another. */
  lemma RegisterAgainOrder(s: State, a: Group, prior: ConnRef, b: Group, c: ConnRef)
    requires Inv(s) && IsAt(s, prior) && prior.connId == c.connId && GroupOf(s, prior.peerId) == With(a, prior, b)
    ensures var after := Registered(s, c);
      && (prior.peerId == c.peerId ==> GroupOf(after, c.peerId) == With(a, c, b))
      && (prior.peerId != c.peerId ==>
            GroupOf(after, prior.peerId) == a + b && GroupOf(after, c.peerId) == GroupOf(s, c.peerId) + [c])
      && forall peerId :: peerId != c.peerId && peerId != prior.peerId ==> GroupOf(after, peerId) == GroupOf(s, peerId)
  {
    assert Agrees(s, prior.peerId) && Agrees(s, c.peerId);
    if prior.peerId == c.peerId {
      PutInPlace(a, prior, b, c);
    } else {
      DropMiddle(a, prior, b);
      PutLast(GroupOf(s, c.peerId), c);
    }
  }
}
