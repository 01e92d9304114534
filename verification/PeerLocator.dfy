/**
 The in-memory peer locator's two indexes (src/runtime/routing/peer-locator.ts) and the dispatcher's
 delivery plan over them (src/runtime/routing/dispatcher.ts).
 */
module PeerLocator {
  import opened Prelude

  datatype ConnRef = ConnRef(nodeId: string, connId: string, peerId: string, groupId: Option<string>)

  /** Connections of one peer in insertion order, keyed by connection id. */
  type Group = seq<ConnRef>

  function Put(group: Group, c: ConnRef): Group {
    if group == [] then [c]
    else if group[0].connId == c.connId then [c] + group[1..]
    else [group[0]] + Put(group[1..], c)
  }

  function NotConn(connId: string): ConnRef -> bool {
    (c: ConnRef) => c.connId != connId
  }

  function Drop(group: Group, connId: string): Group {
    Filter(NotConn(connId), group)
  }

  datatype State = State(connsById: map<string, ConnRef>, connsByPeer: map<string, Group>)

  /** Takes a connection out of its peer's group, and the group out of the index when it becomes empty. */
  function Detach(byPeer: map<string, Group>, c: ConnRef): map<string, Group> {
    if c.peerId !in byPeer then byPeer
    else
      var rest := Drop(byPeer[c.peerId], c.connId);
      if rest == [] then byPeer - {c.peerId} else byPeer[c.peerId := rest]
  }

  function Registered(s: State, c: ConnRef): State {
    var byPeer :=
      if c.connId in s.connsById && s.connsById[c.connId].peerId != c.peerId
      then Detach(s.connsByPeer, s.connsById[c.connId]) else s.connsByPeer;
    State(s.connsById[c.connId := c],
          byPeer[c.peerId := Put(if c.peerId in byPeer then byPeer[c.peerId] else [], c)])
  }

  function Unregistered(s: State, connId: string): State {
    if connId !in s.connsById then s
    else State(s.connsById - {connId}, Detach(s.connsByPeer, s.connsById[connId]))
  }

  datatype Event = RegisterEvent(conn: ConnRef) | UnregisterEvent(connId: string)

  function Step(s: State, event: Event): State {
    match event
    case RegisterEvent(c) => Registered(s, c)
    case UnregisterEvent(id) => Unregistered(s, id)
  }

  function Run(s: State, events: seq<Event>): State
    decreases |events|
  {
    if events == [] then s else Run(Step(s, events[0]), events[1..])
  }

  function InGroup(groupId: Option<string>): ConnRef -> bool {
    (c: ConnRef) => c.groupId == groupId
  }

  /** `find` with a group option. */
  function Find(s: State, peerId: string, groupId: Option<string>): seq<ConnRef> {
    Filter(InGroup(groupId), if peerId in s.connsByPeer then s.connsByPeer[peerId] else [])
  }

  class InMemoryPeerLocator {
    var connsById: map<string, ConnRef>
    var connsByPeer: map<string, Group>

    ghost function Abs(): State
      reads this
    {
      State(connsById, connsByPeer)
    }

    constructor ()
      ensures Abs() == State(map[], map[])
    {
      connsById := map[];
      connsByPeer := map[];
    }

    method Register(connRef: ConnRef)
      modifies this
      ensures Abs() == Registered(old(Abs()), connRef)
    {
      if connRef.connId in connsById && connsById[connRef.connId].peerId != connRef.peerId {
        DetachFromPeer(connsById[connRef.connId]);
      }
      connsById := connsById[connRef.connId := connRef];
      if connRef.peerId !in connsByPeer {
        connsByPeer := connsByPeer[connRef.peerId := []];
      }
      connsByPeer := connsByPeer[connRef.peerId := Put(connsByPeer[connRef.peerId], connRef)];
    }

    method Unregister(connId: string)
      modifies this
      ensures Abs() == Unregistered(old(Abs()), connId)
    {
      if connId !in connsById {
        return;
      }
      var connRef := connsById[connId];
      connsById := connsById - {connId};
      DetachFromPeer(connRef);
    }

    method DetachFromPeer(connRef: ConnRef)
      modifies this`connsByPeer
      ensures connsByPeer == Detach(old(connsByPeer), connRef)
    {
      if connRef.peerId !in connsByPeer {
        return;
      }
      var rest := Drop(connsByPeer[connRef.peerId], connRef.connId);
      connsByPeer := connsByPeer[connRef.peerId := rest];
      if |rest| == 0 {
        connsByPeer := connsByPeer - {connRef.peerId};
      }
    }

    /** While the indexes agree this is also the sum of what is counted per peer. */
    method CountConnections() returns (n: nat)
      ensures n == |connsById|
      ensures Inv(Abs()) ==> n == SumOfCounts(connsByPeer)
    {
      if Inv(Abs()) {
        CountsAddUp(Abs());
      }
      return |connsById|;
    }

    /** How many connections the per-connection index attributes to the peer. */
    method CountConnectionsForPeer(peerId: string) returns (n: nat)
      ensures Inv(Abs()) ==> n == |ConnectionsOf(Abs(), peerId)|
      ensures n == 0 <==> peerId !in connsByPeer || connsByPeer[peerId] == []
    {
      if Inv(Abs()) {
        CountsPeer(Abs(), peerId);
      }
      return if peerId in connsByPeer then |connsByPeer[peerId]| else 0;
    }

    /** Whatever else runs during a wait. */
    method Interfere(events: seq<Event>)
      modifies this
      ensures Abs() == Run(old(Abs()), events)
    {
      ghost var start := Abs();
      for i := 0 to |events|
        invariant Run(Abs(), events[i..]) == Run(start, events)
      {
        assert events[i..][1..] == events[i + 1..];
        match events[i]
        case RegisterEvent(c) => Register(c);
        case UnregisterEvent(id) => Unregister(id);
      }
    }

    method FindConnections(peerId: string, groupId: Option<string>) returns (conns: Group)
      ensures conns == Find(Abs(), peerId, groupId)
    {
      conns := if peerId in connsByPeer then connsByPeer[peerId] else [];
      return Filter(InGroup(groupId), conns);
    }

    /** `findMany` waits after each peer it reads: `gaps[i]` is what runs before the i-th read. */
    method FindMany(peerIds: seq<string>, groupId: Option<string>, gaps: seq<seq<Event>>)
      returns (located: map<string, Group>)
      requires |gaps| == |peerIds|
      modifies this
      ensures located == Located(old(Abs()), peerIds, groupId, gaps)
      ensures Abs() == Before(old(Abs()), gaps, |gaps|)
    {
      located := map[];
      ghost var start := Abs();
      for i := 0 to |peerIds|
        invariant Abs() == Before(start, gaps, i)
        invariant located == Located(start, peerIds[..i], groupId, gaps)
      {
        Interfere(gaps[i]);
        TakeTake(peerIds, i, i + 1);
        var conns := FindConnections(peerIds[i], groupId);
        located := located[peerIds[i] := conns];
      }
      TakeAll(peerIds);
    }

    /** The dispatcher's plan, over a locator that goes on changing while the plan is built. */
    method BuildPlan(peerIds: seq<string>, groupId: Option<string>, gaps: seq<seq<Event>>) returns (targets: seq<ConnRef>)
      requires |gaps| == |Unique(peerIds)|
      modifies this
      ensures targets == Flatten(Reads(old(Abs()), Unique(peerIds), groupId, gaps))
      ensures Abs() == Before(old(Abs()), gaps, |gaps|)
    {
      var unique := Unique(peerIds);
      ghost var readings := Reads(Abs(), unique, groupId, gaps);
      LocatedReads(Abs(), unique, groupId, gaps);
      var located := FindMany(unique, groupId, gaps);
      targets := [];
      for i := 0 to |unique|
        invariant Abs() == Before(old(Abs()), gaps, |gaps|)
        invariant targets == Flatten(readings[..i])
      {
        TakeTake(readings, i, i + 1);
        targets := targets + located[unique[i]];
      }
      TakeAll(readings);
    }
  }

  // ---- Agreement of the indexes ----

  ghost predicate DistinctConns(group: Group) {
    forall i, j :: 0 <= i < j < |group| ==> group[i].connId != group[j].connId
  }

  /** One peer's group is non-empty, duplicate-free and holds exactly the indexed connections of that peer. */
  ghost predicate Agrees(s: State, peerId: string) {
    var indexed := exists id :: id in s.connsById && s.connsById[id].peerId == peerId;
    && (peerId in s.connsByPeer <==> indexed)
    && (peerId in s.connsByPeer ==>
          && DistinctConns(s.connsByPeer[peerId])
          && forall c :: c in s.connsByPeer[peerId] <==>
               c.peerId == peerId && c.connId in s.connsById && s.connsById[c.connId] == c)
  }

  ghost predicate Inv(s: State) {
    && (forall id :: id in s.connsById ==> s.connsById[id].connId == id)
    && forall peerId :: Agrees(s, peerId)
  }

  lemma {:induction false} PutFacts(group: Group, c: ConnRef)
    requires DistinctConns(group)
    ensures DistinctConns(Put(group, c)) && Put(group, c) != []
    ensures forall x :: x in Put(group, c) <==> x == c || (x in group && x.connId != c.connId)
  {
    if group != [] {
      assert forall x :: x in group <==> x == group[0] || x in group[1..];
      if group[0].connId != c.connId {
        PutFacts(group[1..], c);
        var r := Put(group, c);
        assert r[1..] == Put(group[1..], c);
        assert forall x :: x in r <==> x == r[0] || x in r[1..];
        forall i, j | 0 <= i < j < |r| ensures r[i].connId != r[j].connId {
          assert r[j] in r[1..];
        }
      } else {
        var r := Put(group, c);
        assert forall x :: x in r <==> x == r[0] || x in group[1..];
      }
    }
  }

  lemma {:induction false} DropFacts(group: Group, connId: string)
    requires DistinctConns(group)
    ensures DistinctConns(Drop(group, connId))
    ensures forall x :: x in Drop(group, connId) <==> x in group && x.connId != connId
  {
    if group != [] {
      DropFacts(group[1..], connId);
      var r := Drop(group, connId);
      if group[0].connId != connId {
        assert r == [group[0]] + Drop(group[1..], connId);
        forall i, j | 0 <= i < j < |r| ensures r[i].connId != r[j].connId {
          assert r[j] in Drop(group[1..], connId);
        }
      }
    }
  }

  /** Taking a connection out of both indexes. */
  lemma DetachInv(s: State, c: ConnRef)
    requires Inv(s) && c.connId in s.connsById && s.connsById[c.connId] == c
    ensures Inv(State(s.connsById - {c.connId}, Detach(s.connsByPeer, c)))
  {
    var after := State(s.connsById - {c.connId}, Detach(s.connsByPeer, c));
    assert Agrees(s, c.peerId);
    DropFacts(s.connsByPeer[c.peerId], c.connId);
    var rest := Drop(s.connsByPeer[c.peerId], c.connId);
    forall p ensures Agrees(after, p) {
      assert Agrees(s, p);
      if p == c.peerId {
        if rest != [] { assert rest[0] in rest && rest[0].connId in after.connsById; }
        forall id | id in after.connsById && after.connsById[id].peerId == p ensures rest != [] {
          assert s.connsById[id] in s.connsByPeer[p];
          assert s.connsById[id] in rest;
        }
      } else {
        forall id | id in s.connsById && s.connsById[id].peerId == p ensures id in after.connsById {
        }
      }
    }
  }

  /** Putting a connection whose id is unused into both indexes. */
  lemma AttachInv(s: State, c: ConnRef)
    requires Inv(s) && c.connId !in s.connsById
    ensures Inv(Registered(s, c))
  {
    var after := Registered(s, c);
    var group := if c.peerId in s.connsByPeer then s.connsByPeer[c.peerId] else [];
    assert Agrees(s, c.peerId);
    PutFacts(group, c);
    forall p ensures Agrees(after, p) {
      assert Agrees(s, p);
      assert after.connsById[c.connId] == c;
      forall id | id in s.connsById && s.connsById[id].peerId == p
        ensures id in after.connsById && after.connsById[id].peerId == p
      {
      }
    }
  }

  /** A connection id registered again for the same peer replaces the old reference in place. */
  lemma ReplaceInv(s: State, c: ConnRef)
    requires Inv(s) && c.connId in s.connsById && s.connsById[c.connId].peerId == c.peerId
    ensures Inv(Registered(s, c))
  {
    var after := Registered(s, c);
    assert Agrees(s, c.peerId);
    PutFacts(s.connsByPeer[c.peerId], c);
    forall p ensures Agrees(after, p) {
      assert Agrees(s, p);
      assert after.connsById[c.connId] == c;
      forall id | id in s.connsById && s.connsById[id].peerId == p
        ensures id in after.connsById && after.connsById[id].peerId == p
      {
      }
    }
  }

  lemma RegisterInv(s: State, c: ConnRef)
    requires Inv(s)
    ensures Inv(Registered(s, c))
  {
    if c.connId !in s.connsById {
      AttachInv(s, c);
    } else if s.connsById[c.connId].peerId == c.peerId {
      ReplaceInv(s, c);
    } else {
      var existing := s.connsById[c.connId];
      DetachInv(s, existing);
      var detached := State(s.connsById - {c.connId}, Detach(s.connsByPeer, existing));
      AttachInv(detached, c);
      assert (s.connsById - {c.connId})[c.connId := c] == s.connsById[c.connId := c];
      assert Registered(detached, c) == Registered(s, c);
    }
  }

  /**
   After any sequence of registrations and removals, connections moving between peers included, the
   per-peer index is exactly the grouping of the per-connection index, without empty groups.
   */
  lemma {:induction false} IndexesAgree(s: State, events: seq<Event>)
    requires Inv(s)
    ensures Inv(Run(s, events))
    decreases |events|
  {
    if events != [] {
      match events[0] {
        case RegisterEvent(c) => RegisterInv(s, c);
        case UnregisterEvent(id) => if id in s.connsById { DetachInv(s, s.connsById[id]); }
      }
      IndexesAgree(Step(s, events[0]), events[1..]);
    }
  }

  // ---- Counting ----

  ghost function AnyPeer(byPeer: map<string, Group>): string
    requires byPeer != map[]
    ensures AnyPeer(byPeer) in byPeer
  {
    assert byPeer.Keys == {} ==> byPeer == map[];
    var p :| p in byPeer;
    p
  }

  ghost function SumOfCounts(byPeer: map<string, Group>): nat
    decreases |byPeer|
  {
    if byPeer == map[] then 0
    else
      var p := AnyPeer(byPeer);
      assert |byPeer - {p}| < |byPeer| by { assert (byPeer - {p}).Keys == byPeer.Keys - {p}; }
      |byPeer[p]| + SumOfCounts(byPeer - {p})
  }

  ghost function ConnIds(group: Group): set<string> {
    set c | c in group :: c.connId
  }

  lemma {:induction false} ConnIdsSize(group: Group)
    requires DistinctConns(group)
    ensures |ConnIds(group)| == |group|
  {
    if group != [] {
      ConnIdsSize(group[1..]);
      assert ConnIds(group) == ConnIds(group[1..]) + {group[0].connId};
    }
  }

  lemma EveryPeerListed(s: State)
    requires Inv(s)
    ensures forall id :: id in s.connsById ==> s.connsById[id].peerId in s.connsByPeer
  {
    forall id | id in s.connsById ensures s.connsById[id].peerId in s.connsByPeer {
      assert Agrees(s, s.connsById[id].peerId);
    }
  }

  /** The per-peer counts add up to the number of connections. */
  lemma {:induction false} CountsAddUp(s: State)
    requires Inv(s)
    ensures SumOfCounts(s.connsByPeer) == |s.connsById|
    decreases |s.connsByPeer|
  {
    if s.connsByPeer == map[] {
      EveryPeerListed(s);
      assert s.connsById.Keys == {};
    } else {
      var p := AnyPeer(s.connsByPeer);
      assert Agrees(s, p);
      var ids := ConnIds(s.connsByPeer[p]);
      ConnIdsSize(s.connsByPeer[p]);
      var rest := State(s.connsById - ids, s.connsByPeer - {p});
      assert rest.connsByPeer.Keys == s.connsByPeer.Keys - {p};
      WithoutPeer(s, p);
      CountsAddUp(rest);
      assert rest.connsById.Keys == s.connsById.Keys - ids && ids <= s.connsById.Keys;
      assert |s.connsById.Keys| == |s.connsById.Keys - ids| + |ids|;
    }
  }

  lemma WithoutPeer(s: State, p: string)
    requires Inv(s) && p in s.connsByPeer
    ensures Inv(State(s.connsById - ConnIds(s.connsByPeer[p]), s.connsByPeer - {p}))
  {
    var rest := State(s.connsById - ConnIds(s.connsByPeer[p]), s.connsByPeer - {p});
    assert Agrees(s, p);
    forall q ensures Agrees(rest, q) {
      assert Agrees(s, q);
      forall id | id in s.connsById && s.connsById[id].peerId == q && q != p ensures id in rest.connsById {
      }
      forall id | id in s.connsById && s.connsById[id].peerId == p ensures id !in rest.connsById {
        assert s.connsById[id] in s.connsByPeer[p];
      }
    }
  }

  ghost function ConnectionsOf(s: State, peerId: string): set<string> {
    set id | id in s.connsById && s.connsById[id].peerId == peerId
  }

  lemma CountsPeer(s: State, peerId: string)
    requires Inv(s)
    ensures |ConnectionsOf(s, peerId)| == if peerId in s.connsByPeer then |s.connsByPeer[peerId]| else 0
  {
    assert Agrees(s, peerId);
    if peerId in s.connsByPeer {
      var group := s.connsByPeer[peerId];
      ConnIdsSize(group);
      forall id ensures id in ConnIds(group) <==> id in ConnectionsOf(s, peerId) {
        if id in ConnectionsOf(s, peerId) { assert s.connsById[id] in group; }
      }
      assert ConnIds(group) == ConnectionsOf(s, peerId);
    } else {
      assert ConnectionsOf(s, peerId) == {};
    }
  }

  // ---- Delivery plans ----

  /** The state after the first `k` gaps; read i happens in `Before(s, gaps, i + 1)`. */
  function Before(s: State, gaps: seq<seq<Event>>, k: nat): State
    requires k <= |gaps|
  {
    if k == 0 then s else Run(Before(s, gaps, k - 1), gaps[k - 1])
  }

  function Read(s: State, peerIds: seq<string>, groupId: Option<string>, gaps: seq<seq<Event>>, i: nat): Group
    requires i < |peerIds| <= |gaps|
  {
    Find(Before(s, gaps, i + 1), peerIds[i], groupId)
  }

  /** Each peer's connections as they were when it was read. A plan is their concatenation. */
  function Reads(s: State, peerIds: seq<string>, groupId: Option<string>, gaps: seq<seq<Event>>): (r: seq<Group>)
    requires |peerIds| <= |gaps|
    ensures |r| == |peerIds| && forall i :: 0 <= i < |r| ==> r[i] == Read(s, peerIds, groupId, gaps, i)
  {
    seq(|peerIds|, i requires 0 <= i < |peerIds| => Read(s, peerIds, groupId, gaps, i))
  }

  /** What `findMany` returns: of a peer read twice, the later reading. */
  function Located(s: State, peerIds: seq<string>, groupId: Option<string>, gaps: seq<seq<Event>>): map<string, Group>
    requires |peerIds| <= |gaps|
  {
    if peerIds == [] then map[]
    else
      var last := |peerIds| - 1;
      Located(s, peerIds[..last], groupId, gaps)[peerIds[last] := Read(s, peerIds, groupId, gaps, last)]
  }

  lemma {:induction false} LocatedReads(s: State, peerIds: seq<string>, groupId: Option<string>, gaps: seq<seq<Event>>)
    requires |peerIds| <= |gaps| && Distinct(peerIds)
    ensures Located(s, peerIds, groupId, gaps).Keys == ToSet(peerIds)
    ensures forall i :: 0 <= i < |peerIds| ==>
      Located(s, peerIds, groupId, gaps)[peerIds[i]] == Read(s, peerIds, groupId, gaps, i)
  {
    if peerIds != [] {
      var last := |peerIds| - 1;
      LocatedReads(s, peerIds[..last], groupId, gaps);
      TakeNext(peerIds, last);
      TakeAll(peerIds);
      assert forall p :: p in peerIds <==> p in peerIds[..last] || p == peerIds[last];
      forall i | 0 <= i < last ensures Located(s, peerIds, groupId, gaps)[peerIds[i]] == Read(s, peerIds, groupId, gaps, i) {
        assert peerIds[..last][i] == peerIds[i] && peerIds[i] != peerIds[last];
      }
    }
  }

  /** At the i-th read the connection belongs to the peer being read, in the requested group. */
  ghost predicate ListedAt(s: State, peerIds: seq<string>, groupId: Option<string>, gaps: seq<seq<Event>>, i: nat, c: ConnRef)
    requires i < |peerIds| <= |gaps|
  {
    var now := Before(s, gaps, i + 1);
    c.connId in now.connsById && now.connsById[c.connId] == c && c.peerId == peerIds[i] && c.groupId == groupId
  }

  /** Some connection is there at the i-th read and, having moved, at the j-th as well. */
  ghost predicate Moves(s: State, peerIds: seq<string>, groupId: Option<string>, gaps: seq<seq<Event>>, i: nat, j: nat)
    requires i < |peerIds| <= |gaps| && j < |peerIds|
  {
    exists c, d :: ListedAt(s, peerIds, groupId, gaps, i, c) && ListedAt(s, peerIds, groupId, gaps, j, d) && c.connId == d.connId
  }

  lemma {:induction false} BeforeInv(s: State, gaps: seq<seq<Event>>, k: nat)
    requires Inv(s) && k <= |gaps|
    ensures Inv(Before(s, gaps, k))
  {
    if k > 0 {
      BeforeInv(s, gaps, k - 1);
      IndexesAgree(Before(s, gaps, k - 1), gaps[k - 1]);
    }
  }

  lemma {:induction false} FilterConns(keep: ConnRef -> bool, group: Group)
    requires DistinctConns(group)
    ensures DistinctConns(Filter(keep, group))
  {
    if group != [] {
      FilterConns(keep, group[1..]);
      var r := Filter(keep, group);
      if keep(group[0]) {
        forall i, j | 0 <= i < j < |r| ensures r[i].connId != r[j].connId {
          assert r[j] in Filter(keep, group[1..]);
        }
      }
    }
  }

  /** One read is duplicate-free and lists exactly the peer's connections of that moment. */
  lemma ReadFacts(s: State, peerIds: seq<string>, groupId: Option<string>, gaps: seq<seq<Event>>, i: nat)
    requires Inv(s) && i < |peerIds| <= |gaps|
    ensures DistinctConns(Read(s, peerIds, groupId, gaps, i))
    ensures forall c :: c in Read(s, peerIds, groupId, gaps, i) <==> ListedAt(s, peerIds, groupId, gaps, i, c)
  {
    var now := Before(s, gaps, i + 1);
    BeforeInv(s, gaps, i + 1);
    assert Agrees(now, peerIds[i]);
    if peerIds[i] in now.connsByPeer { FilterConns(InGroup(groupId), now.connsByPeer[peerIds[i]]); }
  }

  ghost predicate Apart(a: Group, b: Group) {
    forall c, d :: c in a && d in b ==> c.connId != d.connId
  }

  lemma ConcatConns(a: Group, b: Group)
    ensures DistinctConns(a + b) <==> DistinctConns(a) && DistinctConns(b) && Apart(a, b)
  {
    var r := a + b;
    if DistinctConns(r) {
      forall i, j | 0 <= i < j < |a| ensures a[i].connId != a[j].connId {
        assert r[i] == a[i] && r[j] == a[j];
      }
      forall i, j | 0 <= i < j < |b| ensures b[i].connId != b[j].connId {
        assert r[|a| + i] == b[i] && r[|a| + j] == b[j];
      }
      forall c, d | c in a && d in b ensures c.connId != d.connId {
        var i :| 0 <= i < |a| && a[i] == c;
        var j :| 0 <= j < |b| && b[j] == d;
        assert r[i] == c && r[|a| + j] == d;
      }
    } else {
      var i, j :| 0 <= i < j < |r| && r[i].connId == r[j].connId;
      if i < |a| <= j { assert r[i] in a && r[j] in b; }
    }
  }

  lemma {:induction false} FlattenConns(groups: seq<Group>)
    requires forall i :: 0 <= i < |groups| ==> DistinctConns(groups[i])
    ensures DistinctConns(Flatten(groups)) <==> forall i, j :: 0 <= i < j < |groups| ==> Apart(groups[i], groups[j])
  {
    if groups != [] {
      var last := |groups| - 1;
      var init := groups[..last];
      FlattenConns(init);
      ConcatConns(Flatten(init), groups[last]);
      FlattenMembers(init);
      assert Apart(Flatten(init), groups[last]) <==> forall i :: 0 <= i < last ==> Apart(groups[i], groups[last]) by {
        if Apart(Flatten(init), groups[last]) {
          forall i | 0 <= i < last ensures Apart(groups[i], groups[last]) {
            assert init[i] == groups[i];
          }
        } else {
          var c, d :| c in Flatten(init) && d in groups[last] && c.connId == d.connId;
          var i :| 0 <= i < |init| && c in init[i];
          assert !Apart(groups[i], groups[last]);
        }
      }
      assert forall i, j :: 0 <= i < j < last ==> (Apart(init[i], init[j]) <==> Apart(groups[i], groups[j]));
    }
  }

  /**
   However the locator changes while a plan is built, it lists every connection at most once exactly
   if none moves from a peer already read to one still to be read.
   */
  lemma PlanOnceExactly(s: State, peerIds: seq<string>, groupId: Option<string>, gaps: seq<seq<Event>>)
    requires Inv(s) && |peerIds| <= |gaps|
    ensures DistinctConns(Flatten(Reads(s, peerIds, groupId, gaps)))
       <==> forall i, j :: 0 <= i < j < |peerIds| ==> !Moves(s, peerIds, groupId, gaps, i, j)
  {
    var readings := Reads(s, peerIds, groupId, gaps);
    forall i | 0 <= i < |readings| ensures DistinctConns(readings[i]) {
      ReadFacts(s, peerIds, groupId, gaps, i);
    }
    FlattenConns(readings);
    forall i, j | 0 <= i < j < |readings| ensures Apart(readings[i], readings[j]) <==> !Moves(s, peerIds, groupId, gaps, i, j) {
      ApartExactly(s, peerIds, groupId, gaps, i, j);
    }
  }

  lemma ApartExactly(s: State, peerIds: seq<string>, groupId: Option<string>, gaps: seq<seq<Event>>, i: nat, j: nat)
    requires Inv(s) && i < j < |peerIds| <= |gaps|
    ensures Apart(Read(s, peerIds, groupId, gaps, i), Read(s, peerIds, groupId, gaps, j)) <==> !Moves(s, peerIds, groupId, gaps, i, j)
  {
    ReadFacts(s, peerIds, groupId, gaps, i);
    ReadFacts(s, peerIds, groupId, gaps, j);
  }

  // ---- What has to run for a connection to be listed twice ----

  /** Only a registration gives a connection id a new reference. */
  lemma {:induction false} NewReference(s: State, events: seq<Event>, connId: string, d: ConnRef)
    requires connId in Run(s, events).connsById && Run(s, events).connsById[connId] == d && d.connId == connId
    ensures (connId in s.connsById && s.connsById[connId] == d) || RegisterEvent(d) in events
    decreases |events|
  {
    if events != [] {
      var next := Step(s, events[0]);
      NewReference(next, events[1..], connId, d);
      assert forall e :: e in events[1..] ==> e in events;
      if connId in next.connsById && next.connsById[connId] == d && events[0].RegisterEvent? {
        assert events[0].conn.connId == connId ==> events[0] == RegisterEvent(d);
      }
    }
  }

  /** The registration runs in one of the gaps after the i-th read, up to the j-th. */
  ghost predicate RegisteredBetween(gaps: seq<seq<Event>>, i: nat, j: nat, d: ConnRef) {
    exists k :: i < k <= j && k < |gaps| && RegisterEvent(d) in gaps[k]
  }

  lemma {:induction false} NewReferenceBetween(s: State, gaps: seq<seq<Event>>, i: nat, j: nat, d: ConnRef)
    requires i <= j < |gaps|
    requires d.connId in Before(s, gaps, j + 1).connsById && Before(s, gaps, j + 1).connsById[d.connId] == d
    ensures (d.connId in Before(s, gaps, i + 1).connsById && Before(s, gaps, i + 1).connsById[d.connId] == d)
         || RegisteredBetween(gaps, i, j, d)
    decreases j
  {
    if i < j {
      NewReference(Before(s, gaps, j), gaps[j], d.connId, d);
      if RegisterEvent(d) !in gaps[j] {
        NewReferenceBetween(s, gaps, i, j - 1, d);
        if RegisteredBetween(gaps, i, j - 1, d) {
          var k :| i < k <= j - 1 && k < |gaps| && RegisterEvent(d) in gaps[k];
          assert i < k <= j;
        }
      }
    }
  }

  /** A connection listed at the i-th read is registered, before the j-th, under the peer read there. */
  ghost predicate MovedBy(s: State, peerIds: seq<string>, groupId: Option<string>, gaps: seq<seq<Event>>, i: nat, j: nat, c: ConnRef, d: ConnRef)
    requires i < j < |peerIds| <= |gaps|
  {
    && ListedAt(s, peerIds, groupId, gaps, i, c) && d.connId == c.connId
    && d.peerId == peerIds[j] && d.groupId == groupId && RegisteredBetween(gaps, i, j, d)
  }

  /**
   In terms of what runs: for a plan over distinct peers to list a connection twice, a connection
   already listed must be registered, between the two reads, under a peer read later, in the
   requested group.
   */
  lemma DuplicateNeedsRegistration(s: State, peerIds: seq<string>, groupId: Option<string>, gaps: seq<seq<Event>>)
    requires Inv(s) && Distinct(peerIds) && |peerIds| <= |gaps|
    requires !DistinctConns(Flatten(Reads(s, peerIds, groupId, gaps)))
    ensures exists i, j, c, d :: 0 <= i < j < |peerIds| && MovedBy(s, peerIds, groupId, gaps, i, j, c, d)
  {
    PlanOnceExactly(s, peerIds, groupId, gaps);
    var i, j :| 0 <= i < j < |peerIds| && Moves(s, peerIds, groupId, gaps, i, j);
    var c, d :| ListedAt(s, peerIds, groupId, gaps, i, c) && ListedAt(s, peerIds, groupId, gaps, j, d) && c.connId == d.connId;
    NewReferenceBetween(s, gaps, i, j, d);
    assert MovedBy(s, peerIds, groupId, gaps, i, j, c, d);
  }

  /** A plan lists exactly what some read finds. */
  lemma PlanLists(s: State, peerIds: seq<string>, groupId: Option<string>, gaps: seq<seq<Event>>, c: ConnRef)
    requires Inv(s) && |peerIds| <= |gaps|
    ensures c in Flatten(Reads(s, peerIds, groupId, gaps))
       <==> exists i :: 0 <= i < |peerIds| && ListedAt(s, peerIds, groupId, gaps, i, c)
  {
    var readings := Reads(s, peerIds, groupId, gaps);
    FlattenMembers(readings);
    forall i | 0 <= i < |readings| ensures c in readings[i] <==> ListedAt(s, peerIds, groupId, gaps, i, c) {
      ReadFacts(s, peerIds, groupId, gaps, i);
    }
  }

  /** Nothing runs between the reads. */
  ghost predicate Undisturbed(gaps: seq<seq<Event>>) {
    forall i :: 0 <= i < |gaps| ==> gaps[i] == []
  }

  lemma {:induction false} UndisturbedBefore(s: State, gaps: seq<seq<Event>>, k: nat)
    requires Undisturbed(gaps) && k <= |gaps|
    ensures Before(s, gaps, k) == s
  {
    if k > 0 { UndisturbedBefore(s, gaps, k - 1); }
  }

  /**
   A plan built undisturbed reaches exactly the connections of the requested peers in the requested
   group, each once, however often a peer is requested.
   */
  lemma PlanExact(s: State, peerIds: seq<string>, groupId: Option<string>, gaps: seq<seq<Event>>)
    requires Inv(s) && |gaps| == |Unique(peerIds)| && Undisturbed(gaps)
    ensures var plan := Flatten(Reads(s, Unique(peerIds), groupId, gaps));
      && DistinctConns(plan)
      && forall c :: c in plan <==>
           c.connId in s.connsById && s.connsById[c.connId] == c && c.peerId in peerIds && c.groupId == groupId
  {
    var unique := Unique(peerIds);
    forall k | 0 <= k <= |gaps| ensures Before(s, gaps, k) == s {
      UndisturbedBefore(s, gaps, k);
    }
    PlanOnceExactly(s, unique, groupId, gaps);
    forall c: ConnRef
      ensures c in Flatten(Reads(s, unique, groupId, gaps)) <==>
        c.connId in s.connsById && s.connsById[c.connId] == c && c.peerId in peerIds && c.groupId == groupId
    {
      PlanLists(s, unique, groupId, gaps, c);
      if c.peerId in unique {
        var i :| 0 <= i < |unique| && unique[i] == c.peerId;
        assert ListedAt(s, unique, groupId, gaps, i, c) <==>
          c.connId in s.connsById && s.connsById[c.connId] == c && c.groupId == groupId;
      }
    }
  }

  /** A connection that registers under the second peer after the first has been read is listed twice. */
  lemma MovedConnectionListedTwice(nodeId: string, connId: string, a: string, b: string)
    requires a != b
    ensures var before, after := ConnRef(nodeId, connId, a, None), ConnRef(nodeId, connId, b, None);
      var s := Registered(State(map[], map[]), before);
      Flatten(Reads(s, [a, b], None, [[], [RegisterEvent(after)]])) == [before, after]
  {
    var before, after := ConnRef(nodeId, connId, a, None), ConnRef(nodeId, connId, b, None);
    var s := Registered(State(map[], map[]), before);
    var gaps := [[], [RegisterEvent(after)]];
    var moved := Registered(s, after);
    assert Before(s, gaps, 1) == s;
    assert [RegisterEvent(after)][1..] == [];
    assert Run(s, [RegisterEvent(after)]) == Run(moved, []);
    assert Before(s, gaps, 2) == moved;
    assert [before][1..] == [] && [after][1..] == [];
    var readings := Reads(s, [a, b], None, gaps);
    assert readings[0] == [before] && readings[1] == [after];
    assert readings[..1] == [[before]] && readings[..1][..0] == [];
    assert Flatten(readings[..1]) == [] + [before];
  }
}
