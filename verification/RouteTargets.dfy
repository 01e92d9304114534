/**
 Choosing the host an HTTP request is forwarded to (src/runtime/control/topology-store.ts): the
 longest matching route, four health tiers, and a hash that spreads requests over the chosen tier.
 */
module RouteTargets {
  import opened Prelude
  import opened Sorting
  import opened Collations
  import opened PeerHealth

  datatype HostState = Ready | Draining | Offline | OtherState

  datatype MembershipHost = MembershipHost(
    hostId: string, nodeId: Option<string>, internalBaseUrl: Option<string>, publicBaseUrl: Option<string>, state: HostState)

  datatype Route = Route(routeId: string, pathPrefix: string, ownerHostIds: seq<string>)

  datatype Topology = Topology(hosts: seq<MembershipHost>, deployments: seq<seq<Route>>, health: map<string, Status>)

  datatype Target = Target(
    hostId: string, nodeId: Option<string>, baseUrl: string, pathPrefix: string, routeId: string, state: HostState)

  // ---- The hash ----

  const WORD: int := 0x1_0000_0000

  /** `hash = (hash * 31 + charCode) >>> 0` over the characters, which stand for UTF-16 code units. */
  function HashOf(value: string): (h: int)
    ensures 0 <= h < WORD
  {
    if value == [] then 0
    else (HashOf(value[..|value| - 1]) * 31 + value[|value| - 1] as int) % WORD
  }

  method StableHash(value: string) returns (hash: int)
    ensures hash == HashOf(value)
  {
    hash := 0;
    for index := 0 to |value|
      invariant hash == HashOf(value[..index])
    {
      assert value[..index + 1][..index] == value[..index];
      hash := (hash * 31 + value[index] as int) % WORD;
    }
    assert value[..|value|] == value;
  }

  ghost function Power31(n: nat): nat {
    if n == 0 then 1 else 31 * Power31(n - 1)
  }

  /** The base-31 polynomial of the character codes, most significant first, in unbounded arithmetic. */
  ghost function Polynomial(value: string): int {
    if value == [] then 0
    else value[0] as int * Power31(|value| - 1) + Polynomial(value[1..])
  }

  lemma {:induction false} PolynomialHorner(value: string)
    requires value != []
    ensures Polynomial(value) == Polynomial(value[..|value| - 1]) * 31 + value[|value| - 1] as int
  {
    if |value| > 1 {
      var init := value[..|value| - 1];
      PolynomialHorner(value[1..]);
      assert value[1..][..|value| - 2] == init[1..];
      assert Power31(|value| - 1) == 31 * Power31(|value| - 2);
      assert value[0] as int * (31 * Power31(|value| - 2)) == value[0] as int * Power31(|value| - 2) * 31;
    }
  }

  lemma ModHorner(a: int, b: int, c: int)
    requires a % WORD == b
    ensures (a * 31 + c) % WORD == (b * 31 + c) % WORD
  {
    var q := a / WORD;
    assert a * 31 + c == (b * 31 + c) + WORD * (q * 31);
    ModShift(b * 31 + c, q * 31);
  }

  lemma ModShift(x: int, k: int)
    ensures (x + WORD * k) % WORD == x % WORD
  {
    var q := x / WORD;
    assert x + WORD * k == WORD * (q + k) + x % WORD;
  }

  /** The hash is the base-31 polynomial modulo 2^32, however long the string. */
  lemma {:induction false} HashIsPolynomial(value: string)
    ensures HashOf(value) == Polynomial(value) % WORD
  {
    if value != [] {
      HashIsPolynomial(value[..|value| - 1]);
      PolynomialHorner(value);
      ModHorner(Polynomial(value[..|value| - 1]), HashOf(value[..|value| - 1]), value[|value| - 1] as int);
    }
  }

  // ---- The best route ----

  function BestOf(routes: seq<Route>, pathname: string): Option<Route> {
    if routes == [] then None
    else
      var best := BestOf(routes[..|routes| - 1], pathname);
      var route := routes[|routes| - 1];
      if !(route.pathPrefix <= pathname) then best
      else if best.None? || |route.pathPrefix| > |best.value.pathPrefix| then Some(route)
      else best
  }

  method FindBestRoute(deployments: seq<seq<Route>>, pathname: string) returns (best: Option<Route>)
    ensures best == BestOf(Flatten(deployments), pathname)
  {
    best := None;
    for i := 0 to |deployments|
      invariant best == BestOf(Flatten(deployments[..i]), pathname)
    {
      var routes := deployments[i];
      ghost var before := Flatten(deployments[..i]);
      assert before + routes[..0] == before;
      for j := 0 to |routes|
        invariant best == BestOf(before + routes[..j], pathname)
      {
        var route := routes[j];
        var all := before + routes[..j + 1];
        assert all[..|all| - 1] == before + routes[..j];
        if !(route.pathPrefix <= pathname) {
          continue;
        }
        if best.None? || |route.pathPrefix| > |best.value.pathPrefix| {
          best := Some(route);
        }
      }
      assert routes[..|routes|] == routes;
      assert deployments[..i + 1][..i] == deployments[..i];
    }
    assert deployments[..|deployments|] == deployments;
  }

  /** `routes[i]` matches, no match is longer, and no earlier match is as long. */
  ghost predicate FirstLongest(routes: seq<Route>, pathname: string, i: nat)
    requires i < |routes|
  {
    && routes[i].pathPrefix <= pathname
    && (forall k :: 0 <= k < |routes| && routes[k].pathPrefix <= pathname ==>
          |routes[k].pathPrefix| <= |routes[i].pathPrefix|)
    && (forall k :: 0 <= k < i && routes[k].pathPrefix <= pathname ==>
          |routes[k].pathPrefix| < |routes[i].pathPrefix|)
  }

  /** The chosen route is the first of the longest matching ones; none is chosen only if none matches. */
  lemma {:induction false} BestIsLongest(routes: seq<Route>, pathname: string)
    ensures match BestOf(routes, pathname)
      case None => forall r :: r in routes ==> !(r.pathPrefix <= pathname)
      case Some(best) => exists i :: 0 <= i < |routes| && routes[i] == best && FirstLongest(routes, pathname, i)
  {
    if routes != [] {
      var n := |routes| - 1;
      var init, last := routes[..n], routes[n];
      BestIsLongest(init, pathname);
      assert forall k :: 0 <= k < n ==> routes[k] == init[k];
      var before := BestOf(init, pathname);
      if before.None? {
        assert forall k :: 0 <= k < n ==> init[k] in init;
        if last.pathPrefix <= pathname { assert FirstLongest(routes, pathname, n); }
      } else {
        var i :| 0 <= i < n && init[i] == before.value && FirstLongest(init, pathname, i);
        if last.pathPrefix <= pathname && |last.pathPrefix| > |before.value.pathPrefix| {
          assert FirstLongest(routes, pathname, n);
        } else {
          assert FirstLongest(routes, pathname, i);
        }
      }
    }
  }

  // ---- Targets and tiers ----

  function HostById(hosts: seq<MembershipHost>, hostId: string): Option<MembershipHost> {
    if hosts == [] then None
    else if hosts[|hosts| - 1].hostId == hostId then Some(hosts[|hosts| - 1])
    else HostById(hosts[..|hosts| - 1], hostId)
  }

  function BaseUrl(host: MembershipHost): Option<string> {
    var url := if host.internalBaseUrl.Some? then host.internalBaseUrl else host.publicBaseUrl;
    if url.Some? && url.value != "" then url else None
  }

  function TargetOf(topology: Topology, route: Route, hostId: string): Option<Target> {
    match HostById(topology.hosts, hostId)
    case None => None
    case Some(host) =>
      match BaseUrl(host)
      case None => None
      case Some(url) => Some(Target(hostId, host.nodeId, url, route.pathPrefix, route.routeId, host.state))
  }

  function TargetsOf(topology: Topology, route: Route, owners: seq<string>): seq<Target> {
    if owners == [] then []
    else
      var rest := TargetsOf(topology, route, owners[..|owners| - 1]);
      match TargetOf(topology, route, owners[|owners| - 1])
      case None => rest
      case Some(target) => rest + [target]
  }

  /** `buildRouteTargets`. */
  method BuildRouteTargets(topology: Topology, route: Route) returns (targets: seq<Target>)
    ensures targets == TargetsOf(topology, route, route.ownerHostIds)
  {
    targets := [];
    for i := 0 to |route.ownerHostIds|
      invariant targets == TargetsOf(topology, route, route.ownerHostIds[..i])
    {
      assert route.ownerHostIds[..i + 1][..i] == route.ownerHostIds[..i];
      var target := TargetOf(topology, route, route.ownerHostIds[i]);
      if target.None? {
        continue;
      }
      targets := targets + [target.value];
    }
    assert route.ownerHostIds[..|route.ownerHostIds|] == route.ownerHostIds;
  }

  function PeerStatus(topology: Topology, nodeId: Option<string>): Status {
    if nodeId.None? || nodeId.value == "" || nodeId.value !in topology.health then Unknown
    else topology.health[nodeId.value]
  }

  /** Not this node, and not known dead. */
  function Usable(topology: Topology, selfNodeId: Option<string>): Target -> bool {
    (t: Target) => t.nodeId != selfNodeId && PeerStatus(topology, t.nodeId) != Dead
  }

  function InTier(topology: Topology, state: HostState, suspect: bool): Target -> bool {
    (t: Target) => t.state == state && (PeerStatus(topology, t.nodeId) == Suspect) == suspect
  }

  function ByHostId(collate: Collation): (Target, Target) -> bool {
    (left: Target, right: Target) => collate(left.hostId, right.hostId) <= 0
  }

  function Decimal(n: nat): string {
    if n < 10 then [('0' as int + n) as char] else Decimal(n / 10) + [('0' as int + n % 10) as char]
  }

  function PickTarget(collate: Collation, targets: seq<Target>, traceKey: Option<string>): (t: Target)
    requires targets != []
    ensures t in targets
  {
    var sorted := Sort(ByHostId(collate), targets);
    var key := traceKey.GetOr(sorted[0].routeId + ":" + Decimal(|sorted|));
    sorted[if |sorted| == 1 then 0 else HashOf(key) % |sorted|]
  }

  function ResolveAmong(
      topology: Topology, collate: Collation, routeTargets: seq<Target>, traceKey: Option<string>): Option<Target>
  {
    var ready := Filter(InTier(topology, Ready, false), routeTargets);
    var suspectReady := Filter(InTier(topology, Ready, true), routeTargets);
    var draining := Filter(InTier(topology, Draining, false), routeTargets);
    var suspectDraining := Filter(InTier(topology, Draining, true), routeTargets);
    if |ready| > 0 then Some(PickTarget(collate, ready, traceKey))
    else if |suspectReady| > 0 then Some(PickTarget(collate, suspectReady, traceKey))
    else if |draining| > 0 then Some(PickTarget(collate, draining, traceKey))
    else if |suspectDraining| > 0 then Some(PickTarget(collate, suspectDraining, traceKey))
    else None
  }

  function ResolveRoute(
      topology: Topology, collate: Collation, route: Route, selfNodeId: Option<string>, traceKey: Option<string>): Option<Target>
  {
    ResolveAmong(topology, collate, Filter(Usable(topology, selfNodeId), TargetsOf(topology, route, route.ownerHostIds)), traceKey)
  }

  function ResolveHttpRouteTarget(
      topology: Topology, collate: Collation, pathname: string, selfNodeId: Option<string>, traceKey: Option<string>): Option<Target>
  {
    match BestOf(Flatten(topology.deployments), pathname)
    case None => None
    case Some(route) => ResolveRoute(topology, collate, route, selfNodeId, traceKey)
  }

  // ---- What the choice means ----

  /** What the topology's health records say about the target's node, if it has one. */
  ghost predicate Reported(topology: Topology, t: Target, status: Status) {
    t.nodeId.Some? && t.nodeId.value != "" && t.nodeId.value in topology.health && topology.health[t.nodeId.value] == status
  }

  /** How attractive a target is, 0 being best; None for one that must not be used at all. */
  ghost function Tier(topology: Topology, selfNodeId: Option<string>, t: Target): Option<nat> {
    if t.nodeId == selfNodeId || Reported(topology, t, Dead) || t.state == Offline || t.state == OtherState then None
    else Some((if t.state == Ready then 0 else 2) + (if Reported(topology, t, Suspect) then 1 else 0))
  }

  /** The last host listed under an id is the one that counts. */
  ghost predicate LastListed(hosts: seq<MembershipHost>, hostId: string, i: int) {
    0 <= i < |hosts| && hosts[i].hostId == hostId && forall k :: i < k < |hosts| ==> hosts[k].hostId != hostId
  }

  /** Where a host is reached: internally when it has an internal address, and else publicly. */
  ghost predicate ReachedAt(host: MembershipHost, url: string) {
    url != "" && (host.internalBaseUrl == Some(url) || (host.internalBaseUrl == None && host.publicBaseUrl == Some(url)))
  }

  ghost predicate Describes(topology: Topology, route: Route, t: Target, i: int) {
    && LastListed(topology.hosts, t.hostId, i) && ReachedAt(topology.hosts[i], t.baseUrl)
    && t.nodeId == topology.hosts[i].nodeId && t.state == topology.hosts[i].state
    && t.pathPrefix == route.pathPrefix && t.routeId == route.routeId
  }

  /** An owner of the route that can be reached. */
  ghost predicate IsCandidate(topology: Topology, route: Route, t: Target) {
    t.hostId in route.ownerHostIds && exists i :: Describes(topology, route, t, i)
  }

  lemma {:induction false} HostFound(hosts: seq<MembershipHost>, hostId: string)
    ensures match HostById(hosts, hostId)
      case None => forall i :: !LastListed(hosts, hostId, i)
      case Some(host) => exists i :: LastListed(hosts, hostId, i) && hosts[i] == host
  {
    if hosts != [] {
      var n := |hosts| - 1;
      if hosts[n].hostId == hostId {
        assert LastListed(hosts, hostId, n);
      } else {
        HostFound(hosts[..n], hostId);
        if HostById(hosts, hostId).Some? {
          var i :| LastListed(hosts[..n], hostId, i) && hosts[..n][i] == HostById(hosts, hostId).value;
          assert LastListed(hosts, hostId, i);
        } else {
          forall i ensures !LastListed(hosts, hostId, i) {
            assert !LastListed(hosts[..n], hostId, i);
          }
        }
      }
    }
  }

  /** The target made for a host id is the one its last listed host describes. */
  lemma TargetDescribed(topology: Topology, route: Route, t: Target)
    ensures TargetOf(topology, route, t.hostId) == Some(t) <==> exists i :: Describes(topology, route, t, i)
  {
    HostFound(topology.hosts, t.hostId);
    var host := HostById(topology.hosts, t.hostId);
    if host.Some? {
      var i :| LastListed(topology.hosts, t.hostId, i) && topology.hosts[i] == host.value;
      if TargetOf(topology, route, t.hostId) == Some(t) {
        assert Describes(topology, route, t, i);
      }
      if k :| Describes(topology, route, t, k) {
        assert k == i;
        assert t == Target(t.hostId, host.value.nodeId, t.baseUrl, route.pathPrefix, route.routeId, host.value.state);
      }
    }
  }

  /** All four tiers of the route are empty. */
  ghost predicate NoTarget(topology: Topology, route: Route, selfNodeId: Option<string>) {
    forall t :: IsCandidate(topology, route, t) ==> Tier(topology, selfNodeId, t).None?
  }

  /** An owner of the route in the best tier any owner reaches. */
  ghost predicate IsBestTarget(topology: Topology, route: Route, selfNodeId: Option<string>, target: Target) {
    && IsCandidate(topology, route, target)
    && Tier(topology, selfNodeId, target).Some?
    && forall t :: IsCandidate(topology, route, t) && Tier(topology, selfNodeId, t).Some? ==>
         Tier(topology, selfNodeId, target).value <= Tier(topology, selfNodeId, t).value
  }

  lemma {:induction false} TargetsMembers(topology: Topology, route: Route, owners: seq<string>)
    ensures forall t :: t in TargetsOf(topology, route, owners)
                 <==> exists hostId :: hostId in owners && TargetOf(topology, route, hostId) == Some(t)
  {
    if owners != [] {
      var init, last := owners[..|owners| - 1], owners[|owners| - 1];
      TargetsMembers(topology, route, init);
      assert forall h :: h in owners <==> h in init || h == last;
    }
  }

  /**
   The target is one of the route's owners in the best tier any of them reaches, so never this node,
   never dead, never offline; there is none exactly when no owner reaches any tier.
   */
  lemma ResolveBestTier(topology: Topology, collate: Collation, route: Route, selfNodeId: Option<string>, traceKey: Option<string>)
    ensures var choice := ResolveRoute(topology, collate, route, selfNodeId, traceKey);
      && (choice.None? <==> NoTarget(topology, route, selfNodeId))
      && (choice.Some? ==> IsBestTarget(topology, route, selfNodeId, choice.value))
  {
    var all := TargetsOf(topology, route, route.ownerHostIds);
    forall t ensures IsCandidate(topology, route, t) <==> t in all {
      TargetsMembers(topology, route, route.ownerHostIds);
      TargetDescribed(topology, route, t);
    }
    ChoiceTier(topology, collate, selfNodeId, all, traceKey);
  }

  /** The first of the longest matching routes of the whole topology. */
  ghost predicate IsBestRoute(topology: Topology, pathname: string, route: Route) {
    var routes := Flatten(topology.deployments);
    exists i :: 0 <= i < |routes| && routes[i] == route && FirstLongest(routes, pathname, i)
  }

  /** The whole lookup: resolved on the best route, and undefined exactly when no route matches or all tiers of the best one are empty. */
  lemma LookupExactly(topology: Topology, collate: Collation, pathname: string, selfNodeId: Option<string>, traceKey: Option<string>)
    ensures var choice := ResolveHttpRouteTarget(topology, collate, pathname, selfNodeId, traceKey);
      && (choice.None? <==>
            || (forall r :: r in Flatten(topology.deployments) ==> !(r.pathPrefix <= pathname))
            || (exists route :: IsBestRoute(topology, pathname, route) && NoTarget(topology, route, selfNodeId)))
      && (choice.Some? ==>
            exists route :: IsBestRoute(topology, pathname, route) && IsBestTarget(topology, route, selfNodeId, choice.value))
  {
    var routes := Flatten(topology.deployments);
    BestIsLongest(routes, pathname);
    match BestOf(routes, pathname)
    case None =>
    case Some(best) =>
      ResolveBestTier(topology, collate, best, selfNodeId, traceKey);
      assert IsBestRoute(topology, pathname, best);
      assert best in routes && best.pathPrefix <= pathname;
      forall route | IsBestRoute(topology, pathname, route) ensures route == best {
        OneBestRoute(topology, pathname, route, best);
      }
  }

  lemma OneBestRoute(topology: Topology, pathname: string, a: Route, b: Route)
    requires IsBestRoute(topology, pathname, a) && IsBestRoute(topology, pathname, b)
    ensures a == b
  {
    var routes := Flatten(topology.deployments);
    var i :| 0 <= i < |routes| && routes[i] == a && FirstLongest(routes, pathname, i);
    var j :| 0 <= j < |routes| && routes[j] == b && FirstLongest(routes, pathname, j);
  }

  lemma TierMembers(topology: Topology, selfNodeId: Option<string>, all: seq<Target>, state: HostState, suspect: bool)
    requires state == Ready || state == Draining
    ensures var tier := (if state == Ready then 0 else 2) + (if suspect then 1 else 0);
      forall t :: t in Filter(InTier(topology, state, suspect), Filter(Usable(topology, selfNodeId), all))
             <==> t in all && Tier(topology, selfNodeId, t) == Some(tier)
  {
  }

  /** A target picked from one tier, when every target of a better tier is missing. */
  ghost predicate BestOfTiers(topology: Topology, selfNodeId: Option<string>, all: seq<Target>, choice: Target) {
    && choice in all
    && Tier(topology, selfNodeId, choice).Some?
    && forall t :: t in all && Tier(topology, selfNodeId, t).Some? ==>
         Tier(topology, selfNodeId, choice).value <= Tier(topology, selfNodeId, t).value
  }

  /** Going through the tiers from best to worst finds the best one that is not empty. */
  lemma FirstNonEmpty(
      topology: Topology, selfNodeId: Option<string>, all: seq<Target>,
      a: seq<Target>, b: seq<Target>, c: seq<Target>, d: seq<Target>)
    requires forall t :: t in a <==> t in all && Tier(topology, selfNodeId, t) == Some(0)
    requires forall t :: t in b <==> t in all && Tier(topology, selfNodeId, t) == Some(1)
    requires forall t :: t in c <==> t in all && Tier(topology, selfNodeId, t) == Some(2)
    requires forall t :: t in d <==> t in all && Tier(topology, selfNodeId, t) == Some(3)
    ensures var best := if a != [] then a else if b != [] then b else if c != [] then c else d;
      && (best == [] <==> forall t :: t in all ==> Tier(topology, selfNodeId, t).None?)
      && forall t :: t in best ==> BestOfTiers(topology, selfNodeId, all, t)
  {
    forall t | t in all && Tier(topology, selfNodeId, t).Some? ensures t in a || t in b || t in c || t in d {
    }
    assert a != [] ==> a[0] in a;
    assert b != [] ==> b[0] in b;
    assert c != [] ==> c[0] in c;
    assert d != [] ==> d[0] in d;
  }

  lemma ChoiceTier(topology: Topology, collate: Collation, selfNodeId: Option<string>, all: seq<Target>, traceKey: Option<string>)
    ensures var choice := ResolveAmong(topology, collate, Filter(Usable(topology, selfNodeId), all), traceKey);
      && (choice.None? <==> forall t :: t in all ==> Tier(topology, selfNodeId, t).None?)
      && (choice.Some? ==> BestOfTiers(topology, selfNodeId, all, choice.value))
  {
    TierMembers(topology, selfNodeId, all, Ready, false);
    TierMembers(topology, selfNodeId, all, Ready, true);
    TierMembers(topology, selfNodeId, all, Draining, false);
    TierMembers(topology, selfNodeId, all, Draining, true);
    var usable := Filter(Usable(topology, selfNodeId), all);
    FirstNonEmpty(topology, selfNodeId, all,
                  Filter(InTier(topology, Ready, false), usable), Filter(InTier(topology, Ready, true), usable),
                  Filter(InTier(topology, Draining, false), usable), Filter(InTier(topology, Draining, true), usable));
  }

  // ---- Independence of owner order ----

  lemma {:induction false} TargetsMultiset(topology: Topology, route: Route, owners: seq<string>, t: Target)
    ensures multiset(TargetsOf(topology, route, owners))[t]
         == if TargetOf(topology, route, t.hostId) == Some(t) then multiset(owners)[t.hostId] else 0
  {
    if owners != [] {
      var init, last := owners[..|owners| - 1], owners[|owners| - 1];
      assert owners == init + [last];
      TargetsMultiset(topology, route, init, t);
    }
  }

  /** The collation never ties two different targets of the list. */
  ghost predicate Separated(collate: Collation, targets: seq<Target>) {
    forall a, b :: a in targets && b in targets && collate(a.hostId, b.hostId) == 0 ==> a == b
  }

  lemma ByHostIdLawful(collate: Collation)
    ensures Lawful(ByHostId(collate))
  {
    var le := ByHostId(collate);
    forall a: Target, b: Target ensures le(a, b) || le(b, a) {
      assert collate(a.hostId, b.hostId) <= 0 || collate(b.hostId, a.hostId) <= 0;
    }
    forall a: Target, b: Target, c: Target | le(a, b) && le(b, c) ensures le(a, c) {
      assert collate(a.hostId, b.hostId) <= 0 && collate(b.hostId, c.hostId) <= 0;
    }
  }

  lemma SortPermutes(collate: Collation, a: seq<Target>, b: seq<Target>)
    requires multiset(a) == multiset(b) && Separated(collate, a)
    ensures Sort(ByHostId(collate), a) == Sort(ByHostId(collate), b)
  {
    var le := ByHostId(collate);
    ByHostIdLawful(collate);
    SortSorted(le, a);
    SortSorted(le, b);
    forall x, y | x in Sort(le, a) && y in Sort(le, a) && le(x, y) && le(y, x) ensures x == y {
      assert collate(x.hostId, y.hostId) == 0;
    }
    SortedUnique(le, Sort(le, a), Sort(le, b));
  }

  lemma PickPermutes(collate: Collation, a: seq<Target>, b: seq<Target>, traceKey: Option<string>)
    requires multiset(a) == multiset(b) && Separated(collate, a)
    ensures |a| == |b|
    ensures a != [] ==> PickTarget(collate, a, traceKey) == PickTarget(collate, b, traceKey)
  {
    SameMembers(a, b);
    SortPermutes(collate, a, b);
  }

  lemma AmongPermutes(topology: Topology, collate: Collation, a: seq<Target>, b: seq<Target>, traceKey: Option<string>)
    requires multiset(a) == multiset(b) && Separated(collate, a)
    ensures ResolveAmong(topology, collate, a, traceKey) == ResolveAmong(topology, collate, b, traceKey)
  {
    TierPermutes(topology, collate, a, b, Ready, false, traceKey);
    TierPermutes(topology, collate, a, b, Ready, true, traceKey);
    TierPermutes(topology, collate, a, b, Draining, false, traceKey);
    TierPermutes(topology, collate, a, b, Draining, true, traceKey);
  }

  lemma TierPermutes(topology: Topology, collate: Collation, a: seq<Target>, b: seq<Target>, state: HostState, suspect: bool,
                     traceKey: Option<string>)
    requires multiset(a) == multiset(b) && Separated(collate, a)
    ensures var ta, tb := Filter(InTier(topology, state, suspect), a), Filter(InTier(topology, state, suspect), b);
      |ta| == |tb| && (ta != [] ==> PickTarget(collate, ta, traceKey) == PickTarget(collate, tb, traceKey))
  {
    FilterPermutes(InTier(topology, state, suspect), a, b);
    PickPermutes(collate, Filter(InTier(topology, state, suspect), a), Filter(InTier(topology, state, suspect), b), traceKey);
  }

  /**
   The choice does not depend on the order in which a route lists its owners, with or without a
   trace key, as long as the collation tells the owners apart.
   */
  lemma OwnerOrderIrrelevant(topology: Topology, collate: Collation, route: Route, owners: seq<string>,
                             selfNodeId: Option<string>, traceKey: Option<string>)
    requires multiset(owners) == multiset(route.ownerHostIds)
    requires forall a, b :: a in owners && b in owners && collate(a, b) == 0 ==> a == b
    ensures ResolveRoute(topology, collate, route, selfNodeId, traceKey)
         == ResolveRoute(topology, collate, route.(ownerHostIds := owners), selfNodeId, traceKey)
  {
    var a, b := TargetsOf(topology, route, route.ownerHostIds), TargetsOf(topology, route, owners);
    TargetsIgnoreOwners(topology, route, owners, owners);
    forall t ensures multiset(a)[t] == multiset(b)[t] {
      TargetsMultiset(topology, route, route.ownerHostIds, t);
      TargetsMultiset(topology, route, owners, t);
    }
    assert multiset(a) == multiset(b);
    FilterPermutes(Usable(topology, selfNodeId), a, b);
    SameMembers(owners, route.ownerHostIds);
    TargetsMembers(topology, route, route.ownerHostIds);
    AmongPermutes(topology, collate, Filter(Usable(topology, selfNodeId), a), Filter(Usable(topology, selfNodeId), b), traceKey);
  }

  lemma {:induction false} TargetsIgnoreOwners(topology: Topology, route: Route, other: seq<string>, owners: seq<string>)
    ensures TargetsOf(topology, route.(ownerHostIds := other), owners) == TargetsOf(topology, route, owners)
  {
    if owners != [] { TargetsIgnoreOwners(topology, route, other, owners[..|owners| - 1]); }
  }
}
