/**
 How requests are spread over the chosen tier (src/runtime/control/topology-store.ts): which targets take
 part, in which order, and which of them a trace key selects.
 */
module RouteTargetSpread {
  import opened Prelude
  import opened Sorting
  import opened Collations
  import opened RouteTargets

  // ---- Counting in decimal ----

  /** The number a row of decimal digits stands for. */
  ghost function ValueOf(digits: string): int {
    if digits == [] then 0 else ValueOf(digits[..|digits| - 1]) * 10 + (digits[|digits| - 1] as int - '0' as int)
  }

  ghost predicate IsNumeral(digits: string) {
    && digits != [] && (|digits| > 1 ==> digits[0] != '0')
    && forall i :: 0 <= i < |digits| ==> '0' <= digits[i] <= '9'
  }

  lemma {:induction false} DecimalMeans(n: nat)
    ensures IsNumeral(Decimal(n)) && ValueOf(Decimal(n)) == n
    ensures n > 0 ==> Decimal(n)[0] != '0'
  {
    if n >= 10 {
      DecimalMeans(n / 10);
      var digits := Decimal(n);
      assert digits[..|digits| - 1] == Decimal(n / 10);
      assert digits[|digits| - 1] == ('0' as int + n % 10) as char;
    }
  }

  // ---- The pick ----

  /** The targets in the order of their host ids, as the collation has it. */
  ghost predicate Ordered(collate: Collation, targets: seq<Target>, sorted: seq<Target>) {
    && multiset(sorted) == multiset(targets)
    && forall i, j :: 0 <= i < j < |sorted| ==> collate(sorted[i].hostId, sorted[j].hostId) <= 0
  }

  /** The text that is hashed: the trace key, or else the route and how many targets there are. */
  ghost predicate IsKey(sorted: seq<Target>, traceKey: Option<string>, key: string)
    requires sorted != []
  {
    match traceKey
    case Some(trace) => key == trace
    case None => exists count :: IsNumeral(count) && ValueOf(count) == |sorted| && key == sorted[0].routeId + ":" + count
  }

  ghost predicate Selects(collate: Collation, targets: seq<Target>, traceKey: Option<string>, choice: Target, sorted: seq<Target>, key: string) {
    && sorted != [] && Ordered(collate, targets, sorted) && IsKey(sorted, traceKey, key)
    && choice == sorted[Polynomial(key) % 0x1_0000_0000 % |sorted|]
  }

  /** The target at the place its key hashes to, modulo their number, in the order of host ids. */
  ghost predicate Spread(collate: Collation, targets: seq<Target>, traceKey: Option<string>, choice: Target) {
    exists sorted, key :: Selects(collate, targets, traceKey, choice, sorted, key)
  }

  lemma PickMeans(collate: Collation, targets: seq<Target>, traceKey: Option<string>)
    requires targets != []
    ensures Spread(collate, targets, traceKey, PickTarget(collate, targets, traceKey))
  {
    var sorted := Sort(ByHostId(collate), targets);
    var key := traceKey.GetOr(sorted[0].routeId + ":" + Decimal(|sorted|));
    ByHostIdLawful(collate);
    SortSorted(ByHostId(collate), targets);
    DecimalMeans(|sorted|);
    HashIsPolynomial(key);
    assert Ordered(collate, targets, sorted);
    assert Selects(collate, targets, traceKey, PickTarget(collate, targets, traceKey), sorted, key);
  }

  // ---- Who takes part ----

  /** Every reachable owner of the route in this tier, as often as the route lists it. */
  ghost predicate TierOf(topology: Topology, route: Route, selfNodeId: Option<string>, tier: Option<nat>, targets: seq<Target>) {
    forall t :: multiset(targets)[t] ==
      if IsCandidate(topology, route, t) && Tier(topology, selfNodeId, t) == tier then multiset(route.ownerHostIds)[t.hostId] else 0
  }

  lemma TierCount(topology: Topology, route: Route, selfNodeId: Option<string>, state: HostState, suspect: bool, t: Target)
    ensures var all := TargetsOf(topology, route, route.ownerHostIds);
      multiset(Filter(InTier(topology, state, suspect), Filter(Usable(topology, selfNodeId), all)))[t] ==
      if InTier(topology, state, suspect)(t) && Usable(topology, selfNodeId)(t) && IsCandidate(topology, route, t)
      then multiset(route.ownerHostIds)[t.hostId] else 0
  {
    var all := TargetsOf(topology, route, route.ownerHostIds);
    FilterCount(InTier(topology, state, suspect), Filter(Usable(topology, selfNodeId), all), t);
    FilterCount(Usable(topology, selfNodeId), all, t);
    TargetsMultiset(topology, route, route.ownerHostIds, t);
    TargetDescribed(topology, route, t);
  }

  lemma TierCounts(topology: Topology, route: Route, selfNodeId: Option<string>, state: HostState, suspect: bool)
    requires state == Ready || state == Draining
    ensures var tier := (if state == Ready then 0 else 2) + (if suspect then 1 else 0);
      var usable := Filter(Usable(topology, selfNodeId), TargetsOf(topology, route, route.ownerHostIds));
      TierOf(topology, route, selfNodeId, Some(tier), Filter(InTier(topology, state, suspect), usable))
  {
    var tier := (if state == Ready then 0 else 2) + (if suspect then 1 else 0);
    var chosen := Filter(InTier(topology, state, suspect),
                         Filter(Usable(topology, selfNodeId), TargetsOf(topology, route, route.ownerHostIds)));
    forall t ensures multiset(chosen)[t] ==
      if IsCandidate(topology, route, t) && Tier(topology, selfNodeId, t) == Some(tier) then multiset(route.ownerHostIds)[t.hostId] else 0
    {
      TierCount(topology, route, selfNodeId, state, suspect, t);
    }
  }

  ghost predicate SpreadOver(
      topology: Topology, collate: Collation, route: Route, selfNodeId: Option<string>, traceKey: Option<string>,
      choice: Target, targets: seq<Target>)
  {
    TierOf(topology, route, selfNodeId, Tier(topology, selfNodeId, choice), targets) && Spread(collate, targets, traceKey, choice)
  }

  /** The target of a route is spread over all the targets of its own tier, which is the best one any owner reaches. */
  lemma RouteSpread(topology: Topology, collate: Collation, route: Route, selfNodeId: Option<string>, traceKey: Option<string>)
    ensures var choice := ResolveRoute(topology, collate, route, selfNodeId, traceKey);
      choice.Some? ==>
        && IsBestTarget(topology, route, selfNodeId, choice.value)
        && exists targets :: SpreadOver(topology, collate, route, selfNodeId, traceKey, choice.value, targets)
  {
    var choice := ResolveRoute(topology, collate, route, selfNodeId, traceKey);
    ResolveBestTier(topology, collate, route, selfNodeId, traceKey);
    if choice.Some? {
      var usable := Filter(Usable(topology, selfNodeId), TargetsOf(topology, route, route.ownerHostIds));
      var ready, suspectReady := Filter(InTier(topology, Ready, false), usable), Filter(InTier(topology, Ready, true), usable);
      var draining, suspectDraining := Filter(InTier(topology, Draining, false), usable), Filter(InTier(topology, Draining, true), usable);
      if ready != [] {
        TierSpread(topology, collate, route, selfNodeId, traceKey, Ready, false);
      } else if suspectReady != [] {
        TierSpread(topology, collate, route, selfNodeId, traceKey, Ready, true);
      } else if draining != [] {
        TierSpread(topology, collate, route, selfNodeId, traceKey, Draining, false);
      } else {
        TierSpread(topology, collate, route, selfNodeId, traceKey, Draining, true);
      }
    }
  }

  lemma TierSpread(topology: Topology, collate: Collation, route: Route, selfNodeId: Option<string>, traceKey: Option<string>,
                   state: HostState, suspect: bool)
    requires state == Ready || state == Draining
    requires Filter(InTier(topology, state, suspect), Filter(Usable(topology, selfNodeId), TargetsOf(topology, route, route.ownerHostIds))) != []
    ensures var targets := Filter(InTier(topology, state, suspect), Filter(Usable(topology, selfNodeId), TargetsOf(topology, route, route.ownerHostIds)));
      SpreadOver(topology, collate, route, selfNodeId, traceKey, PickTarget(collate, targets, traceKey), targets)
  {
    var targets := Filter(InTier(topology, state, suspect), Filter(Usable(topology, selfNodeId), TargetsOf(topology, route, route.ownerHostIds)));
    TierCounts(topology, route, selfNodeId, state, suspect);
    TierMembers(topology, selfNodeId, TargetsOf(topology, route, route.ownerHostIds), state, suspect);
    PickMeans(collate, targets, traceKey);
  }

  /** The whole lookup: the spread of the first longest matching route. */
  lemma LookupSpread(topology: Topology, collate: Collation, pathname: string, selfNodeId: Option<string>, traceKey: Option<string>)
    ensures var choice := ResolveHttpRouteTarget(topology, collate, pathname, selfNodeId, traceKey);
      choice.Some? ==> exists route, targets ::
        && IsBestRoute(topology, pathname, route)
        && SpreadOver(topology, collate, route, selfNodeId, traceKey, choice.value, targets)
  {
    var choice := ResolveHttpRouteTarget(topology, collate, pathname, selfNodeId, traceKey);
    if choice.Some? {
      var routes := Flatten(topology.deployments);
      BestIsLongest(routes, pathname);
      var best := BestOf(routes, pathname).value;
      RouteSpread(topology, collate, best, selfNodeId, traceKey);
      var targets :| SpreadOver(topology, collate, best, selfNodeId, traceKey, choice.value, targets);
      assert IsBestRoute(topology, pathname, best);
    }
  }
}
