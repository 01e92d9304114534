/**
 The gradual rollout planner: one round moves the owner set towards the target under a batch size
 and an availability floor (src/sdk/admin/planning.ts). Proved here: what one round may do, when
 exactly it makes no progress, and where any run of rounds ends.
 */
module Rollout {
  import opened Prelude
  import opened Collations
  import opened Placement

  datatype AssignmentStatus = AssignmentStatus(deploymentId: string, declaredVersion: string, state: string)
  datatype ObservedHostState = ObservedHostState(hostId: string, assignmentStatuses: seq<AssignmentStatus>)

  function NormalizePositiveCount(value: Option<JsNumber>, fallback: nat): (n: nat)
    ensures fallback >= 1 ==> n >= 1
  {
    match value
    case Some(Finite(v)) => if v <= 0.0 then fallback else if v.Floor < 1 then 1 else v.Floor
    case _ => fallback
  }

  function NormalizeNonNegativeCount(value: Option<JsNumber>, fallback: nat): nat {
    match value
    case Some(Finite(v)) => if v < 0.0 then fallback else v.Floor
    case _ => fallback
  }

  function BatchSize(d: Deployment): (n: nat)
    ensures n >= 1
  {
    NormalizePositiveCount(d.rollout.batchSize, 1)
  }

  function MinAvailable(d: Deployment): nat {
    var floor := Replicas(d) - NormalizeNonNegativeCount(d.rollout.maxUnavailable, 0);
    if floor < 0 then 0 else floor
  }

  predicate GradualEnabled(d: Deployment) {
    d.rollout.gradual || d.rollout.batchSize.Some? || d.rollout.maxUnavailable.Some?
  }

  // ---- Availability ----

  /** The last observation of a host wins, as when a map is built from the list. */
  function ObservedFor(observed: seq<ObservedHostState>, hostId: string): Option<ObservedHostState> {
    if observed == [] then None
    else if observed[|observed| - 1].hostId == hostId then Some(observed[|observed| - 1])
    else ObservedFor(observed[..|observed| - 1], hostId)
  }

  function FindStatus(d: Deployment, statuses: seq<AssignmentStatus>): Option<AssignmentStatus> {
    if statuses == [] then None
    else if statuses[0].deploymentId == d.deploymentId && statuses[0].declaredVersion == d.declaredVersion then
      Some(statuses[0])
    else FindStatus(d, statuses[1..])
  }

  predicate IsAvailable(d: Deployment, observed: seq<ObservedHostState>, hostId: string) {
    var host := ObservedFor(observed, hostId);
    && host.Some?
    && var status := FindStatus(d, host.value.assignmentStatuses);
    status.Some? && (status.value.state == "ready" || status.value.state == "active")
  }

  function CountAvailableOwnerHosts(d: Deployment, ownerHostIds: seq<string>, observed: seq<ObservedHostState>): nat {
    |Filter(hostId => IsAvailable(d, observed, hostId), ownerHostIds)|
  }

  /** The members of `owners` observed ready or active at the declared version. */
  ghost function Up(d: Deployment, observed: seq<ObservedHostState>, owners: set<string>): set<string> {
    set hostId | hostId in owners && ReportsUp(d, observed, hostId)
  }

  /** The host's latest observation, and in it the first status of the deployment at the declared version, says ready or active. */
  ghost predicate ReportsUp(d: Deployment, observed: seq<ObservedHostState>, hostId: string) {
    exists i, j :: 0 <= i < |observed| && 0 <= j < |observed[i].assignmentStatuses|
      && IsLatest(observed, hostId, i) && IsFirstStatus(d, observed[i].assignmentStatuses, j)
      && observed[i].assignmentStatuses[j].state in {"ready", "active"}
  }

  ghost predicate IsLatest(observed: seq<ObservedHostState>, hostId: string, i: nat)
    requires i < |observed|
  {
    observed[i].hostId == hostId && forall k :: i < k < |observed| ==> observed[k].hostId != hostId
  }

  ghost predicate AboutDeployment(d: Deployment, status: AssignmentStatus) {
    status.deploymentId == d.deploymentId && status.declaredVersion == d.declaredVersion
  }

  ghost predicate IsFirstStatus(d: Deployment, statuses: seq<AssignmentStatus>, j: nat)
    requires j < |statuses|
  {
    AboutDeployment(d, statuses[j]) && forall k :: 0 <= k < j ==> !AboutDeployment(d, statuses[k])
  }

  lemma {:induction false} LatestObserved(observed: seq<ObservedHostState>, hostId: string)
    ensures match ObservedFor(observed, hostId)
      case None => forall k :: 0 <= k < |observed| ==> observed[k].hostId != hostId
      case Some(host) => exists i :: 0 <= i < |observed| && observed[i] == host && IsLatest(observed, hostId, i)
  {
    if observed != [] {
      var n := |observed| - 1;
      LatestObserved(observed[..n], hostId);
      if observed[n].hostId == hostId {
        assert IsLatest(observed, hostId, n);
      } else if ObservedFor(observed[..n], hostId).Some? {
        var i :| 0 <= i < n && observed[..n][i] == ObservedFor(observed[..n], hostId).value && IsLatest(observed[..n], hostId, i);
        assert forall k :: i < k < n ==> observed[..n][k] == observed[k];
        assert IsLatest(observed, hostId, i);
      } else {
        assert forall k :: 0 <= k < n ==> observed[..n][k] == observed[k];
      }
    }
  }

  lemma {:induction false} FirstStatusFound(d: Deployment, statuses: seq<AssignmentStatus>)
    ensures match FindStatus(d, statuses)
      case None => forall k :: 0 <= k < |statuses| ==> !AboutDeployment(d, statuses[k])
      case Some(status) => exists j :: 0 <= j < |statuses| && statuses[j] == status && IsFirstStatus(d, statuses, j)
  {
    if statuses != [] {
      if AboutDeployment(d, statuses[0]) {
        assert IsFirstStatus(d, statuses, 0);
      } else {
        FirstStatusFound(d, statuses[1..]);
        if FindStatus(d, statuses[1..]).Some? {
          var j :| 0 <= j < |statuses| - 1 && statuses[1..][j] == FindStatus(d, statuses[1..]).value && IsFirstStatus(d, statuses[1..], j);
          StatusLater(d, statuses, j);
        } else {
          assert forall k :: 1 <= k < |statuses| ==> statuses[k] == statuses[1..][k - 1];
        }
      }
    }
  }

  lemma StatusLater(d: Deployment, statuses: seq<AssignmentStatus>, j: nat)
    requires j + 1 < |statuses| && IsFirstStatus(d, statuses[1..], j) && !AboutDeployment(d, statuses[0])
    ensures IsFirstStatus(d, statuses, j + 1) && statuses[j + 1] == statuses[1..][j]
  {
    forall k | 0 <= k < j + 1 ensures !AboutDeployment(d, statuses[k]) {
      if k > 0 { assert statuses[k] == statuses[1..][k - 1]; }
    }
  }

  /** Availability as the planner decides it is what the host reports. */
  lemma AvailableExactly(d: Deployment, observed: seq<ObservedHostState>, hostId: string)
    ensures IsAvailable(d, observed, hostId) <==> ReportsUp(d, observed, hostId)
  {
    LatestObserved(observed, hostId);
    var host := ObservedFor(observed, hostId);
    if host.Some? {
      var i :| 0 <= i < |observed| && observed[i] == host.value && IsLatest(observed, hostId, i);
      var statuses := host.value.assignmentStatuses;
      FirstStatusFound(d, statuses);
      if FindStatus(d, statuses).Some? {
        var j :| 0 <= j < |statuses| && statuses[j] == FindStatus(d, statuses).value && IsFirstStatus(d, statuses, j);
      }
      OnlyLatest(d, observed, hostId, i);
    }
  }

  /** Latest observation and first status are unique, so one pair decides. */
  lemma OnlyLatest(d: Deployment, observed: seq<ObservedHostState>, hostId: string, i: nat)
    requires i < |observed| && IsLatest(observed, hostId, i)
    ensures ReportsUp(d, observed, hostId) ==>
      exists j :: 0 <= j < |observed[i].assignmentStatuses| && IsFirstStatus(d, observed[i].assignmentStatuses, j)
                  && observed[i].assignmentStatuses[j].state in {"ready", "active"}
    ensures var statuses := observed[i].assignmentStatuses;
      forall j, k | 0 <= j < |statuses| && 0 <= k < |statuses| ::
        (IsFirstStatus(d, statuses, j) && IsFirstStatus(d, statuses, k)) ==> j == k
  {
    if ReportsUp(d, observed, hostId) {
      var x, j :| 0 <= x < |observed| && 0 <= j < |observed[x].assignmentStatuses|
                  && IsLatest(observed, hostId, x) && IsFirstStatus(d, observed[x].assignmentStatuses, j)
                  && observed[x].assignmentStatuses[j].state in {"ready", "active"};
      assert x == i;
    }
  }

  /** How the rollout settings are read: whole batches of at least one, and a floor of replicas less what may be unavailable. */
  lemma SettingsRead(d: Deployment)
    ensures match d.rollout.batchSize
      case Some(Finite(v)) => if v >= 1.0 then BatchSize(d) as real <= v < BatchSize(d) as real + 1.0 else BatchSize(d) == 1
      case _ => BatchSize(d) == 1
    ensures match d.rollout.maxUnavailable
      case Some(Finite(v)) =>
        v >= 0.0 ==> MinAvailable(d) == (if v.Floor >= Replicas(d) then 0 else Replicas(d) - v.Floor)
      case _ => MinAvailable(d) == Replicas(d)
    ensures match d.rollout.maxUnavailable
      case Some(Finite(v)) => v < 0.0 ==> MinAvailable(d) == Replicas(d)
      case _ => true
  {
  }

  lemma CountIsUp(d: Deployment, owners: seq<string>, observed: seq<ObservedHostState>)
    requires Distinct(owners)
    ensures CountAvailableOwnerHosts(d, owners, observed) == |Up(d, observed, ToSet(owners))|
  {
    var kept := Filter(hostId => IsAvailable(d, observed, hostId), owners);
    FilterDistinct(hostId => IsAvailable(d, observed, hostId), owners);
    DistinctSize(kept);
    forall hostId ensures IsAvailable(d, observed, hostId) <==> ReportsUp(d, observed, hostId) {
      AvailableExactly(d, observed, hostId);
    }
    assert ToSet(kept) == Up(d, observed, ToSet(owners));
  }

  // ---- The two phases of a round ----

  /** Target hosts to add, in target order: those not yet taken, while there is room. */
  ghost function Additions<T(!new)>(target: seq<T>, taken: set<T>, room: nat): seq<T> {
    if target == [] then []
    else
      var before, host := Additions(target[..|target| - 1], taken, room), target[|target| - 1];
      if |before| >= room || host in taken || host in before then before else before + [host]
  }

  /** The owners left once surplus hosts have been dropped in order, under the budget and above the floor. */
  ghost function Survivors(
      d: Deployment, observed: seq<ObservedHostState>, current: seq<string>, target: set<string>,
      owners: set<string>, budget: nat): set<string>
  {
    if current == [] || budget == 0 then owners
    else if current[0] in target || |Up(d, observed, owners - {current[0]})| < MinAvailable(d) then
      Survivors(d, observed, current[1..], target, owners, budget)
    else
      Survivors(d, observed, current[1..], target, owners - {current[0]}, budget - 1)
  }

  ghost function GradualOwners(
      d: Deployment, observed: seq<ObservedHostState>, target: seq<string>, current: seq<string>): seq<string>
  {
    var owners := current + Additions(target, ToSet(current), BatchSize(d));
    var survivors := Survivors(d, observed, current, ToSet(target), ToSet(owners), BatchSize(d));
    Filter(Members(survivors), owners)
  }

  /** Whether a round is planned gradually rather than by jumping to the target. */
  ghost predicate Gradual(d: Deployment, current: seq<string>) {
    GradualEnabled(d) && !d.allHosts && current != []
  }

  ghost function PlannedOwners(
      d: Deployment, collate: Collation, candidates: seq<CandidateHost>,
      current: seq<string>, observed: seq<ObservedHostState>): seq<string>
  {
    var target := SelectTargetOwnerHostIds(d, collate, candidates);
    if Gradual(d, current) then GradualOwners(d, observed, target, Unique(current)) else target
  }

  lemma {:induction false} AdditionsFull<T(!new)>(target: seq<T>, taken: set<T>, room: nat, k: nat)
    requires k <= |target| && |Additions(target[..k], taken, room)| >= room
    ensures Additions(target, taken, room) == Additions(target[..k], taken, room)
  {
    if k == |target| {
      assert target[..k] == target;
    } else {
      assert target[..|target| - 1][..k] == target[..k];
      AdditionsFull(target[..|target| - 1], taken, room, k);
    }
  }

  lemma AdditionsStep<T(!new)>(target: seq<T>, taken: set<T>, room: nat, i: nat)
    requires i < |target| && |Additions(target[..i], taken, room)| < room
    ensures var before := Additions(target[..i], taken, room);
      Additions(target[..i + 1], taken, room)
        == if target[i] in taken || target[i] in before then before else before + [target[i]]
  {
    assert target[..i + 1][..i] == target[..i];
  }

  /** The planner's first loop: append target hosts until the owner set has grown by the batch size. */
  method AddTargetOwners<T(==, !new)>(target: seq<T>, current: seq<T>, batchSize: nat)
    returns (nextOwnerHostIds: seq<T>, nextOwnerSet: set<T>)
    requires Distinct(current)
    ensures nextOwnerHostIds == current + Additions(target, ToSet(current), batchSize)
    ensures Distinct(nextOwnerHostIds) && nextOwnerSet == ToSet(nextOwnerHostIds)
  {
    nextOwnerHostIds := current;
    nextOwnerSet := ToSet(current);
    for i := 0 to |target|
      invariant nextOwnerHostIds == current + Additions(target[..i], ToSet(current), batchSize)
      invariant Distinct(nextOwnerHostIds) && nextOwnerSet == ToSet(nextOwnerHostIds)
    {
      DistinctSize(nextOwnerHostIds);
      if |nextOwnerSet| >= |current| + batchSize {
        AdditionsFull(target, ToSet(current), batchSize, i);
        return;
      }
      AdditionsStep(target, ToSet(current), batchSize, i);
      if target[i] in nextOwnerSet {
        continue;
      }
      DistinctAppend(nextOwnerHostIds, target[i]);
      nextOwnerSet := nextOwnerSet + {target[i]};
      nextOwnerHostIds := nextOwnerHostIds + [target[i]];
    }
    assert target[..|target|] == target;
  }

  /** The planner's second loop: drop surplus owners, at most a batch, never below the floor. */
  method DropSurplusOwners(
      d: Deployment, observed: seq<ObservedHostState>, current: seq<string>, targetOwnerSet: set<string>,
      nextOwnerHostIds: seq<string>, initialOwnerSet: set<string>, batchSize: nat)
    returns (nextOwnerSet: set<string>)
    requires Distinct(nextOwnerHostIds) && initialOwnerSet == ToSet(nextOwnerHostIds)
    ensures nextOwnerSet == Survivors(d, observed, current, targetOwnerSet, initialOwnerSet, batchSize)
  {
    var minAvailable := MinAvailable(d);
    nextOwnerSet := initialOwnerSet;
    var removedCount := 0;
    for j := 0 to |current|
      invariant removedCount <= batchSize
      invariant nextOwnerSet <= ToSet(nextOwnerHostIds)
      invariant Survivors(d, observed, current[j..], targetOwnerSet, nextOwnerSet, batchSize - removedCount)
             == Survivors(d, observed, current, targetOwnerSet, initialOwnerSet, batchSize)
    {
      var hostId := current[j];
      if removedCount >= batchSize {
        break;
      }
      assert current[j..][1..] == current[j + 1..];
      if hostId in targetOwnerSet {
        continue;
      }
      var remaining := RemainingOwners(nextOwnerHostIds, nextOwnerSet, hostId);
      CountIsUp(d, remaining, observed);
      if CountAvailableOwnerHosts(d, remaining, observed) < minAvailable {
        continue;
      }
      nextOwnerSet := nextOwnerSet - {hostId};
      removedCount := removedCount + 1;
    }
  }

  function RemainingOwners(hostIds: seq<string>, owners: set<string>, without: string): (r: seq<string>)
    requires Distinct(hostIds) && owners <= ToSet(hostIds)
    ensures Distinct(r) && ToSet(r) == owners - {without}
  {
    var keep := (other: string) => other != without && other in owners;
    FilterDistinct(keep, hostIds);
    Filter(keep, hostIds)
  }

  function Members(owners: set<string>): string -> bool {
    hostId => hostId in owners
  }

  method PlanHttpWorkerDeploymentOwners(
      d: Deployment, collate: Collation, candidates: seq<CandidateHost>,
      currentDesiredOwnerHostIds: seq<string>, observed: seq<ObservedHostState>)
    returns (owners: seq<string>)
    ensures owners == PlannedOwners(d, collate, candidates, currentDesiredOwnerHostIds, observed)
  {
    var target := SelectTargetOwnerHostIds(d, collate, candidates);
    if !GradualEnabled(d) || d.allHosts {
      return target;
    }
    var current := Unique(currentDesiredOwnerHostIds);
    assert currentDesiredOwnerHostIds != [] ==> currentDesiredOwnerHostIds[0] in current;
    if |current| == 0 {
      return target;
    }
    var batchSize := BatchSize(d);
    var nextOwnerHostIds, grownOwnerSet := AddTargetOwners(target, current, batchSize);
    var nextOwnerSet := DropSurplusOwners(
      d, observed, current, ToSet(target), nextOwnerHostIds, grownOwnerSet, batchSize);
    owners := Filter(Members(nextOwnerSet), nextOwnerHostIds);
  }

  // ---- What the phases do ----

  function Least(a: nat, b: nat): nat {
    if a <= b then a else b
  }

  lemma {:induction false} AdditionsFacts<T(!new)>(target: seq<T>, taken: set<T>, room: nat)
    ensures var added := Additions(target, taken, room);
      && Distinct(added)
      && ToSet(added) <= ToSet(target) - taken
      && |added| == Least(room, |ToSet(target) - taken|)
  {
    if target == [] {
      assert ToSet(target) - taken == {};
    } else {
      var init, host := target[..|target| - 1], target[|target| - 1];
      AdditionsFacts(init, taken, room);
      var before := Additions(init, taken, room);
      var missing := ToSet(init) - taken;
      assert target == init + [host];
      assert ToSet(target) - taken == if host in taken then missing else missing + {host};
      DistinctSize(before);
      SubsetSize(missing, ToSet(target) - taken);
      SubsetSize(ToSet(before), missing);
      if |before| < room && host !in before && host !in taken {
        DistinctAppend(before, host);
        assert ToSet(before) == missing && host !in missing;
      }
    }
  }

  lemma UpMonotone(d: Deployment, observed: seq<ObservedHostState>, a: set<string>, b: set<string>)
    requires a <= b
    ensures |Up(d, observed, a)| <= |Up(d, observed, b)|
  {
    SubsetSize(Up(d, observed, a), Up(d, observed, b));
  }

  lemma {:induction false} SurvivorsFacts(
      d: Deployment, observed: seq<ObservedHostState>, current: seq<string>, target: set<string>,
      owners: set<string>, budget: nat)
    requires Distinct(current) && ToSet(current) <= owners
    ensures var kept := Survivors(d, observed, current, target, owners, budget);
      && kept <= owners
      && owners - kept <= ToSet(current) - target
      && |owners - kept| <= budget
  {
    if current != [] && budget > 0 {
      var host, rest := current[0], current[1..];
      TailSet(current);
      if host in target || |Up(d, observed, owners - {host})| < MinAvailable(d) {
        SurvivorsFacts(d, observed, rest, target, owners, budget);
      } else {
        SurvivorsFacts(d, observed, rest, target, owners - {host}, budget - 1);
        SplitOff(owners, Survivors(d, observed, rest, target, owners - {host}, budget - 1), host);
      }
    } else {
      assert owners - owners == {};
    }
  }

  lemma {:induction false} SurvivorsAvailable(
      d: Deployment, observed: seq<ObservedHostState>, current: seq<string>, target: set<string>,
      owners: set<string>, budget: nat)
    ensures |Up(d, observed, Survivors(d, observed, current, target, owners, budget))|
         >= Least(|Up(d, observed, owners)|, MinAvailable(d))
  {
    if current != [] && budget > 0 {
      var host, rest := current[0], current[1..];
      if host in target || |Up(d, observed, owners - {host})| < MinAvailable(d) {
        SurvivorsAvailable(d, observed, rest, target, owners, budget);
      } else {
        SurvivorsAvailable(d, observed, rest, target, owners - {host}, budget - 1);
      }
    }
  }

  lemma TailSet<T(!new)>(s: seq<T>)
    requires Distinct(s) && s != []
    ensures Distinct(s[1..]) && ToSet(s[1..]) == ToSet(s) - {s[0]}
  {
  }

  lemma SplitOff<T(!new)>(owners: set<T>, kept: set<T>, x: T)
    requires x in owners && kept <= owners - {x}
    ensures owners - kept == (owners - {x} - kept) + {x}
    ensures |owners - kept| == |owners - {x} - kept| + 1
  {
    assert owners - kept == (owners - {x} - kept) + {x};
  }

  /** Dropping leaves the owner set alone exactly when every surplus host is pinned by the floor. */
  lemma {:induction false} SurvivorsStuck(
      d: Deployment, observed: seq<ObservedHostState>, current: seq<string>, target: set<string>,
      owners: set<string>, budget: nat)
    requires Distinct(current) && ToSet(current) <= owners && budget > 0
    ensures Survivors(d, observed, current, target, owners, budget) == owners
       <==> forall host :: host in current && host !in target ==>
              |Up(d, observed, owners - {host})| < MinAvailable(d)
  {
    if current != [] {
      var host, rest := current[0], current[1..];
      assert forall h :: h in current <==> h == host || h in rest;
      if host in target || |Up(d, observed, owners - {host})| < MinAvailable(d) {
        SurvivorsStuck(d, observed, rest, target, owners, budget);
      } else {
        SurvivorsFacts(d, observed, rest, target, owners - {host}, budget - 1);
        assert host !in Survivors(d, observed, current, target, owners, budget);
      }
    }
  }

  /** Of these hosts, each surplus one that is kept could not go without breaking the floor. */
  ghost predicate PinnedAmong(d: Deployment, observed: seq<ObservedHostState>, hosts: seq<string>, kept: set<string>, target: set<string>) {
    forall host :: host in hosts && host in kept && host !in target ==> |Up(d, observed, kept - {host})| < MinAvailable(d)
  }

  lemma PinnedCons(d: Deployment, observed: seq<ObservedHostState>, hosts: seq<string>, kept: set<string>, target: set<string>)
    requires hosts != [] && PinnedAmong(d, observed, hosts[1..], kept, target)
    requires hosts[0] in kept && hosts[0] !in target ==> |Up(d, observed, kept - {hosts[0]})| < MinAvailable(d)
    ensures PinnedAmong(d, observed, hosts, kept, target)
  {
    assert forall host :: host in hosts <==> host == hosts[0] || host in hosts[1..];
  }

  /** Dropping goes as far as it may: either the whole budget is used, or every surplus host that is left is pinned. */
  lemma {:induction false} SurvivorsMaximal(
      d: Deployment, observed: seq<ObservedHostState>, current: seq<string>, target: set<string>,
      owners: set<string>, budget: nat)
    requires Distinct(current) && ToSet(current) <= owners
    ensures var kept := Survivors(d, observed, current, target, owners, budget);
      |owners - kept| == budget || PinnedAmong(d, observed, current, kept, target)
  {
    if current != [] && budget > 0 {
      var host, rest := current[0], current[1..];
      var kept := Survivors(d, observed, current, target, owners, budget);
      TailSet(current);
      if host in target || |Up(d, observed, owners - {host})| < MinAvailable(d) {
        SurvivorsMaximal(d, observed, rest, target, owners, budget);
        SurvivorsFacts(d, observed, rest, target, owners, budget);
        UpMonotone(d, observed, kept - {host}, owners - {host});
      } else {
        SurvivorsMaximal(d, observed, rest, target, owners - {host}, budget - 1);
        SurvivorsFacts(d, observed, rest, target, owners - {host}, budget - 1);
        SplitOff(owners, kept, host);
      }
      if PinnedAmong(d, observed, rest, kept, target) { PinnedCons(d, observed, current, kept, target); }
    } else {
      assert owners - owners == {};
    }
  }

  /** Surplus hosts go in the order of the owner list: one that is kept while a later one goes is pinned by the floor. */
  lemma {:induction false} SurvivorsInOrder(
      d: Deployment, observed: seq<ObservedHostState>, current: seq<string>, target: set<string>,
      owners: set<string>, budget: nat, i: nat, j: nat)
    requires Distinct(current) && ToSet(current) <= owners && i < j < |current| && current[i] !in target
    requires current[i] in Survivors(d, observed, current, target, owners, budget)
    requires current[j] !in Survivors(d, observed, current, target, owners, budget)
    ensures |Up(d, observed, Survivors(d, observed, current, target, owners, budget) - {current[i]})| < MinAvailable(d)
  {
    assert budget > 0;
    var host, rest := current[0], current[1..];
    var kept := Survivors(d, observed, current, target, owners, budget);
    TailSet(current);
    if host in target || |Up(d, observed, owners - {host})| < MinAvailable(d) {
      if i == 0 {
        SurvivorsFacts(d, observed, rest, target, owners, budget);
        UpMonotone(d, observed, kept - {host}, owners - {host});
      } else {
        SurvivorsInOrder(d, observed, rest, target, owners, budget, i - 1, j - 1);
      }
    } else {
      SurvivorsFacts(d, observed, rest, target, owners - {host}, budget - 1);
      SurvivorsInOrder(d, observed, rest, target, owners - {host}, budget - 1, i - 1, j - 1);
    }
  }

  /** Hosts are added in target order: none is skipped that is missing and comes before one added. */
  lemma {:induction false} AdditionsInOrder<T(!new)>(target: seq<T>, taken: set<T>, room: nat, i: nat, j: nat)
    requires i < j < |target| && target[i] !in taken
    requires target[j] in Additions(target, taken, room) && target[j] !in target[..j]
    ensures target[i] in Additions(target, taken, room)
  {
    var n := |target| - 1;
    var init := target[..n];
    if j < n {
      assert init[..j] == target[..j];
      if target[j] in Additions(init, taken, room) {
        AdditionsInOrder(init, taken, room, i, j);
      } else {
        assert target[n] == target[j] && |Additions(init, taken, room)| < room;
        TakenWhileRoom(init, taken, room, j);
      }
    } else {
      AdditionsFacts(init, taken, room);
      assert target[j] !in Additions(init, taken, room);
      TakenWhileRoom(init, taken, room, i);
    }
  }

  /** While there is room left every missing host has been added. */
  lemma {:induction false} TakenWhileRoom<T(!new)>(target: seq<T>, taken: set<T>, room: nat, i: nat)
    requires i < |target| && |Additions(target, taken, room)| < room && target[i] !in taken
    ensures target[i] in Additions(target, taken, room)
  {
    var n := |target| - 1;
    if i < n { TakenWhileRoom(target[..n], taken, room, i); }
  }

  lemma ConcatDistinct<T(!new)>(a: seq<T>, b: seq<T>)
    requires Distinct(a) && Distinct(b) && ToSet(a) !! ToSet(b)
    ensures Distinct(a + b) && ToSet(a + b) == ToSet(a) + ToSet(b)
  {
    forall i, j | 0 <= i < j < |a + b| ensures (a + b)[i] != (a + b)[j] {
      if i < |a| <= j { assert a[i] in ToSet(a) && b[j - |a|] in ToSet(b); }
    }
  }

  lemma GradualShape(d: Deployment, observed: seq<ObservedHostState>, target: seq<string>, current: seq<string>)
    requires Distinct(current)
    ensures var added := Additions(target, ToSet(current), BatchSize(d));
      var owners := ToSet(current) + ToSet(added);
      && Distinct(GradualOwners(d, observed, target, current))
      && ToSet(GradualOwners(d, observed, target, current))
         == Survivors(d, observed, current, ToSet(target), owners, BatchSize(d))
  {
    var added := Additions(target, ToSet(current), BatchSize(d));
    AdditionsFacts(target, ToSet(current), BatchSize(d));
    var owners := current + added;
    ConcatDistinct(current, added);
    var survivors := Survivors(d, observed, current, ToSet(target), ToSet(owners), BatchSize(d));
    SurvivorsFacts(d, observed, current, ToSet(target), ToSet(owners), BatchSize(d));
    FilterDistinct(Members(survivors), owners);
  }

  // ---- One round ----

  ghost predicate IsRound(current: set<string>, target: set<string>, next: set<string>, batchSize: nat) {
    && next <= current + target
    && current * target <= next
    && |next - current| == Least(batchSize, |target - current|)
    && |current - next| <= batchSize
  }

  /** Whatever is added from the target and dropped from the surplus, within the batch, makes a round. */
  lemma RoundBounds(current: set<string>, target: set<string>, added: set<string>, next: set<string>, batchSize: nat)
    requires added <= target - current && |added| == Least(batchSize, |target - current|)
    requires next <= current + added && current + added - next <= current - target
    requires |current + added - next| <= batchSize
    ensures IsRound(current, target, next, batchSize) && next - current == added
  {
    assert next - current == added;
    assert current - next == current + added - next;
  }

  /** A gradual round on owners listed once: its bounds, and availability not pushed below the floor. */
  lemma GradualRound(d: Deployment, observed: seq<ObservedHostState>, target: seq<string>, owned: seq<string>)
    requires Distinct(owned)
    ensures var next := GradualOwners(d, observed, target, owned);
      && Distinct(next)
      && IsRound(ToSet(owned), ToSet(target), ToSet(next), BatchSize(d))
      && |Up(d, observed, ToSet(next))| >= Least(|Up(d, observed, ToSet(owned))|, MinAvailable(d))
  {
    var added := Additions(target, ToSet(owned), BatchSize(d));
    var grown := ToSet(owned) + ToSet(added);
    var next := ToSet(GradualOwners(d, observed, target, owned));
    GradualShape(d, observed, target, owned);
    AdditionsFacts(target, ToSet(owned), BatchSize(d));
    DistinctSize(added);
    SurvivorsFacts(d, observed, owned, ToSet(target), grown, BatchSize(d));
    RoundBounds(ToSet(owned), ToSet(target), ToSet(added), next, BatchSize(d));
    SurvivorsAvailable(d, observed, owned, ToSet(target), grown, BatchSize(d));
    UpMonotone(d, observed, ToSet(owned), grown);
  }

  lemma SameSet(current: seq<string>)
    ensures ToSet(Unique(current)) == ToSet(current)
  {
  }

  /**
   Safety of one gradual round: no host twice, nothing from outside current and target, nothing
   both have is lost, as many target hosts added as the batch allows, at most a batch dropped,
   and availability not pushed below the floor.
   */
  lemma RoundSafety(
      d: Deployment, collate: Collation, candidates: seq<CandidateHost>,
      current: seq<string>, observed: seq<ObservedHostState>)
    requires Gradual(d, current)
    ensures var next := PlannedOwners(d, collate, candidates, current, observed);
      var target := ToSet(SelectTargetOwnerHostIds(d, collate, candidates));
      && Distinct(next)
      && IsRound(ToSet(current), target, ToSet(next), BatchSize(d))
      && |Up(d, observed, ToSet(next))| >= Least(|Up(d, observed, ToSet(current))|, MinAvailable(d))
  {
    SameSet(current);
    GradualRound(d, observed, SelectTargetOwnerHostIds(d, collate, candidates), Unique(current));
  }

  /** Every target host is an owner, and dropping any surplus owner would break the floor. */
  ghost predicate Pinned(d: Deployment, observed: seq<ObservedHostState>, owners: set<string>, target: set<string>) {
    && target <= owners
    && forall host :: host in owners && host !in target ==>
         |Up(d, observed, owners - {host})| < MinAvailable(d)
  }

  lemma GradualStuck(d: Deployment, observed: seq<ObservedHostState>, target: seq<string>, owned: seq<string>)
    requires Distinct(owned)
    ensures ToSet(GradualOwners(d, observed, target, owned)) == ToSet(owned) <==> Pinned(d, observed, ToSet(owned), ToSet(target))
  {
    if ToSet(target) <= ToSet(owned) {
      NothingToAdd(d, observed, target, owned);
      SurvivorsStuck(d, observed, owned, ToSet(target), ToSet(owned), BatchSize(d));
    } else {
      GradualRound(d, observed, target, owned);
      GrowsOrNot(ToSet(owned), ToSet(target), ToSet(GradualOwners(d, observed, target, owned)), BatchSize(d));
    }
  }

  lemma NothingToAdd(d: Deployment, observed: seq<ObservedHostState>, target: seq<string>, owned: seq<string>)
    requires Distinct(owned) && ToSet(target) <= ToSet(owned)
    ensures ToSet(GradualOwners(d, observed, target, owned))
         == Survivors(d, observed, owned, ToSet(target), ToSet(owned), BatchSize(d))
  {
    var added := Additions(target, ToSet(owned), BatchSize(d));
    GradualShape(d, observed, target, owned);
    AdditionsFacts(target, ToSet(owned), BatchSize(d));
    assert ToSet(added) == {};
    assert ToSet(owned) + ToSet(added) == ToSet(owned);
  }

  lemma GrowsOrNot(current: set<string>, target: set<string>, next: set<string>, batchSize: nat)
    requires IsRound(current, target, next, batchSize) && batchSize > 0 && !(target <= current)
    ensures next != current
  {
    var host :| host in target && host !in current;
    assert host in target - current && |next - current| > 0;
    assert next - current != {};
  }

  /**
   Exactly when a round changes nothing: every target host is already an owner and every surplus
   owner is pinned, because dropping it would leave fewer available owners than the floor.
   */
  lemma RoundStuck(
      d: Deployment, collate: Collation, candidates: seq<CandidateHost>,
      current: seq<string>, observed: seq<ObservedHostState>)
    requires Gradual(d, current)
    ensures var owners := ToSet(current);
      var target := ToSet(SelectTargetOwnerHostIds(d, collate, candidates));
      ToSet(PlannedOwners(d, collate, candidates, current, observed)) == owners
      <==> Pinned(d, observed, owners, target)
  {
    SameSet(current);
    GradualStuck(d, observed, SelectTargetOwnerHostIds(d, collate, candidates), Unique(current));
  }

  /** Placement goes straight to the target unless a rollout setting asks for steps and there are owners to step from. */
  lemma WhenGradual(
      d: Deployment, collate: Collation, candidates: seq<CandidateHost>, current: seq<string>, observed: seq<ObservedHostState>)
    ensures (!d.rollout.gradual && d.rollout.batchSize.None? && d.rollout.maxUnavailable.None?) || d.allHosts || current == [] ==>
      PlannedOwners(d, collate, candidates, current, observed) == SelectTargetOwnerHostIds(d, collate, candidates)
    ensures (d.rollout.gradual || d.rollout.batchSize.Some? || d.rollout.maxUnavailable.Some?) && !d.allHosts && current != [] ==>
      Gradual(d, current)
  {
  }

  /**
   A gradual round drops as much as it may: a whole batch, or else every surplus owner it leaves is
   pinned by the floor.
   */
  lemma RoundMaximal(
      d: Deployment, collate: Collation, candidates: seq<CandidateHost>, current: seq<string>, observed: seq<ObservedHostState>)
    requires Gradual(d, current)
    ensures var next := ToSet(PlannedOwners(d, collate, candidates, current, observed));
      var target := ToSet(SelectTargetOwnerHostIds(d, collate, candidates));
      |ToSet(current) - next| == BatchSize(d) || PinnedAmong(d, observed, current, next, target)
  {
    SameSet(current);
    GradualMaximal(d, observed, SelectTargetOwnerHostIds(d, collate, candidates), Unique(current));
  }

  lemma GradualMaximal(d: Deployment, observed: seq<ObservedHostState>, target: seq<string>, owned: seq<string>)
    requires Distinct(owned)
    ensures var next := ToSet(GradualOwners(d, observed, target, owned));
      |ToSet(owned) - next| == BatchSize(d) || PinnedAmong(d, observed, owned, next, ToSet(target))
  {
    var added := Additions(target, ToSet(owned), BatchSize(d));
    var grown, next := ToSet(owned) + ToSet(added), ToSet(GradualOwners(d, observed, target, owned));
    GradualShape(d, observed, target, owned);
    AdditionsFacts(target, ToSet(owned), BatchSize(d));
    SurvivorsMaximal(d, observed, owned, ToSet(target), grown, BatchSize(d));
    SurvivorsFacts(d, observed, owned, ToSet(target), grown, BatchSize(d));
    assert grown - next == ToSet(owned) - next;
  }

  /** And it drops in order: a surplus owner it keeps while it drops a later one is pinned by the floor. */
  lemma RoundDropsInOrder(
      d: Deployment, collate: Collation, candidates: seq<CandidateHost>, current: seq<string>, observed: seq<ObservedHostState>,
      i: nat, j: nat)
    requires Gradual(d, current) && i < j < |Unique(current)|
    requires Unique(current)[i] !in SelectTargetOwnerHostIds(d, collate, candidates)
    requires Unique(current)[i] in PlannedOwners(d, collate, candidates, current, observed)
    requires Unique(current)[j] !in PlannedOwners(d, collate, candidates, current, observed)
    ensures var next := ToSet(PlannedOwners(d, collate, candidates, current, observed));
      |Up(d, observed, next - {Unique(current)[i]})| < MinAvailable(d)
  {
    GradualInOrder(d, observed, SelectTargetOwnerHostIds(d, collate, candidates), Unique(current), i, j);
  }

  lemma GradualInOrder(d: Deployment, observed: seq<ObservedHostState>, target: seq<string>, owned: seq<string>, i: nat, j: nat)
    requires Distinct(owned) && i < j < |owned| && owned[i] !in target
    requires owned[i] in GradualOwners(d, observed, target, owned) && owned[j] !in GradualOwners(d, observed, target, owned)
    ensures |Up(d, observed, ToSet(GradualOwners(d, observed, target, owned)) - {owned[i]})| < MinAvailable(d)
  {
    var grown := ToSet(owned) + ToSet(Additions(target, ToSet(owned), BatchSize(d)));
    GradualShape(d, observed, target, owned);
    assert ToSet(GradualOwners(d, observed, target, owned)) == Survivors(d, observed, owned, ToSet(target), grown, BatchSize(d));
    SurvivorsInOrder(d, observed, owned, ToSet(target), grown, BatchSize(d), i, j);
  }

  // ---- Whole runs ----

  /** What the planner sees at one round; placement and observations may change between rounds. */
  datatype Round = Round(deployment: Deployment, candidates: seq<CandidateHost>, observed: seq<ObservedHostState>)

  ghost function Step(collate: Collation, round: Round, owners: seq<string>): seq<string> {
    PlannedOwners(round.deployment, collate, round.candidates, owners, round.observed)
  }

  ghost function Run(collate: Collation, rounds: seq<Round>, owners: seq<string>): seq<string> {
    if rounds == [] then owners else Run(collate, rounds[1..], Step(collate, rounds[0], owners))
  }

  ghost function Distance(owners: set<string>, target: set<string>): nat {
    |target - owners| + |owners - target|
  }

  /** Once every target host is an owner, enough of them are observed available to meet the floor. */
  ghost predicate TargetHolds(d: Deployment, observed: seq<ObservedHostState>, owners: set<string>, target: set<string>) {
    target <= owners ==> MinAvailable(d) <= |Up(d, observed, target)|
  }

  /** A gradual round that aims at `target`, which can carry the deployment by itself. */
  ghost predicate HealthyRound(collate: Collation, round: Round, owners: seq<string>, target: set<string>) {
    var d := round.deployment;
    && GradualEnabled(d) && !d.allHosts
    && ToSet(SelectTargetOwnerHostIds(d, collate, round.candidates)) == target
    && TargetHolds(d, round.observed, ToSet(owners), target)
  }

  /** The k-th round is healthy for the owners the rounds before it leave. */
  ghost predicate HealthyAt(collate: Collation, rounds: seq<Round>, owners: seq<string>, target: set<string>, k: nat)
    requires k < |rounds|
  {
    HealthyRound(collate, rounds[k], Run(collate, rounds[..k], owners), target)
  }

  ghost predicate HealthyRun(collate: Collation, rounds: seq<Round>, owners: seq<string>, target: set<string>) {
    forall k :: 0 <= k < |rounds| ==> HealthyAt(collate, rounds, owners, target, k)
  }

  lemma HealthyTail(collate: Collation, rounds: seq<Round>, owners: seq<string>, target: set<string>)
    requires rounds != [] && HealthyRun(collate, rounds, owners, target)
    ensures HealthyRound(collate, rounds[0], owners, target)
    ensures HealthyRun(collate, rounds[1..], Step(collate, rounds[0], owners), target)
  {
    assert HealthyAt(collate, rounds, owners, target, 0);
    var rest, next := rounds[1..], Step(collate, rounds[0], owners);
    forall k | 0 <= k < |rest| ensures HealthyAt(collate, rest, next, target, k) {
      var j := k + 1;
      assert HealthyAt(collate, rounds, owners, target, j);
      assert rounds[..j][1..] == rest[..k] && rounds[..j][0] == rounds[0];
    }
  }

  lemma RoundCloser(current: set<string>, target: set<string>, next: set<string>, batchSize: nat)
    requires IsRound(current, target, next, batchSize) && next != current
    ensures Distance(next, target) < Distance(current, target)
  {
    SubsetSize(next - target, current - target);
    SubsetSize(target - next, target - current);
    assert next - target == current - target && target - next == target - current ==>
      forall host :: host in next <==> host in current;
  }

  /** With a target that holds, only the target is pinned. */
  lemma PinnedOnlyAtTarget(d: Deployment, observed: seq<ObservedHostState>, owners: set<string>, target: set<string>)
    requires TargetHolds(d, observed, owners, target)
    ensures Pinned(d, observed, owners, target) <==> owners == target
  {
    if target < owners {
      var host :| host in owners && host !in target;
      UpMonotone(d, observed, target, owners - {host});
    }
  }

  /** In particular it holds when every owner in the target is available and the target has the full size. */
  lemma AvailableTargetHolds(d: Deployment, observed: seq<ObservedHostState>, owners: set<string>, target: set<string>)
    requires forall host :: host in owners && host in target ==> ReportsUp(d, observed, host)
    requires MinAvailable(d) <= |target|
    ensures TargetHolds(d, observed, owners, target)
  {
    if target <= owners { assert Up(d, observed, target) == target; }
  }

  /** Every healthy round strictly shortens the distance to the target; at the target nothing moves. */
  lemma RoundProgress(collate: Collation, round: Round, owners: seq<string>, target: set<string>)
    requires HealthyRound(collate, round, owners, target)
    ensures var next := ToSet(Step(collate, round, owners));
      if ToSet(owners) == target then next == target
      else Distance(next, target) < Distance(ToSet(owners), target)
  {
    var current, next := ToSet(owners), ToSet(Step(collate, round, owners));
    if owners == [] {
      assert target - current == target && next == target && target - target == {};
    } else {
      RoundStuck(round.deployment, collate, round.candidates, owners, round.observed);
      PinnedOnlyAtTarget(round.deployment, round.observed, current, target);
      RoundSafety(round.deployment, collate, round.candidates, owners, round.observed);
      if current != target {
        RoundCloser(current, target, next, BatchSize(round.deployment));
      }
    }
  }

  /**
   Convergence: a healthy run of at least as many rounds as owners to add or drop ends exactly at
   the target, wherever it starts and however candidates and observations vary on the way.
   */
  lemma {:induction false} RolloutConverges(collate: Collation, rounds: seq<Round>, owners: seq<string>, target: set<string>)
    requires HealthyRun(collate, rounds, owners, target)
    requires |rounds| >= Distance(ToSet(owners), target)
    ensures ToSet(Run(collate, rounds, owners)) == target
    decreases |rounds|
  {
    if rounds == [] {
      assert target - ToSet(owners) == {} && ToSet(owners) - target == {};
    } else {
      HealthyTail(collate, rounds, owners, target);
      RoundProgress(collate, rounds[0], owners, target);
      assert target - target == {};
      RolloutConverges(collate, rounds[1..], Step(collate, rounds[0], owners), target);
    }
  }

  lemma RoundAvailable(
      collate: Collation, d: Deployment, observed: seq<ObservedHostState>, candidates: seq<CandidateHost>, owners: seq<string>)
    requires GradualEnabled(d) && !d.allHosts
    ensures |Up(d, observed, ToSet(PlannedOwners(d, collate, candidates, owners, observed)))|
         >= Least(|Up(d, observed, ToSet(owners))|, MinAvailable(d))
  {
    if owners == [] {
      assert Up(d, observed, ToSet(owners)) == {};
    } else {
      RoundSafety(d, collate, candidates, owners, observed);
    }
  }

  /**
   Availability over a whole run on fixed observations: however placement changes, the number of
   available owners never falls below the smaller of where it started and the floor.
   */
  lemma {:induction false} RunSafety(
      collate: Collation, d: Deployment, observed: seq<ObservedHostState>, rounds: seq<Round>, owners: seq<string>)
    requires GradualEnabled(d) && !d.allHosts
    requires forall round :: round in rounds ==> round.deployment == d && round.observed == observed
    ensures |Up(d, observed, ToSet(Run(collate, rounds, owners)))|
         >= Least(|Up(d, observed, ToSet(owners))|, MinAvailable(d))
    decreases |rounds|
  {
    if rounds != [] {
      assert rounds[0] in rounds && forall round :: round in rounds[1..] ==> round in rounds;
      RoundAvailable(collate, d, observed, rounds[0].candidates, owners);
      RunSafety(collate, d, observed, rounds[1..], Step(collate, rounds[0], owners));
    }
  }
}
