/**
 What building a host's configuration yields, when applying it throws, and what the planner's drift check
 lists (src/runtime/control/runtime-host-adapter.ts, src/sdk/admin/planning.ts), field by field.
 */
module HostReports {
  import opened Prelude
  import opened Sorting
  import opened Collations
  import opened ProtocolRegistry
  import M = ServiceModules
  import opened HostConvergence

  // ---- Pipelines ----

  /** What the assignment runs: its HTTP worker, or its serve application when it has no worker. */
  ghost predicate RunsAs(a: Assignment, x: HttpExecutable) {
    !a.unit.isServiceModule && (a.httpWorker == Some(x) || (a.httpWorker == None && a.serveApp == Some(x)))
  }

  /** The last route of that id. */
  ghost predicate LastRoute(routes: seq<Route>, ref: RouteId, i: int) {
    0 <= i < |routes| && routes[i].routeId == ref && forall k :: i < k < |routes| ==> routes[k].routeId != ref
  }

  /** The pipeline of one route reference: where it matches, where it leads, and what runs there. */
  ghost predicate Stems(routes: seq<Route>, a: Assignment, x: HttpExecutable, p: Pipeline, ref: RouteId, i: int) {
    && RunsAs(a, x) && ref in x.routeRefs && LastRoute(routes, ref, i)
    && p.id == a.unit.assignmentId + ":" + ref
    && p.matchPrefix == routes[i].pathPrefix && p.origin == routes[i].baseUrl && p.websocket == routes[i].websocketEnabled
    && p.groupId == a.groupId
    && p.workerEntry == (if a.isServe && x.externalServe then None else a.stagedEntry)
  }

  ghost predicate IsPipelineOf(routes: seq<Route>, a: Assignment, p: Pipeline) {
    exists x, ref, i :: Stems(routes, a, x, p, ref, i)
  }

  lemma {:induction false} RouteFound(routes: seq<Route>, ref: RouteId)
    ensures RouteOf(routes, ref).Some? ==> exists i :: LastRoute(routes, ref, i) && routes[i] == RouteOf(routes, ref).value
  {
    if routes != [] {
      var n := |routes| - 1;
      if routes[n].routeId == ref {
        assert LastRoute(routes, ref, n);
      } else {
        RouteFound(routes[..n], ref);
        LastRouteStays(routes, ref);
        assert RouteOf(routes, ref) == RouteOf(routes[..n], ref);
      }
    }
  }

  lemma LastRouteStays(routes: seq<Route>, ref: RouteId)
    requires routes != [] && routes[|routes| - 1].routeId != ref
    ensures forall i :: LastRoute(routes[..|routes| - 1], ref, i) ==> LastRoute(routes, ref, i) && routes[i] == routes[..|routes| - 1][i]
  {
  }

  /** What a reference makes of its route is the pipeline that stems from it, and no other. */
  lemma StemsExactly(routes: seq<Route>, a: Assignment, x: HttpExecutable, ref: RouteId, p: Pipeline)
    requires RunsAs(a, x) && ref in x.routeRefs && Known(routes, ref)
    ensures p == PipelineFor(a, x, RouteOf(routes, ref).value) <==> exists i :: Stems(routes, a, x, p, ref, i)
  {
    RouteFound(routes, ref);
    var i :| LastRoute(routes, ref, i) && routes[i] == RouteOf(routes, ref).value;
    if p == PipelineFor(a, x, routes[i]) {
      assert Stems(routes, a, x, p, ref, i);
    }
    if j :| Stems(routes, a, x, p, ref, j) {
      assert j == i;
    }
  }

  lemma ProducedPipelines(routes: seq<Route>, managed: bool, a: Assignment, p: Pipeline)
    requires !Build(routes, managed, a).Throws?
    ensures IsPipelineOf(routes, a, p) <==> Build(routes, managed, a).Produced? && p in Build(routes, managed, a).pipelines
  {
    if !a.unit.isServiceModule && Executable(a).Some? {
      var x := Executable(a).value;
      var built := Build(routes, managed, a).pipelines;
      PipelinesForExactly(routes, a, x, x.routeRefs);
      if p in built {
        var k :| 0 <= k < |built| && built[k] == p;
        StemsExactly(routes, a, x, x.routeRefs[k], p);
      }
      if y, ref, i :| Stems(routes, a, y, p, ref, i) {
        assert y == x;
        var k :| 0 <= k < |x.routeRefs| && x.routeRefs[k] == ref;
        StemsExactly(routes, a, x, ref, p);
        assert built[k] == p;
      }
    }
  }

  ghost predicate FromSome(routes: seq<Route>, assignments: seq<Assignment>, p: Pipeline) {
    exists a :: a in assignments && IsPipelineOf(routes, a, p)
  }

  lemma FromSomeLast(routes: seq<Route>, assignments: seq<Assignment>, p: Pipeline)
    requires assignments != []
    ensures var n := |assignments| - 1;
      FromSome(routes, assignments, p) <==> FromSome(routes, assignments[..n], p) || IsPipelineOf(routes, assignments[n], p)
  {
    var n := |assignments| - 1;
    assert assignments == assignments[..n] + [assignments[n]];
    assert forall a :: a in assignments <==> a in assignments[..n] || a == assignments[n];
  }

  /** The configuration holds exactly the pipelines of its assignments. */
  lemma {:induction false} PipelinesExactly(routes: seq<Route>, managed: bool, states: Recorded, assignments: seq<Assignment>, p: Pipeline)
    requires BuildConfig(routes, managed, states, assignments).Some?
    ensures p in BuildConfig(routes, managed, states, assignments).value.pipelines <==> FromSome(routes, assignments, p)
  {
    if assignments != [] {
      PipelinesExactly(routes, managed, states, assignments[..|assignments| - 1], p);
      ProducedPipelines(routes, managed, assignments[|assignments| - 1], p);
      FromSomeLast(routes, assignments, p);
    }
  }

  // ---- When applying throws ----

  /** Staging fails, or a route reference is unknown. */
  ghost predicate Fails(routes: seq<Route>, a: Assignment, x: HttpExecutable) {
    || (a.stagedEntry.None? && !(a.isServe && x.externalServe))
    || exists ref :: ref in x.routeRefs && forall route :: route in routes ==> route.routeId != ref
  }

  /** An HTTP assignment that cannot be staged or that names an unknown route. */
  ghost predicate Unbuildable(routes: seq<Route>, a: Assignment) {
    exists x :: RunsAs(a, x) && Fails(routes, a, x)
  }

  lemma UnbuildableExactly(routes: seq<Route>, a: Assignment)
    ensures Unbuildable(routes, a) <==> !Buildable(routes, a)
  {
    if !Buildable(routes, a) { assert RunsAs(a, Executable(a).value); }
  }

  /**
   Applying throws exactly when an assignment cannot be built, the service modules cannot be applied,
   trusting the host throws, or the configuration is not published cleanly; without a throw, and also when
   only a listener threw after publication, the host runs the pipelines of the desired state. Service
   modules that have been applied stay applied whatever throws after them.
   */
  lemma ApplyThrowsExactly(h: Host, d: Desired, trustThrows: bool, publication: Publication)
    ensures var (after, threw) := ApplyDesired(h, d, trustThrows, publication);
      var modulesThrow := h.modules.Some? && M.ApplyAssignments(h.modules.value, Units(d.assignments)).1;
      var unbuildable := exists a :: a in d.assignments && Unbuildable(d.routes, a);
      && (threw <==> unbuildable || modulesThrow || trustThrows || publication != Published)
      && (!unbuildable && !modulesThrow && !trustThrows && publication != Rejected ==>
            forall p :: p in after.pipelines <==> FromSome(d.routes, d.assignments, p))
      && (!threw ==> after.lastDesired == Some(d))
      && (!unbuildable && h.modules.Some? ==> after.modules == Some(M.ApplyAssignments(h.modules.value, Units(d.assignments)).0))
  {
    var managed, states := h.modules.Some?, AllPreparing(d.assignments);
    BuildsExactly(d.routes, managed, states, d.assignments);
    forall a ensures Unbuildable(d.routes, a) <==> !Buildable(d.routes, a) { UnbuildableExactly(d.routes, a); }
    if BuildConfig(d.routes, managed, states, d.assignments).Some? {
      forall p
        ensures p in BuildConfig(d.routes, managed, states, d.assignments).value.pipelines <==> FromSome(d.routes, d.assignments, p)
      {
        PipelinesExactly(d.routes, managed, states, d.assignments, p);
      }
    }
  }

  // ---- The drift check ----

  /** A pipeline the desired state asks for: a known route that an HTTP assignment refers to. */
  ghost predicate Asks(d: Desired, a: Assignment, x: HttpExecutable, route: Route, id: string) {
    && a in d.assignments && RunsAs(a, x) && route in d.routes && route.routeId in x.routeRefs
    && id == a.unit.assignmentId + ":" + route.routeId
  }

  ghost predicate AskedFor(d: Option<Desired>, id: string) {
    d.Some? && exists a, x, route :: Asks(d.value, a, x, route, id)
  }

  ghost predicate AskedPackage(d: Option<Desired>, p: Slot) {
    d.Some? && exists a :: a in d.value.assignments && a.unit.isServiceModule && a.unit.protocolPackage.Some?
                           && a.unit.protocolPackage.value.packageId == p
  }

  ghost predicate ReportedPipeline(summary: Option<RuntimeSummary>, id: string) {
    summary.Some? && id in summary.value.pipelineIds
  }

  ghost predicate ReportedPackage(summary: Option<RuntimeSummary>, p: Slot) {
    summary.Some? && exists ref :: ref in summary.value.packages && ref.packageId == p
  }

  lemma {:induction false} KnownRefsMembers(routes: seq<Route>, a: Assignment, refs: seq<RouteId>, id: string)
    ensures id in KnownRefs(routes, a, refs)
       <==> exists route :: route in routes && route.routeId in refs && id == a.unit.assignmentId + ":" + route.routeId
  {
    if refs != [] {
      var init, last := refs[..|refs| - 1], refs[|refs| - 1];
      assert refs == init + [last];
      assert forall ref :: ref in refs <==> ref in init || ref == last;
      KnownRefsMembers(routes, a, init, id);
    }
  }

  lemma {:induction false} ExpectedMembers(d: Desired, assignments: seq<Assignment>, id: string)
    requires forall a :: a in assignments ==> a in d.assignments
    ensures id in ExpectedPipelines(d.routes, assignments)
       <==> exists a, x, route :: a in assignments && Asks(d, a, x, route, id)
  {
    if assignments != [] {
      var init, last := assignments[..|assignments| - 1], assignments[|assignments| - 1];
      assert assignments == init + [last];
      assert forall a :: a in assignments <==> a in init || a == last;
      ExpectedMembers(d, init, id);
      OneExpected(d, last, id);
    }
  }

  lemma OneExpected(d: Desired, a: Assignment, id: string)
    requires a in d.assignments
    ensures (exists x, route :: Asks(d, a, x, route, id)) <==>
      !a.unit.isServiceModule && Executable(a).Some? && id in KnownRefs(d.routes, a, Executable(a).value.routeRefs)
  {
    if !a.unit.isServiceModule && Executable(a).Some? {
      var x := Executable(a).value;
      KnownRefsMembers(d.routes, a, x.routeRefs, id);
      if route :| route in d.routes && route.routeId in x.routeRefs && id == a.unit.assignmentId + ":" + route.routeId {
        assert Asks(d, a, x, route, id);
      }
    }
  }

  /** Missing is what is asked for and not reported, unexpected what is reported and not asked for. */
  lemma CheckLists(compare: Collation, d: Option<Desired>, summary: Option<RuntimeSummary>)
    ensures var check := BuildRuntimeSummaryCheck(compare, d, summary);
      && (forall id :: id in check.missingPipelineIds <==> AskedFor(d, id) && !ReportedPipeline(summary, id))
      && (forall id :: id in check.unexpectedPipelineIds <==> ReportedPipeline(summary, id) && !AskedFor(d, id))
      && (forall p :: p in check.missingPackageIds <==> AskedPackage(d, p) && !ReportedPackage(summary, p))
      && (forall p :: p in check.unexpectedPackageIds <==> ReportedPackage(summary, p) && !AskedPackage(d, p))
  {
    if d.Some? {
      forall id ensures id in ExpectedPipelines(d.value.routes, d.value.assignments) <==> AskedFor(d, id) {
        ExpectedMembers(d.value, d.value.assignments, id);
      }
      forall p ensures p in ExpectedPackages(d.value.assignments) <==> AskedPackage(d, p) {
        if a :| a in d.value.assignments && Brings(a, p) { assert AskedPackage(d, p); }
      }
    }
  }

  /** The verdict: a match when nothing is missing or unexpected, and otherwise drift, or no report where there is none. */
  lemma CheckMeans(compare: Collation, d: Option<Desired>, summary: Option<RuntimeSummary>)
    ensures var check := BuildRuntimeSummaryCheck(compare, d, summary);
      var agree := (forall id :: AskedFor(d, id) <==> ReportedPipeline(summary, id)) && (forall p :: AskedPackage(d, p) <==> ReportedPackage(summary, p));
      && (check.status == Match <==> agree)
      && (check.status == NotReported <==> !agree && summary.None?)
      && (check.status == Drift <==> !agree && summary.Some?)
  {
    var check := BuildRuntimeSummaryCheck(compare, d, summary);
    CheckLists(compare, d, summary);
    EmptyWhenNothingIn(check.missingPipelineIds);
    EmptyWhenNothingIn(check.unexpectedPipelineIds);
    EmptyWhenNothingIn(check.missingPackageIds);
    EmptyWhenNothingIn(check.unexpectedPackageIds);
  }
}
