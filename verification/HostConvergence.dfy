/**
 Agreement of desired and applied host state: building and applying a host's configuration
 (src/runtime/control/runtime-host-adapter.ts) against the planner's drift check
 (src/sdk/admin/planning.ts).
 */
module HostConvergence {
  import opened Prelude
  import opened Sorting
  import opened Collations
  import opened ProtocolRegistry
  import M = ServiceModules
  import R = ServiceModuleRuns

  // ---- Desired state ----

  type RouteId = string

  datatype Route = Route(routeId: RouteId, pathPrefix: string, baseUrl: string, websocketEnabled: bool)

  datatype HttpExecutable = HttpExecutable(routeRefs: seq<RouteId>, externalServe: bool)

  /** `unit` is what the service-module manager looks at; `stagedEntry` is None when staging the artifact throws. */
  datatype Assignment = Assignment(
    unit: M.Assignment,
    isServe: bool,
    groupId: Option<string>,
    httpWorker: Option<HttpExecutable>,
    serveApp: Option<HttpExecutable>,
    stagedEntry: Option<string>)

  datatype Desired = Desired(assignments: seq<Assignment>, routes: seq<Route>)

  function Units(assignments: seq<Assignment>): (units: seq<M.Assignment>)
    ensures |units| == |assignments| && forall i :: 0 <= i < |units| ==> units[i] == assignments[i].unit
  {
    seq(|assignments|, i requires 0 <= i < |assignments| => assignments[i].unit)
  }

  function Executable(a: Assignment): Option<HttpExecutable> {
    if a.httpWorker.Some? then a.httpWorker else a.serveApp
  }

  predicate External(a: Assignment, x: HttpExecutable) {
    a.isServe && x.externalServe
  }

  predicate Known(routes: seq<Route>, ref: RouteId) {
    exists r :: r in routes && r.routeId == ref
  }

  /** Of two routes with the same id the later one counts. */
  function RouteOf(routes: seq<Route>, ref: RouteId): (found: Option<Route>)
    ensures found.Some? <==> Known(routes, ref)
    ensures found.Some? ==> found.value in routes && found.value.routeId == ref
  {
    if routes == [] then None
    else
      var init, last := routes[..|routes| - 1], routes[|routes| - 1];
      assert routes == init + [last];
      assert forall r :: r in routes <==> r in init || r == last;
      if last.routeId == ref then Some(last) else RouteOf(init, ref)
  }

  // ---- Building the configuration ----

  datatype Pipeline = Pipeline(
    id: string, matchPrefix: string, groupId: Option<string>, origin: string, websocket: bool, workerEntry: Option<string>)

  datatype RecordedState = Preparing | Ready | Active | Failed

  type Recorded = map<M.AssignmentId, RecordedState>

  datatype Config = Config(pipelines: seq<Pipeline>, states: Recorded)

  function PipelineId(a: Assignment, ref: RouteId): string {
    a.unit.assignmentId + ":" + ref
  }

  function PipelineFor(a: Assignment, x: HttpExecutable, route: Route): Pipeline {
    Pipeline(PipelineId(a, route.routeId), route.pathPrefix, a.groupId, route.baseUrl, route.websocketEnabled,
             if External(a, x) then None else a.stagedEntry)
  }

  /** One pipeline per route reference; None when a reference is unknown. */
  function PipelinesFor(routes: seq<Route>, a: Assignment, x: HttpExecutable, refs: seq<RouteId>): Option<seq<Pipeline>> {
    if refs == [] then Some([])
    else
      var before := PipelinesFor(routes, a, x, refs[..|refs| - 1]);
      var route := RouteOf(routes, refs[|refs| - 1]);
      if before.None? || route.None? then None else Some(before.value + [PipelineFor(a, x, route.value)])
  }

  /** What building does with one assignment. */
  datatype Built = LeftToManager | Refused | Throws | Produced(pipelines: seq<Pipeline>)

  function Build(routes: seq<Route>, managed: bool, a: Assignment): Built {
    if a.unit.isServiceModule then (if managed then LeftToManager else Refused)
    else
      match Executable(a)
      case None => Refused
      case Some(x) =>
        if !External(a, x) && a.stagedEntry.None? then Throws
        else
          match PipelinesFor(routes, a, x, x.routeRefs)
          case None => Throws
          case Some(pipelines) => Produced(pipelines)
  }

  function AllPreparing(assignments: seq<Assignment>): Recorded {
    map a | a in assignments :: a.unit.assignmentId := Preparing
  }

  /** The configuration the assignments stand for, or None when building it throws. */
  function BuildConfig(routes: seq<Route>, managed: bool, states: Recorded, assignments: seq<Assignment>): Option<Config> {
    if assignments == [] then Some(Config([], states))
    else
      var a := assignments[|assignments| - 1];
      match BuildConfig(routes, managed, states, assignments[..|assignments| - 1])
      case None => None
      case Some(before) =>
        match Build(routes, managed, a)
        case LeftToManager => Some(before)
        case Refused => Some(before.(states := before.states[a.unit.assignmentId := Failed]))
        case Throws => None
        case Produced(pipelines) =>
          Some(Config(before.pipelines + pipelines, before.states[a.unit.assignmentId := Ready]))
  }

  // ---- Applying it ----

  datatype Host = Host(
    modules: Option<M.State>, pipelines: seq<Pipeline>, states: Recorded, lastDesired: Option<Desired>)

  /** The config store may reject the configuration, or publish it and then fail in a listener. */
  datatype Publication = Published | Rejected | ListenerThrew

  function MarkReady(states: Recorded, assignments: seq<Assignment>): Recorded {
    map id | id in states ::
      if exists a :: a in assignments && a.unit.isServiceModule && a.unit.assignmentId == id then Ready else states[id]
  }

  function Activated(states: Recorded): Recorded {
    map id | id in states :: if states[id] == Ready then Active else states[id]
  }

  function ApplyDesired(h: Host, d: Desired, trustThrows: bool, publication: Publication): (Host, bool) {
    match BuildConfig(d.routes, h.modules.Some?, AllPreparing(d.assignments), d.assignments)
    case None => (h, true)
    case Some(config) =>
      var (modules, threw) :=
        if h.modules.None? then (None, false)
        else
          var (after, failed) := M.ApplyAssignments(h.modules.value, Units(d.assignments));
          (Some(after), failed);
      if threw || trustThrows || publication == Rejected then (h.(modules := modules), true)
      else if publication == ListenerThrew then (h.(modules := modules, pipelines := config.pipelines), true)
      else
        var states := if h.modules.None? then config.states else MarkReady(config.states, d.assignments);
        (Host(modules, config.pipelines, Activated(states), Some(d)), false)
  }

  // ---- The planner's check ----

  datatype PackageRef = PackageRef(packageId: Slot, assignmentId: M.AssignmentId)

  /** What a host reports as running. */
  datatype RuntimeSummary = RuntimeSummary(pipelineIds: seq<string>, packages: seq<PackageRef>)

  datatype Status = Match | NotReported | Drift

  datatype Check = Check(
    status: Status,
    missingPipelineIds: seq<string>, unexpectedPipelineIds: seq<string>,
    missingPackageIds: seq<Slot>, unexpectedPackageIds: seq<Slot>)

  function ById(compare: Collation): (string, string) -> bool {
    (a: string, b: string) => compare(a, b) <= 0
  }

  function PackageText(p: Slot): string {
    p.protocol + "@" + p.version
  }

  function ByPackageId(compare: Collation): (Slot, Slot) -> bool {
    (a: Slot, b: Slot) => compare(PackageText(a), PackageText(b)) <= 0
  }

  /** The known routes an assignment refers to, as pipeline ids. */
  function KnownRefs(routes: seq<Route>, a: Assignment, refs: seq<RouteId>): seq<string> {
    if refs == [] then []
    else
      var before := KnownRefs(routes, a, refs[..|refs| - 1]);
      var ref := refs[|refs| - 1];
      if Known(routes, ref) then before + [PipelineId(a, ref)] else before
  }

  function ExpectedPipelines(routes: seq<Route>, assignments: seq<Assignment>): seq<string> {
    if assignments == [] then []
    else
      var a := assignments[|assignments| - 1];
      var before := ExpectedPipelines(routes, assignments[..|assignments| - 1]);
      if a.unit.isServiceModule || Executable(a).None? then before
      else before + KnownRefs(routes, a, Executable(a).value.routeRefs)
  }

  function ExpectedPackages(assignments: seq<Assignment>): (r: seq<Slot>)
    ensures forall p :: p in r <==> exists a :: a in assignments && Brings(a, p)
  {
    if assignments == [] then []
    else
      var init, a := assignments[..|assignments| - 1], assignments[|assignments| - 1];
      assert assignments == init + [a];
      assert forall x :: x in assignments <==> x in init || x == a;
      var before := ExpectedPackages(init);
      if a.unit.isServiceModule && a.unit.protocolPackage.Some? then
        var p := a.unit.protocolPackage.value.packageId;
        assert Brings(a, p) && forall q :: Brings(a, q) <==> q == p;
        assert forall q :: q in before + [p] <==> q in before || q == p;
        before + [p]
      else
        assert forall q :: !Brings(a, q);
        before
  }

  predicate Brings(a: Assignment, p: Slot) {
    a.unit.isServiceModule && a.unit.protocolPackage.Some? && a.unit.protocolPackage.value.packageId == p
  }

  function ComputeMissing<T(==, !new)>(expected: seq<T>, observed: seq<T>): (r: seq<T>)
    ensures forall x :: x in r <==> x in expected && x !in observed
  {
    Filter(x => x !in observed, expected)
  }

  function PackageIds(packages: seq<PackageRef>): (r: seq<Slot>)
    ensures forall p :: p in r <==> exists ref :: ref in packages && ref.packageId == p
  {
    var r := seq(|packages|, i requires 0 <= i < |packages| => packages[i].packageId);
    assert forall p :: p in r ==> exists ref :: ref in packages && ref.packageId == p;
    assert forall ref :: ref in packages ==> ref.packageId in r by {
      forall ref | ref in packages ensures ref.packageId in r {
        var i :| 0 <= i < |packages| && packages[i] == ref;
        assert r[i] == ref.packageId;
      }
    }
    r
  }

  /** One host's entry of `buildRuntimeSummaryChecks`. */
  function BuildRuntimeSummaryCheck(compare: Collation, desired: Option<Desired>, summary: Option<RuntimeSummary>): Check {
    var pipelines := if desired.None? then [] else
      Sort(ById(compare), Unique(ExpectedPipelines(desired.value.routes, desired.value.assignments)));
    var packages := if desired.None? then [] else Sort(ByPackageId(compare), ExpectedPackages(desired.value.assignments));
    var observedPipelines := if summary.None? then [] else Sort(ById(compare), summary.value.pipelineIds);
    var observedPackages := if summary.None? then [] else Sort(ByPackageId(compare), PackageIds(summary.value.packages));
    var missing, unexpected := ComputeMissing(pipelines, observedPipelines), ComputeMissing(observedPipelines, pipelines);
    var missingP, unexpectedP := ComputeMissing(packages, observedPackages), ComputeMissing(observedPackages, packages);
    var status :=
      if |missing| + |missingP| == 0 && |unexpected| + |unexpectedP| == 0 then Match
      else if summary.None? then NotReported else Drift;
    Check(status, missing, unexpected, missingP, unexpectedP)
  }

  // ---- What a host reports ----

  function PipelineIds(pipelines: seq<Pipeline>): seq<string> {
    seq(|pipelines|, i requires 0 <= i < |pipelines| => pipelines[i].id)
  }

  function ActiveModules(h: Host): map<M.AssignmentId, Module> {
    if h.modules.None? then map[] else h.modules.value.active
  }

  /** The summary lists exactly the configured pipelines and the active modules, in some order. */
  ghost predicate Summarises(h: Host, summary: RuntimeSummary) {
    && multiset(summary.pipelineIds) == multiset(PipelineIds(h.pipelines))
    && |summary.packages| == |ActiveModules(h)|
    && forall ref :: ref in summary.packages <==>
         ref.assignmentId in ActiveModules(h) && ActiveModules(h)[ref.assignmentId].slot == ref.packageId
  }

  // ---- Pipelines never drift ----

  lemma {:induction false} PipelinesForIds(routes: seq<Route>, a: Assignment, x: HttpExecutable, refs: seq<RouteId>)
    requires PipelinesFor(routes, a, x, refs).Some?
    ensures PipelineIds(PipelinesFor(routes, a, x, refs).value) == KnownRefs(routes, a, refs)
  {
    if refs != [] {
      PipelinesForIds(routes, a, x, refs[..|refs| - 1]);
    }
  }

  /** The built pipelines are, one for one and in order, the ids the planner expects before it sorts them. */
  lemma {:induction false} BuiltAsExpected(routes: seq<Route>, managed: bool, states: Recorded, assignments: seq<Assignment>)
    requires BuildConfig(routes, managed, states, assignments).Some?
    ensures PipelineIds(BuildConfig(routes, managed, states, assignments).value.pipelines)
         == ExpectedPipelines(routes, assignments)
  {
    if assignments != [] {
      var a := assignments[|assignments| - 1];
      BuiltAsExpected(routes, managed, states, assignments[..|assignments| - 1]);
      if Build(routes, managed, a).Produced? {
        PipelinesForIds(routes, a, Executable(a).value, Executable(a).value.routeRefs);
      }
    }
  }

  lemma {:induction false} PipelinesForExactly(routes: seq<Route>, a: Assignment, x: HttpExecutable, refs: seq<RouteId>)
    ensures var r := PipelinesFor(routes, a, x, refs);
      && (r.Some? <==> forall ref :: ref in refs ==> Known(routes, ref))
      && (r.Some? ==> |r.value| == |refs|)
      && (r.Some? ==> forall i :: 0 <= i < |refs| ==>
            RouteOf(routes, refs[i]).Some? && r.value[i] == PipelineFor(a, x, RouteOf(routes, refs[i]).value))
  {
    if refs != [] {
      var init, last := refs[..|refs| - 1], refs[|refs| - 1];
      assert refs == init + [last];
      assert forall ref :: ref in refs <==> ref in init || ref == last;
      PipelinesForExactly(routes, a, x, init);
    }
  }

  /** Building succeeds exactly when every HTTP assignment is staged (or external) and refers to known routes only. */
  ghost predicate Buildable(routes: seq<Route>, a: Assignment) {
    a.unit.isServiceModule || Executable(a).None? ||
    (&& (External(a, Executable(a).value) || a.stagedEntry.Some?)
     && forall ref :: ref in Executable(a).value.routeRefs ==> Known(routes, ref))
  }

  lemma {:induction false} BuildsExactly(routes: seq<Route>, managed: bool, states: Recorded, assignments: seq<Assignment>)
    ensures BuildConfig(routes, managed, states, assignments).Some? <==> forall a :: a in assignments ==> Buildable(routes, a)
  {
    if assignments != [] {
      var init, last := assignments[..|assignments| - 1], assignments[|assignments| - 1];
      assert assignments == init + [last];
      assert forall a :: a in assignments <==> a in init || a == last;
      BuildsExactly(routes, managed, states, init);
      if !last.unit.isServiceModule && Executable(last).Some? {
        PipelinesForExactly(routes, last, Executable(last).value, Executable(last).value.routeRefs);
      }
      assert Build(routes, managed, last).Throws? <==> !Buildable(routes, last);
    }
  }

  // ---- Packages drift only when an assignment id is used for two packages ----

  /** Assignments that share an id bring the same package. */
  ghost predicate OnePackagePerAssignment(assignments: seq<Assignment>) {
    forall a, b, p, q ::
      a in assignments && b in assignments && Brings(a, p) && Brings(b, q) && a.unit.assignmentId == b.unit.assignmentId ==>
      p == q
  }

  /** After a normal apply the active table holds the assigned modules and nothing else, whatever was there before. */
  lemma ApplyActive(s: M.State, next: seq<M.NextModule>)
    requires !M.Apply(s, next).1
    ensures var after := M.Apply(s, next).0;
      && after.active.Keys == M.NextIds(next)
      && forall id :: id in after.active ==> M.NextModule(id, after.active[id]) in next
  {
    R.ActivateAllTables(M.EvictDraining(M.DrainUnassigned(s, next), next), next);
  }

  lemma {:induction false} PrepareContains(units: seq<M.Assignment>, owners: map<Slot, M.AssignmentId>, u: M.Assignment)
    requires M.Prepare(units, owners).Some? && u in units && u.isServiceModule
    ensures u.protocolPackage.Some? && u.staged.Some? && u.staged.value.slot == u.protocolPackage.value.packageId
    ensures M.NextModule(u.assignmentId, u.staged.value) in M.Prepare(units, owners).value
  {
    var first := units[0];
    if !first.isServiceModule {
      PrepareContains(units[1..], owners, u);
    } else if u in units[1..] {
      PrepareContains(units[1..], owners[first.protocolPackage.value.packageId := first.assignmentId], u);
    } else {
      assert u == first;
    }
  }

  /** An active module is one some assignment brings. */
  lemma ActiveIsAssigned(s: M.State, d: Desired, id: M.AssignmentId) returns (a: Assignment)
    requires !M.ApplyAssignments(s, Units(d.assignments)).1
    requires id in M.ApplyAssignments(s, Units(d.assignments)).0.active
    ensures a in d.assignments && a.unit.assignmentId == id
    ensures Brings(a, M.ApplyAssignments(s, Units(d.assignments)).0.active[id].slot)
  {
    var units := Units(d.assignments);
    var next := M.Prepare(units, map[]).value;
    ApplyActive(s, next);
    R.PrepareOwners(units, map[]);
    var n := M.NextModule(id, M.Apply(s, next).0.active[id]);
    assert n in next;
    var u :| u in units && u.isServiceModule && u.assignmentId == id && u.staged == Some(n.mod) && u.protocolPackage.Some?
             && M.BoundPackageValid(u.protocolPackage.value, n.mod);
    var i :| 0 <= i < |units| && units[i] == u;
    a := d.assignments[i];
  }

  /** The package of an assignment is active exactly when its id's slot in the table is that package. */
  lemma AssignedIsActive(s: M.State, d: Desired, a: Assignment, p: Slot)
    requires !M.ApplyAssignments(s, Units(d.assignments)).1
    requires a in d.assignments && Brings(a, p)
    ensures var active := M.ApplyAssignments(s, Units(d.assignments)).0.active;
      && a.unit.assignmentId in active
      && ((exists id :: id in active && active[id].slot == p) <==> active[a.unit.assignmentId].slot == p)
  {
    var units := Units(d.assignments);
    var next := M.Prepare(units, map[]).value;
    var active := M.ApplyAssignments(s, units).0.active;
    var i :| 0 <= i < |d.assignments| && d.assignments[i] == a;
    assert units[i] == a.unit;
    PrepareContains(units, map[], a.unit);
    ApplyActive(s, next);
    R.PrepareOwners(units, map[]);
    var mine := M.NextModule(a.unit.assignmentId, a.unit.staged.value);
    assert mine in next && mine.mod.slot == p;
    forall id | id in active && active[id].slot == p ensures id == a.unit.assignmentId {
      assert M.NextModule(id, active[id]) in next;
    }
  }

  lemma PackagesExactly(s: M.State, d: Desired)
    requires !M.ApplyAssignments(s, Units(d.assignments)).1
    ensures var active := M.ApplyAssignments(s, Units(d.assignments)).0.active;
      && (forall id :: id in active ==> active[id].slot in ExpectedPackages(d.assignments))
      && ((forall p :: p in ExpectedPackages(d.assignments) ==> exists id :: id in active && active[id].slot == p)
          <==> OnePackagePerAssignment(d.assignments))
  {
    var active := M.ApplyAssignments(s, Units(d.assignments)).0.active;
    forall id | id in active ensures active[id].slot in ExpectedPackages(d.assignments) {
      var a := ActiveIsAssigned(s, d, id);
    }
    if OnePackagePerAssignment(d.assignments) {
      forall p | p in ExpectedPackages(d.assignments) ensures exists id :: id in active && active[id].slot == p {
        var a :| a in d.assignments && Brings(a, p);
        AssignedIsActive(s, d, a, p);
        var b := ActiveIsAssigned(s, d, a.unit.assignmentId);
        assert Brings(b, active[a.unit.assignmentId].slot);
      }
    } else {
      var a, b, p, q :| a in d.assignments && b in d.assignments && Brings(a, p) && Brings(b, q)
                        && a.unit.assignmentId == b.unit.assignmentId && p != q;
      AssignedIsActive(s, d, a, p);
      AssignedIsActive(s, d, b, q);
      assert p in ExpectedPackages(d.assignments) && q in ExpectedPackages(d.assignments);
    }
  }

  // ---- No drift after apply ----

  /** What a normal apply has gone through. */
  lemma Applied(h: Host, d: Desired, trustThrows: bool, publication: Publication)
    requires !ApplyDesired(h, d, trustThrows, publication).1
    ensures var config := BuildConfig(d.routes, h.modules.Some?, AllPreparing(d.assignments), d.assignments);
      var after := ApplyDesired(h, d, trustThrows, publication).0;
      && config.Some? && after.pipelines == config.value.pipelines && after.lastDesired == Some(d)
      && after.states == Activated(if h.modules.None? then config.value.states else MarkReady(config.value.states, d.assignments))
      && (h.modules.None? ==> after.modules.None?)
      && (h.modules.Some? ==>
            M.ApplyAssignments(h.modules.value, Units(d.assignments)) == (after.modules.GetOr(h.modules.value), false)
            && after.modules.Some?)
  {
  }

  lemma CheckPipelines(compare: Collation, h: Host, d: Desired, summary: RuntimeSummary)
    requires Summarises(h, summary)
    requires PipelineIds(h.pipelines) == ExpectedPipelines(d.routes, d.assignments)
    ensures var check := BuildRuntimeSummaryCheck(compare, Some(d), Some(summary));
      check.missingPipelineIds == [] && check.unexpectedPipelineIds == []
  {
    SameMembers(summary.pipelineIds, PipelineIds(h.pipelines));
    var check := BuildRuntimeSummaryCheck(compare, Some(d), Some(summary));
    EmptyWhenNothingIn(check.missingPipelineIds);
    EmptyWhenNothingIn(check.unexpectedPipelineIds);
  }

  lemma EmptyWhenNothingIn<T(!new)>(s: seq<T>)
    ensures s == [] <==> forall x :: x !in s
  {
    if s != [] {
      assert s[0] in s;
    }
  }

  /** Which packages the check misses and which it does not expect. */
  lemma CheckPackages(compare: Collation, h: Host, d: Desired, summary: RuntimeSummary)
    requires Summarises(h, summary)
    ensures var check, active := BuildRuntimeSummaryCheck(compare, Some(d), Some(summary)), ActiveModules(h);
      && (check.unexpectedPackageIds == [] <==> forall id :: id in active ==> active[id].slot in ExpectedPackages(d.assignments))
      && (check.missingPackageIds == [] <==>
            forall p :: p in ExpectedPackages(d.assignments) ==> exists id :: id in active && active[id].slot == p)
  {
    var check, active := BuildRuntimeSummaryCheck(compare, Some(d), Some(summary)), ActiveModules(h);
    var observed, expected := PackageIds(summary.packages), ExpectedPackages(d.assignments);
    forall p ensures p in observed <==> exists id :: id in active && active[id].slot == p {
      if id :| id in active && active[id].slot == p {
        assert PackageRef(p, id) in summary.packages;
      }
    }
    EmptyWhenNothingIn(check.missingPackageIds);
    EmptyWhenNothingIn(check.unexpectedPackageIds);
    assert forall p :: p in check.missingPackageIds <==> p in expected && p !in observed;
    assert forall p :: p in check.unexpectedPackageIds <==> p in observed && p !in expected;
  }

  /**
   No drift after apply: whenever applying the desired state returns normally on a host with a
   service-module manager, nothing the host reports is unexpected, no pipeline is missing, and the
   check says "match" - provided no assignment id is used for two packages, and only then.
   */
  lemma NoDriftAfterApply(compare: Collation, h: Host, d: Desired, trustThrows: bool, publication: Publication, summary: RuntimeSummary)
    requires h.modules.Some? && !ApplyDesired(h, d, trustThrows, publication).1
    requires Summarises(ApplyDesired(h, d, trustThrows, publication).0, summary)
    ensures var check := BuildRuntimeSummaryCheck(compare, Some(d), Some(summary));
      && check.missingPipelineIds == [] && check.unexpectedPipelineIds == [] && check.unexpectedPackageIds == []
      && (check.missingPackageIds == [] <==> OnePackagePerAssignment(d.assignments))
      && (check.status == Match <==> OnePackagePerAssignment(d.assignments))
      && check.status != NotReported
  {
    var after := ApplyDesired(h, d, trustThrows, publication).0;
    Applied(h, d, trustThrows, publication);
    BuiltAsExpected(d.routes, true, AllPreparing(d.assignments), d.assignments);
    Managed(compare, h.modules.value, after, d, summary);
  }

  lemma Managed(compare: Collation, s: M.State, h: Host, d: Desired, summary: RuntimeSummary)
    requires !M.ApplyAssignments(s, Units(d.assignments)).1
    requires ActiveModules(h) == M.ApplyAssignments(s, Units(d.assignments)).0.active && Summarises(h, summary)
    requires PipelineIds(h.pipelines) == ExpectedPipelines(d.routes, d.assignments)
    ensures var check := BuildRuntimeSummaryCheck(compare, Some(d), Some(summary));
      && check.missingPipelineIds == [] && check.unexpectedPipelineIds == [] && check.unexpectedPackageIds == []
      && (check.missingPackageIds == [] <==> OnePackagePerAssignment(d.assignments))
      && (check.status == Match <==> OnePackagePerAssignment(d.assignments))
      && check.status != NotReported
  {
    CheckPipelines(compare, h, d, summary);
    CheckPackages(compare, h, d, summary);
    MatchMeansEmpty(compare, d, summary);
    PackagesExactly(s, d);
  }

  lemma NoneExpected(assignments: seq<Assignment>)
    ensures (forall p :: p !in ExpectedPackages(assignments)) <==> forall a, p :: a in assignments ==> !Brings(a, p)
  {
    if a, p :| a in assignments && Brings(a, p) {
      assert p in ExpectedPackages(assignments);
    }
  }

  lemma MatchMeansEmpty(compare: Collation, d: Desired, summary: RuntimeSummary)
    ensures var check := BuildRuntimeSummaryCheck(compare, Some(d), Some(summary));
      && check.status != NotReported
      && (check.status == Match <==>
            && check.missingPipelineIds == [] && check.unexpectedPipelineIds == []
            && check.missingPackageIds == [] && check.unexpectedPackageIds == [])
  {
  }

  /** Without a manager a host matches exactly when no assignment brings a protocol package. */
  lemma NoDriftWithoutManager(compare: Collation, h: Host, d: Desired, trustThrows: bool, publication: Publication, summary: RuntimeSummary)
    requires h.modules.None? && !ApplyDesired(h, d, trustThrows, publication).1
    requires Summarises(ApplyDesired(h, d, trustThrows, publication).0, summary)
    ensures var check := BuildRuntimeSummaryCheck(compare, Some(d), Some(summary));
      && check.missingPipelineIds == [] && check.unexpectedPipelineIds == [] && check.unexpectedPackageIds == []
      && (check.status == Match <==> forall a, p :: a in d.assignments ==> !Brings(a, p))
  {
    var after := ApplyDesired(h, d, trustThrows, publication).0;
    Applied(h, d, trustThrows, publication);
    BuiltAsExpected(d.routes, false, AllPreparing(d.assignments), d.assignments);
    assert ActiveModules(after) == map[];
    Unmanaged(compare, after, d, summary);
  }

  lemma Unmanaged(compare: Collation, h: Host, d: Desired, summary: RuntimeSummary)
    requires ActiveModules(h) == map[] && Summarises(h, summary)
    requires PipelineIds(h.pipelines) == ExpectedPipelines(d.routes, d.assignments)
    ensures var check := BuildRuntimeSummaryCheck(compare, Some(d), Some(summary));
      && check.missingPipelineIds == [] && check.unexpectedPipelineIds == [] && check.unexpectedPackageIds == []
      && (check.status == Match <==> forall a, p :: a in d.assignments ==> !Brings(a, p))
  {
    CheckPipelines(compare, h, d, summary);
    CheckPackages(compare, h, d, summary);
    MatchMeansEmpty(compare, d, summary);
    NoneExpected(d.assignments);
  }

  /** Drain timers firing after the apply, however late, do not make the host drift. */
  lemma DrainTimersKeepTheSummary(h: Host, id: M.AssignmentId, timer: nat, summary: RuntimeSummary)
    requires h.modules.Some? && Summarises(h, summary)
    ensures Summarises(h.(modules := Some(M.FireDrainTimer(h.modules.value, id, timer))), summary)
  {
    assert ActiveModules(h.(modules := Some(M.FireDrainTimer(h.modules.value, id, timer)))) == ActiveModules(h);
  }

  // ---- Failure and recorded states ----

  /**
   An apply that throws keeps the recorded states and the last desired state; it keeps the whole
   host when building the configuration or preparing the modules is what throws.
   */
  lemma FailedApplyKeeps(h: Host, d: Desired, trustThrows: bool, publication: Publication)
    requires ApplyDesired(h, d, trustThrows, publication).1
    ensures var after := ApplyDesired(h, d, trustThrows, publication).0;
      && after.states == h.states && after.lastDesired == h.lastDesired
      && (publication != ListenerThrew ==> after.pipelines == h.pipelines)
      && ((exists a :: a in d.assignments && !Buildable(d.routes, a)) ==> after == h)
      && (h.modules.Some? && M.Prepare(Units(d.assignments), map[]).None? ==> after == h)
  {
    BuildsExactly(d.routes, h.modules.Some?, AllPreparing(d.assignments), d.assignments);
    if h.modules.Some? && M.Prepare(Units(d.assignments), map[]).None? {
      R.FailedPrepareChangesNothing(h.modules.value, Units(d.assignments));
    }
  }

  ghost predicate DistinctAssignments(assignments: seq<Assignment>) {
    forall i, j :: 0 <= i < j < |assignments| ==> assignments[i].unit.assignmentId != assignments[j].unit.assignmentId
  }

  /** The state building leaves an assignment in. */
  function BuildState(routes: seq<Route>, managed: bool, a: Assignment): RecordedState {
    match Build(routes, managed, a)
    case LeftToManager => Preparing
    case Refused => Failed
    case Throws => Failed
    case Produced(_) => Ready
  }

  /** The first `k` assignments have been built, the others not yet. */
  ghost predicate StatesUpTo(routes: seq<Route>, managed: bool, all: seq<Assignment>, k: nat, states: Recorded) {
    forall i :: 0 <= i < |all| ==> StateOf(routes, managed, all, k, states, i)
  }

  ghost predicate StateOf(routes: seq<Route>, managed: bool, all: seq<Assignment>, k: nat, states: Recorded, i: nat)
    requires i < |all|
  {
    && all[i].unit.assignmentId in states
    && states[all[i].unit.assignmentId] == if i < k then BuildState(routes, managed, all[i]) else Preparing
  }

  lemma StatesStep(routes: seq<Route>, managed: bool, all: seq<Assignment>, k: nat, next: nat, states: Recorded, built: RecordedState)
    requires k < |all| && next == k + 1 && DistinctAssignments(all) && StatesUpTo(routes, managed, all, k, states)
    requires built == BuildState(routes, managed, all[k])
    ensures StatesUpTo(routes, managed, all, next, states[all[k].unit.assignmentId := built])
  {
    var after := states[all[k].unit.assignmentId := built];
    forall i | 0 <= i < |all| ensures StateOf(routes, managed, all, next, after, i) {
      assert StateOf(routes, managed, all, k, states, i);
      assert i != k ==> all[i].unit.assignmentId != all[k].unit.assignmentId;
    }
  }

  lemma {:induction false} BuiltStates(routes: seq<Route>, managed: bool, all: seq<Assignment>, k: nat)
    requires k <= |all| && DistinctAssignments(all)
    requires BuildConfig(routes, managed, AllPreparing(all), all[..k]).Some?
    ensures StatesUpTo(routes, managed, all, k, BuildConfig(routes, managed, AllPreparing(all), all[..k]).value.states)
  {
    if k > 0 {
      assert all[..k][..k - 1] == all[..k - 1] && all[..k][k - 1] == all[k - 1];
      BuiltStates(routes, managed, all, k - 1);
      var before := BuildConfig(routes, managed, AllPreparing(all), all[..k - 1]).value.states;
      var built := BuildState(routes, managed, all[k - 1]);
      StatesStep(routes, managed, all, k - 1, k, before, built);
      assert StateOf(routes, managed, all, k - 1, before, k - 1);
      assert built == Preparing ==> before[all[k - 1].unit.assignmentId := built] == before;
    } else {
      forall i | 0 <= i < |all| ensures StateOf(routes, managed, all, 0, AllPreparing(all), i) {
        assert all[i] in all;
      }
    }
  }

  lemma NotThrown(routes: seq<Route>, managed: bool, a: Assignment)
    requires Buildable(routes, a)
    ensures BuildState(routes, managed, a) ==
      if a.unit.isServiceModule then (if managed then Preparing else Failed)
      else if Executable(a).Some? then Ready else Failed
  {
    if !a.unit.isServiceModule && Executable(a).Some? {
      PipelinesForExactly(routes, a, Executable(a).value, Executable(a).value.routeRefs);
    }
  }

  lemma MarkedReady(states: Recorded, all: seq<Assignment>, i: nat)
    requires DistinctAssignments(all) && i < |all| && all[i].unit.assignmentId in states
    ensures var marked := MarkReady(states, all);
      && all[i].unit.assignmentId in marked
      && marked[all[i].unit.assignmentId] == if all[i].unit.isServiceModule then Ready else states[all[i].unit.assignmentId]
  {
    var id := all[i].unit.assignmentId;
    if a :| a in all && a.unit.isServiceModule && a.unit.assignmentId == id {
      var j :| 0 <= j < |all| && all[j] == a;
      assert j == i;
    } else {
      assert all[i] in all;
    }
  }

  /**
   After a normal apply every assignment is recorded as active, except those nothing can run:
   HTTP assignments without an executable, and service modules on a host without a manager.
   */
  lemma RecordedExactly(h: Host, d: Desired, trustThrows: bool, publication: Publication, i: nat)
    requires !ApplyDesired(h, d, trustThrows, publication).1
    requires DistinctAssignments(d.assignments) && i < |d.assignments|
    ensures var after, a := ApplyDesired(h, d, trustThrows, publication).0, d.assignments[i];
      && a.unit.assignmentId in after.states
      && after.states[a.unit.assignmentId] ==
           (if (if a.unit.isServiceModule then h.modules.Some? else Executable(a).Some?) then Active else Failed)
  {
    var all, managed := d.assignments, h.modules.Some?;
    Applied(h, d, trustThrows, publication);
    var states := BuildConfig(d.routes, managed, AllPreparing(all), all).value.states;
    assert all[..|all|] == all;
    BuiltStates(d.routes, managed, all, |all|);
    assert StateOf(d.routes, managed, all, |all|, states, i);
    BuildsExactly(d.routes, managed, AllPreparing(all), all);
    assert all[i] in all;
    NotThrown(d.routes, managed, all[i]);
    MarkedReady(states, all, i);
  }
}
