/** The runtime host adapter as the source runs it, over the service-module manager. */
module RuntimeHostAdapter {
  import opened Prelude
  import opened Sorting
  import opened Collations
  import opened H = HostConvergence
  import M = ServiceModules
  import R = ServiceModuleRuns
  import S = ServiceModuleManager

  /** Route references of one assignment, turned into pipelines one by one; None when one is unknown. */
  method PushPipelines(routes: seq<Route>, a: Assignment, x: HttpExecutable, pipelines: seq<Pipeline>)
    returns (pushed: Option<seq<Pipeline>>)
    ensures var own := PipelinesFor(routes, a, x, x.routeRefs);
      pushed == if own.None? then None else Some(pipelines + own.value)
  {
    var refs := x.routeRefs;
    var all := pipelines;
    for i := 0 to |refs|
      invariant PipelinesFor(routes, a, x, refs[..i]).Some?
      invariant all == pipelines + PipelinesFor(routes, a, x, refs[..i]).value
    {
      TakeTake(refs, i, i + 1);
      var route := RouteOf(routes, refs[i]);
      if route.None? {
        UnknownRefStops(routes, a, x, refs, i + 1);
        return None;
      }
      all := all + [PipelineFor(a, x, route.value)];
    }
    TakeAll(refs);
    return Some(all);
  }

  lemma {:induction false} UnknownRefStops(routes: seq<Route>, a: Assignment, x: HttpExecutable, refs: seq<RouteId>, k: nat)
    requires k <= |refs| && PipelinesFor(routes, a, x, refs[..k]).None?
    ensures PipelinesFor(routes, a, x, refs).None?
  {
    if k == |refs| {
      TakeAll(refs);
    } else {
      TakeTake(refs, k, |refs| - 1);
      UnknownRefStops(routes, a, x, refs[..|refs| - 1], k);
    }
  }

  lemma {:induction false} BrokenAssignmentStops(routes: seq<Route>, managed: bool, states: Recorded, all: seq<Assignment>, k: nat)
    requires k <= |all| && BuildConfig(routes, managed, states, all[..k]).None?
    ensures BuildConfig(routes, managed, states, all).None?
  {
    if k == |all| {
      TakeAll(all);
    } else {
      TakeTake(all, k, |all| - 1);
      BrokenAssignmentStops(routes, managed, states, all[..|all| - 1], k);
    }
  }

  method MarkPreparing(assignments: seq<Assignment>) returns (states: Recorded)
    ensures states == AllPreparing(assignments)
  {
    states := map[];
    for i := 0 to |assignments|
      invariant states == AllPreparing(assignments[..i])
    {
      TakeNext(assignments, i);
      states := states[assignments[i].unit.assignmentId := Preparing];
    }
    TakeAll(assignments);
  }

  /** Builds the configuration and records how far each assignment got; None when it throws. */
  method BuildConfigFromDesiredState(d: Desired, managed: bool, states: Recorded) returns (config: Option<Config>)
    ensures config == BuildConfig(d.routes, managed, states, d.assignments)
  {
    var all := d.assignments;
    var pipelines, next := [], states;
    for i := 0 to |all|
      invariant BuildConfig(d.routes, managed, states, all[..i]) == Some(Config(pipelines, next))
    {
      TakeTake(all, i, i + 1);
      var a := all[i];
      if a.unit.isServiceModule {
        if !managed {
          next := next[a.unit.assignmentId := Failed];
        }
        continue;
      }
      var executable := Executable(a);
      if executable.None? {
        next := next[a.unit.assignmentId := Failed];
        continue;
      }
      if !External(a, executable.value) && a.stagedEntry.None? {
        BrokenAssignmentStops(d.routes, managed, states, all, i + 1);
        return None;
      }
      var pushed := PushPipelines(d.routes, a, executable.value, pipelines);
      if pushed.None? {
        BrokenAssignmentStops(d.routes, managed, states, all, i + 1);
        return None;
      }
      pipelines := pushed.value;
      next := next[a.unit.assignmentId := Ready];
    }
    TakeAll(all);
    return Some(Config(pipelines, next));
  }

  class Adapter {
    const manager: S.Manager?
    var pipelines: seq<Pipeline>
    var assignmentStates: Recorded
    var lastDesired: Option<Desired>

    ghost function Abs(): Host
      reads this, manager, if manager == null then null else manager.registry
    {
      Host(if manager == null then None else Some(manager.Abs()), pipelines, assignmentStates, lastDesired)
    }

    constructor (manager: S.Manager?, pipelines: seq<Pipeline>)
      ensures this.manager == manager
      ensures Abs() == Host(if manager == null then None else Some(manager.Abs()), pipelines, map[], None)
    {
      this.manager := manager;
      this.pipelines := pipelines;
      assignmentStates := map[];
      lastDesired := None;
    }

    method ApplyDesiredHostState(d: Desired, trustThrows: bool, publication: Publication) returns (threw: bool)
      modifies this, manager, if manager == null then null else manager.registry
      ensures (manager != null ==> R.Unambiguous(old(manager.Abs()), Units(d.assignments))) ==>
        (Abs(), threw) == ApplyDesired(old(Abs()), d, trustThrows, publication)
    {
      var nextStates := MarkPreparing(d.assignments);
      var config := BuildConfigFromDesiredState(d, manager != null, nextStates);
      if config.None? {
        return true;
      }
      nextStates := config.value.states;
      if manager != null {
        var failed := manager.ApplyAssignments(Units(d.assignments));
        if failed {
          return true;
        }
        nextStates := MarkReady(nextStates, d.assignments);
      }
      if trustThrows || publication == Rejected {
        return true;
      }
      pipelines := config.value.pipelines;
      if publication == ListenerThrew {
        return true;
      }
      lastDesired := Some(d);
      assignmentStates := Activated(nextStates);
      return false;
    }

    /** Each active module once, ordered by package and then by assignment. */
    method ListActiveProtocolPackages(compare: Collation) returns (packages: seq<PackageRef>)
      ensures Sorted(ByPackage(compare), packages)
      ensures |packages| == |ActiveModules(Abs())|
      ensures forall ref :: ref in packages <==>
        ref.assignmentId in ActiveModules(Abs()) && ActiveModules(Abs())[ref.assignmentId].slot == ref.packageId
    {
      if manager == null {
        return [];
      }
      packages := [];
      var active := manager.activeByAssignmentId;
      var pending := active.Keys;
      while pending != {}
        invariant pending <= active.Keys
        invariant |packages| + |pending| == |active|
        invariant forall ref :: ref in packages <==>
          ref.assignmentId in active.Keys - pending && active[ref.assignmentId].slot == ref.packageId
        decreases pending
      {
        var id :| id in pending;
        var ref := PackageRef(active[id].slot, id);
        ghost var before := packages;
        packages := packages + [ref];
        assert forall x :: x in packages <==> x in before || x == ref;
        pending := pending - {id};
      }
      ByPackageLawful(compare);
      SortSorted(ByPackage(compare), packages);
      packages := Sort(ByPackage(compare), packages);
    }

    /** What the host reports as running. */
    method BuildRuntimeSummaryView(compare: Collation) returns (summary: RuntimeSummary)
      ensures Summarises(Abs(), summary)
      ensures Sorted(ById(compare), summary.pipelineIds) && Sorted(ByPackage(compare), summary.packages)
    {
      var packages := ListActiveProtocolPackages(compare);
      SortSorted(ById(compare), PipelineIds(pipelines));
      return RuntimeSummary(Sort(ById(compare), PipelineIds(pipelines)), packages);
    }
  }

  lemma ByPackageLawful(compare: Collation)
    ensures Lawful(ByPackage(compare))
  {
    var le := ByPackage(compare);
    forall a: PackageRef, b: PackageRef ensures le(a, b) || le(b, a) {
      Either(compare, PackageText(a.packageId), PackageText(b.packageId));
      Either(compare, a.assignmentId, b.assignmentId);
    }
    forall a: PackageRef, b: PackageRef, c: PackageRef | le(a, b) && le(b, c) ensures le(a, c) {
      Through(compare, PackageText(a.packageId), PackageText(b.packageId), PackageText(c.packageId));
      Through(compare, a.assignmentId, b.assignmentId, c.assignmentId);
    }
  }

  lemma Either(compare: Collation, a: string, b: string)
    ensures compare(a, b) < 0 <==> compare(b, a) > 0
    ensures compare(b, a) < 0 <==> compare(a, b) > 0
  {
  }

  lemma Through(compare: Collation, a: string, b: string, c: string)
    ensures compare(a, b) <= 0 && compare(b, c) <= 0 ==> compare(a, c) <= 0
    ensures compare(a, b) <= 0 && compare(b, c) <= 0 && compare(a, c) == 0 ==> compare(a, b) == 0 && compare(b, c) == 0
  {
    Either(compare, a, b);
    Either(compare, b, c);
    Either(compare, a, c);
    assert compare(c, a) <= 0 && compare(a, b) <= 0 ==> compare(c, b) <= 0;
    assert compare(b, c) <= 0 && compare(c, a) <= 0 ==> compare(b, a) <= 0;
  }

  function ByPackage(compare: Collation): (PackageRef, PackageRef) -> bool {
    (a: PackageRef, b: PackageRef) =>
      var c := compare(PackageText(a.packageId), PackageText(b.packageId));
      c < 0 || (c == 0 && compare(a.assignmentId, b.assignmentId) <= 0)
  }
}
