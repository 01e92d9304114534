/** The service-module manager as the source runs it, over a shared registry object. */
module ServiceModuleManager {
  import opened Prelude
  import opened ProtocolRegistry
  import M = ServiceModules
  import R = ServiceModuleRuns

  class Manager {
    const registry: ServerProtocolRegistry
    const drainGraceMs: int
    ghost const builtins: map<nat, Module>
    var activeByAssignmentId: map<M.AssignmentId, Module>
    var drainingByAssignmentId: map<M.AssignmentId, M.Draining>
    var nextTimer: nat

    ghost function Abs(): M.State
      reads this, registry
    {
      M.State(builtins, activeByAssignmentId, drainingByAssignmentId, registry.actions, nextTimer, drainGraceMs)
    }

    constructor (registry: ServerProtocolRegistry, drainGraceMs: int, ghost builtins: map<nat, Module>)
      ensures this.registry == registry && this.drainGraceMs == drainGraceMs
      ensures Abs() == M.State(builtins, map[], map[], registry.actions, 0, drainGraceMs)
    {
      this.registry := registry;
      this.drainGraceMs := drainGraceMs;
      this.builtins := builtins;
      activeByAssignmentId := map[];
      drainingByAssignmentId := map[];
      nextTimer := 0;
    }

    /** Takes an unassigned module out of service, at once or after the grace period. */
    method BeginDraining(id: M.AssignmentId)
      requires id in activeByAssignmentId
      modifies this`activeByAssignmentId, this`drainingByAssignmentId, registry
      ensures Abs() == M.BeginDraining(old(Abs()), id)
    {
      var mod := activeByAssignmentId[id];
      activeByAssignmentId := activeByAssignmentId - {id};
      if drainGraceMs <= 0 {
        registry.Unregister(mod.slot);
        return;
      }
      drainingByAssignmentId := drainingByAssignmentId[id := M.Draining(mod, nextTimer)];
    }

    method DrainUnassigned(next: seq<M.NextModule>)
      modifies this`activeByAssignmentId, this`drainingByAssignmentId, this`nextTimer, registry
      ensures Abs() == M.DrainUnassigned(old(Abs()), next)
    {
      var nextIds := M.NextIds(next);
      var pending := activeByAssignmentId.Keys;
      ghost var start, gone := Abs(), {};
      assert M.DrainAll(start, {}) == start;
      while pending != {}
        invariant pending <= start.active.Keys
        invariant gone == M.Unassigned(start, next) - pending
        invariant Abs() == M.DrainAll(start, gone)
        decreases pending
      {
        var id :| id in pending;
        pending := pending - {id};
        if id in nextIds {
          continue;
        }
        R.DrainStep(start, gone, id);
        BeginDraining(id);
        gone := gone + {id};
      }
      assert gone == M.Unassigned(start, next);
      if drainGraceMs > 0 {
        nextTimer := nextTimer + 1;
      }
    }

    method FindDrainingByProtocolVersion(slot: Slot) returns (found: Option<M.AssignmentId>)
      ensures found.Some? ==> found.value in drainingByAssignmentId && drainingByAssignmentId[found.value].mod.slot == slot
      ensures found.None? ==> forall id :: id in drainingByAssignmentId ==> drainingByAssignmentId[id].mod.slot != slot
    {
      var pending := drainingByAssignmentId.Keys;
      while pending != {}
        invariant pending <= drainingByAssignmentId.Keys
        invariant forall id :: id in drainingByAssignmentId && id !in pending ==> drainingByAssignmentId[id].mod.slot != slot
        decreases pending
      {
        var id :| id in pending;
        if drainingByAssignmentId[id].mod.slot == slot {
          return Some(id);
        }
        pending := pending - {id};
      }
      return None;
    }

    method EvictConflict(n: M.NextModule)
      modifies this`drainingByAssignmentId, registry
      ensures R.SingleDraining(old(drainingByAssignmentId)) ==> Abs() == R.EvictFor(old(Abs()), n)
    {
      var conflict := FindDrainingByProtocolVersion(n.mod.slot);
      if conflict.Some? && conflict.value != n.assignmentId {
        assert R.SingleDraining(drainingByAssignmentId) ==> R.InTheWay(drainingByAssignmentId, n) == {conflict.value};
        assert R.SlotsHeld(drainingByAssignmentId, {conflict.value}) == {n.mod.slot};
        registry.Unregister(n.mod.slot);
        drainingByAssignmentId := drainingByAssignmentId - {conflict.value};
      } else {
        assert R.SingleDraining(drainingByAssignmentId) ==> R.InTheWay(drainingByAssignmentId, n) == {};
      }
    }

    method EvictDraining(next: seq<M.NextModule>)
      modifies this`drainingByAssignmentId, registry
      ensures R.SingleDraining(old(drainingByAssignmentId)) ==> Abs() == M.EvictDraining(old(Abs()), next)
    {
      ghost var start := Abs();
      R.EvictNothing(start);
      for i := 0 to |next|
        invariant R.SingleDraining(start.draining) ==> Abs() == M.EvictDraining(start, next[..i])
      {
        TakeNext(next, i);
        if R.SingleDraining(start.draining) {
          R.StillSingle(start.draining, M.Evicted(start, next[..i]));
        }
        EvictConflict(next[i]);
        R.EvictedStep(start, next[..i], next[i]);
      }
      TakeAll(next);
    }

    method Activate(n: M.NextModule) returns (threw: bool)
      modifies this`activeByAssignmentId, this`drainingByAssignmentId, registry
      ensures (Abs(), threw) == M.Activate(old(Abs()), n)
    {
      var current := if n.assignmentId in activeByAssignmentId then Some(activeByAssignmentId[n.assignmentId]) else None;
      var draining := if n.assignmentId in drainingByAssignmentId then Some(drainingByAssignmentId[n.assignmentId].mod) else None;
      drainingByAssignmentId := drainingByAssignmentId - {n.assignmentId};
      if current.Some? && current.value.slot == n.mod.slot {
        registry.Replace(n.mod);
      } else if draining.Some? && draining.value.slot == n.mod.slot {
        registry.Replace(n.mod);
      } else {
        if current.Some? {
          registry.Unregister(current.value.slot);
        }
        if draining.Some? {
          registry.Unregister(draining.value.slot);
        }
        threw := registry.Register(n.mod);
        if threw {
          return true;
        }
      }
      activeByAssignmentId := activeByAssignmentId[n.assignmentId := n.mod];
      return false;
    }

    /**
     Exactly the specified change, unless two draining modules share a slot, which only an earlier
     apply that failed half-way can bring about; even then a normal return leaves exactly the
     assigned modules active.
     */
    method ApplyAssignments(assignments: seq<M.Assignment>) returns (threw: bool)
      modifies this, registry
      ensures R.Unambiguous(old(Abs()), assignments) ==> (Abs(), threw) == M.ApplyAssignments(old(Abs()), assignments)
      ensures M.Prepare(assignments, map[]).None? ==> threw && Abs() == old(Abs())
      ensures !threw ==>
        var next := M.Prepare(assignments, map[]).value;
        && activeByAssignmentId.Keys == M.NextIds(next)
        && forall id :: id in activeByAssignmentId ==> M.NextModule(id, activeByAssignmentId[id]) in next
    {
      var prepared := PrepareAssignments(assignments);
      if prepared.None? {
        return true;
      }
      DrainUnassigned(prepared.value);
      EvictDraining(prepared.value);
      R.ActivatedTables(Abs(), prepared.value);
      threw := ActivateAll(prepared.value);
    }

    method ActivateAll(next: seq<M.NextModule>) returns (threw: bool)
      modifies this`activeByAssignmentId, this`drainingByAssignmentId, registry
      ensures (Abs(), threw) == M.ActivateAll(old(Abs()), next)
    {
      ghost var ready := Abs();
      for i := 0 to |next|
        invariant (Abs(), false) == M.ActivateAll(ready, next[..i])
      {
        TakeTake(next, i, i + 1);
        var failed := Activate(next[i]);
        if failed {
          R.ActivateAllStops(ready, next, i + 1);
          return true;
        }
      }
      TakeAll(next);
      return false;
    }

    /** A drain timer's callback. */
    method OnDrainTimer(id: M.AssignmentId, timer: nat)
      modifies this`drainingByAssignmentId, registry
      ensures Abs() == M.FireDrainTimer(old(Abs()), id, timer)
    {
      if id !in drainingByAssignmentId || drainingByAssignmentId[id].timer != timer {
        return;
      }
      registry.Unregister(drainingByAssignmentId[id].mod.slot);
      drainingByAssignmentId := drainingByAssignmentId - {id};
    }
  }

  /** Staging and validating the assignments one by one; None when it throws. */
  method PrepareAssignments(assignments: seq<M.Assignment>) returns (prepared: Option<seq<M.NextModule>>)
    ensures prepared == M.Prepare(assignments, map[])
  {
    var next: seq<M.NextModule> := [];
    var owners: map<Slot, M.AssignmentId> := map[];
    assert assignments[0..] == assignments;
    for i := 0 to |assignments|
      invariant M.Prepare(assignments, map[]).None? <==> M.Prepare(assignments[i..], owners).None?
      invariant M.Prepare(assignments, map[]).Some? ==>
        M.Prepare(assignments, map[]).value == next + M.Prepare(assignments[i..], owners).value
    {
      var a := assignments[i];
      R.PrepareStep(assignments, i, owners, next);
      if !a.isServiceModule {
        continue;
      }
      if a.protocolPackage.None? || a.staged.None? || !M.BoundPackageValid(a.protocolPackage.value, a.staged.value) {
        return None;
      }
      var packageId := a.protocolPackage.value.packageId;
      if packageId in owners && owners[packageId] != a.assignmentId {
        return None;
      }
      owners := owners[packageId := a.assignmentId];
      next := next + [M.NextModule(a.assignmentId, a.staged.value)];
    }
    assert assignments[|assignments|..] == [] && next + [] == next;
    return Some(next);
  }
}
