/**
 Runs of the service-module manager: exactly when applying assignments succeeds and keeps the
 registry in step with active and draining modules, and why late drain timers do no harm.
 */
module ServiceModuleRuns {
  import opened Prelude
  import opened ProtocolRegistry
  import opened ServiceModules

  // ---- What preparation guarantees ----

  /** No two different assignments bring the same protocol and version. */
  ghost predicate OneOwnerPerSlot(next: seq<NextModule>) {
    forall n, m :: n in next && m in next && n.mod.slot == m.mod.slot ==> n.assignmentId == m.assignmentId
  }

  ghost predicate DistinctIds(next: seq<NextModule>) {
    forall i, j :: 0 <= i < j < |next| ==> next[i].assignmentId != next[j].assignmentId
  }

  /** The staged modules are well-formed module objects with at least one action. */
  ghost predicate ProperModules(next: seq<NextModule>) {
    forall n :: n in next ==> DistinctActions(n.mod.actions) && n.mod.actions != []
  }

  lemma {:induction false} PrepareOwners(assignments: seq<Assignment>, owners: map<Slot, AssignmentId>)
    requires Prepare(assignments, owners).Some?
    ensures var next := Prepare(assignments, owners).value;
      && OneOwnerPerSlot(next)
      && (forall n :: n in next && n.mod.slot in owners ==> owners[n.mod.slot] == n.assignmentId)
      && (forall n :: n in next ==> exists a :: a in assignments && a.isServiceModule && a.assignmentId == n.assignmentId
                                                && a.staged == Some(n.mod) && a.protocolPackage.Some?
                                                && BoundPackageValid(a.protocolPackage.value, n.mod))
      && (forall a :: a in assignments && a.isServiceModule ==> a.assignmentId in NextIds(next))
  {
    if assignments != [] {
      var a, rest := assignments[0], assignments[1..];
      assert forall x :: x in assignments <==> x == a || x in rest;
      if !a.isServiceModule {
        PrepareOwners(rest, owners);
      } else {
        var slot := a.protocolPackage.value.packageId;
        PrepareOwners(rest, owners[slot := a.assignmentId]);
        var tail := Prepare(rest, owners[slot := a.assignmentId]).value;
        var next := Prepare(assignments, owners).value;
        assert next == [NextModule(a.assignmentId, a.staged.value)] + tail;
        assert forall n :: n in next <==> n == next[0] || n in tail;
      }
    }
  }

  /** A preparation that throws changes neither the registry nor the tables. */
  lemma FailedPrepareChangesNothing(s: State, assignments: seq<Assignment>)
    requires Prepare(assignments, map[]).None?
    ensures ApplyAssignments(s, assignments) == (s, true)
  {
  }

  // ---- Draining phases keep the registry exact ----

  ghost function HoldersOf(ids: set<AssignmentId>): set<Holder> {
    set id | id in ids :: Assigned(id)
  }

  ghost function HeldSlots(s: State, ids: set<AssignmentId>): set<Slot>
    requires ids <= s.active.Keys + s.draining.Keys
  {
    set id | id in ids :: ModuleAt(s, Assigned(id)).slot
  }

  lemma HeldSlotsOf(s: State, ids: set<AssignmentId>)
    requires ids <= s.active.Keys + s.draining.Keys
    ensures HoldersOf(ids) <= Holders(s).Keys
    ensures SlotsOf(Holders(s), HoldersOf(ids)) == HeldSlots(s, ids)
  {
    forall id | id in ids ensures Assigned(id) in HoldersOf(ids) && Assigned(id) in HolderSet(s) {
    }
    forall slot | slot in HeldSlots(s, ids) ensures slot in SlotsOf(Holders(s), HoldersOf(ids)) {
      var id :| id in ids && ModuleAt(s, Assigned(id)).slot == slot;
      assert Assigned(id) in HoldersOf(ids);
    }
  }

  lemma DroppedHolders(s: State, ids: set<AssignmentId>, after: State)
    requires ids <= s.active.Keys + s.draining.Keys && s.active.Keys !! s.draining.Keys
    requires after.builtins == s.builtins && after.active == s.active - ids && after.draining == s.draining - ids
    ensures Holders(after) == Holders(s) - HoldersOf(ids)
  {
    assert HolderSet(after) == HolderSet(s) - HoldersOf(ids);
    forall h | h in HolderSet(after) ensures ModuleAt(after, h) == ModuleAt(s, h) {
    }
  }

  lemma DropHolders(s: State, ids: set<AssignmentId>, after: State)
    requires Inv(s) && ids <= s.active.Keys + s.draining.Keys
    requires after.builtins == s.builtins && after.registry == Cleared(s.registry, HeldSlots(s, ids))
    requires after.active == s.active - ids && after.draining == s.draining - ids
    ensures Inv(after)
  {
    HeldSlotsOf(s, ids);
    DropClaimed(Holders(s), s.registry, HoldersOf(ids));
    DropServed(Holders(s), s.registry, HoldersOf(ids));
    DroppedHolders(s, ids, after);
  }

  lemma DrainInv(s: State, next: seq<NextModule>)
    requires Inv(s)
    ensures var after := DrainUnassigned(s, next);
      && Inv(after)
      && after.builtins == s.builtins
      && after.active == s.active - Unassigned(s, next)
  {
    var gone := Unassigned(s, next);
    var after := DrainUnassigned(s, next);
    if s.drainGraceMs <= 0 {
      DropUnassigned(s, gone, after);
    } else {
      StartDraining(s, gone, after);
    }
  }

  lemma DropUnassigned(s: State, gone: set<AssignmentId>, after: State)
    requires Inv(s) && gone <= s.active.Keys
    requires after.builtins == s.builtins && after.draining == s.draining
    requires after.active == s.active - gone
    requires after.registry == Cleared(s.registry, ActiveSlots(s, gone))
    ensures Inv(after)
  {
    assert s.draining - gone == s.draining;
    assert HeldSlots(s, gone) == ActiveSlots(s, gone);
    DropHolders(s, gone, after);
  }

  /** Draining a set of assignments is draining them one after the other. */
  lemma DrainStep(s: State, gone: set<AssignmentId>, id: AssignmentId)
    requires gone <= s.active.Keys && id in s.active && id !in gone
    ensures BeginDraining(DrainAll(s, gone), id) == DrainAll(s, gone + {id})
  {
    WithoutBoth(s.active, gone, id);
    if s.drainGraceMs <= 0 {
      assert ActiveSlots(s, gone + {id}) == ActiveSlots(s, gone) + {s.active[id].slot};
      ClearedAndUnregistered(s.registry, ActiveSlots(s, gone), s.active[id].slot);
    } else {
      assert NewDrainings(s, gone + {id}) == NewDrainings(s, gone)[id := Draining(s.active[id], s.nextTimer)];
      OverrideThenPut(s.draining, NewDrainings(s, gone), id, Draining(s.active[id], s.nextTimer));
    }
  }

  lemma WithoutBoth<K, V>(m: map<K, V>, gone: set<K>, k: K)
    ensures m - gone - {k} == m - (gone + {k})
    ensures k in m && k !in gone ==> k in m - gone && (m - gone)[k] == m[k]
  {
  }

  lemma ClearedAndUnregistered(registry: Actions, slots: set<Slot>, slot: Slot)
    ensures Unregistered(Cleared(registry, slots), slot) == Cleared(registry, slots + {slot})
  {
  }

  lemma StartDraining(s: State, gone: set<AssignmentId>, after: State)
    requires Inv(s) && gone <= s.active.Keys
    requires after.builtins == s.builtins && after.registry == s.registry
    requires after.active == s.active - gone
    requires after.draining == s.draining + NewDrainings(s, gone)
    ensures Inv(after)
  {
    assert HolderSet(after) == HolderSet(s);
    forall h | h in HolderSet(s) ensures ModuleAt(after, h) == ModuleAt(s, h) {
    }
    SameHolders(s, after);
  }

  lemma SameHolders(s: State, after: State)
    requires HolderSet(after) == HolderSet(s)
    requires forall h :: h in HolderSet(s) ==> ModuleAt(after, h) == ModuleAt(s, h)
    ensures Holders(after) == Holders(s)
  {
  }

  lemma EvictSome(s: State, evicted: set<AssignmentId>, after: State)
    requires Inv(s) && evicted <= s.draining.Keys
    requires after.builtins == s.builtins && after.active == s.active && after.draining == s.draining - evicted
    requires after.registry == Cleared(s.registry, set id | id in evicted :: s.draining[id].mod.slot)
    ensures Inv(after)
  {
    assert s.active - evicted == s.active;
    assert HeldSlots(s, evicted) == set id | id in evicted :: s.draining[id].mod.slot;
    DropHolders(s, evicted, after);
  }

  lemma EvictInv(s: State, next: seq<NextModule>)
    requires Inv(s)
    ensures var after := EvictDraining(s, next);
      && Inv(after)
      && after.builtins == s.builtins && after.active == s.active
      && (forall id, n :: id in after.draining && n in next && n.assignmentId != id ==>
            after.draining[id].mod.slot != n.mod.slot)
  {
    var evicted := Evicted(s, next);
    var after := EvictDraining(s, next);
    EvictSome(s, evicted, after);
    forall id, n | id in after.draining && n in next && n.assignmentId != id
      ensures after.draining[id].mod.slot != n.mod.slot
    {
      assert id !in evicted;
    }
  }

  /** At most one draining module can stand in the way of a new one, so looking for the first is enough. */
  lemma OneDrainingPerSlot(s: State, a: AssignmentId, b: AssignmentId)
    requires Inv(s) && a in s.draining && b in s.draining && s.draining[a].mod.slot == s.draining[b].mod.slot
    ensures a == b
  {
    assert Holders(s)[Assigned(a)].slot == Holders(s)[Assigned(b)].slot;
  }

  // ---- Activation ----

  /** What the tables look like once a prefix of the modules has been activated without a throw. */
  ghost predicate Tables(s: State, done: seq<NextModule>, after: State) {
    && after.builtins == s.builtins
    && after.active.Keys == s.active.Keys + NextIds(done)
    && after.draining == s.draining - NextIds(done)
    && forall id :: id in after.active ==> TableEntry(s, done, after, id)
  }

  ghost predicate TableEntry(s: State, done: seq<NextModule>, after: State, id: AssignmentId)
    requires id in after.active && (id in s.active || id in NextIds(done))
  {
    if id in NextIds(done) then NextModule(id, after.active[id]) in done else after.active[id] == s.active[id]
  }

  lemma ActivateEffect(s: State, n: NextModule)
    requires !Activate(s, n).1
    ensures var after := Activate(s, n).0;
      && after.builtins == s.builtins
      && after.active == s.active[n.assignmentId := n.mod]
      && after.draining == s.draining - {n.assignmentId}
  {
  }

  lemma NextIdsAppend(done: seq<NextModule>, n: NextModule)
    ensures NextIds(done + [n]) == NextIds(done) + {n.assignmentId}
    ensures forall x :: x in done + [n] <==> x in done || x == n
  {
    assert forall x :: x in done + [n] <==> x in done || x == n;
    assert n in done + [n];
  }

  lemma ActivateTables(s: State, done: seq<NextModule>, n: NextModule, mid: State)
    requires Tables(s, done, mid) && !Activate(mid, n).1
    ensures Tables(s, done + [n], Activate(mid, n).0)
  {
    var all, after := done + [n], Activate(mid, n).0;
    NextIdsAppend(done, n);
    ActivateEffect(mid, n);
    assert s.draining - NextIds(all) == (s.draining - NextIds(done)) - {n.assignmentId};
    forall id | id in after.active ensures TableEntry(s, all, after, id) {
      if id == n.assignmentId {
        assert NextModule(id, n.mod) == n;
      } else {
        assert TableEntry(s, done, mid, id);
      }
    }
  }

  lemma {:induction false} ActivateAllTables(s: State, next: seq<NextModule>)
    requires !ActivateAll(s, next).1
    ensures Tables(s, next, ActivateAll(s, next).0)
  {
    if next == [] {
      assert s.draining - {} == s.draining;
    } else {
      var init, last := next[..|next| - 1], next[|next| - 1];
      ActivateAllTables(s, init);
      ActivateTables(s, init, last, ActivateAll(s, init).0);
      assert next == init + [last];
    }
  }

  /** Nothing but the new modules is active once they have all been activated. */
  lemma ActivatedTables(s: State, next: seq<NextModule>)
    requires s.active.Keys <= NextIds(next)
    ensures var (after, threw) := ActivateAll(s, next);
      !threw ==> after.active.Keys == NextIds(next)
                 && forall id :: id in after.active ==> NextModule(id, after.active[id]) in next
  {
    if !ActivateAll(s, next).1 {
      ActivateAllTables(s, next);
      var after := ActivateAll(s, next).0;
      forall id | id in after.active ensures NextModule(id, after.active[id]) in next {
        assert TableEntry(s, next, after, id);
      }
    }
  }

  /**
   The condition a caller can check before applying: no new module claims the slot of a built-in, nor
   the slot of a retained assignment that comes only later in the list and so still sits on it.
   */
  ghost predicate NoTheft(s: State, next: seq<NextModule>) {
    forall i :: 0 <= i < |next| ==> NoTheftAt(s, next, i)
  }

  ghost predicate NoTheftAt(s: State, next: seq<NextModule>, i: nat)
    requires i < |next|
  {
    && (forall b :: b in s.builtins ==> s.builtins[b].slot != next[i].mod.slot)
    && (forall id :: id in s.active && id in NextIds(next) && id !in NextIds(next[..i + 1]) ==>
          s.active[id].slot != next[i].mod.slot)
  }

  lemma {:induction false} ActivateAllSafe(s: State, next: seq<NextModule>, k: nat)
    requires k <= |next| && Inv(s) && OneOwnerPerSlot(next) && ProperModules(next) && NoTheft(s, next)
    requires s.active.Keys <= NextIds(next)
    requires forall id, n :: id in s.draining && n in next && n.assignmentId != id ==> s.draining[id].mod.slot != n.mod.slot
    ensures !ActivateAll(s, next[..k]).1 && Inv(ActivateAll(s, next[..k]).0)
  {
    if k > 0 {
      ActivateAllSafe(s, next, k - 1);
      var done, n := next[..k - 1], next[k - 1];
      assert next[..k][..k - 1] == done && next[..k][k - 1] == n;
      var mid := ActivateAll(s, done).0;
      ActivateAllTables(s, done);
      assert NoTheftAt(s, next, k - 1);
      FreeForNext(s, next, k - 1, mid);
      ActivateStep(mid, n);
    }
  }

  lemma FreeForNext(s: State, next: seq<NextModule>, k: nat, mid: State)
    requires k < |next| && OneOwnerPerSlot(next) && NoTheftAt(s, next, k)
    requires s.active.Keys <= NextIds(next)
    requires forall id, n :: id in s.draining && n in next && n.assignmentId != id ==> s.draining[id].mod.slot != n.mod.slot
    requires Tables(s, next[..k], mid)
    ensures Free(mid, next[k])
  {
    forall h | h in HolderSet(mid) && h != Assigned(next[k].assignmentId)
      ensures ModuleAt(mid, h).slot != next[k].mod.slot
    {
      HolderElsewhere(s, next, k, mid, h);
    }
  }

  lemma HolderElsewhere(s: State, next: seq<NextModule>, k: nat, mid: State, h: Holder)
    requires k < |next| && OneOwnerPerSlot(next) && NoTheftAt(s, next, k)
    requires s.active.Keys <= NextIds(next)
    requires forall id, n :: id in s.draining && n in next && n.assignmentId != id ==> s.draining[id].mod.slot != n.mod.slot
    requires Tables(s, next[..k], mid)
    requires h in HolderSet(mid) && h != Assigned(next[k].assignmentId)
    ensures ModuleAt(mid, h).slot != next[k].mod.slot
  {
    if h.Assigned? {
      if h.id in mid.active {
        ActiveElsewhere(s, next, k, mid, h.id);
      } else {
        assert next[k] in next;
      }
    }
  }

  lemma ActiveElsewhere(s: State, next: seq<NextModule>, k: nat, mid: State, id: AssignmentId)
    requires k < |next| && OneOwnerPerSlot(next) && NoTheftAt(s, next, k)
    requires s.active.Keys <= NextIds(next) && Tables(s, next[..k], mid)
    requires id in mid.active && id != next[k].assignmentId
    ensures mid.active[id].slot != next[k].mod.slot
  {
    var done := next[..k];
    assert TableEntry(s, done, mid, id);
    if id in NextIds(done) {
      OwnersApart(next, NextModule(id, mid.active[id]), next[k]);
    } else {
      TakeNext(next, k);
      NextIdsAppend(done, next[k]);
    }
  }

  lemma OwnersApart(next: seq<NextModule>, n: NextModule, m: NextModule)
    requires OneOwnerPerSlot(next) && n in next && m in next && n.assignmentId != m.assignmentId
    ensures n.mod.slot != m.mod.slot
  {
  }

  lemma PhasesSafe(s: State, next: seq<NextModule>)
    requires Inv(s)
    ensures var ready := EvictDraining(DrainUnassigned(s, next), next);
      && Inv(ready) && ready.builtins == s.builtins
      && ready.active == s.active - Unassigned(s, next)
      && ready.active.Keys == s.active.Keys * NextIds(next)
      && (NoTheft(ready, next) <==> NoTheft(s, next))
      && (forall id, n :: id in ready.draining && n in next && n.assignmentId != id ==>
            ready.draining[id].mod.slot != n.mod.slot)
  {
    DrainInv(s, next);
    EvictInv(DrainUnassigned(s, next), next);
    var ready := EvictDraining(DrainUnassigned(s, next), next);
    forall i | 0 <= i < |next| ensures NoTheftAt(ready, next, i) <==> NoTheftAt(s, next, i) {
    }
  }

  /**
   Applying prepared modules that steal no slot never throws; afterwards exactly the new
   assignments are active, and the registry holds exactly the actions of built-in, active and
   draining modules, each slot with one owner.
   */
  lemma ApplySafe(s: State, next: seq<NextModule>)
    requires Inv(s) && OneOwnerPerSlot(next) && ProperModules(next) && NoTheft(s, next)
    ensures var (after, threw) := Apply(s, next);
      && !threw && Inv(after) && after.active.Keys == NextIds(next)
      && forall id :: id in after.active ==> NextModule(id, after.active[id]) in next
  {
    PhasesSafe(s, next);
    var ready := EvictDraining(DrainUnassigned(s, next), next);
    ActivateAllSafe(ready, next, |next|);
    assert next[..|next|] == next;
    ActivateAllTables(ready, next);
  }

  // ---- Stealing a slot always does damage ----

  ghost predicate SlotVacant(registry: Actions, slot: Slot) {
    forall k :: k in registry ==> k.slot != slot
  }

  lemma ActivateVacant(s: State, n: NextModule, slot: Slot)
    requires n.mod.slot != slot
    requires || SlotVacant(s.registry, slot)
             || (&& n.assignmentId in s.active && s.active[n.assignmentId].slot == slot
                 && n.assignmentId !in s.draining)
    ensures SlotVacant(Activate(s, n).0.registry, slot)
  {
    OwnSlot(n.mod);
    var current := if n.assignmentId in s.active then Some(s.active[n.assignmentId]) else None;
    var drained := if n.assignmentId in s.draining then Some(s.draining[n.assignmentId].mod) else None;
    var freed := UnregisterIf(UnregisterIf(s.registry, current), drained);
    RegisterGrows(freed, n.mod.slot, n.mod.actions);
  }

  lemma OwnSlot(m: Module)
    ensures forall k :: k in Own(m) ==> k.slot == m.slot
    ensures m.actions != [] ==> exists k :: k in Own(m)
  {
    EntriesFacts(m.slot, m.actions);
    if m.actions != [] {
      assert m.actions[0] in m.actions;
      assert Key(m.slot, m.actions[0].name) in Own(m);
    }
  }

  lemma NotEarlier(next: seq<NextModule>, k: nat)
    requires k < |next| && DistinctIds(next)
    ensures next[k].assignmentId !in NextIds(next[..k])
  {
    forall x | x in next[..k] ensures x.assignmentId != next[k].assignmentId {
      var p :| 0 <= p < k && next[p] == x;
    }
  }

  /** Once the retained assignment `next[j]` has moved off a stolen slot, nothing is registered there any more. */
  lemma {:induction false} StolenSlotVacant(s: State, next: seq<NextModule>, i: nat, j: nat, k: nat)
    requires i < j < k <= |next| && DistinctIds(next)
    requires forall p :: 0 <= p < |next| && p != i ==> next[p].mod.slot != next[i].mod.slot
    requires s.active.Keys !! s.draining.Keys
    requires next[j].assignmentId in s.active && s.active[next[j].assignmentId].slot == next[i].mod.slot
    requires !ActivateAll(s, next[..k]).1
    ensures SlotVacant(ActivateAll(s, next[..k]).0.registry, next[i].mod.slot)
  {
    var done, n := next[..k - 1], next[k - 1];
    assert next[..k][..k - 1] == done && next[..k][k - 1] == n;
    var mid := ActivateAll(s, done).0;
    if k - 1 == j {
      ActivateAllTables(s, done);
      NotEarlier(next, j);
    } else {
      StolenSlotVacant(s, next, i, j, k - 1);
    }
    ActivateVacant(mid, n, next[i].mod.slot);
  }

  lemma LastActivated(s: State, next: seq<NextModule>, i: nat)
    requires i < |next| && DistinctIds(next) && !ActivateAll(s, next).1
    ensures var after := ActivateAll(s, next).0;
      && next[i].assignmentId in after.active && after.active[next[i].assignmentId] == next[i].mod
      && after.builtins == s.builtins
  {
    ActivateAllTables(s, next);
    var after := ActivateAll(s, next).0;
    assert next[i] in next;
    assert TableEntry(s, next, after, next[i].assignmentId);
    var x := NextModule(next[i].assignmentId, after.active[next[i].assignmentId]);
    var p :| 0 <= p < |next| && next[p] == x;
    assert p == i;
  }

  lemma SlotsApart(next: seq<NextModule>, i: nat)
    requires i < |next| && DistinctIds(next) && OneOwnerPerSlot(next)
    ensures forall p :: 0 <= p < |next| && p != i ==> next[p].mod.slot != next[i].mod.slot
  {
    forall p | 0 <= p < |next| && p != i ensures next[p].mod.slot != next[i].mod.slot {
      assert next[p] in next && next[i] in next;
      assert next[p].assignmentId != next[i].assignmentId;
    }
  }

  /** Two holders on one slot. */
  lemma ClashBreaks(s: State, a: Holder, b: Holder)
    requires a in HolderSet(s) && b in HolderSet(s) && a != b && ModuleAt(s, a).slot == ModuleAt(s, b).slot
    ensures !Inv(s)
  {
    assert Holders(s)[a].slot == Holders(s)[b].slot;
  }

  /** A holder none of whose actions is registered. */
  lemma VacancyBreaks(s: State, h: Holder)
    requires h in HolderSet(s) && ModuleAt(s, h).actions != [] && SlotVacant(s.registry, ModuleAt(s, h).slot)
    ensures !Inv(s)
  {
    OwnSlot(ModuleAt(s, h));
    var k :| k in Own(ModuleAt(s, h));
    HolderClaim(s, h);
  }

  lemma TheftBreaks(s: State, next: seq<NextModule>, i: nat)
    requires Inv(s) && DistinctIds(next) && OneOwnerPerSlot(next) && ProperModules(next)
    requires i < |next| && !NoTheftAt(s, next, i)
    requires !ActivateAll(s, next).1
    ensures !Inv(ActivateAll(s, next).0)
  {
    var after := ActivateAll(s, next).0;
    LastActivated(s, next, i);
    var me := Assigned(next[i].assignmentId);
    assert me in HolderSet(after) && ModuleAt(after, me) == next[i].mod && next[i] in next;
    if b :| b in s.builtins && s.builtins[b].slot == next[i].mod.slot {
      ClashBreaks(after, Builtin(b), me);
    } else {
      var id :| id in s.active && id in NextIds(next) && id !in NextIds(next[..i + 1]) && s.active[id].slot == next[i].mod.slot;
      StolenVacant(s, next, i, id);
      VacancyBreaks(after, me);
    }
  }

  lemma StolenVacant(s: State, next: seq<NextModule>, i: nat, id: AssignmentId)
    requires s.active.Keys !! s.draining.Keys && DistinctIds(next) && OneOwnerPerSlot(next) && i < |next|
    requires id in s.active && id in NextIds(next) && id !in NextIds(next[..i + 1]) && s.active[id].slot == next[i].mod.slot
    requires !ActivateAll(s, next).1
    ensures SlotVacant(ActivateAll(s, next).0.registry, next[i].mod.slot)
  {
    var j := LaterPosition(next, i, id);
    TakeAll(next);
    SlotsApart(next, i);
    StolenSlotVacant(s, next, i, j, |next|);
  }

  lemma LaterPosition(next: seq<NextModule>, i: nat, id: AssignmentId) returns (j: nat)
    requires i < |next| && id in NextIds(next) && id !in NextIds(next[..i + 1])
    ensures i < j < |next| && next[j].assignmentId == id
  {
    var n :| n in next && n.assignmentId == id;
    j :| 0 <= j < |next| && next[j] == n;
    assert forall p :: 0 <= p < i + 1 ==> next[p] in next[..i + 1];
  }

  /**
   Exactly when applying works: with distinct assignment ids, `applyAssignments` returns normally
   with the registry in step if and only if no new module claims the slot of a built-in or of a
   retained assignment that is processed after it.
   */
  lemma ApplyExactly(s: State, next: seq<NextModule>)
    requires Inv(s) && DistinctIds(next) && OneOwnerPerSlot(next) && ProperModules(next)
    ensures !Apply(s, next).1 && Inv(Apply(s, next).0) <==> NoTheft(s, next)
  {
    if NoTheft(s, next) {
      ApplySafe(s, next);
    } else {
      PhasesSafe(s, next);
      var ready := EvictDraining(DrainUnassigned(s, next), next);
      var i :| 0 <= i < |next| && !NoTheftAt(ready, next, i);
      if !ActivateAll(ready, next).1 {
        TheftBreaks(ready, next, i);
      }
    }
  }

  // ---- Timers and runs ----

  /**
   Any drain timer ever started may fire at any time: the registry stays in step, no active module
   loses an action, and a timer that was cancelled or superseded changes nothing.
   */
  lemma DrainTimerHarmless(s: State, id: AssignmentId, timer: nat)
    requires Inv(s)
    ensures var after := FireDrainTimer(s, id, timer);
      && Inv(after) && after.active == s.active
      && (forall a, k :: a in s.active && k in Own(s.active[a]) ==> k in after.registry && after.registry[k] == Own(s.active[a])[k])
      && (id !in s.draining || s.draining[id].timer != timer ==> after == s)
  {
    var after := FireDrainTimer(s, id, timer);
    if id in s.draining && s.draining[id].timer == timer {
      FiredInv(s, id, timer);
    }
    forall a | a in s.active
      ensures forall k :: k in Own(s.active[a]) ==> k in after.registry && after.registry[k] == Own(s.active[a])[k]
    {
      ActiveServed(after, a);
    }
  }

  lemma FiredInv(s: State, id: AssignmentId, timer: nat)
    requires Inv(s) && id in s.draining && s.draining[id].timer == timer
    ensures Inv(FireDrainTimer(s, id, timer))
  {
    UnregisteredIsCleared(s.registry, s.draining[id].mod.slot);
    DrainingSlot(s, id);
    assert s.active - {id} == s.active;
    DropHolders(s, {id}, FireDrainTimer(s, id, timer));
  }

  lemma DrainingSlot(s: State, id: AssignmentId)
    requires s.active.Keys !! s.draining.Keys && id in s.draining
    ensures HeldSlots(s, {id}) == {s.draining[id].mod.slot}
  {
    assert ModuleAt(s, Assigned(id)) == s.draining[id].mod;
  }

  lemma ActiveServed(s: State, a: AssignmentId)
    requires Inv(s) && a in s.active
    ensures forall k :: k in Own(s.active[a]) ==> k in s.registry && s.registry[k] == Own(s.active[a])[k]
  {
    HolderClaim(s, Assigned(a));
    ClaimServed(Holders(s), s.registry, Assigned(a));
  }

  lemma ClaimServed(holders: map<Holder, Claim>, registry: Actions, h: Holder)
    requires Served(holders, registry) && h in holders
    ensures forall k :: k in holders[h].actions ==> k in registry && registry[k] == holders[h].actions[k]
  {
  }

  /**
   What a look-up in the registry means: it finds an action exactly when the one module that holds
   the slot, built in, active or draining, offers it, and returns that module's hooks.
   */
  lemma LookupFindsHolder(s: State, slot: Slot, action: string)
    requires Inv(s)
    requires forall h :: h in HolderSet(s) ==> DistinctActions(ModuleAt(s, h).actions)
    ensures match Lookup(s.registry, slot, action)
      case Some(hooks) => exists h :: Offers(s, h, slot, Action(action, hooks))
      case None => forall h, hooks :: !Offers(s, h, slot, Action(action, hooks))
    ensures forall a, b :: a in HolderSet(s) && b in HolderSet(s) && ModuleAt(s, a).slot == slot == ModuleAt(s, b).slot ==> a == b
  {
    var k := Key(slot, action);
    forall a, b | a in HolderSet(s) && b in HolderSet(s) && ModuleAt(s, a).slot == slot == ModuleAt(s, b).slot ensures a == b {
      HolderClaim(s, a);
      HolderClaim(s, b);
    }
    if k in s.registry {
      var h :| h in Holders(s) && k in Holders(s)[h].actions;
      HolderOffers(s, h, slot, action);
    } else {
      forall h, hooks ensures !Offers(s, h, slot, Action(action, hooks)) {
        if h in HolderSet(s) { HolderOffers(s, h, slot, action); }
      }
    }
  }

  /** A holder offers what it has registered under the slot, and nothing else there. */
  lemma HolderOffers(s: State, h: Holder, slot: Slot, action: string)
    requires Inv(s) && h in HolderSet(s) && DistinctActions(ModuleAt(s, h).actions)
    ensures h in Holders(s)
    ensures var k := Key(slot, action);
      && (k in Holders(s)[h].actions ==> k in s.registry && Offers(s, h, slot, Action(action, s.registry[k])))
      && (k !in Holders(s)[h].actions ==> forall hooks :: !Offers(s, h, slot, Action(action, hooks)))
  {
    HolderClaim(s, h);
    EntriesFacts(ModuleAt(s, h).slot, ModuleAt(s, h).actions);
    EntriesLookup(slot, ModuleAt(s, h).actions, action);
  }

  ghost predicate Offers(s: State, h: Holder, slot: Slot, action: Action) {
    h in HolderSet(s) && ModuleAt(s, h).slot == slot && action in ModuleAt(s, h).actions
  }

  datatype Event = ApplyEvent(assignments: seq<Assignment>) | DrainTimerEvent(id: AssignmentId, timer: nat)

  ghost function Step(s: State, event: Event): State {
    match event
    case ApplyEvent(assignments) => ApplyAssignments(s, assignments).0
    case DrainTimerEvent(id, timer) => FireDrainTimer(s, id, timer)
  }

  ghost function Run(s: State, events: seq<Event>): State
    decreases |events|
  {
    if events == [] then s else Run(Step(s, events[0]), events[1..])
  }

  /** No apply of the run steals a slot; those whose preparation throws are unrestricted. */
  ghost predicate HonestRun(s: State, events: seq<Event>)
    decreases |events|
  {
    events == [] ||
    (&& (events[0].ApplyEvent? ==>
           var prepared := Prepare(events[0].assignments, map[]);
           prepared.Some? ==> ProperModules(prepared.value) && NoTheft(s, prepared.value))
     && HonestRun(Step(s, events[0]), events[1..]))
  }

  /** Over all such runs the registry holds exactly the built-in, active and draining modules' actions. */
  lemma {:induction false} RegistryInStep(s: State, events: seq<Event>)
    requires Inv(s) && HonestRun(s, events)
    ensures Inv(Run(s, events))
    decreases |events|
  {
    if events != [] {
      match events[0]
      case ApplyEvent(assignments) =>
        if Prepare(assignments, map[]).Some? {
          PrepareOwners(assignments, map[]);
          ApplySafe(s, Prepare(assignments, map[]).value);
        }
        RegistryInStep(Step(s, events[0]), events[1..]);
      case DrainTimerEvent(id, timer) =>
        DrainTimerHarmless(s, id, timer);
        RegistryInStep(Step(s, events[0]), events[1..]);
    }
  }

  // ---- Steps of the manager's loops ----

  /** Looking for a draining module that stands in the way finds the only one. */
  ghost predicate Unambiguous(s: State, assignments: seq<Assignment>) {
    var next := Prepare(assignments, map[]);
    next.Some? ==> SingleDraining(DrainUnassigned(s, next.value).draining)
  }

  lemma InvUnambiguous(s: State, assignments: seq<Assignment>)
    requires Inv(s)
    ensures Unambiguous(s, assignments)
  {
    var next := Prepare(assignments, map[]);
    if next.Some? {
      DrainInv(s, next.value);
      OneDrainingPerSlotAll(DrainUnassigned(s, next.value));
    }
  }

  /** So the manager's proviso holds for every apply of a run that steals no slot. */
  lemma RunUnambiguous(s: State, events: seq<Event>, assignments: seq<Assignment>)
    requires Inv(s) && HonestRun(s, events)
    ensures Unambiguous(Run(s, events), assignments)
  {
    RegistryInStep(s, events);
    InvUnambiguous(Run(s, events), assignments);
  }

  ghost predicate SingleDraining(draining: map<AssignmentId, Draining>) {
    forall a, b :: a in draining && b in draining && draining[a].mod.slot == draining[b].mod.slot ==> a == b
  }

  lemma StillSingle(draining: map<AssignmentId, Draining>, gone: set<AssignmentId>)
    requires SingleDraining(draining)
    ensures SingleDraining(draining - gone)
  {
  }

  lemma OneDrainingPerSlotAll(s: State)
    requires Inv(s)
    ensures SingleDraining(s.draining)
  {
    forall a, b | a in s.draining && b in s.draining && s.draining[a].mod.slot == s.draining[b].mod.slot ensures a == b {
      OneDrainingPerSlot(s, a, b);
    }
  }

  ghost function InTheWay(draining: map<AssignmentId, Draining>, n: NextModule): set<AssignmentId> {
    set id | id in draining && id != n.assignmentId && draining[id].mod.slot == n.mod.slot
  }

  ghost function SlotsHeld(draining: map<AssignmentId, Draining>, ids: set<AssignmentId>): set<Slot>
    requires ids <= draining.Keys
  {
    set id | id in ids :: draining[id].mod.slot
  }

  /** What one new module evicts. */
  ghost function EvictFor(s: State, n: NextModule): State {
    var now := InTheWay(s.draining, n);
    s.(draining := s.draining - now, registry := Cleared(s.registry, SlotsHeld(s.draining, now)))
  }

  lemma EvictNothing(s: State)
    ensures EvictDraining(s, []) == s
  {
    assert Evicted(s, []) == {};
  }

  lemma EvictedStep(s: State, done: seq<NextModule>, n: NextModule)
    ensures EvictFor(EvictDraining(s, done), n) == EvictDraining(s, done + [n])
  {
    var before, after := Evicted(s, done), Evicted(s, done + [n]);
    var rest := s.draining - before;
    EvictedAppend(s, done, n);
    assert after == before + InTheWay(rest, n);
    assert SlotsHeld(s.draining, after) == SlotsHeld(s.draining, before) + SlotsHeld(rest, InTheWay(rest, n));
  }

  lemma EvictedAppend(s: State, done: seq<NextModule>, n: NextModule)
    ensures Evicted(s, done + [n]) == Evicted(s, done) + InTheWay(s.draining, n)
  {
    NextIdsAppend(done, n);
  }

  lemma {:induction false} ActivateAllStops(s: State, next: seq<NextModule>, k: nat)
    requires k <= |next| && ActivateAll(s, next[..k]).1
    ensures ActivateAll(s, next) == ActivateAll(s, next[..k])
    decreases |next|
  {
    if k == |next| {
      TakeAll(next);
    } else {
      var init := next[..|next| - 1];
      TakeTake(next, k, |next| - 1);
      ActivateAllStops(s, init, k);
    }
  }

  lemma PrepareStep(assignments: seq<Assignment>, i: nat, owners: map<Slot, AssignmentId>, next: seq<NextModule>)
    requires i < |assignments|
    ensures var a := assignments[i];
      var here := Prepare(assignments[i..], owners);
      if !a.isServiceModule then here == Prepare(assignments[i + 1..], owners)
      else if a.protocolPackage.None? || a.staged.None? || !BoundPackageValid(a.protocolPackage.value, a.staged.value) then here.None?
      else if a.protocolPackage.value.packageId in owners && owners[a.protocolPackage.value.packageId] != a.assignmentId then here.None?
      else
        var rest := Prepare(assignments[i + 1..], owners[a.protocolPackage.value.packageId := a.assignmentId]);
        && (here.None? <==> rest.None?)
        && (here.Some? ==> next + here.value == (next + [NextModule(a.assignmentId, a.staged.value)]) + rest.value)
  {
    assert assignments[i..][1..] == assignments[i + 1..];
  }
}
