/**
 What callers of the registry find while service modules come and go: exactly what may be started, who
 drains after an apply and who is gone, that a draining module keeps answering until its own timer ends
 it, and that the timer does end it.
 */
module ServiceModuleDrains {
  import opened Prelude
  import opened ProtocolRegistry
  import opened ServiceModules
  import opened ServiceModuleRuns

  // ---- What may be started ----

  /** A staged module fits its package: digest, identity, and the very same action names, none twice. */
  lemma BoundPackageExactly(p: ProtocolPackage, m: Module)
    requires DistinctActions(m.actions)
    ensures BoundPackageValid(p, m) <==>
      && p.digestValid && p.packageId == p.slot && m.slot == p.slot
      && Distinct(p.actions) && forall name :: name in p.actions <==> exists a :: a in m.actions && a.name == name
  {
    var names := seq(|m.actions|, i requires 0 <= i < |m.actions| => m.actions[i].name);
    assert Distinct(names);
    forall name ensures name in names <==> exists a :: a in m.actions && a.name == name {
      if name in names {
        var i :| 0 <= i < |names| && names[i] == name;
        assert m.actions[i] in m.actions;
      }
      if a :| a in m.actions && a.name == name {
        var i :| 0 <= i < |m.actions| && m.actions[i] == a;
        assert names[i] == name;
      }
    }
    SameMembers(p.actions, names);
  }

  lemma SameMembers(a: seq<string>, b: seq<string>)
    requires Distinct(b)
    ensures multiset(a) == multiset(b) <==> Distinct(a) && forall x :: x in a <==> x in b
  {
    DistinctCounts(b);
    if multiset(a) == multiset(b) {
      forall x ensures x in a <==> x in b { assert x in a <==> x in multiset(a); }
      CountsDistinct(a);
    }
    if Distinct(a) && forall x :: x in a <==> x in b {
      DistinctCounts(a);
      forall x ensures multiset(a)[x] == multiset(b)[x] { assert x in a <==> x in b; }
    }
  }

  lemma {:induction false} DistinctCounts(s: seq<string>)
    requires Distinct(s)
    ensures forall x :: multiset(s)[x] == if x in s then 1 else 0
  {
    if s != [] {
      DistinctCounts(s[1..]);
      assert s == [s[0]] + s[1..];
    }
  }

  lemma CountsDistinct(s: seq<string>)
    requires forall x :: multiset(s)[x] <= 1
    ensures Distinct(s)
  {
    forall i, j | 0 <= i < j < |s| ensures s[i] != s[j] {
      assert s == s[..j] + s[j..];
      assert s[i] in s[..j] && s[j] in s[j..];
      assert multiset(s)[s[i]] == multiset(s[..j])[s[i]] + multiset(s[j..])[s[i]];
    }
  }

  function Services(assignments: seq<Assignment>): seq<Assignment> {
    Filter((a: Assignment) => a.isServiceModule, assignments)
  }

  ghost predicate Startable(a: Assignment) {
    a.protocolPackage.Some? && a.staged.Some? && BoundPackageValid(a.protocolPackage.value, a.staged.value)
  }

  ghost predicate AllStartable(services: seq<Assignment>) {
    forall a :: a in services ==> Startable(a)
  }

  ghost predicate SharesPackage(a: Assignment, b: Assignment) {
    && a.protocolPackage.Some? && b.protocolPackage.Some?
    && a.protocolPackage.value.packageId == b.protocolPackage.value.packageId
  }

  /** No assignment brings a package that another one owns. */
  ghost predicate Respects(services: seq<Assignment>, owners: map<Slot, AssignmentId>) {
    forall a :: a in services && a.protocolPackage.Some? && a.protocolPackage.value.packageId in owners ==>
      owners[a.protocolPackage.value.packageId] == a.assignmentId
  }

  ghost predicate OneOwnerPerPackage(services: seq<Assignment>) {
    forall a, b :: a in services && b in services && SharesPackage(a, b) ==> a.assignmentId == b.assignmentId
  }

  ghost predicate StagedInOrder(services: seq<Assignment>, next: seq<NextModule>) {
    && |next| == |services|
    && forall i :: 0 <= i < |services| ==>
         services[i].staged.Some? && next[i] == NextModule(services[i].assignmentId, services[i].staged.value)
  }

  /**
   Preparation succeeds exactly when every service assignment can be started and no two different
   assignments bring the same package; it then yields the staged modules in order.
   */
  lemma PrepareExactly(assignments: seq<Assignment>)
    ensures var services, next := Services(assignments), Prepare(assignments, map[]);
      && (next.Some? <==> AllStartable(services) && OneOwnerPerPackage(services))
      && (next.Some? ==> StagedInOrder(services, next.value))
  {
    PrepareFor(assignments, map[]);
    if Prepare(assignments, map[]).Some? { PrepareOrder(assignments, map[]); }
  }

  lemma {:induction false} PrepareFor(assignments: seq<Assignment>, owners: map<Slot, AssignmentId>)
    ensures var services := Services(assignments);
      Prepare(assignments, owners).Some? <==> AllStartable(services) && OneOwnerPerPackage(services) && Respects(services, owners)
  {
    if assignments != [] {
      var a, rest := assignments[0], assignments[1..];
      if !a.isServiceModule {
        PrepareFor(rest, owners);
      } else {
        var later := Services(rest);
        AllStartableCons(a, later);
        assert Services(assignments) == [a] + later;
        if Startable(a) {
          var slot := a.protocolPackage.value.packageId;
          PrepareFor(rest, owners[slot := a.assignmentId]);
          OwnersSplit(a, later, owners);
        }
      }
    }
  }

  lemma AllStartableCons(a: Assignment, later: seq<Assignment>)
    ensures AllStartable([a] + later) <==> Startable(a) && AllStartable(later)
  {
    assert forall x :: x in [a] + later <==> x == a || x in later;
  }

  lemma {:induction false} PrepareOrder(assignments: seq<Assignment>, owners: map<Slot, AssignmentId>)
    requires Prepare(assignments, owners).Some?
    ensures StagedInOrder(Services(assignments), Prepare(assignments, owners).value)
  {
    if assignments != [] {
      var a, rest := assignments[0], assignments[1..];
      if !a.isServiceModule {
        PrepareOrder(rest, owners);
      } else {
        PrepareOrder(rest, owners[a.protocolPackage.value.packageId := a.assignmentId]);
        assert Services(assignments) == [a] + Services(rest);
      }
    }
  }

  lemma OwnersSplit(a: Assignment, later: seq<Assignment>, owners: map<Slot, AssignmentId>)
    requires a.protocolPackage.Some?
    ensures var slot := a.protocolPackage.value.packageId;
      OneOwnerPerPackage([a] + later) && Respects([a] + later, owners) <==>
      OneOwnerPerPackage(later) && Respects(later, owners[slot := a.assignmentId])
      && (slot in owners ==> owners[slot] == a.assignmentId)
  {
    var all := [a] + later;
    assert forall x :: x in all <==> x == a || x in later;
    var slot := a.protocolPackage.value.packageId;
    if OneOwnerPerPackage(all) && Respects(all, owners) {
      forall b | b in later && b.protocolPackage.Some? && b.protocolPackage.value.packageId == slot
        ensures b.assignmentId == a.assignmentId
      {
        assert SharesPackage(a, b);
      }
    }
    if OneOwnerPerPackage(later) && Respects(later, owners[slot := a.assignmentId]) {
      forall b | b in later && (SharesPackage(a, b) || SharesPackage(b, a)) ensures b.assignmentId == a.assignmentId {
      }
    }
  }

  // ---- The tables after an apply ----

  /** A new module sits on the slot of this one. */
  ghost predicate Displaced(next: seq<NextModule>, m: Module) {
    exists n :: n in next && n.mod.slot == m.slot
  }

  /**
   Who drains after an apply: what was active and is no longer assigned, given a grace period, and what
   was draining already, except for the assignments named again and the modules a new one displaces.
   */
  lemma DrainingAfterApply(s: State, next: seq<NextModule>, id: AssignmentId)
    requires Inv(s) && !Apply(s, next).1
    ensures var after := Apply(s, next).0;
      && (id in after.draining <==>
            && id !in NextIds(next)
            && ((id in s.active && s.drainGraceMs > 0 && !Displaced(next, s.active[id]))
                || (id in s.draining && !Displaced(next, s.draining[id].mod))))
      && (id in after.draining && id in s.active ==> after.draining[id] == Draining(s.active[id], s.nextTimer))
      && (id in after.draining && id in s.draining ==> after.draining[id] == s.draining[id])
  {
    var drained := DrainUnassigned(s, next);
    var ready := EvictDraining(drained, next);
    ActivateAllTables(ready, next);
    if id in drained.draining && id !in NextIds(next) {
      assert id in Evicted(drained, next) <==> Displaced(next, drained.draining[id].mod);
    }
  }

  /** The tables after an apply that steals no slot: the new modules active, everything else draining or gone. */
  lemma ActiveAfterApply(s: State, next: seq<NextModule>, i: nat)
    requires Inv(s) && OneOwnerPerSlot(next) && ProperModules(next) && NoTheft(s, next) && DistinctIds(next)
    requires i < |next|
    ensures var after := Apply(s, next).0;
      && after.active.Keys == NextIds(next)
      && next[i].assignmentId in after.active && after.active[next[i].assignmentId] == next[i].mod
      && forall a :: a in next[i].mod.actions ==> Lookup(after.registry, next[i].mod.slot, a.name) == Some(a.hooks)
  {
    ApplySafe(s, next);
    LastActivated(EvictDraining(DrainUnassigned(s, next), next), next, i);
    assert next[i] in next;
    HeldFound(Apply(s, next).0, Assigned(next[i].assignmentId));
  }

  /** What a holder offers is found under its slot, with its own hooks. */
  lemma HeldFound(s: State, h: Holder)
    requires Inv(s) && h in HolderSet(s) && DistinctActions(ModuleAt(s, h).actions)
    ensures forall a :: a in ModuleAt(s, h).actions ==> Lookup(s.registry, ModuleAt(s, h).slot, a.name) == Some(a.hooks)
  {
    var m := ModuleAt(s, h);
    forall a | a in m.actions ensures Lookup(s.registry, m.slot, a.name) == Some(a.hooks) {
      HolderClaim(s, h);
      EntriesFacts(m.slot, m.actions);
      EntriesLookup(m.slot, m.actions, a.name);
      OneAction(m.actions, a, Action(a.name, Own(m)[Key(m.slot, a.name)]));
    }
  }

  lemma OneAction(actions: seq<Action>, a: Action, b: Action)
    requires DistinctActions(actions) && a in actions && b in actions && a.name == b.name
    ensures a == b
  {
  }

  /** Nothing is found on a slot that no module holds. */
  lemma UnheldSlot(s: State, slot: Slot)
    requires Inv(s) && forall h :: h in HolderSet(s) ==> ModuleAt(s, h).slot != slot
    ensures forall action :: Lookup(s.registry, slot, action) == None
  {
    FreeSlot(Holders(s), s.registry, slot);
  }

  // ---- Grace ----

  /** With a grace period a module that is no longer assigned and not displaced goes on answering after the apply. */
  lemma UnassignedKeepsAnswering(s: State, next: seq<NextModule>, id: AssignmentId)
    requires Inv(s) && OneOwnerPerSlot(next) && ProperModules(next) && NoTheft(s, next)
    requires id in s.active && id !in NextIds(next) && !Displaced(next, s.active[id]) && DistinctActions(s.active[id].actions)
    requires s.drainGraceMs > 0
    ensures var after := Apply(s, next).0;
      && id in after.draining && after.draining[id] == Draining(s.active[id], s.nextTimer)
      && forall a :: a in s.active[id].actions ==> Lookup(after.registry, s.active[id].slot, a.name) == Some(a.hooks)
  {
    ApplySafe(s, next);
    DrainingAfterApply(s, next, id);
    HeldFound(Apply(s, next).0, Assigned(id));
  }

  /** Without one it is gone at once. */
  lemma UnassignedGoneAtOnce(s: State, next: seq<NextModule>, id: AssignmentId)
    requires Inv(s) && OneOwnerPerSlot(next) && ProperModules(next) && NoTheft(s, next)
    requires id in s.active && id !in NextIds(next) && !Displaced(next, s.active[id])
    requires s.drainGraceMs <= 0
    ensures var after := Apply(s, next).0;
      && id !in after.active && id !in after.draining
      && forall action :: Lookup(after.registry, s.active[id].slot, action) == None
  {
    var after := Apply(s, next).0;
    ApplySafe(s, next);
    DrainingAfterApply(s, next, id);
    forall h | h in HolderSet(after) ensures ModuleAt(after, h).slot != s.active[id].slot {
      ElsewhereAfterApply(s, next, id, h);
    }
    UnheldSlot(after, s.active[id].slot);
  }

  lemma ElsewhereAfterApply(s: State, next: seq<NextModule>, id: AssignmentId, h: Holder)
    requires Inv(s) && OneOwnerPerSlot(next) && ProperModules(next) && NoTheft(s, next)
    requires id in s.active && id !in NextIds(next) && !Displaced(next, s.active[id]) && s.drainGraceMs <= 0
    requires h in HolderSet(Apply(s, next).0)
    ensures ModuleAt(Apply(s, next).0, h).slot != s.active[id].slot
  {
    var after := Apply(s, next).0;
    ApplySafe(s, next);
    PhasesSafe(s, next);
    ActivateAllTables(EvictDraining(DrainUnassigned(s, next), next), next);
    HolderClaim(s, Assigned(id));
    match h
    case Builtin(b) => HolderClaim(s, Builtin(b));
    case Assigned(other) =>
      if other in after.active {
        assert NextModule(other, after.active[other]) in next;
      } else {
        DrainingAfterApply(s, next, other);
        HolderClaim(s, Assigned(other));
      }
  }

  // ---- Until its own timer ----

  /** The event leaves this draining module alone: it is not its timer, and no apply names or displaces it. */
  ghost predicate Spares(event: Event, id: AssignmentId, draining: Draining) {
    match event
    case DrainTimerEvent(other, timer) => !(other == id && timer == draining.timer)
    case ApplyEvent(assignments) =>
      var next := Prepare(assignments, map[]);
      next.Some? ==> id !in NextIds(next.value) && !Displaced(next.value, draining.mod)
  }

  /**
   A draining module goes on answering, with its own hooks, through any run that steals no slot until
   its own timer fires or an apply names its assignment again or displaces it.
   */
  lemma {:induction false} DrainingKeepsAnswering(s: State, events: seq<Event>, id: AssignmentId)
    requires Inv(s) && HonestRun(s, events)
    requires id in s.draining && DistinctActions(s.draining[id].mod.actions)
    requires forall event :: event in events ==> Spares(event, id, s.draining[id])
    ensures var later, draining := Run(s, events), s.draining[id];
      && id in later.draining && later.draining[id] == draining
      && forall a :: a in draining.mod.actions ==> Lookup(later.registry, draining.mod.slot, a.name) == Some(a.hooks)
    decreases |events|
  {
    if events == [] {
      HeldFound(s, Assigned(id));
    } else {
      assert Spares(events[0], id, s.draining[id]);
      SparedStep(s, events[0], id);
      DrainingKeepsAnswering(Step(s, events[0]), events[1..], id);
    }
  }

  lemma SparedStep(s: State, event: Event, id: AssignmentId)
    requires Inv(s) && HonestRun(s, [event]) && id in s.draining && Spares(event, id, s.draining[id])
    ensures var after := Step(s, event);
      Inv(after) && id in after.draining && after.draining[id] == s.draining[id]
  {
    match event
    case DrainTimerEvent(other, timer) => DrainTimerHarmless(s, other, timer);
    case ApplyEvent(assignments) =>
      var next := Prepare(assignments, map[]);
      if next.Some? {
        PrepareOwners(assignments, map[]);
        ApplySafe(s, next.value);
        DrainingAfterApply(s, next.value, id);
      }
  }

  /** The timer a module drains on ends it: nothing is found on its slot any more, and nothing else changes. */
  lemma TimerEndsDraining(s: State, id: AssignmentId, timer: nat)
    requires Inv(s) && id in s.draining && s.draining[id].timer == timer
    ensures var after, slot := FireDrainTimer(s, id, timer), s.draining[id].mod.slot;
      && after.active == s.active && after.draining.Keys == s.draining.Keys - {id}
      && (forall other :: other in after.draining ==> after.draining[other] == s.draining[other])
      && (forall action :: Lookup(after.registry, slot, action) == None)
      && (forall other, action :: other != slot ==> Lookup(after.registry, other, action) == Lookup(s.registry, other, action))
  {
  }

  // ---- Timers of the past ----

  /** What drains under this id, if anything, started no earlier than timer `k`. */
  ghost predicate StartedSince(s: State, id: AssignmentId, k: nat) {
    k <= s.nextTimer && (id in s.draining ==> s.draining[id].timer >= k)
  }

  lemma {:induction false} ActivateAllKeepsTimers(s: State, next: seq<NextModule>)
    ensures var after := ActivateAll(s, next).0;
      && after.nextTimer == s.nextTimer
      && forall id :: id in after.draining ==> id in s.draining && after.draining[id] == s.draining[id]
  {
    if next != [] {
      ActivateAllKeepsTimers(s, next[..|next| - 1]);
    }
  }

  lemma StartedSinceStep(s: State, event: Event, id: AssignmentId, k: nat)
    requires StartedSince(s, id, k)
    ensures StartedSince(Step(s, event), id, k)
  {
    if event.ApplyEvent? && Prepare(event.assignments, map[]).Some? {
      var next := Prepare(event.assignments, map[]).value;
      ActivateAllKeepsTimers(EvictDraining(DrainUnassigned(s, next), next), next);
    }
  }

  /**
   A timer started before a module began draining never ends that draining, whatever happens in between
   and even when applying throws.
   */
  lemma {:induction false} StaleTimerNeverBites(s: State, events: seq<Event>, id: AssignmentId, k: nat, stale: nat)
    requires StartedSince(s, id, k) && stale < k
    ensures StartedSince(Run(s, events), id, k)
    ensures FireDrainTimer(Run(s, events), id, stale) == Run(s, events)
    decreases |events|
  {
    if events != [] {
      StartedSinceStep(s, events[0], id, k);
      StaleTimerNeverBites(Step(s, events[0]), events[1..], id, k, stale);
    }
  }

  /** An apply moves on to a timer of its own whenever it starts one, so all timers started before it are stale to what it drains. */
  lemma ApplyStartsAfresh(s: State, next: seq<NextModule>, id: AssignmentId)
    requires id in s.active && id !in s.draining && s.drainGraceMs > 0
    ensures var after := Apply(s, next).0;
      StartedSince(after, id, s.nextTimer) && after.nextTimer > s.nextTimer
  {
    ActivateAllKeepsTimers(EvictDraining(DrainUnassigned(s, next), next), next);
  }
}
