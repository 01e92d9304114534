/**
 The service-module lifecycle (src/runtime/control/service-module-manager.ts): preparing and
 applying assignments, draining what is no longer assigned, and drain timers that may fire late.
 */
module ServiceModules {
  import opened Prelude
  import opened ProtocolRegistry

  type AssignmentId = string

  // ---- Preparing ----

  datatype ProtocolPackage = ProtocolPackage(packageId: Slot, slot: Slot, actions: seq<string>, digestValid: bool)

  datatype Assignment = Assignment(
    assignmentId: AssignmentId, isServiceModule: bool, protocolPackage: Option<ProtocolPackage>, staged: Option<Module>)

  datatype NextModule = NextModule(assignmentId: AssignmentId, mod: Module)

  function ActionNames(m: Module): multiset<string> {
    multiset(seq(|m.actions|, i requires 0 <= i < |m.actions| => m.actions[i].name))
  }

  /** The staged module is the package the assignment is bound to: its identity, digest and action set. */
  predicate BoundPackageValid(p: ProtocolPackage, m: Module) {
    && p.packageId == p.slot && p.digestValid
    && m.slot == p.slot
    && multiset(p.actions) == ActionNames(m)
  }

  /** The modules to run, or None when staging, validation or a conflict makes preparation throw. */
  function Prepare(assignments: seq<Assignment>, owners: map<Slot, AssignmentId>): Option<seq<NextModule>> {
    if assignments == [] then Some([])
    else
      var a := assignments[0];
      if !a.isServiceModule then Prepare(assignments[1..], owners)
      else if a.protocolPackage.None? || a.staged.None? then None
      else if !BoundPackageValid(a.protocolPackage.value, a.staged.value) then None
      else
        var slot := a.protocolPackage.value.packageId;
        if slot in owners && owners[slot] != a.assignmentId then None
        else
          match Prepare(assignments[1..], owners[slot := a.assignmentId])
          case None => None
          case Some(rest) => Some([NextModule(a.assignmentId, a.staged.value)] + rest)
  }

  // ---- State ----

  /** A drain timer is told apart by the apply call that started it. */
  datatype Draining = Draining(mod: Module, timer: nat)

  datatype State = State(
    builtins: map<nat, Module>,
    active: map<AssignmentId, Module>,
    draining: map<AssignmentId, Draining>,
    registry: Actions,
    nextTimer: nat,
    drainGraceMs: int)

  function NextIds(next: seq<NextModule>): (ids: set<AssignmentId>)
    ensures forall id :: id in ids <==> exists n :: n in next && n.assignmentId == id
  {
    set n | n in next :: n.assignmentId
  }

  function Unassigned(s: State, next: seq<NextModule>): set<AssignmentId> {
    s.active.Keys - NextIds(next)
  }

  function ActiveSlots(s: State, gone: set<AssignmentId>): set<Slot>
    requires gone <= s.active.Keys
  {
    set id | id in gone :: s.active[id].slot
  }

  function NewDrainings(s: State, gone: set<AssignmentId>): map<AssignmentId, Draining>
    requires gone <= s.active.Keys
  {
    map id | id in gone :: Draining(s.active[id], s.nextTimer)
  }

  function DrainAll(s: State, gone: set<AssignmentId>): State
    requires gone <= s.active.Keys
  {
    if s.drainGraceMs <= 0 then
      s.(active := s.active - gone, registry := Cleared(s.registry, ActiveSlots(s, gone)))
    else
      s.(active := s.active - gone, draining := s.draining + NewDrainings(s, gone))
  }

  function BeginDraining(s: State, id: AssignmentId): State
    requires id in s.active
  {
    var left := s.(active := s.active - {id});
    if s.drainGraceMs <= 0 then left.(registry := Unregistered(s.registry, s.active[id].slot))
    else left.(draining := s.draining[id := Draining(s.active[id], s.nextTimer)])
  }

  /** Active modules that are no longer assigned start draining, or are dropped at once without a grace period. */
  function DrainUnassigned(s: State, next: seq<NextModule>): State {
    var drained := DrainAll(s, Unassigned(s, next));
    if s.drainGraceMs <= 0 then drained else drained.(nextTimer := s.nextTimer + 1)
  }

  /** A draining module of another assignment makes way for a new module on its slot. */
  function Evicted(s: State, next: seq<NextModule>): set<AssignmentId> {
    set id | id in s.draining && exists n :: n in next && n.assignmentId != id && n.mod.slot == s.draining[id].mod.slot
  }

  function EvictDraining(s: State, next: seq<NextModule>): State {
    var evicted := Evicted(s, next);
    s.(draining := s.draining - evicted,
       registry := Cleared(s.registry, set id | id in evicted :: s.draining[id].mod.slot))
  }

  function UnregisterIf(registry: Actions, held: Option<Module>): Actions {
    if held.Some? then Unregistered(registry, held.value.slot) else registry
  }

  /** Activates one module; the flag tells whether registering it throws. */
  function Activate(s: State, n: NextModule): (State, bool) {
    var current := if n.assignmentId in s.active then Some(s.active[n.assignmentId]) else None;
    var drained := if n.assignmentId in s.draining then Some(s.draining[n.assignmentId].mod) else None;
    var cancelled := s.(draining := s.draining - {n.assignmentId});
    if (current.Some? && current.value.slot == n.mod.slot) || (drained.Some? && drained.value.slot == n.mod.slot) then
      (cancelled.(registry := Replaced(s.registry, n.mod), active := s.active[n.assignmentId := n.mod]), false)
    else
      var freed := UnregisterIf(UnregisterIf(s.registry, current), drained);
      var (registered, threw) := Registered(freed, n.mod);
      if threw then (cancelled.(registry := registered), true)
      else (cancelled.(registry := registered, active := s.active[n.assignmentId := n.mod]), false)
  }

  function ActivateAll(s: State, next: seq<NextModule>): (State, bool) {
    if next == [] then (s, false)
    else
      var (before, threw) := ActivateAll(s, next[..|next| - 1]);
      if threw then (before, true) else Activate(before, next[|next| - 1])
  }

  function Apply(s: State, next: seq<NextModule>): (State, bool) {
    ActivateAll(EvictDraining(DrainUnassigned(s, next), next), next)
  }

  function ApplyAssignments(s: State, assignments: seq<Assignment>): (State, bool) {
    match Prepare(assignments, map[])
    case None => (s, true)
    case Some(next) => Apply(s, next)
  }

  /** A drain timer's callback, for any timer ever started: stale ones find another timer in their place. */
  function FireDrainTimer(s: State, id: AssignmentId, timer: nat): State {
    if id !in s.draining || s.draining[id].timer != timer then s
    else
      s.(registry := Unregistered(s.registry, s.draining[id].mod.slot), draining := s.draining - {id})
  }

  // ---- Who owns what ----

  datatype Holder = Builtin(index: nat) | Assigned(id: AssignmentId)

  /** What a module that should be reachable contributes to the registry. */
  datatype Claim = Claim(slot: Slot, actions: Actions)

  ghost function ClaimOf(m: Module): Claim {
    Claim(m.slot, Own(m))
  }

  /** Every module that should be reachable: built in, active, or draining. */
  ghost function HolderSet(s: State): set<Holder> {
    (set i | i in s.builtins :: Builtin(i)) + (set id | id in s.active.Keys + s.draining.Keys :: Assigned(id))
  }

  ghost function ModuleAt(s: State, h: Holder): Module
    requires h in HolderSet(s)
  {
    match h
    case Builtin(i) => s.builtins[i]
    case Assigned(id) => if id in s.active then s.active[id] else s.draining[id].mod
  }

  ghost function Holders(s: State): map<Holder, Claim> {
    map h | h in HolderSet(s) :: ClaimOf(ModuleAt(s, h))
  }

  lemma HolderClaim(s: State, h: Holder)
    requires h in HolderSet(s)
    ensures h in Holders(s) && Holders(s)[h] == ClaimOf(ModuleAt(s, h))
  {
  }

  ghost predicate Consistent(holders: map<Holder, Claim>) {
    && (forall a, b :: a in holders && b in holders && holders[a].slot == holders[b].slot ==> a == b)
    && (forall h, k :: h in holders && k in holders[h].actions ==> k.slot == holders[h].slot)
  }

  /** Every claimed action is registered, for its holder. */
  ghost predicate Served(holders: map<Holder, Claim>, registry: Actions) {
    forall h, k :: h in holders && k in holders[h].actions ==> k in registry && registry[k] == holders[h].actions[k]
  }

  /** Every registered action is claimed. */
  ghost predicate Claimed(holders: map<Holder, Claim>, registry: Actions) {
    forall k :: k in registry ==> exists h :: h in holders && k in holders[h].actions
  }

  /** The registry holds exactly the claimed actions. */
  ghost predicate Exact(holders: map<Holder, Claim>, registry: Actions) {
    Served(holders, registry) && Claimed(holders, registry)
  }

  ghost predicate Inv(s: State) {
    && s.active.Keys !! s.draining.Keys
    && Consistent(Holders(s))
    && Exact(Holders(s), s.registry)
  }

  // ---- The state a manager starts from ----

  /** The built-in modules registered one after the other at start-up; None when one of them clashes. */
  function RegisterBuiltins(modules: seq<Module>): Option<Actions> {
    if modules == [] then Some(map[])
    else
      match RegisterBuiltins(modules[..|modules| - 1])
      case None => None
      case Some(registry) =>
        var (after, threw) := Registered(registry, modules[|modules| - 1]);
        if threw then None else Some(after)
  }

  ghost function Indexed(modules: seq<Module>): map<nat, Module> {
    map i: nat | i < |modules| :: modules[i]
  }

  ghost predicate DistinctSlots(modules: seq<Module>) {
    forall i, j :: 0 <= i < j < |modules| ==> modules[i].slot != modules[j].slot
  }

  ghost function StartState(modules: seq<Module>, registry: Actions, drainGraceMs: int): State {
    State(Indexed(modules), map[], map[], registry, 0, drainGraceMs)
  }

  /** Built-ins on pairwise distinct slots register without a clash, and a manager over them starts in step. */
  lemma {:induction false} StartInv(modules: seq<Module>, drainGraceMs: int)
    requires DistinctSlots(modules) && forall m :: m in modules ==> DistinctActions(m.actions)
    ensures RegisterBuiltins(modules).Some?
    ensures Inv(StartState(modules, RegisterBuiltins(modules).value, drainGraceMs))
  {
    if modules == [] {
      assert HolderSet(StartState(modules, map[], drainGraceMs)) == {};
    } else {
      var n := |modules| - 1;
      var init, last := modules[..n], modules[n];
      assert last in modules && forall m :: m in init ==> m in modules;
      StartInv(init, drainGraceMs);
      var registry := RegisterBuiltins(init).value;
      var before, after := StartState(init, registry, drainGraceMs), StartState(modules, registry + Own(last), drainGraceMs);
      forall h | h in HolderSet(before) ensures h.Builtin? && h.index < n && Holders(before)[h].slot != last.slot {
        assert ModuleAt(before, h) == modules[h.index];
      }
      EntriesFacts(last.slot, last.actions);
      FreeSlot(Holders(before), registry, last.slot);
      RegisterFree(registry, last.slot, last.actions);
      AddClaimed(Holders(before), registry, Builtin(n), ClaimOf(last));
      AddServed(Holders(before), registry, Builtin(n), ClaimOf(last));
      StartHolders(modules, before, after);
    }
  }

  lemma StartHolders(modules: seq<Module>, before: State, after: State)
    requires modules != [] && before.active == map[] == after.active && before.draining == map[] == after.draining
    requires before.builtins == Indexed(modules[..|modules| - 1]) && after.builtins == Indexed(modules)
    ensures Holders(after) == Holders(before)[Builtin(|modules| - 1) := ClaimOf(modules[|modules| - 1])]
  {
    var n := |modules| - 1;
    assert HolderSet(after) == HolderSet(before) + {Builtin(n)};
    forall h | h in HolderSet(before) ensures ModuleAt(after, h) == ModuleAt(before, h) {
    }
  }

  ghost function SlotsOf(holders: map<Holder, Claim>, dropped: set<Holder>): set<Slot>
    requires dropped <= holders.Keys
  {
    set h | h in dropped :: holders[h].slot
  }

  /** Removing holders together with everything on their slots. */
  lemma DropClaimed(holders: map<Holder, Claim>, registry: Actions, dropped: set<Holder>)
    requires Consistent(holders) && Claimed(holders, registry) && dropped <= holders.Keys
    ensures Claimed(holders - dropped, Cleared(registry, SlotsOf(holders, dropped)))
  {
    var rest, after := holders - dropped, Cleared(registry, SlotsOf(holders, dropped));
    forall k | k in after ensures exists g :: g in rest && k in rest[g].actions {
      var g :| g in holders && k in holders[g].actions;
      assert g !in dropped;
      assert g in rest;
    }
  }

  lemma DropServed(holders: map<Holder, Claim>, registry: Actions, dropped: set<Holder>)
    requires Consistent(holders) && Served(holders, registry) && dropped <= holders.Keys
    ensures Served(holders - dropped, Cleared(registry, SlotsOf(holders, dropped))) && Consistent(holders - dropped)
  {
    var rest, after := holders - dropped, Cleared(registry, SlotsOf(holders, dropped));
    forall h, k | h in rest && k in rest[h].actions ensures k in after && after[k] == rest[h].actions[k] {
      assert k.slot == holders[h].slot;
    }
  }

  /** Adding a holder on a free slot. */
  lemma AddClaimed(holders: map<Holder, Claim>, registry: Actions, h: Holder, c: Claim)
    requires Claimed(holders, registry) && h !in holders
    ensures Claimed(holders[h := c], registry + c.actions)
  {
    var more, after := holders[h := c], registry + c.actions;
    forall k | k in after ensures exists g :: g in more && k in more[g].actions {
      if k in c.actions {
        assert k in more[h].actions;
      } else {
        var g :| g in holders && k in holders[g].actions;
        assert k in more[g].actions;
      }
    }
  }

  lemma AddServed(holders: map<Holder, Claim>, registry: Actions, h: Holder, c: Claim)
    requires Consistent(holders) && Served(holders, registry) && h !in holders
    requires forall k :: k in c.actions ==> k.slot == c.slot
    requires forall g :: g in holders ==> holders[g].slot != c.slot
    ensures Served(holders[h := c], registry + c.actions) && Consistent(holders[h := c])
  {
  }

  lemma FreeSlot(holders: map<Holder, Claim>, registry: Actions, slot: Slot)
    requires Consistent(holders) && Claimed(holders, registry)
    requires forall g :: g in holders ==> holders[g].slot != slot
    ensures forall k :: k in registry ==> k.slot != slot
  {
    forall k | k in registry ensures k.slot != slot {
      var g :| g in holders && k in holders[g].actions;
    }
  }

  // ---- One activation ----

  /** Nobody but the assignment itself holds the module's slot. */
  ghost predicate Free(s: State, n: NextModule) {
    forall h :: h in Holders(s) && h != Assigned(n.assignmentId) ==> Holders(s)[h].slot != n.mod.slot
  }

  /** Taking out one holder, if it is there at all. */
  lemma FreedExact(holders: map<Holder, Claim>, registry: Actions, h: Holder)
    requires Consistent(holders) && Exact(holders, registry)
    ensures var freed := if h in holders then Unregistered(registry, holders[h].slot) else registry;
      Exact(holders - {h}, freed) && Consistent(holders - {h})
  {
    if h in holders {
      DropClaimed(holders, registry, {h});
      DropServed(holders, registry, {h});
      assert SlotsOf(holders, {h}) == {holders[h].slot};
      UnregisteredIsCleared(registry, holders[h].slot);
    } else {
      assert holders - {h} == holders;
    }
  }

  lemma UnregisteredIsCleared(registry: Actions, slot: Slot)
    ensures Unregistered(registry, slot) == Cleared(registry, {slot})
  {
  }

  lemma PutExact(holders: map<Holder, Claim>, registry: Actions, h: Holder, c: Claim)
    requires Consistent(holders) && Exact(holders, registry)
    requires forall k :: k in c.actions ==> k.slot == c.slot
    requires forall g :: g in holders && g != h ==> holders[g].slot != c.slot
    ensures var freed := if h in holders then Unregistered(registry, holders[h].slot) else registry;
      && (forall k :: k in freed ==> k.slot != c.slot)
      && Exact(holders[h := c], freed + c.actions) && Consistent(holders[h := c])
  {
    var freed := if h in holders then Unregistered(registry, holders[h].slot) else registry;
    var rest := holders - {h};
    FreedExact(holders, registry, h);
    FreeSlot(rest, freed, c.slot);
    AddClaimed(rest, freed, h, c);
    AddServed(rest, freed, h, c);
    assert rest[h := c] == holders[h := c];
  }

  /** Activating a module whose slot is free never throws and puts exactly that module in place. */
  lemma ActivateStep(s: State, n: NextModule)
    requires Inv(s) && DistinctActions(n.mod.actions) && Free(s, n)
    ensures var (after, threw) := Activate(s, n);
      && !threw && Inv(after)
      && Holders(after) == Holders(s)[Assigned(n.assignmentId) := ClaimOf(n.mod)]
      && after.active == s.active[n.assignmentId := n.mod] && after.draining == s.draining - {n.assignmentId}
  {
    var h, holders := Assigned(n.assignmentId), Holders(s);
    EntriesFacts(n.mod.slot, n.mod.actions);
    PutExact(holders, s.registry, h, ClaimOf(n.mod));
    var freed := if h in holders then Unregistered(s.registry, holders[h].slot) else s.registry;
    RegisterFree(freed, n.mod.slot, n.mod.actions);
    ActivateRegistry(s, n, freed);
    ActivateHolders(s, n, Activate(s, n).0);
  }

  lemma ActivateHolders(s: State, n: NextModule, after: State)
    requires s.active.Keys !! s.draining.Keys && after.builtins == s.builtins
    requires after.active == s.active[n.assignmentId := n.mod] && after.draining == s.draining - {n.assignmentId}
    ensures Holders(after) == Holders(s)[Assigned(n.assignmentId) := ClaimOf(n.mod)]
    ensures after.active.Keys !! after.draining.Keys
  {
    var h := Assigned(n.assignmentId);
    assert HolderSet(after) == HolderSet(s) + {h};
    forall g | g in HolderSet(after) && g != h ensures ModuleAt(after, g) == ModuleAt(s, g) {
    }
  }

  lemma ActivateRegistry(s: State, n: NextModule, freed: Actions)
    requires s.active.Keys !! s.draining.Keys
    requires freed == if Assigned(n.assignmentId) in Holders(s)
                      then Unregistered(s.registry, Holders(s)[Assigned(n.assignmentId)].slot) else s.registry
    requires Registered(freed, n.mod) == (freed + Own(n.mod), false)
    ensures var (after, threw) := Activate(s, n);
      && !threw && after.registry == freed + Own(n.mod) && after.builtins == s.builtins
      && after.active == s.active[n.assignmentId := n.mod] && after.draining == s.draining - {n.assignmentId}
  {
    var h := Assigned(n.assignmentId);
    if h in HolderSet(s) { HolderClaim(s, h); }
    if n.assignmentId in s.active {
      ActivateActive(s, n);
    } else if n.assignmentId in s.draining {
      ActivateDraining(s, n);
    } else {
      ActivateNew(s, n);
    }
  }

  /** Reactivating an active module: replaced in place, or moved off its old slot. */
  lemma ActivateActive(s: State, n: NextModule)
    requires n.assignmentId in s.active && n.assignmentId !in s.draining
    requires var freed := Unregistered(s.registry, s.active[n.assignmentId].slot);
      Registered(freed, n.mod) == (freed + Own(n.mod), false)
    ensures var freed := Unregistered(s.registry, s.active[n.assignmentId].slot);
      Activate(s, n) == (s.(draining := s.draining - {n.assignmentId}, active := s.active[n.assignmentId := n.mod],
                            registry := freed + Own(n.mod)), false)
  {
  }

  lemma ActivateDraining(s: State, n: NextModule)
    requires n.assignmentId !in s.active && n.assignmentId in s.draining
    requires var freed := Unregistered(s.registry, s.draining[n.assignmentId].mod.slot);
      Registered(freed, n.mod) == (freed + Own(n.mod), false)
    ensures var freed := Unregistered(s.registry, s.draining[n.assignmentId].mod.slot);
      Activate(s, n) == (s.(draining := s.draining - {n.assignmentId}, active := s.active[n.assignmentId := n.mod],
                            registry := freed + Own(n.mod)), false)
  {
  }

  lemma ActivateNew(s: State, n: NextModule)
    requires n.assignmentId !in s.active && n.assignmentId !in s.draining
    requires Registered(s.registry, n.mod) == (s.registry + Own(n.mod), false)
    ensures Activate(s, n) == (s.(draining := s.draining - {n.assignmentId}, active := s.active[n.assignmentId := n.mod],
                                  registry := s.registry + Own(n.mod)), false)
  {
  }
}
