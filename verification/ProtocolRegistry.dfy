/** The server's protocol registry (src/runtime/protocol/registry.ts). */
module ProtocolRegistry {
  import opened Prelude

  /** A protocol at a version; registry keys are kept as tuples rather than joined with ':'. */
  datatype Slot = Slot(protocol: string, version: string)
  datatype Key = Key(slot: Slot, action: string)
  datatype Action = Action(name: string, hooks: int)
  datatype Module = Module(slot: Slot, actions: seq<Action>)

  type Actions = map<Key, int>

  /** The action names of a module object are distinct. */
  ghost predicate DistinctActions(actions: seq<Action>) {
    forall i, j :: 0 <= i < j < |actions| ==> actions[i].name != actions[j].name
  }

  function Entries(slot: Slot, actions: seq<Action>): Actions {
    if actions == [] then map[]
    else
      var last := actions[|actions| - 1];
      Entries(slot, actions[..|actions| - 1])[Key(slot, last.name) := last.hooks]
  }

  function Own(m: Module): Actions {
    Entries(m.slot, m.actions)
  }

  function Unregistered(registry: Actions, slot: Slot): Actions {
    map k | k in registry && k.slot != slot :: registry[k]
  }

  /** Unregistering a whole set of slots, in whatever order. */
  function Cleared(registry: Actions, slots: set<Slot>): Actions {
    map k | k in registry && k.slot !in slots :: registry[k]
  }

  function Replaced(registry: Actions, m: Module): Actions {
    Unregistered(registry, m.slot) + Own(m)
  }

  /** Registers action by action and stops, throwing, at the first one already taken. */
  function RegisterAll(registry: Actions, slot: Slot, actions: seq<Action>): (Actions, bool) {
    if actions == [] then (registry, false)
    else
      var (before, threw) := RegisterAll(registry, slot, actions[..|actions| - 1]);
      var last := actions[|actions| - 1];
      if threw then (before, true)
      else if Key(slot, last.name) in before then (before, true)
      else (before[Key(slot, last.name) := last.hooks], false)
  }

  function Registered(registry: Actions, m: Module): (Actions, bool) {
    RegisterAll(registry, m.slot, m.actions)
  }

  /** The hooks of an action; None where `get` throws. */
  function Lookup(registry: Actions, slot: Slot, action: string): Option<int> {
    if Key(slot, action) in registry then Some(registry[Key(slot, action)]) else None
  }

  class ServerProtocolRegistry {
    var actions: Actions

    constructor ()
      ensures actions == map[]
    {
      actions := map[];
    }

    method Register(m: Module) returns (threw: bool)
      modifies this
      ensures (actions, threw) == Registered(old(actions), m)
    {
      for i := 0 to |m.actions|
        invariant (actions, false) == RegisterAll(old(actions), m.slot, m.actions[..i])
      {
        var key := Key(m.slot, m.actions[i].name);
        assert m.actions[..i + 1][..i] == m.actions[..i];
        if key in actions {
          RegisterAllStops(old(actions), m.slot, m.actions, i + 1);
          return true;
        }
        actions := actions[key := m.actions[i].hooks];
      }
      assert m.actions[..|m.actions|] == m.actions;
      return false;
    }

    method Replace(m: Module)
      modifies this
      ensures actions == Replaced(old(actions), m)
    {
      Unregister(m.slot);
      ghost var cleared := actions;
      for i := 0 to |m.actions|
        invariant actions == cleared + Entries(m.slot, m.actions[..i])
      {
        assert m.actions[..i + 1][..i] == m.actions[..i];
        actions := actions[Key(m.slot, m.actions[i].name) := m.actions[i].hooks];
      }
      assert m.actions[..|m.actions|] == m.actions;
    }

    method Unregister(slot: Slot)
      modifies this
      ensures actions == Unregistered(old(actions), slot)
    {
      var pending := actions.Keys;
      while pending != {}
        invariant pending <= actions.Keys <= old(actions).Keys
        invariant forall k :: k in actions ==> actions[k] == old(actions)[k]
        invariant forall k :: k in old(actions) && k !in pending ==> (k in actions <==> k.slot != slot)
        decreases pending
      {
        var key :| key in pending;
        pending := pending - {key};
        if key.slot == slot {
          actions := actions - {key};
        }
      }
    }

    method Get(slot: Slot, action: string) returns (hooks: Option<int>)
      ensures hooks == Lookup(actions, slot, action)
    {
      if Key(slot, action) in actions {
        return Some(actions[Key(slot, action)]);
      }
      return None;
    }
  }

  lemma {:induction false} RegisterAllStops(registry: Actions, slot: Slot, actions: seq<Action>, i: nat)
    requires i <= |actions| && RegisterAll(registry, slot, actions[..i]).1
    ensures RegisterAll(registry, slot, actions) == RegisterAll(registry, slot, actions[..i])
    decreases |actions|
  {
    if i == |actions| {
      assert actions[..i] == actions;
    } else {
      var init := actions[..|actions| - 1];
      assert init[..i] == actions[..i];
      RegisterAllStops(registry, slot, init, i);
    }
  }

  lemma {:induction false} EntriesFacts(slot: Slot, actions: seq<Action>)
    ensures forall k :: k in Entries(slot, actions) ==> k.slot == slot
    ensures forall k :: k in Entries(slot, actions) <==> k.slot == slot && exists a :: a in actions && a.name == k.action
  {
    if actions != [] {
      var init, last := actions[..|actions| - 1], actions[|actions| - 1];
      EntriesFacts(slot, init);
      assert forall a :: a in actions <==> a in init || a == last;
    }
  }

  /** What a module contributes under an action name is what the module object holds there. */
  lemma {:induction false} EntriesLookup(slot: Slot, actions: seq<Action>, name: string)
    requires DistinctActions(actions)
    ensures match Lookup(Entries(slot, actions), slot, name)
      case None => forall a :: a in actions ==> a.name != name
      case Some(hooks) => Action(name, hooks) in actions
  {
    if actions != [] {
      var init, last := actions[..|actions| - 1], actions[|actions| - 1];
      EntriesLookup(slot, init, name);
      assert forall a :: a in actions <==> a in init || a == last;
    }
  }

  /** Registering where the slot is free simply adds the module's actions. */
  lemma {:induction false} RegisterFree(registry: Actions, slot: Slot, actions: seq<Action>)
    requires DistinctActions(actions) && forall k :: k in registry ==> k.slot != slot
    ensures RegisterAll(registry, slot, actions) == (registry + Entries(slot, actions), false)
  {
    if actions != [] {
      var init, last := actions[..|actions| - 1], actions[|actions| - 1];
      RegisterFree(registry, slot, init);
      EntriesFacts(slot, init);
      var key := Key(slot, last.name);
      assert key !in Entries(slot, init) && key !in registry;
      OverrideThenPut(registry, Entries(slot, init), key, last.hooks);
    } else {
      assert registry + map[] == registry;
    }
  }

  /** Registering over a taken action throws. */
  lemma {:induction false} RegisterTaken(registry: Actions, slot: Slot, actions: seq<Action>)
    requires exists a :: a in actions && Key(slot, a.name) in registry
    ensures RegisterAll(registry, slot, actions).1
  {
    var init, last := actions[..|actions| - 1], actions[|actions| - 1];
    assert forall a :: a in actions <==> a in init || a == last;
    if exists a :: a in init && Key(slot, a.name) in registry {
      RegisterTaken(registry, slot, init);
    } else {
      RegisterGrows(registry, slot, init);
    }
  }

  /** Registering removes nothing and adds keys of its own slot only. */
  lemma {:induction false} RegisterGrows(registry: Actions, slot: Slot, actions: seq<Action>)
    ensures var after := RegisterAll(registry, slot, actions).0;
      && (forall k :: k in registry ==> k in after && after[k] == registry[k])
      && (forall k :: k in after && k !in registry ==> k.slot == slot)
  {
    if actions != [] { RegisterGrows(registry, slot, actions[..|actions| - 1]); }
  }
}
