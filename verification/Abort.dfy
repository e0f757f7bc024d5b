// The in-process registry of abort controllers (lib/abort.ts).
//
// A controller is an object the registry creates; all the code ever does with
// one is compare its identity and trip its signal.  It is therefore a number
// handed out by a counter, with the tripped ones kept in a set.
module Abort {
  import opened Wrappers

  type TaskId = string
  type Controller = nat

  // What one task's operations can see and change.
  datatype Slot = Slot(
    occupant: Option<Controller>,
    deleting: bool,
    aborted: set<Controller>,
    next: Controller)

  function Claim(s: Slot): (Slot, Option<Controller>) {
    if s.deleting || s.occupant.Some? then (s, None)
    else (s.(occupant := Some(s.next), next := s.next + 1), Some(s.next))
  }

  function Handoff(s: Slot, prev: Controller): (Slot, Option<Controller>) {
    if s.deleting || s.occupant != Some(prev) then (s, None)
    else (s.(occupant := Some(s.next), next := s.next + 1), Some(s.next))
  }

  function Unregister(s: Slot, c: Controller): Slot {
    if s.occupant == Some(c) then s.(occupant := None) else s
  }

  function AbortOccupant(s: Slot): Slot {
    if s.occupant.None? then s
    else s.(occupant := None, aborted := s.aborted + {s.occupant.value})
  }

  function BeginDeletion(s: Slot): Slot {
    if s.deleting then s
    else if s.occupant.None? then s.(deleting := true)
    else s.(deleting := true, aborted := s.aborted + {s.occupant.value})
  }

  function EndDeletion(s: Slot): Slot {
    s.(deleting := false)
  }

  // The two process-wide tables, changed in place.
  class AbortRegistry {
    var registry: map<TaskId, Controller>
    var deletingTasks: set<TaskId>
    var tripped: set<Controller>
    var issued: Controller

    // Identities are fresh, and no controller occupies two tasks' slots.
    ghost predicate Valid()
      reads this
    {
      && (forall t :: t in registry ==> registry[t] < issued)
      && (forall c :: c in tripped ==> c < issued)
      && (forall t, u :: t in registry && u in registry && registry[t] == registry[u] ==> t == u)
    }

    function View(t: TaskId): Slot
      reads this
    {
      Slot(if t in registry then Some(registry[t]) else None, t in deletingTasks, tripped, issued)
    }

    // Nothing another task can see about its own slot has changed.
    twostate predicate OthersUntouched(t: TaskId)
      reads this
    {
      forall u :: u != t ==>
        && View(u).occupant == old(View(u)).occupant
        && View(u).deleting == old(View(u)).deleting
        && (old(View(u)).occupant.Some? ==>
              (View(u).occupant.value in tripped <==> old(View(u)).occupant.value in old(tripped)))
    }

    constructor ()
      ensures Valid()
      ensures forall t :: View(t) == Slot(None, false, {}, 0)
    {
      registry, deletingTasks, tripped, issued := map[], {}, {}, 0;
    }

    method ClaimTurn(t: TaskId) returns (c: Option<Controller>)
      requires Valid()
      modifies this
      ensures Valid() && OthersUntouched(t)
      ensures (View(t), c) == Claim(old(View(t)))
      ensures c.Some? ==> c.value !in old(tripped) && forall u :: old(View(u)).occupant != c
    {
      if t in deletingTasks { return None; }
      if t in registry { return None; }
      var controller := issued;
      issued := issued + 1;
      registry := registry[t := controller];
      c := Some(controller);
    }

    method HandoffTurn(t: TaskId, prev: Controller) returns (c: Option<Controller>)
      requires Valid()
      modifies this
      ensures Valid() && OthersUntouched(t)
      ensures (View(t), c) == Handoff(old(View(t)), prev)
      ensures c.Some? ==> old(View(t)).occupant == Some(prev) && View(t).occupant == c
    {
      if t in deletingTasks { return None; }
      if t !in registry || registry[t] != prev { return None; }
      var controller := issued;
      issued := issued + 1;
      registry := registry[t := controller];
      c := Some(controller);
    }

    method UnregisterTurn(t: TaskId, c: Controller)
      requires Valid()
      modifies this
      ensures Valid() && OthersUntouched(t)
      ensures View(t) == Unregister(old(View(t)), c)
    {
      if t in registry && registry[t] == c {
        registry := registry - {t};
      }
    }

    method AbortTurn(t: TaskId) returns (wasLive: bool)
      requires Valid()
      modifies this
      ensures Valid() && OthersUntouched(t)
      ensures View(t) == AbortOccupant(old(View(t)))
      ensures wasLive <==> old(View(t)).occupant.Some?
    {
      if t !in registry { return false; }
      var controller := registry[t];
      registry := registry - {t};
      tripped := tripped + {controller};
      wasLive := true;
    }

    method BeginTaskDeletion(t: TaskId) returns (begun: bool)
      requires Valid()
      modifies this
      ensures Valid() && OthersUntouched(t)
      ensures View(t) == BeginDeletion(old(View(t)))
      ensures begun <==> !old(View(t)).deleting
    {
      if t in deletingTasks { return false; }
      deletingTasks := deletingTasks + {t};
      if t in registry {
        tripped := tripped + {registry[t]};
      }
      begun := true;
    }

    method EndTaskDeletion(t: TaskId)
      requires Valid()
      modifies this
      ensures Valid() && OthersUntouched(t)
      ensures View(t) == EndDeletion(old(View(t)))
    {
      deletingTasks := deletingTasks - {t};
    }
  }
}
