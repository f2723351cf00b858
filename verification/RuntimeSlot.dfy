/**
 The single runtime slot of the control manager and the transitions that run
 under its lock: reserve, commit, fail and drop.

 Each transition is a function on the guarded state (`Control`), and class
 `Manager` is the imperative form, proved against those functions.
 */
module RuntimeSlot {
  import opened Wrappers

  // The number in "op-%d"; an operation at rest is None.
  type OpId = nat
  // The identity of one supervised engine process.
  type Proc = nat

  datatype State =
    | Running | Stopped | Starting | Stopping | Failed | Reconciling | Activating | Orphaned

  datatype Slot = Slot(
    backend: string,
    process: Option<Proc>,
    address: string,
    profiles: seq<string>,
    state: State,
    op: Option<OpId>)
  {
    predicate Settled() { state == Running }

    predicate Holds(profile: string) { profile in profiles }
  }

  /** What the manager's mutex guards. */
  datatype Control = Control(slot: Option<Slot>, ops: nat)

  datatype Operation = Operation(id: OpId, profile: string)

  /** A backend as the slot sees it: its name and whether it serves one profile only. */
  datatype Backend = Backend(name: string, exclusive: bool)

  datatype StartPlan = StartPlan(op: Operation, stop: Option<Proc>, spawn: bool)

  datatype StartDecision = StartRefused | StartReserved(ctl: Control, plan: StartPlan)

  datatype StopDecision =
    | StopRefused
    | StopNothing
    | StopReserved(ctl: Control, op: Operation, process: Option<Proc>)

  const EmptyControl := Control(None, 0)

  predicate Owns(ctl: Control, id: OpId) {
    ctl.slot.Some? && ctl.slot.value.op == Some(id)
  }

  function Reserve(ctl: Control, s: Slot, profile: string, state: State): (r: (Control, Operation))
    ensures Owns(r.0, r.1.id) && r.1.id > ctl.ops
  {
    (Control(Some(s.(state := state, op := Some(ctl.ops + 1))), ctl.ops + 1),
     Operation(ctl.ops + 1, profile))
  }

  function ReserveStart(ctl: Control, b: Backend, profile: string, address: string, replace: bool)
    : StartDecision
  {
    match ctl.slot
    case None =>
      var (next, op) := Reserve(ctl, Slot(b.name, None, address, [profile], Starting, None), profile, Starting);
      StartReserved(next, StartPlan(op, None, true))
    case Some(s) =>
      if !s.Settled() || s.backend != b.name then StartRefused
      else if !b.exclusive && s.address == address then
        var joined := if s.Holds(profile) then s else s.(profiles := s.profiles + [profile]);
        var (next, op) := Reserve(ctl, joined, profile, Activating);
        StartReserved(next, StartPlan(op, None, false))
      else if !replace then StartRefused
      else
        var (next, op) := Reserve(ctl, s.(address := address, profiles := [profile]), profile, Stopping);
        StartReserved(next, StartPlan(op, s.process, true))
  }

  function ReserveStop(ctl: Control, backend: string, profile: string): StopDecision {
    if ctl.slot.None? || ctl.slot.value.backend != backend || !ctl.slot.value.Holds(profile) then StopNothing
    else if !ctl.slot.value.Settled() then StopRefused
    else
      var s := ctl.slot.value;
      var (next, op) := Reserve(ctl, s, profile, Stopping);
      StopReserved(next, op, if |s.profiles| > 1 then None else s.process)
  }

  /** Reset takes any slot no operation owns, whatever its state. */
  function ReserveReset(ctl: Control): StopDecision {
    if ctl.slot.None? then StopNothing
    else if ctl.slot.value.op.Some? then StopRefused
    else
      var (next, op) := Reserve(ctl, ctl.slot.value, "", Stopping);
      StopReserved(next, op, ctl.slot.value.process)
  }

  /** Reload takes a settled slot of a router backend that renders one shared file. */
  function ReserveReload(ctl: Control, b: Backend, batch: bool): StopDecision
    requires ctl.slot.Some? ==> ctl.slot.value.profiles != []
  {
    if b.exclusive || !batch || ctl.slot.None? || ctl.slot.value.backend != b.name then StopNothing
    else if !ctl.slot.value.Settled() then StopRefused
    else
      var s := ctl.slot.value;
      var (next, op) := Reserve(ctl, s, s.profiles[0], Stopping);
      StopReserved(next, op, s.process)
  }

  function CommitStart(ctl: Control, id: OpId, spawned: Option<Proc>): Control {
    if !Owns(ctl, id) then ctl
    else
      var s := ctl.slot.value;
      ctl.(slot := Some(s.(process := if spawned.Some? then spawned else s.process,
                           state := Running, op := None)))
  }

  function Without(profiles: seq<string>, profile: string): (r: seq<string>)
    ensures forall p :: p in r <==> p in profiles && p != profile
  {
    if profiles == [] then []
    else if profiles[0] == profile then Without(profiles[1..], profile)
    else [profiles[0]] + Without(profiles[1..], profile)
  }

  ghost predicate NoDuplicates(profiles: seq<string>) {
    forall i, j :: 0 <= i < j < |profiles| ==> profiles[i] != profiles[j]
  }

  /** Dropping a held profile removes exactly one entry and keeps the rest distinct. */
  lemma {:induction false} WithoutHeld(profiles: seq<string>, profile: string)
    requires NoDuplicates(profiles)
    ensures NoDuplicates(Without(profiles, profile))
    ensures |Without(profiles, profile)| == |profiles| - if profile in profiles then 1 else 0
  {
    if profiles != [] {
      WithoutHeld(profiles[1..], profile);
      assert profiles[0] !in profiles[1..];
      assert profiles[0] !in Without(profiles[1..], profile);
    }
  }

  function CommitStop(ctl: Control, op: Operation): Control {
    if !Owns(ctl, op.id) then ctl
    else
      var s := ctl.slot.value;
      var rest := Without(s.profiles, op.profile);
      ctl.(slot := if rest == [] then None
                   else Some(s.(profiles := rest, state := Running, op := None)))
  }

  /** `fail` of an operation; a kept slot stays behind in the failed state. */
  function Fail(ctl: Control, id: OpId, keep: bool): Control {
    if !Owns(ctl, id) then ctl
    else if keep then ctl.(slot := Some(ctl.slot.value.(state := Failed, op := None)))
    else ctl.(slot := None)
  }

  function Drop(ctl: Control, id: OpId): Control {
    if Owns(ctl, id) then ctl.(slot := None) else ctl
  }

  datatype StatusAnswer = Reported(state: State) | AskProcess(process: Proc)

  function RuntimeStatus(ctl: Control, backend: string, profile: string): StatusAnswer {
    if ctl.slot.None? || ctl.slot.value.backend != backend || !ctl.slot.value.Holds(profile) then
      Reported(Stopped)
    else if ctl.slot.value.state != Running || ctl.slot.value.process.None? then
      Reported(ctl.slot.value.state)
    else AskProcess(ctl.slot.value.process.value)
  }

  /** The manager's guarded fields, updated in place by the locked regions. */
  class Manager {
    var slot: Option<Slot>
    var ops: nat

    ghost function View(): Control reads this { Control(slot, ops) }

    constructor ()
      ensures View() == EmptyControl
    {
      slot, ops := None, 0;
    }

    method ReserveLocked(profile: string, state: State) returns (op: Operation)
      requires slot.Some?
      modifies this
      ensures (View(), op) == Reserve(old(View()), old(slot).value, profile, state)
    {
      ops := ops + 1;
      op := Operation(ops, profile);
      slot := Some(slot.value.(state := state, op := Some(op.id)));
    }

    method TryStart(b: Backend, profile: string, address: string, replace: bool)
      returns (plan: Option<StartPlan>)
      modifies this
      ensures var d := ReserveStart(old(View()), b, profile, address, replace);
              if d.StartRefused? then plan.None? && View() == old(View())
              else plan == Some(d.plan) && View() == d.ctl
    {
      if slot.None? {
        slot := Some(Slot(b.name, None, address, [profile], Starting, None));
        var op := ReserveLocked(profile, Starting);
        return Some(StartPlan(op, None, true));
      }
      if !slot.value.Settled() || slot.value.backend != b.name {
        return None;
      }
      if !b.exclusive && slot.value.address == address {
        if !slot.value.Holds(profile) {
          slot := Some(slot.value.(profiles := slot.value.profiles + [profile]));
        }
        var op := ReserveLocked(profile, Activating);
        return Some(StartPlan(op, None, false));
      }
      if !replace {
        return None;
      }
      var running := slot.value.process;
      var op := ReserveLocked(profile, Stopping);
      slot := Some(slot.value.(address := address, profiles := [profile]));
      plan := Some(StartPlan(op, running, true));
    }

    method TryStop(backend: string, profile: string) returns (d: StopDecision)
      modifies this
      ensures d == ReserveStop(old(View()), backend, profile)
      ensures View() == if d.StopReserved? then d.ctl else old(View())
    {
      if slot.None? || slot.value.backend != backend || !slot.value.Holds(profile) {
        return StopNothing;
      }
      if !slot.value.Settled() {
        return StopRefused;
      }
      var process := if |slot.value.profiles| > 1 then None else slot.value.process;
      var op := ReserveLocked(profile, Stopping);
      d := StopReserved(Control(slot, ops), op, process);
    }

    method TryReset() returns (d: StopDecision)
      modifies this
      ensures d == ReserveReset(old(View()))
      ensures View() == if d.StopReserved? then d.ctl else old(View())
    {
      if slot.None? {
        return StopNothing;
      }
      if slot.value.op.Some? {
        return StopRefused;
      }
      var process := slot.value.process;
      var op := ReserveLocked("", Stopping);
      d := StopReserved(Control(slot, ops), op, process);
    }

    method TryReload(b: Backend, batch: bool) returns (d: StopDecision)
      requires slot.Some? ==> slot.value.profiles != []
      modifies this
      ensures d == ReserveReload(old(View()), b, batch)
      ensures View() == if d.StopReserved? then d.ctl else old(View())
    {
      if b.exclusive || !batch || slot.None? || slot.value.backend != b.name {
        return StopNothing;
      }
      if !slot.value.Settled() {
        return StopRefused;
      }
      var held, process := slot.value.profiles, slot.value.process;
      var op := ReserveLocked(held[0], Stopping);
      d := StopReserved(Control(slot, ops), op, process);
    }

    method FinishStart(op: Operation, spawned: Option<Proc>)
      modifies this
      ensures View() == CommitStart(old(View()), op.id, spawned)
    {
      if slot.Some? && slot.value.op == Some(op.id) {
        if spawned.Some? {
          slot := Some(slot.value.(process := spawned));
        }
        slot := Some(slot.value.(state := Running, op := None));
      }
    }

    method FinishStop(op: Operation)
      modifies this
      ensures View() == CommitStop(old(View()), op)
    {
      if slot.Some? && slot.value.op == Some(op.id) {
        slot := Some(slot.value.(profiles := Without(slot.value.profiles, op.profile)));
        if slot.value.profiles == [] {
          slot := None;
        } else {
          slot := Some(slot.value.(state := Running, op := None));
        }
      }
    }

    method FailOperation(op: Operation, keep: bool)
      modifies this
      ensures View() == Fail(old(View()), op.id, keep)
    {
      if slot.Some? && slot.value.op == Some(op.id) {
        if keep {
          slot := Some(slot.value.(state := Failed, op := None));
        } else {
          slot := None;
        }
      }
    }

    method DropOperation(op: Operation)
      modifies this
      ensures View() == Drop(old(View()), op.id)
    {
      if slot.Some? && slot.value.op == Some(op.id) {
        slot := None;
      }
    }
  }
}
