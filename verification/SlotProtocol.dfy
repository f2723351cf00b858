/**
 The lifecycle calls as a step system. Any number of clients start, stop, reset
 and reload; a call reserves the slot under the lock, does its blocking work with
 the lock released, and commits or fails under the lock again. One `Step` is one
 locked region or the end of one blocking call, so a list of steps is one
 interleaving of all clients and the theorems hold for every such list.

 The supervisor is an interface with an assumed contract: a stop that succeeds
 leaves the process dead, a start that fails leaves nothing running, a stop that
 fails may leave the process alive or dead, and any process may die at any time.

 Every start brings the address its profile says at that moment, so a profile may
 be edited between two starts. Only a reload reads a profile again that is held:
 its address is the one it was started at.
 */
module SlotProtocol {
  import opened Wrappers
  import opened RuntimeSlot

  /** Which backends are exclusive. */
  datatype Config = Config(exclusive: set<string>) {
    function BackendOf(name: string): Backend { Backend(name, name in exclusive) }
  }

  /** The blocking call an in-flight operation is in, or the commit it is about to make. */
  datatype Phase =
    | RouterSpec(prior: Option<Proc>)
    | StopThenSpawn(prior: Option<Proc>)
    | Spawn
    | Probe(process: Proc)
    | Activate(spawned: Option<Proc>)
    | StopThenRelease(prior: Option<Proc>)
    | Release
    | StopThenReset(prior: Option<Proc>)
    | DropSlot

  /** `address` is where the operation's launch specification listens. */
  datatype InFlight = InFlight(op: Operation, address: string, phase: Phase)

  /**
   `live` and `bound` are the processes alive and where each was told to listen;
   `listens` is the address each profile was last started at.
   */
  datatype World = World(
    ctl: Control,
    inflight: map<OpId, InFlight>,
    live: set<Proc>,
    bound: map<Proc, string>,
    listens: map<string, string>,
    nextProc: nat)

  datatype Step =
    | CallStart(backend: string, profile: string, address: string, replace: bool)
    | CallStop(backend: string, profile: string)
    | CallReset
    | CallReload(backend: string, batch: bool)
    | Succeed(id: OpId)
    | GoWrong(id: OpId)
    | Die(process: Proc)

  const Boot := World(EmptyControl, map[], {}, map[], map[], 0)

  function Processes(p: Option<Proc>): set<Proc> {
    if p.Some? then {p.value} else {}
  }

  function ListensAt(w: World, profile: string): string {
    if profile in w.listens then w.listens[profile] else ""
  }

  function Launch(w: World, ctl: Control, op: Operation, address: string, phase: Phase): World {
    w.(ctl := ctl, inflight := w.inflight[op.id := InFlight(op, address, phase)])
  }

  function Finish(w: World, id: OpId, ctl: Control): World {
    w.(ctl := ctl, inflight := w.inflight - {id})
  }

  function At(w: World, f: InFlight, phase: Phase): World {
    w.(inflight := w.inflight[f.op.id := f.(phase := phase)])
  }

  /** The lock is taken, the decision is made, and the lock is released. */
  function Call(cfg: Config, w: World, step: Step): World
    requires w.ctl.slot.Some? ==> w.ctl.slot.value.profiles != []
  {
    match step
    case CallStart(backend, profile, address, replace) =>
      (match ReserveStart(w.ctl, cfg.BackendOf(backend), profile, address, replace)
       case StartRefused => w
       case StartReserved(ctl, plan) =>
         Launch(w.(listens := w.listens[profile := address]), ctl, plan.op, address,
                if plan.stop.Some? then StopThenSpawn(plan.stop)
                else if plan.spawn then Spawn else Activate(None)))
    case CallStop(backend, profile) =>
      (match ReserveStop(w.ctl, backend, profile)
       case StopReserved(ctl, op, process) =>
         Launch(w, ctl, op, "", if process.Some? then StopThenRelease(process) else Release)
       case _ => w)
    case CallReset =>
      (match ReserveReset(w.ctl)
       case StopReserved(ctl, op, process) => Launch(w, ctl, op, "", StopThenReset(process))
       case _ => w)
    case CallReload(backend, batch) =>
      (match ReserveReload(w.ctl, cfg.BackendOf(backend), batch)
       case StopReserved(ctl, op, process) => Launch(w, ctl, op, ListensAt(w, op.profile), RouterSpec(process))
       case _ => w)
    case _ => w
  }

  /** The pending blocking call of `f` returns without error, or its commit runs. */
  function Advance(w: World, f: InFlight): World {
    match f.phase
    case RouterSpec(prior) => At(w, f, StopThenSpawn(prior))
    case StopThenSpawn(prior) => At(w.(live := w.live - Processes(prior)), f, Spawn)
    case Spawn =>
      At(w.(live := w.live + {w.nextProc}, bound := w.bound[w.nextProc := f.address], nextProc := w.nextProc + 1),
         f, Probe(w.nextProc))
    case Probe(p) => At(w, f, Activate(Some(p)))
    case Activate(spawned) => Finish(w, f.op.id, CommitStart(w.ctl, f.op.id, spawned))
    case StopThenRelease(prior) => At(w.(live := w.live - Processes(prior)), f, Release)
    case Release => Finish(w, f.op.id, CommitStop(w.ctl, f.op))
    case StopThenReset(prior) => At(w.(live := w.live - Processes(prior)), f, DropSlot)
    case DropSlot => Finish(w, f.op.id, Drop(w.ctl, f.op.id))
  }

  /** The phases whose blocking call can fail the operation. */
  predicate Fallible(phase: Phase) { !phase.Activate? && !phase.Release? && !phase.DropSlot? }

  /**
   The pending blocking call returns an error. A start whose process did not get
   ready leaves nothing running; a failed activation is only reported, and the
   commit follows as it does after a release or a reset.
   */
  function Abort(w: World, f: InFlight): World {
    match f.phase
    case Spawn => Finish(w, f.op.id, Fail(w.ctl, f.op.id, false))
    case Probe(p) => Finish(w.(live := w.live - {p}), f.op.id, Fail(w.ctl, f.op.id, false))
    case _ => if Fallible(f.phase) then Finish(w, f.op.id, Fail(w.ctl, f.op.id, true)) else Advance(w, f)
  }

  function Next(cfg: Config, w: World, step: Step): World
    requires w.ctl.slot.Some? ==> w.ctl.slot.value.profiles != []
  {
    match step
    case Succeed(id) => if id in w.inflight then Advance(w, w.inflight[id]) else w
    case GoWrong(id) => if id in w.inflight then Abort(w, w.inflight[id]) else w
    case Die(p) => w.(live := w.live - {p})
    case _ => Call(cfg, w, step)
  }

  // ------------------------------------------------------------------
  // The invariant
  // ------------------------------------------------------------------

  /** Profiles are present, distinct and started at the slot's address; an exclusive slot holds one. */
  ghost predicate Shape(cfg: Config, w: World, s: Slot) {
    && s.profiles != []
    && NoDuplicates(s.profiles)
    && (s.backend in cfg.exclusive ==> |s.profiles| == 1)
    && (forall p :: p in s.profiles ==> p in w.listens && w.listens[p] == s.address)
  }

  /** Nothing owns the slot: it rests in a settled, failed or orphaned state. */
  ghost predicate AtRest(w: World, s: Slot) {
    && w.inflight == map[]
    && s.state in {Running, Failed, Orphaned}
    && s.process.Some?
    && w.live <= Processes(s.process)
    && (s.state == Running ==> BoundThere(w, s.process, s.address))
  }

  ghost predicate BoundThere(w: World, p: Option<Proc>, address: string) {
    p.Some? && p.value in w.bound && w.bound[p.value] == address
  }

  /** What is alive while the owner of the slot is in `phase`. */
  ghost predicate PhaseFits(w: World, s: Slot, f: InFlight) {
    match f.phase
    case RouterSpec(prior) => Replaces(w, s, f, prior)
    case StopThenSpawn(prior) => Replaces(w, s, f, prior)
    case Spawn => w.live == {} && Starts(s, f)
    case Probe(p) => w.live <= {p} && BoundThere(w, Some(p), s.address) && Starts(s, f)
    case Activate(Some(p)) => w.live <= {p} && BoundThere(w, Some(p), s.address) && Starts(s, f)
    case Activate(None) => w.live <= Processes(s.process) && BoundThere(w, s.process, s.address) && Starts(s, f)
    case StopThenRelease(prior) =>
      && prior.Some? && s.process == prior && w.live <= Processes(prior)
      && s.profiles == [f.op.profile]
    case Release =>
      && f.op.profile in s.profiles
      && (if |s.profiles| > 1 then w.live <= Processes(s.process) && BoundThere(w, s.process, s.address)
          else w.live == {})
    case StopThenReset(prior) => prior.Some? && s.process == prior && w.live <= Processes(prior)
    case DropSlot => w.live == {}
  }

  ghost predicate Starts(s: Slot, f: InFlight) { f.op.profile in s.profiles && f.address == s.address }

  ghost predicate Replaces(w: World, s: Slot, f: InFlight, prior: Option<Proc>) {
    prior.Some? && s.process == prior && w.live <= Processes(prior) && Starts(s, f)
  }

  /** The owner is the one operation in flight, and the slot shows a transitional state. */
  ghost predicate Owned(w: World, s: Slot, id: OpId) {
    && w.inflight.Keys == {id}
    && w.inflight[id].op.id == id
    && s.state in {Starting, Stopping, Activating}
    && PhaseFits(w, s, w.inflight[id])
  }

  ghost predicate Inv(cfg: Config, w: World) {
    && (forall id :: id in w.inflight ==> id <= w.ctl.ops)
    && (forall p :: p in w.live || p in w.bound ==> p < w.nextProc)
    && match w.ctl.slot
       case None => w.inflight == map[] && w.live == {}
       case Some(s) =>
         && Shape(cfg, w, s)
         && (match s.op case None => AtRest(w, s) case Some(id) => Owned(w, s, id))
  }

  // ------------------------------------------------------------------
  // Every step keeps it
  // ------------------------------------------------------------------

  lemma CallStartKeepsInv(cfg: Config, w: World, step: Step)
    requires Inv(cfg, w) && step.CallStart?
    ensures Inv(cfg, Call(cfg, w, step))
  {
    var next := Call(cfg, w, step);
    if next != w {
      assert w.inflight == map[];
      assert next.inflight.Keys == {w.ctl.ops + 1};
    }
  }

  lemma CallStopKeepsInv(cfg: Config, w: World, step: Step)
    requires Inv(cfg, w) && (step.CallStop? || step.CallReset? || step.CallReload?)
    ensures Inv(cfg, Call(cfg, w, step))
  {
    var next := Call(cfg, w, step);
    if next != w {
      assert w.inflight == map[];
      assert next.inflight.Keys == {w.ctl.ops + 1};
    }
  }

  /** While an operation is in flight it owns the slot, and every call is turned away. */
  lemma CallsAreTurnedAway(cfg: Config, w: World, step: Step, id: OpId)
    requires Inv(cfg, w) && id in w.inflight
    ensures w.ctl.slot.Some? && w.ctl.slot.value.op == Some(id) && Shape(cfg, w, w.ctl.slot.value) && Owned(w, w.ctl.slot.value, id)
    ensures !step.Succeed? && !step.GoWrong? && !step.Die? ==> Next(cfg, w, step) == w
  {
  }

  /** An engine comes up, to be probed. */
  lemma SpawnKeepsInv(cfg: Config, w: World, id: OpId)
    requires Inv(cfg, w) && id in w.inflight && w.inflight[id].phase.Spawn?
    ensures Inv(cfg, Advance(w, w.inflight[id]))
  {
    CallsAreTurnedAway(cfg, w, CallReset, id);
    var next := Advance(w, w.inflight[id]);
    assert next.inflight.Keys == {id} && next.live == {w.nextProc};
  }

  /** A blocking call that returns moves its operation to the next phase and leaves the slot alone. */
  lemma PhaseChangeKeepsInv(cfg: Config, w: World, id: OpId)
    requires Inv(cfg, w) && id in w.inflight && Fallible(w.inflight[id].phase)
    ensures Inv(cfg, Advance(w, w.inflight[id]))
  {
    if w.inflight[id].phase.Spawn? {
      SpawnKeepsInv(cfg, w, id);
    } else {
      CallsAreTurnedAway(cfg, w, CallReset, id);
      var next := Advance(w, w.inflight[id]);
      assert next.inflight.Keys == {id} && next.live <= w.live && next.bound == w.bound && next.ctl == w.ctl;
    }
  }

  lemma CommitKeepsInv(cfg: Config, w: World, id: OpId)
    requires Inv(cfg, w) && id in w.inflight && !Fallible(w.inflight[id].phase)
    ensures Inv(cfg, Advance(w, w.inflight[id]))
  {
    assert Advance(w, w.inflight[id]).inflight == map[];
    if w.inflight[id].phase.Release? {
      WithoutHeld(w.ctl.slot.value.profiles, w.inflight[id].op.profile);
    }
  }

  lemma AdvanceKeepsInv(cfg: Config, w: World, id: OpId)
    requires Inv(cfg, w) && id in w.inflight
    ensures Inv(cfg, Advance(w, w.inflight[id]))
  {
    if Fallible(w.inflight[id].phase) {
      PhaseChangeKeepsInv(cfg, w, id);
    } else {
      CommitKeepsInv(cfg, w, id);
    }
  }

  lemma FailureKeepsInv(cfg: Config, w: World, id: OpId)
    requires Inv(cfg, w) && id in w.inflight && Fallible(w.inflight[id].phase)
    ensures Inv(cfg, Abort(w, w.inflight[id]))
  {
    CallsAreTurnedAway(cfg, w, CallReset, id);
    assert Abort(w, w.inflight[id]).inflight == map[];
  }

  lemma AbortKeepsInv(cfg: Config, w: World, id: OpId)
    requires Inv(cfg, w) && id in w.inflight
    ensures Inv(cfg, Abort(w, w.inflight[id]))
  {
    if Fallible(w.inflight[id].phase) {
      FailureKeepsInv(cfg, w, id);
    } else {
      CommitKeepsInv(cfg, w, id);
    }
  }

  lemma NextKeepsInv(cfg: Config, w: World, step: Step)
    requires Inv(cfg, w)
    ensures Inv(cfg, Next(cfg, w, step))
  {
    match step
    case Succeed(id) => if id in w.inflight { AdvanceKeepsInv(cfg, w, id); }
    case GoWrong(id) => if id in w.inflight { AbortKeepsInv(cfg, w, id); }
    case Die(_) =>
    case CallStart(_, _, _, _) => CallStartKeepsInv(cfg, w, step);
    case _ => CallStopKeepsInv(cfg, w, step);
  }

  // ------------------------------------------------------------------
  // Whole runs
  // ------------------------------------------------------------------

  /** Reload reads the first held profile, so a slot without one could not be stepped. */
  predicate Steppable(w: World) {
    w.ctl.slot.Some? ==> w.ctl.slot.value.profiles != []
  }

  function Run(cfg: Config, w: World, steps: seq<Step>): World
    decreases |steps|
  {
    if steps == [] || !Steppable(w) then w else Run(cfg, Next(cfg, w, steps[0]), steps[1..])
  }

  lemma {:induction false} RunKeepsInv(cfg: Config, w: World, steps: seq<Step>)
    requires Inv(cfg, w)
    ensures Inv(cfg, Run(cfg, w, steps))
    decreases |steps|
  {
    if steps != [] {
      NextKeepsInv(cfg, w, steps[0]);
      RunKeepsInv(cfg, Next(cfg, w, steps[0]), steps[1..]);
    }
  }

  /** The process the slot names, or the one its owner has just spawned. */
  ghost predicate Accounted(w: World, p: Proc) {
    w.ctl.slot.Some? &&
    var s := w.ctl.slot.value;
    || s.process == Some(p)
    || (s.op.Some? && s.op.value in w.inflight &&
        w.inflight[s.op.value].phase in {Probe(p), Activate(Some(p))})
  }

  /** At most one engine is alive, and the slot accounts for it; an empty slot means none. */
  ghost predicate Safe(w: World) {
    && |w.live| <= 1
    && (forall p :: p in w.live ==> Accounted(w, p))
    && (w.ctl.slot.None? ==> w.live == {} && w.inflight == map[])
  }

  lemma InvIsSafe(cfg: Config, w: World)
    requires Inv(cfg, w)
    ensures Safe(w)
  {
    if w.live != {} {
      var p :| p in w.live;
      assert w.live == {p};
    }
  }

  lemma EveryRunIsSafe(cfg: Config, steps: seq<Step>)
    ensures Safe(Run(cfg, Boot, steps))
  {
    RunKeepsInv(cfg, Boot, steps);
    InvIsSafe(cfg, Run(cfg, Boot, steps));
  }

  /** The slot is well formed after every run, and Running means unowned and listening where it says. */
  lemma EveryRunKeepsTheSlotShape(cfg: Config, steps: seq<Step>)
    ensures var w := Run(cfg, Boot, steps);
            w.ctl.slot.Some? ==>
              var s := w.ctl.slot.value;
              && Steppable(w)
              && NoDuplicates(s.profiles)
              && (s.backend in cfg.exclusive ==> |s.profiles| == 1)
              && (forall p :: p in s.profiles ==> ListensAt(w, p) == s.address)
              && (s.state == Running ==> s.op.None? && BoundThere(w, s.process, s.address))
              && (s.op.None? ==> s.process.Some?)
  {
    RunKeepsInv(cfg, Boot, steps);
  }

  /** A status call never finds a running slot without a process to ask. */
  lemma StatusAsksTheLiveProcess(cfg: Config, steps: seq<Step>, backend: string, profile: string)
    ensures var w := Run(cfg, Boot, steps);
            var answer := RuntimeStatus(w.ctl, backend, profile);
            && answer != Reported(Running)
            && (answer.AskProcess? ==> w.live <= {answer.process} &&
                                       BoundThere(w, Some(answer.process), ListensAt(w, profile)))
  {
    RunKeepsInv(cfg, Boot, steps);
  }

  // ------------------------------------------------------------------
  // Ownership
  // ------------------------------------------------------------------

  /** The owner of a reserved slot is the one in-flight operation, so no commit guard is ever missed. */
  lemma ReservationsBelongToInFlightOperations(cfg: Config, steps: seq<Step>, id: OpId)
    ensures var w := Run(cfg, Boot, steps); id in w.inflight <==> Owns(w.ctl, id)
    ensures var w := Run(cfg, Boot, steps); id in w.inflight ==> w.inflight.Keys == {id}
  {
    RunKeepsInv(cfg, Boot, steps);
  }

  /** While an operation owns the slot, only its own steps change the slot. */
  lemma OnlyTheOwnerChangesTheSlot(cfg: Config, w: World, step: Step, id: OpId)
    requires Inv(cfg, w) && Owns(w.ctl, id)
    requires Next(cfg, w, step).ctl.slot != w.ctl.slot
    ensures step == Succeed(id) || step == GoWrong(id)
  {
  }

  /** A completion of one operation touches no other id, and issues none. */
  lemma AdvanceIssuesNoId(w: World, f: InFlight)
    ensures Advance(w, f).ctl.ops == w.ctl.ops && Advance(w, f).inflight.Keys <= w.inflight.Keys + {f.op.id}
  {
  }

  lemma CompletionIssuesNoId(w: World, f: InFlight)
    ensures Advance(w, f).ctl.ops == w.ctl.ops && Advance(w, f).inflight.Keys <= w.inflight.Keys + {f.op.id}
    ensures Abort(w, f).ctl.ops == w.ctl.ops && Abort(w, f).inflight.Keys <= w.inflight.Keys + {f.op.id}
  {
    AdvanceIssuesNoId(w, f);
  }

  /** Only a reservation issues an id, and it is larger than every id issued before. */
  lemma ReservationTakesAFreshId(cfg: Config, w: World, step: Step, id: OpId)
    requires Inv(cfg, w) && id !in w.inflight && id in Next(cfg, w, step).inflight
    ensures id == w.ctl.ops + 1 == Next(cfg, w, step).ctl.ops
  {
    if (step.Succeed? || step.GoWrong?) && step.id in w.inflight {
      CallsAreTurnedAway(cfg, w, step, step.id);
      CompletionIssuesNoId(w, w.inflight[step.id]);
    }
  }

  /** An id that was issued and is no longer in flight. */
  ghost predicate Retired(w: World, id: OpId) {
    id !in w.inflight && id <= w.ctl.ops
  }

  lemma StepKeepsRetired(cfg: Config, w: World, step: Step, id: OpId)
    requires Inv(cfg, w) && Retired(w, id)
    ensures Retired(Next(cfg, w, step), id)
  {
    if (step.Succeed? || step.GoWrong?) && step.id in w.inflight {
      CallsAreTurnedAway(cfg, w, step, step.id);
      CompletionIssuesNoId(w, w.inflight[step.id]);
    }
  }

  lemma {:induction false} RetiredIdNeverReturns(cfg: Config, w: World, steps: seq<Step>, id: OpId)
    requires Inv(cfg, w) && Retired(w, id)
    ensures Retired(Run(cfg, w, steps), id) && !Owns(Run(cfg, w, steps).ctl, id)
    decreases |steps|
  {
    if steps != [] {
      NextKeepsInv(cfg, w, steps[0]);
      StepKeepsRetired(cfg, w, steps[0], id);
      RetiredIdNeverReturns(cfg, Next(cfg, w, steps[0]), steps[1..], id);
    }
  }

  // ------------------------------------------------------------------
  // How an operation ends
  // ------------------------------------------------------------------

  datatype Kind = ToStart | ToStop | ToReset

  function KindOf(phase: Phase): Kind {
    match phase
    case StopThenRelease(_) => ToStop
    case Release => ToStop
    case StopThenReset(_) => ToReset
    case DropSlot => ToReset
    case _ => ToStart
  }

  /** A call that is accepted begins the operation it names; a reload asks for the address the slot listens at. */
  lemma AcceptedCallBegins(cfg: Config, w: World, step: Step)
    requires Inv(cfg, w) && !step.Succeed? && !step.GoWrong? && !step.Die? && Next(cfg, w, step) != w
    ensures var id, next := w.ctl.ops + 1, Next(cfg, w, step);
            && id in next.inflight && Owns(next.ctl, id)
            && var f := next.inflight[id];
               match step
               case CallStart(backend, profile, address, _) =>
                 KindOf(f.phase) == ToStart && f.op.profile == profile && f.address == address &&
                 next.ctl.slot.value.backend == backend
               case CallStop(backend, profile) => KindOf(f.phase) == ToStop && f.op.profile == profile
               case CallReload(backend, _) =>
                 KindOf(f.phase) == ToStart && w.ctl.slot.Some? && f.address == w.ctl.slot.value.address &&
                 next.ctl.slot.value.profiles == w.ctl.slot.value.profiles
               case _ => KindOf(f.phase) == ToReset
  {
  }

  predicate Completes(step: Step, id: OpId) { step == Succeed(id) || step == GoWrong(id) }

  /**
   What the completion that ends operation `f` leaves. An error of a process that
   was to start leaves an empty slot and nothing alive; any other error leaves the
   same slot, failed. Otherwise a start or reload leaves the slot running and
   holding its profile where it was asked to listen, a stop leaves exactly the
   other profiles, and a reset leaves an empty slot and nothing alive.
   */
  ghost predicate EndsAs(w: World, f: InFlight, step: Step, after: World)
    requires w.ctl.slot.Some?
  {
    var s := w.ctl.slot.value;
    if step.GoWrong? && Fallible(f.phase) then
      if f.phase.Spawn? || f.phase.Probe? then after.ctl.slot == None && after.live == {}
      else after.ctl.slot == Some(s.(state := Failed, op := None)) && after.live == w.live
    else
      match KindOf(f.phase)
      case ToStart =>
        && after.ctl.slot.Some? && after.ctl.slot.value.state == Running && after.ctl.slot.value.op == None
        && after.ctl.slot.value.profiles == s.profiles && f.op.profile in s.profiles
        && after.ctl.slot.value.address == f.address && BoundThere(after, after.ctl.slot.value.process, f.address)
        && after.live == w.live
      case ToStop =>
        (match after.ctl.slot
         case None => s.profiles == [f.op.profile] && after.live == {}
         case Some(kept) =>
           && kept.state == Running && kept.op == None && kept.process == s.process && after.live == w.live
           && forall p :: p in kept.profiles <==> p in s.profiles && p != f.op.profile)
      case ToReset => after.ctl.slot == None && after.live == {}
  }

  /** A failing call fails the operation as the source's `fail` does. */
  lemma FailureEnds(cfg: Config, w: World, id: OpId)
    requires Inv(cfg, w) && id in w.inflight && Fallible(w.inflight[id].phase)
    ensures w.ctl.slot.Some?
    ensures var after := Abort(w, w.inflight[id]);
            && Retired(after, id) && !Owns(after.ctl, id) && EndsAs(w, w.inflight[id], GoWrong(id), after)
  {
    CallsAreTurnedAway(cfg, w, CallReset, id);
  }

  /** A commit, whether or not an activation before it was in error. */
  lemma CommitEnds(cfg: Config, w: World, id: OpId, step: Step)
    requires Inv(cfg, w) && id in w.inflight && !Fallible(w.inflight[id].phase)
    ensures w.ctl.slot.Some?
    ensures var after := Advance(w, w.inflight[id]);
            && Retired(after, id) && !Owns(after.ctl, id) && EndsAs(w, w.inflight[id], step, after)
  {
    CallsAreTurnedAway(cfg, w, CallReset, id);
    if w.inflight[id].phase.Release? {
      var s, profile := w.ctl.slot.value, w.inflight[id].op.profile;
      WithoutHeld(s.profiles, profile);
      assert |s.profiles| == 1 ==> s.profiles == [s.profiles[0]];
    }
  }

  /** An operation that leaves the protocol was ended by its own completion and releases the slot. */
  lemma OperationEnds(cfg: Config, w: World, step: Step, id: OpId)
    requires Inv(cfg, w) && id in w.inflight && id !in Next(cfg, w, step).inflight
    ensures Completes(step, id) && Retired(Next(cfg, w, step), id) && !Owns(Next(cfg, w, step).ctl, id)
    ensures w.ctl.slot.Some? && EndsAs(w, w.inflight[id], step, Next(cfg, w, step))
  {
    CallsAreTurnedAway(cfg, w, step, id);
    if Fallible(w.inflight[id].phase) {
      FailureEnds(cfg, w, id);
    } else {
      CommitEnds(cfg, w, id, step);
    }
  }

  /** An error ends an operation at once, unless it is the activation's, which is only reported. */
  lemma ErrorsEndTheOperation(cfg: Config, w: World, id: OpId)
    requires Inv(cfg, w) && id in w.inflight
    ensures id !in Next(cfg, w, GoWrong(id)).inflight
    ensures !Fallible(w.inflight[id].phase) ==> Next(cfg, w, GoWrong(id)) == Next(cfg, w, Succeed(id))
  {
    CallsAreTurnedAway(cfg, w, CallReset, id);
  }

  function StepsLeft(phase: Phase): nat {
    match phase
    case RouterSpec(_) => 5
    case StopThenSpawn(_) => 4
    case Spawn => 3
    case Probe(_) => 2
    case Activate(_) => 1
    case StopThenRelease(_) => 2
    case Release => 1
    case StopThenReset(_) => 2
    case DropSlot => 1
  }

  function Completions(steps: seq<Step>, id: OpId): nat {
    if steps == [] then 0
    else (if Completes(steps[0], id) then 1 else 0) + Completions(steps[1..], id)
  }

  /** A completion of the operation's own, with or without error, brings it closer to its end; nothing takes it back. */
  lemma StepGetsCloser(cfg: Config, w: World, step: Step, id: OpId)
    requires Inv(cfg, w) && id in w.inflight && id in Next(cfg, w, step).inflight
    ensures var f, next := w.inflight[id], Next(cfg, w, step).inflight[id];
            && next.op == f.op && next.address == f.address && KindOf(next.phase) == KindOf(f.phase)
            && StepsLeft(next.phase) == StepsLeft(f.phase) - if Completes(step, id) then 1 else 0
  {
    CallsAreTurnedAway(cfg, w, step, id);
    if step == GoWrong(id) {
      ErrorsEndTheOperation(cfg, w, id);
    } else if step == Succeed(id) {
      AdvanceGetsCloser(w, w.inflight[id]);
    }
  }

  lemma AdvanceGetsCloser(w: World, f: InFlight)
    ensures var next := Advance(w, f);
            if Fallible(f.phase) then
              && f.op.id in next.inflight && next.inflight[f.op.id].op == f.op && next.inflight[f.op.id].address == f.address
              && KindOf(next.inflight[f.op.id].phase) == KindOf(f.phase)
              && StepsLeft(next.inflight[f.op.id].phase) == StepsLeft(f.phase) - 1
            else f.op.id !in next.inflight
  {
  }

  lemma RunFrom(cfg: Config, w: World, steps: seq<Step>, m: nat)
    requires Steppable(w) && m < |steps|
    ensures Run(cfg, w, steps[..m + 1]) == Run(cfg, Next(cfg, w, steps[0]), steps[1..][..m])
  {
    assert steps[..m + 1][0] == steps[0] && steps[..m + 1][1..] == steps[1..][..m];
  }

  /** The completion that ended the operation. */
  ghost predicate EndedBy(cfg: Config, w: World, before: World, step: Step, id: OpId)
    requires id in w.inflight
  {
    && Completes(step, id) && Steppable(before) && id in before.inflight && before.ctl.slot.Some?
    && before.inflight[id].op == w.inflight[id].op && KindOf(before.inflight[id].phase) == KindOf(w.inflight[id].phase)
    && EndsAs(before, before.inflight[id], step, Next(cfg, before, step))
  }

  /**
   No reservation is ever stuck: once the operation's own calls have returned, with
   or without error, as often as its phase needs (five times at most), one of those
   returns has ended it as `EndsAs` says, and it never owns the slot again, whatever
   else happened in between.
   */
  lemma {:induction false} EveryReservationIsReleased(cfg: Config, w: World, steps: seq<Step>, id: OpId) returns (n: nat)
    requires Inv(cfg, w) && id in w.inflight
    requires Completions(steps, id) >= StepsLeft(w.inflight[id].phase)
    ensures n < |steps| && EndedBy(cfg, w, Run(cfg, w, steps[..n]), steps[n], id)
    ensures Retired(Run(cfg, w, steps), id) && !Owns(Run(cfg, w, steps).ctl, id)
    decreases |steps|
  {
    var next := Next(cfg, w, steps[0]);
    NextKeepsInv(cfg, w, steps[0]);
    if id in next.inflight {
      StepGetsCloser(cfg, w, steps[0], id);
      var m := EveryReservationIsReleased(cfg, next, steps[1..], id);
      n := m + 1;
      RunFrom(cfg, w, steps, m);
    } else {
      OperationEnds(cfg, w, steps[0], id);
      RetiredIdNeverReturns(cfg, next, steps[1..], id);
      n := 0;
      assert steps[..0] == [];
    }
  }

  /** A failed or orphaned slot stays claimed, exactly as it is, until a reset is called. */
  lemma {:induction false} FailedSlotWaitsForAReset(cfg: Config, w: World, steps: seq<Step>)
    requires Inv(cfg, w) && w.ctl.slot.Some?
    requires w.ctl.slot.value.state in {Failed, Orphaned}
    requires CallReset !in steps
    ensures Run(cfg, w, steps).ctl == w.ctl
    decreases |steps|
  {
    if steps != [] {
      NextKeepsInv(cfg, w, steps[0]);
      FailedSlotWaitsForAReset(cfg, Next(cfg, w, steps[0]), steps[1..]);
    }
  }

  /** A stop that leaves the shared process running keeps the slot and the other profiles. */
  lemma ReleaseOfASharedSlotKeepsIt(cfg: Config, w: World, id: OpId)
    requires Inv(cfg, w) && id in w.inflight && w.inflight[id].phase.Release? && w.live != {}
    ensures var next := Next(cfg, w, Succeed(id));
            && next.ctl.slot.Some?
            && next.ctl.slot.value.state == Running
            && next.ctl.slot.value.process == w.ctl.slot.value.process
            && forall p :: p in next.ctl.slot.value.profiles <==>
                           p in w.ctl.slot.value.profiles && p != w.inflight[id].op.profile
  {
    WithoutHeld(w.ctl.slot.value.profiles, w.inflight[id].op.profile);
  }
}
