/**
 What each lifecycle call is answered: when it is taken, what it then reserves, and
 when it is refused or has nothing to do.
 */
module SlotCalls {
  import opened Wrappers
  import opened RuntimeSlot
  import opened SlotProtocol

  /** The slot is running engine `backend`, and nothing is in flight. */
  ghost predicate Serves(w: World, backend: string) {
    w.ctl.slot.Some? && w.ctl.slot.value.state == Running && w.ctl.slot.value.backend == backend
  }

  /** A router that listens where the profile does. */
  ghost predicate Joinable(cfg: Config, w: World, backend: string, address: string) {
    Serves(w, backend) && backend !in cfg.exclusive && w.ctl.slot.value.address == address
  }

  /** `profile` is in the slot of its backend. */
  ghost predicate Holds(w: World, backend: string, profile: string) {
    w.ctl.slot.Some? && w.ctl.slot.value.backend == backend && profile in w.ctl.slot.value.profiles
  }

  /** Something is in flight, or the slot waits for a reset. */
  ghost predicate Busy(w: World) {
    w.inflight != map[] || (w.ctl.slot.Some? && w.ctl.slot.value.state in {Failed, Orphaned})
  }

  /** The world in which `w` has one more operation in flight, on slot `s`, and nothing else has changed. */
  function Reserved(w: World, s: Slot, profile: string, address: string, phase: Phase): World {
    var id := w.ctl.ops + 1;
    w.(ctl := Control(Some(s.(op := Some(id))), id),
       inflight := w.inflight[id := InFlight(Operation(id, profile), address, phase)])
  }

  // ------------------------------------------------------------------
  // Start
  // ------------------------------------------------------------------

  /** A start is taken exactly by an empty slot, a router it can join, or with `replace` by a running engine of its backend. */
  lemma StartIsTakenIff(cfg: Config, w: World, backend: string, profile: string, address: string, replace: bool)
    requires Inv(cfg, w)
    ensures var next := Next(cfg, w, CallStart(backend, profile, address, replace));
            && (w.ctl.ops + 1 in next.inflight <==>
                w.ctl.slot.None? || Joinable(cfg, w, backend, address) || (Serves(w, backend) && replace))
            && (w.ctl.ops + 1 !in next.inflight ==> next == w)
  {
  }

  /** An empty slot goes to the profile, and its engine is spawned. */
  lemma StartOnAnEmptySlot(cfg: Config, w: World, backend: string, profile: string, address: string, replace: bool)
    requires Inv(cfg, w) && w.ctl.slot.None?
    ensures Next(cfg, w, CallStart(backend, profile, address, replace)) ==
            Reserved(w.(listens := w.listens[profile := address]), Slot(backend, None, address, [profile], Starting, None),
                     profile, address, Spawn)
  {
  }

  /** A router keeps its process and everything it holds, and holds the profile once. */
  lemma StartJoins(cfg: Config, w: World, backend: string, profile: string, address: string, replace: bool)
    requires Inv(cfg, w) && Joinable(cfg, w, backend, address)
    ensures var s, next := w.ctl.slot.value, Next(cfg, w, CallStart(backend, profile, address, replace));
            && next.ctl.slot.Some?
            && var joined := next.ctl.slot.value.profiles;
               && next == Reserved(w.(listens := w.listens[profile := address]), s.(profiles := joined, state := Activating),
                                   profile, address, Activate(None))
               && s.profiles <= joined && NoDuplicates(joined)
               && forall p :: p in joined <==> p in s.profiles || p == profile
  {
  }

  /** Otherwise the running process is to be stopped, and the slot is the profile's alone, at its address. */
  lemma StartReplaces(cfg: Config, w: World, backend: string, profile: string, address: string)
    requires Inv(cfg, w) && Serves(w, backend) && !Joinable(cfg, w, backend, address)
    ensures var s := w.ctl.slot.value;
            Next(cfg, w, CallStart(backend, profile, address, true)) ==
            Reserved(w.(listens := w.listens[profile := address]), s.(address := address, profiles := [profile], state := Stopping),
                     profile, address, StopThenSpawn(s.process))
  {
  }

  /**
   A replacement whose calls succeed: the process that ran is dead, and a new one, the
   only one alive, serves exactly the profile at its address.
   */
  lemma AReplacementSwapsTheEngine(cfg: Config, w: World, backend: string, profile: string, address: string)
    requires Inv(cfg, w) && Serves(w, backend) && !Joinable(cfg, w, backend, address)
    ensures var after := Replaced(cfg, w, backend, profile, address);
            && after.ctl.slot == Some(Slot(backend, Some(w.nextProc), address, [profile], Running, None))
            && after.inflight == map[] && after.live == {w.nextProc} && BoundThere(after, Some(w.nextProc), address)
            && w.ctl.slot.value.process.Some? && w.ctl.slot.value.process.value !in after.live
  {
    StartReplaces(cfg, w, backend, profile, address);
    var id, started := w.ctl.ops + 1, Next(cfg, w, CallStart(backend, profile, address, true));
    CallStartKeepsInv(cfg, w, CallStart(backend, profile, address, true));
    assert started.inflight == map[id := InFlight(Operation(id, profile), address, StopThenSpawn(w.ctl.slot.value.process))];
    var stopped := Advance(started, started.inflight[id]);
    assert stopped.live == {} && stopped.inflight == map[id := InFlight(Operation(id, profile), address, Spawn)];
    var probed := Advance(stopped, stopped.inflight[id]);
    assert probed.live == {w.nextProc};
  }

  /** The call, and the four steps of its operation. */
  function Replaced(cfg: Config, w: World, backend: string, profile: string, address: string): World
    requires Steppable(w)
  {
    var started, id := Next(cfg, w, CallStart(backend, profile, address, true)), w.ctl.ops + 1;
    Completed(Completed(Completed(Completed(started, id), id), id), id)
  }

  /** An operation's pending call returns without error. */
  function Completed(w: World, id: OpId): World {
    if id in w.inflight then Advance(w, w.inflight[id]) else w
  }

  /** A conflict is the answer to every start that is not taken. */
  lemma StartIsRefusedIff(cfg: Config, w: World, backend: string, profile: string, address: string, replace: bool)
    requires Inv(cfg, w)
    ensures ReserveStart(w.ctl, cfg.BackendOf(backend), profile, address, replace).StartRefused? <==>
            w.ctl.slot.Some? &&
            (Busy(w) || w.ctl.slot.value.backend != backend || (!replace && !Joinable(cfg, w, backend, address)))
  {
  }

  // ------------------------------------------------------------------
  // Stop, reset, reload and status
  // ------------------------------------------------------------------

  /** A stop is taken exactly by a running engine that holds the profile, and stops the process only for its last one. */
  lemma StopIsTakenIff(cfg: Config, w: World, backend: string, profile: string)
    requires Inv(cfg, w)
    ensures var next := Next(cfg, w, CallStop(backend, profile));
            && (w.ctl.ops + 1 in next.inflight <==> Serves(w, backend) && Holds(w, backend, profile))
            && (w.ctl.ops + 1 !in next.inflight ==> next == w)
            && (w.ctl.ops + 1 in next.inflight ==>
                  var s := w.ctl.slot.value;
                  next == Reserved(w, s.(state := Stopping), profile, "",
                                   if s.profiles == [profile] then StopThenRelease(s.process) else Release))
  {
    if Holds(w, backend, profile) && |w.ctl.slot.value.profiles| == 1 {
      assert w.ctl.slot.value.profiles == [profile];
    }
  }

  /** A profile that is not held needs no stop; one that is held is refused while the slot is busy. */
  lemma StopIsAnswered(cfg: Config, w: World, backend: string, profile: string)
    requires Inv(cfg, w)
    ensures ReserveStop(w.ctl, backend, profile).StopNothing? <==> !Holds(w, backend, profile)
    ensures ReserveStop(w.ctl, backend, profile).StopRefused? <==> Holds(w, backend, profile) && Busy(w)
  {
  }

  /** A reset is taken by any slot that nothing is in flight on, failed and orphaned ones included, and is refused only then. */
  lemma ResetIsTakenIff(cfg: Config, w: World)
    requires Inv(cfg, w)
    ensures var next := Next(cfg, w, CallReset);
            && (w.ctl.ops + 1 in next.inflight <==> w.ctl.slot.Some? && w.inflight == map[])
            && (w.ctl.ops + 1 !in next.inflight ==> next == w)
            && (w.ctl.ops + 1 in next.inflight ==>
                  next == Reserved(w, w.ctl.slot.value.(state := Stopping), "", "", StopThenReset(w.ctl.slot.value.process)))
    ensures ReserveReset(w.ctl).StopRefused? <==> w.inflight != map[]
    ensures ReserveReset(w.ctl).StopNothing? <==> w.ctl.slot.None?
  {
  }

  /** A reset whose stop succeeds leaves an empty slot and nothing alive, whatever the slot was. */
  lemma AResetFreesTheSlot(cfg: Config, w: World)
    requires Inv(cfg, w) && w.inflight == map[]
    ensures var id := w.ctl.ops + 1;
            var after := Completed(Completed(Next(cfg, w, CallReset), id), id);
            after.ctl.slot == None && after.inflight == map[] && after.live == {}
  {
    ResetIsTakenIff(cfg, w);
    if w.ctl.slot.Some? {
      var id, taken := w.ctl.ops + 1, Next(cfg, w, CallReset);
      assert taken.inflight == map[id := InFlight(Operation(id, ""), "", StopThenReset(w.ctl.slot.value.process))];
      var stopped := Advance(taken, taken.inflight[id]);
      assert stopped.live == {} && stopped.inflight == map[id := InFlight(Operation(id, ""), "", DropSlot)];
    }
  }

  /** A reload is taken exactly by a running router of a backend that renders one file for all its profiles. */
  lemma ReloadIsTakenIff(cfg: Config, w: World, backend: string, batch: bool)
    requires Inv(cfg, w)
    ensures var next := Next(cfg, w, CallReload(backend, batch));
            && (w.ctl.ops + 1 in next.inflight <==> batch && backend !in cfg.exclusive && Serves(w, backend))
            && (w.ctl.ops + 1 !in next.inflight ==> next == w)
            && (w.ctl.ops + 1 in next.inflight ==>
                  var s := w.ctl.slot.value;
                  next == Reserved(w, s.(state := Stopping), s.profiles[0], s.address, RouterSpec(s.process)))
  {
  }

  /** Another backend, or one without such a file, needs no reload; a busy router refuses it. */
  lemma ReloadIsAnswered(cfg: Config, w: World, backend: string, batch: bool)
    requires Inv(cfg, w)
    ensures var d, router := ReserveReload(w.ctl, cfg.BackendOf(backend), batch), batch && backend !in cfg.exclusive;
            && (d.StopRefused? <==> router && w.ctl.slot.Some? && w.ctl.slot.value.backend == backend && Busy(w))
            && (d.StopNothing? <==> !(router && w.ctl.slot.Some? && w.ctl.slot.value.backend == backend))
  {
  }

  /** A status asks the process exactly for a held profile of a running engine, and otherwise reports the slot's own state. */
  lemma StatusIsAnswered(cfg: Config, w: World, backend: string, profile: string)
    requires Inv(cfg, w)
    ensures var answer := RuntimeStatus(w.ctl, backend, profile);
            if !Holds(w, backend, profile) then answer == Reported(Stopped)
            else if Busy(w) then answer == Reported(w.ctl.slot.value.state)
            else answer.AskProcess? && w.ctl.slot.value.process == Some(answer.process)
  {
  }

  /** An engine that dies on its own leaves the slot as it is: the process is asked, and every start and stop is taken as before. */
  lemma ADeadEngineKeepsItsSlot(cfg: Config, w: World, p: Proc)
    requires Inv(cfg, w) && p in w.live
    ensures var after := Next(cfg, w, Die(p));
            Inv(cfg, after) && after.live == {} && after.ctl == w.ctl && after.inflight == w.inflight
  {
    NextKeepsInv(cfg, w, Die(p));
    assert w.live == {p};
  }
}
