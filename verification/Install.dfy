/**
 Managed engine installs: the state document with its active and previous records,
 and the directories on disk. An install provisions a release into its directory
 and retires the one two generations back; a rollback swaps the two records.

 The resolver, the fetcher and the probe are inputs, as is where they fail.
 */
module Install {
  import opened Wrappers

  /** `payload` identifies what was unpacked, as a record's digest and source do. */
  datatype Record = Record(version: string, accel: string, dir: string, payload: nat)

  datatype State = State(active: Option<Record>, previous: Option<Record>)

  /** `dirs` maps each directory under the engine root to the payload in it. */
  datatype World = World(state: State, dirs: map<string, nat>)

  /** Where a release is installed, and which paths lie safely under the engine root. */
  datatype Site = Site(path: (string, string) -> string, managed: string -> bool)

  /** Where an install stops: the release or its payload is not usable, the move fails, or the document is not written. */
  datatype Fault = NoFault | AtFetch | AtMove | AtWrite

  /** `retires` says whether removing the oldest directory works; the source ignores it when it does not. */
  datatype Request =
    Request(version: string, accel: string, force: bool, upgrade: bool, payload: nat, retires: bool, fault: Fault)

  datatype Outcome = Changed | Unchanged | Refused

  /** The directory retention removes, when there is one. */
  function Retired(site: Site, state: State, keep: string): Option<string> {
    if state.previous.None? then None
    else
      var oldest := state.previous.value.dir;
      if oldest == "" || oldest == keep || (state.active.Some? && oldest == state.active.value.dir) || !site.managed(oldest)
      then None
      else Some(oldest)
  }

  function Without(dirs: map<string, nat>, gone: Option<string>): map<string, nat> {
    if gone.Some? then dirs - {gone.value} else dirs
  }

  /** The directories once a release was moved to its place and the oldest generation retired. */
  function Provisioned(site: Site, w: World, next: Record, retires: bool): map<string, nat> {
    Without(w.dirs[next.dir := next.payload], if retires then Retired(site, w.state, next.dir) else None)
  }

  function NewRecord(site: Site, req: Request): Record {
    Record(req.version, req.accel, site.path(req.version, req.accel), req.payload)
  }

  /** The release is the active one and nothing forces it to be installed again. */
  predicate Current(state: State, req: Request) {
    state.active.Some? && state.active.value.version == req.version && state.active.value.accel == req.accel && !req.force
  }

  function Installed(site: Site, w: World, req: Request): (World, Outcome) {
    var next := NewRecord(site, req);
    if req.upgrade && w.state.active.None? then (w, Refused)
    else if Current(w.state, req) then (w, Unchanged)
    else if req.fault.AtFetch? || !site.managed(next.dir) then (w, Refused)
    else if req.fault.AtMove? then (w.(dirs := w.dirs - {next.dir}), Refused)
    else if req.fault.AtWrite? then (w.(dirs := Provisioned(site, w, next, req.retires)), Refused)
    else (World(State(Some(next), w.state.active), Provisioned(site, w, next, req.retires)), Changed)
  }

  /** `usable` is what the probe says of the previous install. */
  function RolledBack(w: World, usable: bool, written: bool): (World, Outcome) {
    if w.state.previous.None? || !usable || !written then (w, Refused)
    else (w.(state := State(w.state.previous, w.state.active)), Changed)
  }

  class Installer {
    var active: Option<Record>
    var previous: Option<Record>
    var dirs: map<string, nat>

    constructor ()
      ensures Now() == Empty
    {
      active, previous, dirs := None, None, map[];
    }

    ghost function Now(): World
      reads this
    {
      World(State(active, previous), dirs)
    }

    method RunInstall(site: Site, req: Request) returns (outcome: Outcome)
      modifies this
      ensures (Now(), outcome) == Installed(site, old(Now()), req)
    {
      if req.upgrade && active.None? {
        return Refused;
      }
      if active.Some? && active.value.version == req.version && active.value.accel == req.accel && !req.force {
        return Unchanged;
      }
      if req.fault.AtFetch? {
        return Refused;
      }
      var next := Activate(site, req);
      if next.Err? {
        return Refused;
      }
      RetirePrevious(site, next.value.dir, req.retires);
      if req.fault.AtWrite? {
        return Refused;
      }
      active, previous := Some(next.value), active;
      outcome := Changed;
    }

    /** Replaces whatever is at the release's place by the staged payload. */
    method Activate(site: Site, req: Request) returns (next: Result<Record>)
      modifies this`dirs
      ensures next.Ok? <==> site.managed(NewRecord(site, req).dir) && !req.fault.AtMove?
      ensures next.Ok? ==> next.value == NewRecord(site, req) && dirs == old(dirs)[next.value.dir := req.payload]
      ensures next.Err? ==>
              dirs == if site.managed(NewRecord(site, req).dir) then old(dirs) - {NewRecord(site, req).dir} else old(dirs)
    {
      var final := site.path(req.version, req.accel);
      if !site.managed(final) {
        return Err;
      }
      dirs := dirs - {final};
      if req.fault.AtMove? {
        return Err;
      }
      dirs := dirs[final := req.payload];
      next := Ok(Record(req.version, req.accel, final, req.payload));
    }

    method RetirePrevious(site: Site, keep: string, works: bool)
      modifies this`dirs
      ensures dirs == Without(old(dirs), if works then Retired(site, State(active, previous), keep) else None)
    {
      if previous.None? || previous.value.dir == "" || previous.value.dir == keep {
        return;
      }
      if active.Some? && previous.value.dir == active.value.dir {
        return;
      }
      if !site.managed(previous.value.dir) {
        return;
      }
      if works {
        dirs := dirs - {previous.value.dir};
      }
    }

    method Rollback(usable: bool, written: bool) returns (outcome: Outcome)
      modifies this
      ensures (Now(), outcome) == RolledBack(old(Now()), usable, written)
    {
      if previous.None? || !usable || !written {
        return Refused;
      }
      active, previous := previous, active;
      outcome := Changed;
    }
  }

  // ------------------------------------------------------------------
  // Retention
  // ------------------------------------------------------------------

  const Empty := World(State(None, None), map[])

  function DirOf(record: Option<Record>): set<string> { if record.Some? then {record.value.dir} else {} }

  function Recorded(state: State): set<string> { DirOf(state.active) + DirOf(state.previous) }

  ghost predicate Managed(site: Site, record: Option<Record>) {
    record.Some? ==> record.value.dir != "" && site.managed(record.value.dir)
  }

  /** The directories on disk are exactly those of the two records, and a previous install has an active one. */
  ghost predicate Retains(site: Site, w: World) {
    && w.dirs.Keys == Recorded(w.state)
    && (w.state.previous.Some? ==> w.state.active.Some?)
    && Managed(site, w.state.active) && Managed(site, w.state.previous)
  }

  /** The empty path is not under the root. */
  ghost predicate Sane(site: Site) { !site.managed("") }

  datatype Step = DoInstall(req: Request) | DoRollback(usable: bool, written: bool)

  function Next(site: Site, w: World, step: Step): World {
    match step
    case DoInstall(req) => Installed(site, w, req).0
    case DoRollback(usable, written) => RolledBack(w, usable, written).0
  }

  function Run(site: Site, steps: seq<Step>): World {
    if steps == [] then Empty else Next(site, Run(site, steps[..|steps| - 1]), steps[|steps| - 1])
  }

  /** A step that does not break off between touching the disk and writing the document, and removes what it means to. */
  predicate Whole(step: Step) { step.DoInstall? ==> !step.req.fault.AtMove? && !step.req.fault.AtWrite? && step.req.retires }

  lemma InstallRetains(site: Site, w: World, req: Request)
    requires Sane(site) && Retains(site, w) && Whole(DoInstall(req))
    ensures Retains(site, Installed(site, w, req).0)
  {
  }

  /** An install whose removal fails keeps retention exactly when there was nothing to retire. */
  lemma InstallRetainsIff(site: Site, w: World, req: Request)
    requires Sane(site) && Retains(site, w) && Installed(site, w, req).1 == Changed
    ensures Retains(site, Installed(site, w, req).0) <==>
            req.retires || Retired(site, w.state, site.path(req.version, req.accel)).None?
  {
    var dir := site.path(req.version, req.accel);
    var gone := if req.retires then Retired(site, w.state, dir) else None;
    var after := Installed(site, w, req).0;
    assert after.dirs.Keys == w.dirs.Keys + {dir} - (if gone.Some? then {gone.value} else {});
    var oldest := Retired(site, w.state, dir);
    assert oldest.Some? ==> oldest.value in w.dirs.Keys && oldest.value !in Recorded(after.state);
    assert oldest.Some? && !req.retires ==> oldest.value in after.dirs.Keys;
  }

  /** Forced, repeated or back to an older version: every run of installs and rollbacks keeps exactly two generations. */
  lemma {:induction false} EveryRunRetains(site: Site, steps: seq<Step>)
    requires Sane(site) && forall i :: 0 <= i < |steps| ==> Whole(steps[i])
    ensures Retains(site, Run(site, steps))
  {
    if steps != [] {
      EveryRunRetains(site, steps[..|steps| - 1]);
      var w, step := Run(site, steps[..|steps| - 1]), steps[|steps| - 1];
      if step.DoInstall? {
        InstallRetains(site, w, step.req);
      }
    }
  }

  /** Two rollbacks restore the original state. */
  lemma TwoRollbacksRestore(site: Site, w: World)
    requires Retains(site, w)
    ensures var once := RolledBack(w, true, true);
            var twice := RolledBack(once.0, true, true);
            && Retains(site, once.0)
            && twice.0 == w
            && twice.1 == once.1 && (once.1 == Changed <==> w.state.previous.Some?)
  {
  }

  /**
   When an install changes anything, when it has nothing to do, and when it is refused.
   A forced one never finds the release current, and a refused one that never touched
   the disk leaves everything as it was.
   */
  lemma InstallAnswers(site: Site, w: World, req: Request)
    ensures var (after, outcome), active := Installed(site, w, req), w.state.active;
            && (outcome == Unchanged <==>
                active.Some? && active.value.version == req.version && active.value.accel == req.accel && !req.force)
            && (outcome == Changed <==>
                && (active.None? ==> !req.upgrade)
                && (active.Some? && active.value.version == req.version && active.value.accel == req.accel ==> req.force)
                && req.fault == NoFault && site.managed(site.path(req.version, req.accel)))
            && (outcome != Changed ==> after.state == w.state)
            && (outcome != Changed && (req.fault.NoFault? || req.fault.AtFetch?) ==> after == w)
            && (outcome == Changed ==>
                  && after.state.active == Some(Record(req.version, req.accel, site.path(req.version, req.accel), req.payload))
                  && after.state.previous == active)
  {
  }

  /** A rollback changes something exactly for a usable previous install, and never touches a directory. */
  lemma RollbackAnswers(w: World, usable: bool, written: bool)
    ensures var (after, outcome) := RolledBack(w, usable, written);
            && (outcome == Changed <==> w.state.previous.Some? && usable && written)
            && (outcome != Changed ==> after == w) && after.dirs == w.dirs && outcome != Unchanged
            && (outcome == Changed ==> after.state.active == w.state.previous && after.state.previous == w.state.active)
  {
  }

  // ------------------------------------------------------------------
  // Installs that break off
  // ------------------------------------------------------------------

  /** The install gets as far as touching the disk. */
  predicate Reaches(site: Site, w: World, req: Request) {
    && !(req.upgrade && w.state.active.None?) && !Current(w.state, req)
    && !req.fault.AtFetch? && site.managed(site.path(req.version, req.accel))
  }

  /** A move that fails loses the directory it was to replace, so retention survives exactly when no record names that one. */
  lemma FailedMoveRetainsIff(site: Site, w: World, req: Request)
    requires Retains(site, w) && Reaches(site, w, req) && req.fault.AtMove?
    ensures Retains(site, Installed(site, w, req).0) <==> site.path(req.version, req.accel) !in Recorded(w.state)
  {
    var after := Installed(site, w, req).0;
    assert after.dirs.Keys == w.dirs.Keys - {site.path(req.version, req.accel)};
  }

  /**
   A document that is not written leaves the new directory unrecorded and the
   oldest one retired, so retention survives exactly when the release went into a
   recorded directory and none was retired.
   */
  lemma FailedWriteRetainsIff(site: Site, w: World, req: Request)
    requires Retains(site, w) && Reaches(site, w, req) && req.fault.AtWrite?
    ensures var dir := site.path(req.version, req.accel);
            Retains(site, Installed(site, w, req).0) <==>
            dir in Recorded(w.state) && (!req.retires || Retired(site, w.state, dir).None?)
  {
    var dir := site.path(req.version, req.accel);
    var gone := if req.retires then Retired(site, w.state, dir) else None;
    var after := Installed(site, w, req).0;
    assert after.dirs.Keys == w.dirs.Keys + {dir} - (if gone.Some? then {gone.value} else {});
    assert gone.Some? ==> gone.value in w.dirs.Keys;
  }

  /** The first install of a release, with everything in order. */
  function Plain(version: string, accel: string, payload: nat): Request {
    Request(version, accel, false, false, payload, true, NoFault)
  }

  lemma FirstInstall(site: Site, version: string, accel: string, payload: nat)
    requires site.managed(site.path(version, accel))
    ensures var record := Record(version, accel, site.path(version, accel), payload);
            Run(site, [DoInstall(Plain(version, accel, payload))]) == World(State(Some(record), None), map[record.dir := payload])
  {
    var steps := [DoInstall(Plain(version, accel, payload))];
    assert steps[..0] == [];
  }

  lemma RunTwo(site: Site, a: Step, b: Step)
    ensures Run(site, [a, b]) == Next(site, Run(site, [a]), b)
  {
    assert [a, b][..1] == [a];
  }

  /** A forced install of the active release whose move fails leaves a record of a directory that is gone. */
  lemma AFailedMoveLosesTheActive(site: Site, version: string, accel: string, payload: nat)
    requires Sane(site) && site.managed(site.path(version, accel))
    ensures var w := Run(site, [DoInstall(Plain(version, accel, payload)),
                                DoInstall(Plain(version, accel, payload).(force := true, fault := AtMove))]);
            w.state.active.Some? && w.dirs == map[] && !Retains(site, w)
  {
    FirstInstall(site, version, accel, payload);
    RunTwo(site, DoInstall(Plain(version, accel, payload)),
           DoInstall(Plain(version, accel, payload).(force := true, fault := AtMove)));
  }

  /** A document that is not written leaves a directory no record names. */
  lemma AFailedWriteLeavesADirectory(site: Site, version: string, newer: string, accel: string, payload: nat, next: nat)
    requires Sane(site) && site.managed(site.path(version, accel)) && site.managed(site.path(newer, accel))
    requires newer != version && site.path(newer, accel) != site.path(version, accel)
    ensures var w := Run(site, [DoInstall(Plain(version, accel, payload)), DoInstall(Plain(newer, accel, next).(fault := AtWrite))]);
            site.path(newer, accel) in w.dirs && site.path(newer, accel) !in Recorded(w.state) && !Retains(site, w)
  {
    FirstInstall(site, version, accel, payload);
    RunTwo(site, DoInstall(Plain(version, accel, payload)), DoInstall(Plain(newer, accel, next).(fault := AtWrite)));
  }

  // ------------------------------------------------------------------
  // What a rollback brings back
  // ------------------------------------------------------------------

  /** The directory still holds the payload the record was written for. */
  ghost predicate Faithful(w: World, record: Record) { record.dir in w.dirs && w.dirs[record.dir] == record.payload }

  /** A rollback right after an install brings back the payload that was active, unless the install overwrote it. */
  lemma RollbackUndoesInstallIff(site: Site, w: World, req: Request)
    requires Sane(site) && Retains(site, w) && w.state.active.Some? && Faithful(w, w.state.active.value)
    requires Installed(site, w, req).1 == Changed
    ensures var back := RolledBack(Installed(site, w, req).0, true, true).0;
            && back.state.active == w.state.active
            && (Faithful(back, w.state.active.value) <==>
                site.path(req.version, req.accel) != w.state.active.value.dir || req.payload == w.state.active.value.payload)
  {
  }

  /** A forced install of the active release: rolling back restores its record, but not its payload. */
  lemma AForcedInstallOverwrites(site: Site, version: string, accel: string, payload: nat, next: nat)
    requires Sane(site) && site.managed(site.path(version, accel)) && payload != next
    ensures var w := Run(site, [DoInstall(Plain(version, accel, payload)),
                                DoInstall(Plain(version, accel, next).(force := true)),
                                DoRollback(true, true)]);
            w.state.active.Some? && w.state.active.value.payload == payload && !Faithful(w, w.state.active.value)
  {
    var one, two := DoInstall(Plain(version, accel, payload)), DoInstall(Plain(version, accel, next).(force := true));
    FirstInstall(site, version, accel, payload);
    RunTwo(site, one, two);
    assert [one, two, DoRollback(true, true)][..2] == [one, two];
  }

  ghost predicate Placed(site: Site, w: World, record: Option<Record>) {
    record.Some? ==> record.value.dir == site.path(record.value.version, record.value.accel) && Faithful(w, record.value)
  }

  /** Both records are where their release belongs, in two directories that hold their payloads. */
  ghost predicate Intact(site: Site, w: World) {
    && Placed(site, w, w.state.active) && Placed(site, w, w.state.previous)
    && (w.state.active.Some? && w.state.previous.Some? ==> w.state.active.value.dir != w.state.previous.value.dir)
  }

  ghost predicate OnePlaceEach(site: Site) {
    forall v, a, v', a' :: site.path(v, a) == site.path(v', a') ==> v == v' && a == a'
  }

  lemma InstallKeepsIntact(site: Site, w: World, req: Request)
    requires OnePlaceEach(site) && Intact(site, w) && !req.force && Whole(DoInstall(req))
    ensures Intact(site, Installed(site, w, req).0)
  {
  }

  /** As long as no install is forced, a rollback always has the payload it was recorded with. */
  lemma {:induction false} UnforcedRunsStayIntact(site: Site, steps: seq<Step>)
    requires OnePlaceEach(site)
    requires forall i :: 0 <= i < |steps| ==> Whole(steps[i]) && (steps[i].DoInstall? ==> !steps[i].req.force)
    ensures Intact(site, Run(site, steps))
  {
    if steps != [] {
      UnforcedRunsStayIntact(site, steps[..|steps| - 1]);
      var w, step := Run(site, steps[..|steps| - 1]), steps[|steps| - 1];
      if step.DoInstall? {
        InstallKeepsIntact(site, w, step.req);
      }
    }
  }
}
