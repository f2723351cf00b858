/**
 Downloads as a step system. Clients start and cancel, each transfer runs its own
 steps, a record is persisted as a snapshot under the lock and a write outside it,
 and the daemon may crash between any two steps; the next one reconciles the
 records it finds. A list of steps is one interleaving, over any number of
 restarts, and the theorems hold for every such list.

 A target only changes by the steps below, and a write or a rename that has
 returned survives a crash.
 */
module DownloadProtocol {
  import opened Wrappers
  import opened DownloadJobs

  /** Which of its persist calls a thread is in. */
  datatype Point = AtLaunch | AtBegin | AtEnd | AtStore

  /** Where a thread stands: in a persist call, before or after its snapshot, or between two of them. */
  datatype Stage =
    | Save(point: Point, snapshot: Option<Job>)
    | Spawned
    | Executing
    | Asked(offset: nat)
    | Staged
    | Landed
    | Executed(ending: Ending)
    | Leaving
  {
    /** Everything but the lone persist of a job that does not run. */
    predicate Transfers() { !(Save? && point == AtStore) }
  }

  /** A partial file: its length, and whether it lacks the beginning of its artifact. */
  datatype Part = Part(length: nat, torn: bool)

  /** The targets in place, the partial files, and which targets landed from a torn one. */
  datatype Disk = Disk(landed: set<Path>, parts: map<Path, Part>, torn: set<Path>)

  /** `records` are on disk too; `plans` and `renames` are the history of ids given out and renames done. */
  datatype World = World(
    table: Table,
    threads: map<Id, Stage>,
    records: map<Id, Job>,
    disk: Disk,
    todo: set<Id>,
    plans: map<Id, Plan>,
    renames: multiset<Id>)

  datatype Step =
    | Start(id: Id, plan: Plan)
    | FindPresent(id: Id, plan: Plan)
    | CancelCall(id: Id)
    | RemoveForced(id: Id)
    | Go(id: Id)
    | GoWrong(id: Id, ending: Ending)
    | Restart(id: Id)
    | Write(id: Id, bytes: nat)
    | Mismatch(id: Id)
    | CrashDaemon
    | Reconcile(id: Id)
    | LoseRecord(id: Id)

  const Boot := World(EmptyTable, map[], map[], Disk({}, map[], {}), {}, map[], multiset{})

  function At(w: World, id: Id, stage: Stage): World { w.(threads := w.threads[id := stage]) }

  /** The launch, and the thread that persists and then runs the job when it was registered. */
  function LaunchAt(w: World, id: Id, job: Job): World {
    if job.plan.target in w.table.active then w
    else At(w.(table := Launch(w.table, id, job)), id, Save(AtLaunch, None))
  }

  /** A job that is stored and persisted without running. */
  function StoreAt(w: World, id: Id, job: Job): World {
    At(w.(table := Restore(w.table, id, job)), id, Save(AtStore, None))
  }

  function AfterSave(w: World, id: Id, point: Point): World {
    match point
    case AtLaunch => At(w, id, Spawned)
    case AtBegin => At(w, id, Executing)
    case AtEnd => At(w, id, Leaving)
    case AtStore => w.(threads := w.threads - {id})
  }

  function WithPart(w: World, p: Path, part: Part): World { w.(disk := w.disk.(parts := w.disk.parts[p := part])) }

  function Discarded(w: World, p: Path): World { w.(disk := w.disk.(parts := w.disk.parts - {p})) }

  function Removed(w: World, p: Path): World {
    w.(disk := w.disk.(landed := w.disk.landed - {p}, torn := w.disk.torn - {p}))
  }

  function SizeOf(w: World, p: Path): nat { if p in w.disk.parts then w.disk.parts[p].length else 0 }

  /** The file once it is opened: cut back to nothing, appended to, or created when it is gone, though more was asked for. */
  function Opened(w: World, p: Path, offset: nat): Part {
    if offset == 0 then Part(0, false) else if p in w.disk.parts then w.disk.parts[p] else Part(0, true)
  }

  function OpenAt(w: World, id: Id, p: Path, offset: nat): World {
    At(WithPart(w, p, Opened(w, p, offset)), id, Staged)
  }

  /** The partial file becomes the target. */
  function Land(w: World, id: Id, p: Path): World
    requires p in w.disk.parts
  {
    var d := w.disk;
    At(w.(disk := Disk(d.landed + {p}, d.parts - {p}, if d.parts[p].torn then d.torn + {p} else d.torn - {p}),
          renames := w.renames + multiset{id}), id, Landed)
  }

  /** The digest check and the rename: a file that is gone fails, and a digest tells a torn one from the artifact. */
  function Finish(w: World, id: Id, plan: Plan): World {
    if plan.target !in w.disk.parts then At(w, id, Executed(Errored))
    else if plan.digest && w.disk.parts[plan.target].torn then At(Discarded(w, plan.target), id, Executed(Errored))
    else Land(w, id, plan.target)
  }

  /** The next step of a thread, with every disk operation succeeding. */
  function Advance(w: World, id: Id): World
    requires id in w.threads && id in w.table.jobs
  {
    var job := w.table.jobs[id];
    match w.threads[id]
    case Save(point, None) => At(w, id, Save(point, Some(job)))
    case Save(point, Some(record)) => AfterSave(w.(records := w.records[id := record]), id, point)
    case Spawned => At(w.(table := Begin(w.table, id)), id, Save(AtBegin, None))
    case Executing => At(w, id, Asked(SizeOf(w, job.plan.target)))
    case Asked(offset) => OpenAt(w, id, job.plan.target, offset)
    case Staged => Finish(w, id, job.plan)
    case Landed => At(w, id, Executed(Fine))
    case Executed(ending) => At(w.(table := End(w.table, id, ending)), id, Save(AtEnd, None))
    case Leaving => w.(table := ClearActive(w.table, id), threads := w.threads - {id})
  }

  /** The write is lost, or the transfer ends with `ending` before or after the rename. */
  function Falter(w: World, id: Id, ending: Ending): World
    requires id in w.threads
  {
    match w.threads[id]
    case Save(point, Some(_)) => AfterSave(w, id, point)
    case Executing => if ending.Fine? then w else At(w, id, Executed(ending))
    case Asked(_) => if ending.Fine? then w else At(w, id, Executed(ending))
    case Staged => if ending.Fine? then w else At(w, id, Executed(ending))
    case Landed => At(w, id, Executed(ending))
    case _ => w
  }

  /** A finished or landed record discards the partial file of its target, whoever is filling it. */
  function ReconcileRecord(w: World, id: Id, record: Job): World {
    if record.phase.IsTerminal() then
      Discarded(w, record.plan.target).(table := Restore(w.table, id, record))
    else if record.plan.target in w.disk.landed then
      StoreAt(Discarded(w, record.plan.target), id, record.(phase := Completed))
    else LaunchAt(w, id, record.(phase := Queued))
  }

  /** Bytes written to a file that is gone are lost with it. */
  function Fill(w: World, p: Path, bytes: nat): World {
    if p in w.disk.parts then WithPart(w, p, w.disk.parts[p].(length := w.disk.parts[p].length + bytes)) else w
  }

  /**
   `Go` at an asked offset is a reply that resumes there, `Restart` one that starts over,
   `Write` the arrival of bytes, and `Mismatch` a digest that is wrong for another reason.
   */
  function Next(w: World, step: Step): World {
    match step
    case Start(id, plan) =>
      if id in w.plans then w else LaunchAt(w.(plans := w.plans[id := plan]), id, Job(plan, Queued))
    case FindPresent(id, plan) =>
      if id in w.plans || plan.force || plan.target !in w.disk.landed then w
      else StoreAt(w.(plans := w.plans[id := plan]), id, Job(plan, AlreadyDownloaded))
    case CancelCall(id) => w.(table := Cancel(w.table, id))
    case RemoveForced(id) =>
      if id in w.threads && id in w.table.jobs && w.threads[id].Staged? && w.table.jobs[id].plan.force
      then Removed(w, w.table.jobs[id].plan.target)
      else w
    case Go(id) => if id in w.threads && id in w.table.jobs then Advance(w, id) else w
    case GoWrong(id, ending) => if id in w.threads then Falter(w, id, ending) else w
    case Restart(id) =>
      if id in w.threads && id in w.table.jobs && w.threads[id].Asked? then OpenAt(w, id, w.table.jobs[id].plan.target, 0) else w
    case Write(id, bytes) =>
      if id in w.threads && id in w.table.jobs && w.threads[id].Staged? then Fill(w, w.table.jobs[id].plan.target, bytes) else w
    case Mismatch(id) =>
      if id in w.threads && id in w.table.jobs && w.threads[id].Staged?
      then At(Discarded(w, w.table.jobs[id].plan.target), id, Executed(Errored))
      else w
    case CrashDaemon => w.(table := EmptyTable, threads := map[], todo := w.records.Keys)
    case Reconcile(id) =>
      if id in w.todo && id in w.records then ReconcileRecord(w.(todo := w.todo - {id}), id, w.records[id]) else w
    case LoseRecord(id) =>
      if id in w.todo then w.(todo := w.todo - {id}, records := w.records - {id}) else w
  }

  function Run(w: World, steps: seq<Step>): World {
    if steps == [] then w else Next(Run(w, steps[..|steps| - 1]), steps[|steps| - 1])
  }

  // ------------------------------------------------------------------
  // The tables
  // ------------------------------------------------------------------

  /** The phases a job can have while its thread is at a stage. */
  ghost predicate Fits(stage: Stage, phase: Phase) {
    match stage
    case Save(AtLaunch, _) => phase.Queued? || phase.Cancelled?
    case Spawned => phase.Queued? || phase.Cancelled?
    case Save(AtBegin, _) => phase.Running? || phase.Cancelled?
    case Executing => phase.Running? || phase.Cancelled?
    case Asked(_) => phase.Running? || phase.Cancelled?
    case Staged => phase.Running? || phase.Cancelled?
    case Landed => phase.Running? || phase.Cancelled?
    case Executed(_) => phase.Running? || phase.Cancelled?
    case _ => phase.IsTerminal()
  }

  /** A snapshot is of this job, and a terminal one is what the job still is. */
  ghost predicate Snaps(record: Job, job: Job) {
    record.plan == job.plan && (record.phase.IsTerminal() ==> record == job)
  }

  /** A snapshot never undoes a finished record. */
  ghost predicate Newer(w: World, id: Id, snapshot: Job) {
    id in w.records && w.records[id].phase.IsTerminal() ==> snapshot.phase.IsTerminal()
  }

  /** A thread's job exists, suits its stage, and owns its target while it transfers. */
  ghost predicate ThreadOk(w: World, id: Id)
    requires id in w.threads
  {
    && id in w.table.jobs && Fits(w.threads[id], w.table.jobs[id].phase)
    && (w.threads[id].Save? && w.threads[id].snapshot.Some? ==>
          Snaps(w.threads[id].snapshot.value, w.table.jobs[id]) && Newer(w, id, w.threads[id].snapshot.value))
    && (w.threads[id].Transfers() ==>
          w.table.jobs[id].plan.target in w.table.active && w.table.active[w.table.jobs[id].plan.target] == id)
  }

  /** A job keeps the plan its id was given out for, and has a live transfer until it is finished. */
  ghost predicate JobOk(w: World, id: Id)
    requires id in w.table.jobs
  {
    && id in w.plans && w.table.jobs[id].plan == w.plans[id] && id !in w.todo
    && (!w.table.jobs[id].phase.IsTerminal() ==> id in w.threads && w.threads[id].Transfers())
  }

  ghost predicate RecordOk(w: World, id: Id)
    requires id in w.records
  {
    && id in w.plans && w.records[id].plan == w.plans[id]
    && (id in w.table.jobs ==> Snaps(w.records[id], w.table.jobs[id]))
  }

  /** An owner of a target is a known job for that target with a live transfer. */
  ghost predicate ActiveOk(w: World, p: Path)
    requires p in w.table.active
  {
    var id := w.table.active[p];
    id in w.table.jobs && w.table.jobs[id].plan.target == p && id in w.threads && w.threads[id].Transfers()
  }

  ghost predicate Orderly(w: World) {
    && (forall id :: id in w.threads ==> ThreadOk(w, id))
    && (forall id :: id in w.table.jobs ==> JobOk(w, id))
    && (forall id :: id in w.records ==> RecordOk(w, id))
    && (forall p :: p in w.table.active ==> ActiveOk(w, p))
    && (forall id :: id in w.todo ==> id in w.records)
  }

  /** LaunchKeepsOrder for the threads and the owners. */
  lemma LaunchKeepsThreads(w: World, id: Id, job: Job)
    requires Orderly(w) && id !in w.table.jobs && id !in w.todo
    requires id in w.plans && job.plan == w.plans[id] && job.phase == Queued
    ensures var after := LaunchAt(w, id, job);
            && (forall i :: i in after.threads ==> ThreadOk(after, i))
            && (forall p :: p in after.table.active ==> ActiveOk(after, p))
  {
    var after := LaunchAt(w, id, job);
    forall i | i in after.threads ensures ThreadOk(after, i) {
      assert i != id ==> ThreadOk(w, i);
    }
    forall p | p in after.table.active ensures ActiveOk(after, p) {
      assert p in w.table.active ==> ActiveOk(w, p);
    }
  }

  lemma LaunchKeepsOrder(w: World, id: Id, job: Job)
    requires Orderly(w) && id !in w.table.jobs && id !in w.todo
    requires id in w.plans && job.plan == w.plans[id] && job.phase == Queued
    requires id in w.records ==> !w.records[id].phase.IsTerminal()
    ensures Orderly(LaunchAt(w, id, job))
  {
    var after := LaunchAt(w, id, job);
    LaunchKeepsThreads(w, id, job);
    forall i | i in after.table.jobs ensures JobOk(after, i) {
      assert i != id ==> JobOk(w, i);
    }
    forall i | i in after.records ensures RecordOk(after, i) {
      assert RecordOk(w, i);
    }
  }

  lemma StoreKeepsOrder(w: World, id: Id, job: Job)
    requires Orderly(w) && id !in w.table.jobs && id !in w.todo
    requires id in w.plans && job.plan == w.plans[id] && job.phase.IsTerminal()
    requires id in w.records ==> !w.records[id].phase.IsTerminal()
    ensures Orderly(StoreAt(w, id, job))
  {
    var after := StoreAt(w, id, job);
    forall i | i in after.threads ensures ThreadOk(after, i) {
      assert i != id ==> ThreadOk(w, i);
    }
    forall i | i in after.table.jobs ensures JobOk(after, i) {
      assert i != id ==> JobOk(w, i);
    }
    forall p | p in after.table.active ensures ActiveOk(after, p) {
      assert p in w.table.active ==> ActiveOk(w, p);
    }
    forall i | i in after.records ensures RecordOk(after, i) {
      assert RecordOk(w, i);
    }
  }

  /** A thread moves on and its job changes phase, but never from a terminal one. */
  lemma MoveKeepsOrder(w: World, id: Id, phase: Phase, stage: Stage)
    requires Orderly(w) && id in w.threads && id in w.table.jobs
    requires Fits(stage, phase) && stage.Transfers() == w.threads[id].Transfers()
    requires w.table.jobs[id].phase.IsTerminal() ==> phase == w.table.jobs[id].phase
    requires stage.Save? && stage.snapshot.Some? ==> stage.snapshot.value == Job(w.table.jobs[id].plan, phase)
    ensures Orderly(At(w.(table := w.table.WithPhase(id, phase)), id, stage))
  {
    var after := At(w.(table := w.table.WithPhase(id, phase)), id, stage);
    assert ThreadOk(w, id) && JobOk(w, id);
    forall i | i in after.threads ensures ThreadOk(after, i) {
      assert i != id ==> ThreadOk(w, i);
    }
    forall i | i in after.table.jobs ensures JobOk(after, i) {
      assert i != id ==> JobOk(w, i);
    }
    forall p | p in after.table.active ensures ActiveOk(after, p) {
      assert ActiveOk(w, p);
    }
    forall i | i in after.records ensures RecordOk(after, i) {
      assert RecordOk(w, i);
    }
  }

  /** A stage change alone. */
  lemma StageKeepsOrder(w: World, id: Id, stage: Stage)
    requires Orderly(w) && id in w.threads && id in w.table.jobs
    requires Fits(stage, w.table.jobs[id].phase) && stage.Transfers() == w.threads[id].Transfers()
    requires stage.Save? && stage.snapshot.Some? ==> stage.snapshot.value == w.table.jobs[id]
    ensures Orderly(At(w, id, stage))
  {
    MoveKeepsOrder(w, id, w.table.jobs[id].phase, stage);
    assert w.table.WithPhase(id, w.table.jobs[id].phase) == w.table;
  }

  lemma WriteKeepsOrder(w: World, id: Id, record: Job)
    requires Orderly(w) && id in w.table.jobs && Snaps(record, w.table.jobs[id])
    requires id in w.threads && w.threads[id].Save? && w.threads[id].snapshot == Some(record)
    ensures Orderly(w.(records := w.records[id := record]))
  {
    var after := w.(records := w.records[id := record]);
    assert forall i :: i in w.table.jobs ==> JobOk(w, i);
    forall i | i in after.records ensures RecordOk(after, i) {
      assert i != id ==> RecordOk(w, i);
    }
    assert forall i :: i in w.threads ==> ThreadOk(w, i);
    assert forall p :: p in w.table.active ==> ActiveOk(w, p);
  }

  lemma LeaveKeepsOrder(w: World, id: Id)
    requires Orderly(w) && id in w.threads && w.threads[id].Leaving?
    ensures Orderly(Advance(w, id))
  {
    var after := Advance(w, id);
    assert ThreadOk(w, id);
    forall i | i in after.threads ensures ThreadOk(after, i) {
      assert ThreadOk(w, i);
    }
    forall i | i in after.table.jobs ensures JobOk(after, i) {
      assert JobOk(w, i);
    }
    forall p | p in after.table.active ensures ActiveOk(after, p) {
      assert ActiveOk(w, p);
    }
    forall i | i in after.records ensures RecordOk(after, i) {
      assert RecordOk(w, i);
    }
  }

  lemma StoredKeepsOrder(w: World, id: Id)
    requires Orderly(w) && id in w.threads && !w.threads[id].Transfers()
    ensures Orderly(w.(threads := w.threads - {id}))
  {
    var after := w.(threads := w.threads - {id});
    assert ThreadOk(w, id);
    forall i | i in after.table.jobs ensures JobOk(after, i) {
      assert JobOk(w, i);
    }
    forall p | p in after.table.active ensures ActiveOk(after, p) {
      assert ActiveOk(w, p);
    }
    forall i | i in after.threads ensures ThreadOk(after, i) {
      assert ThreadOk(w, i);
    }
    forall i | i in after.records ensures RecordOk(after, i) {
      assert RecordOk(w, i);
    }
  }

  lemma AfterSaveKeepsOrder(w: World, id: Id)
    requires Orderly(w) && id in w.threads && w.threads[id].Save?
    ensures Orderly(AfterSave(w, id, w.threads[id].point))
  {
    assert ThreadOk(w, id);
    match w.threads[id].point
    case AtLaunch => StageKeepsOrder(w, id, Spawned);
    case AtBegin => StageKeepsOrder(w, id, Executing);
    case AtEnd => StageKeepsOrder(w, id, Leaving);
    case AtStore => StoredKeepsOrder(w, id);
  }

  /** The two worlds differ at most in targets, partial files and renames. */
  ghost predicate SameTables(w: World, after: World) {
    after == w.(disk := after.disk, renames := after.renames)
  }

  /** What happens to targets and partial files touches no table. */
  lemma DiskKeepsOrder(w: World, after: World)
    requires Orderly(w) && SameTables(w, after)
    ensures Orderly(after)
  {
    assert forall i :: i in w.threads ==> ThreadOk(w, i) && ThreadOk(after, i);
    assert forall i :: i in w.table.jobs ==> JobOk(w, i) && JobOk(after, i);
    assert forall i :: i in w.records ==> RecordOk(w, i) && RecordOk(after, i);
    assert forall p :: p in w.table.active ==> ActiveOk(w, p) && ActiveOk(after, p);
  }

  /** A transfer's step on the disk, to a stage its job's phase suits. */
  lemma DiskStageKeepsOrder(w: World, disk: World, id: Id, stage: Stage)
    requires Orderly(w) && SameTables(w, disk) && id in w.threads && id in w.table.jobs
    requires Fits(stage, w.table.jobs[id].phase) && stage.Transfers() == w.threads[id].Transfers() && !stage.Save?
    ensures Orderly(At(disk, id, stage))
  {
    DiskKeepsOrder(w, disk);
    StageKeepsOrder(disk, id, stage);
  }

  lemma FinishKeepsOrder(w: World, id: Id)
    requires Orderly(w) && id in w.threads && id in w.table.jobs && w.threads[id].Staged?
    ensures Orderly(Finish(w, id, w.table.jobs[id].plan))
  {
    assert ThreadOk(w, id);
    var p, after := w.table.jobs[id].plan.target, Finish(w, id, w.table.jobs[id].plan);
    var disk := w.(disk := after.disk, renames := after.renames);
    DiskStageKeepsOrder(w, disk, id, after.threads[id]);
    assert after == At(disk, id, after.threads[id]);
  }

  lemma AdvanceKeepsOrder(w: World, id: Id)
    requires Orderly(w) && id in w.threads && id in w.table.jobs
    ensures Orderly(Advance(w, id))
  {
    var job := w.table.jobs[id];
    assert ThreadOk(w, id);
    match w.threads[id]
    case Save(point, None) => StageKeepsOrder(w, id, Save(point, Some(job)));
    case Save(point, Some(record)) =>
      WriteKeepsOrder(w, id, record);
      AfterSaveKeepsOrder(w.(records := w.records[id := record]), id);
    case Spawned =>
      MoveKeepsOrder(w, id, if job.phase.Cancelled? then Cancelled else Running, Save(AtBegin, None));
      assert w.table.WithPhase(id, job.phase) == w.table;
    case Executing => StageKeepsOrder(w, id, Asked(SizeOf(w, job.plan.target)));
    case Asked(offset) =>
      DiskStageKeepsOrder(w, WithPart(w, job.plan.target, Opened(w, job.plan.target, offset)), id, Staged);
    case Staged => FinishKeepsOrder(w, id);
    case Landed => StageKeepsOrder(w, id, Executed(Fine));
    case Executed(ending) => MoveKeepsOrder(w, id, End(w.table, id, ending).jobs[id].phase, Save(AtEnd, None));
    case Leaving => LeaveKeepsOrder(w, id);
  }

  lemma FalterKeepsOrder(w: World, id: Id, ending: Ending)
    requires Orderly(w) && id in w.threads
    ensures Orderly(Falter(w, id, ending))
  {
    assert ThreadOk(w, id);
    match w.threads[id]
    case Save(point, Some(_)) => AfterSaveKeepsOrder(w, id);
    case Executing =>
      if !ending.Fine? {
        StageKeepsOrder(w, id, Executed(ending));
      }
    case Asked(_) =>
      if !ending.Fine? {
        StageKeepsOrder(w, id, Executed(ending));
      }
    case Staged =>
      if !ending.Fine? {
        StageKeepsOrder(w, id, Executed(ending));
      }
    case Landed => StageKeepsOrder(w, id, Executed(ending));
    case _ =>
  }

  lemma CancelKeepsOrder(w: World, id: Id)
    requires Orderly(w)
    ensures Orderly(w.(table := Cancel(w.table, id)))
  {
    if id in w.table.jobs && !w.table.jobs[id].phase.IsTerminal() {
      assert JobOk(w, id) && ThreadOk(w, id);
      var after := w.(table := Cancel(w.table, id));
      forall i | i in after.threads ensures ThreadOk(after, i) {
        assert ThreadOk(w, i);
      }
      forall i | i in after.table.jobs ensures JobOk(after, i) {
        assert JobOk(w, i);
      }
      forall p | p in after.table.active ensures ActiveOk(after, p) {
        assert ActiveOk(w, p);
      }
      forall i | i in after.records ensures RecordOk(after, i) {
        assert RecordOk(w, i);
      }
    }
  }

  lemma CrashKeepsOrder(w: World)
    requires Orderly(w)
    ensures Orderly(Next(w, CrashDaemon))
  {
    assert forall i :: i in w.records ==> RecordOk(w, i);
  }

  /** A new id, before its job is registered. */
  lemma PlanKeepsOrder(w: World, id: Id, plan: Plan)
    requires Orderly(w) && id !in w.plans
    ensures Orderly(w.(plans := w.plans[id := plan]))
    ensures id !in w.table.jobs && id !in w.records && id !in w.todo
  {
    var after := w.(plans := w.plans[id := plan]);
    assert forall i :: i in w.threads ==> ThreadOk(w, i) && ThreadOk(after, i);
    assert forall i :: i in w.table.jobs ==> JobOk(w, i) && JobOk(after, i);
    assert forall i :: i in w.records ==> RecordOk(w, i) && RecordOk(after, i);
    assert forall p :: p in w.table.active ==> ActiveOk(w, p) && ActiveOk(after, p);
  }

  /** A record taken off the list, and perhaps dropped. */
  lemma TakeKeepsOrder(w: World, id: Id)
    requires Orderly(w) && id in w.todo
    ensures Orderly(w.(todo := w.todo - {id})) && Orderly(w.(todo := w.todo - {id}, records := w.records - {id}))
    ensures id in w.records && RecordOk(w, id) && id !in w.table.jobs
  {
    assert forall i :: i in w.table.jobs ==> JobOk(w, i);
    assert forall i :: i in w.threads ==> ThreadOk(w, i);
    assert forall i :: i in w.records ==> RecordOk(w, i);
    assert forall p :: p in w.table.active ==> ActiveOk(w, p);
  }

  lemma ReconcileKeepsOrder(w: World, id: Id)
    requires Orderly(w) && id in w.todo
    ensures Orderly(Next(w, Reconcile(id)))
  {
    TakeKeepsOrder(w, id);
    var taken, record := w.(todo := w.todo - {id}), w.records[id];
    var discarded := Discarded(taken, record.plan.target);
    DiskKeepsOrder(taken, discarded);
    if record.phase.IsTerminal() {
      RestoreKeepsOrder(discarded, id);
    } else if record.plan.target in w.disk.landed {
      StoreKeepsOrder(discarded, id, record.(phase := Completed));
    } else {
      LaunchKeepsOrder(taken, id, record.(phase := Queued));
    }
  }

  lemma RestoreKeepsOrder(w: World, id: Id)
    requires Orderly(w) && id !in w.table.jobs && id !in w.todo && id in w.records && w.records[id].phase.IsTerminal()
    ensures Orderly(w.(table := Restore(w.table, id, w.records[id])))
  {
    assert RecordOk(w, id);
    var after := w.(table := Restore(w.table, id, w.records[id]));
    forall i | i in after.threads ensures ThreadOk(after, i) {
      assert ThreadOk(w, i);
    }
    forall i | i in after.table.jobs ensures JobOk(after, i) {
      assert i != id ==> JobOk(w, i);
    }
    forall p | p in after.table.active ensures ActiveOk(after, p) {
      assert ActiveOk(w, p);
    }
    forall i | i in after.records ensures RecordOk(after, i) {
      assert RecordOk(w, i);
    }
  }

  lemma DiskStepKeepsOrder(w: World, step: Step)
    requires Orderly(w) && (step.RemoveForced? || step.Restart? || step.Write? || step.Mismatch?)
    ensures Orderly(Next(w, step))
  {
    var id := step.id;
    if step.RemoveForced? || step.Write? {
      DiskKeepsOrder(w, Next(w, step));
    } else if id in w.threads && id in w.table.jobs {
      assert ThreadOk(w, id);
      if step.Restart? && w.threads[id].Asked? {
        DiskStageKeepsOrder(w, WithPart(w, w.table.jobs[id].plan.target, Part(0, false)), id, Staged);
      } else if step.Mismatch? && w.threads[id].Staged? {
        DiskStageKeepsOrder(w, Discarded(w, w.table.jobs[id].plan.target), id, Executed(Errored));
      }
    }
  }

  lemma NextKeepsOrder(w: World, step: Step)
    requires Orderly(w)
    ensures Orderly(Next(w, step))
  {
    match step
    case Start(id, plan) =>
      if id !in w.plans {
        PlanKeepsOrder(w, id, plan);
        LaunchKeepsOrder(w.(plans := w.plans[id := plan]), id, Job(plan, Queued));
      }
    case FindPresent(id, plan) =>
      if id !in w.plans {
        PlanKeepsOrder(w, id, plan);
        StoreKeepsOrder(w.(plans := w.plans[id := plan]), id, Job(plan, AlreadyDownloaded));
      }
    case CancelCall(id) => CancelKeepsOrder(w, id);
    case Go(id) =>
      if id in w.threads && id in w.table.jobs {
        AdvanceKeepsOrder(w, id);
      }
    case GoWrong(id, ending) =>
      if id in w.threads {
        FalterKeepsOrder(w, id, ending);
      }
    case CrashDaemon => CrashKeepsOrder(w);
    case Reconcile(id) =>
      if id in w.todo {
        ReconcileKeepsOrder(w, id);
      }
    case LoseRecord(id) =>
      if id in w.todo {
        TakeKeepsOrder(w, id);
      }
    case _ => DiskStepKeepsOrder(w, step);
  }

  lemma {:induction false} EveryRunIsOrderly(steps: seq<Step>)
    ensures Orderly(Run(Boot, steps))
  {
    if steps != [] {
      EveryRunIsOrderly(steps[..|steps| - 1]);
      NextKeepsOrder(Run(Boot, steps[..|steps| - 1]), steps[|steps| - 1]);
    }
  }

  ghost predicate Transferring(w: World, id: Id, p: Path) {
    id in w.threads && w.threads[id].Transfers() && id in w.table.jobs && w.table.jobs[id].plan.target == p
  }

  /** The owner of a target is the one job transferring to it. */
  ghost predicate OneTransfer(w: World, p: Path) {
    && (forall one, other :: Transferring(w, one, p) && Transferring(w, other, p) ==> one == other)
    && (p in w.table.active ==> Transferring(w, w.table.active[p], p))
    && (forall id :: Transferring(w, id, p) ==> p in w.table.active)
  }

  lemma OrderMeansOneTransfer(w: World, p: Path)
    requires Orderly(w)
    ensures OneTransfer(w, p)
  {
    forall id | Transferring(w, id, p) ensures p in w.table.active && w.table.active[p] == id {
      assert ThreadOk(w, id);
    }
    if p in w.table.active {
      assert ActiveOk(w, p);
    }
  }

  /**
   In every run: one transfer per target, every owner of a target is a known job
   for it, and every queued or running job has a live transfer.
   */
  lemma OneTransferPerTarget(steps: seq<Step>, p: Path, id: Id)
    ensures OneTransfer(Run(Boot, steps), p)
    ensures var w := Run(Boot, steps);
            id in w.table.jobs && !w.table.jobs[id].phase.IsTerminal() ==>
              Transferring(w, id, w.table.jobs[id].plan.target)
  {
    EveryRunIsOrderly(steps);
    var w := Run(Boot, steps);
    OrderMeansOneTransfer(w, p);
    assert id in w.table.jobs ==> JobOk(w, id);
  }

  lemma AdvanceKeepsTerminal(w: World, other: Id, id: Id)
    requires Orderly(w) && other in w.threads && other in w.table.jobs
    requires id in w.table.jobs && w.table.jobs[id].phase.IsTerminal()
    ensures id in Advance(w, other).table.jobs && Advance(w, other).table.jobs[id] == w.table.jobs[id]
  {
    assert ThreadOk(w, other);
  }

  /** Until the daemon dies, a finished job stays exactly as it is. */
  lemma TerminalJobNeverChanges(w: World, step: Step, id: Id)
    requires Orderly(w) && !step.CrashDaemon?
    requires id in w.table.jobs && w.table.jobs[id].phase.IsTerminal()
    ensures id in Next(w, step).table.jobs && Next(w, step).table.jobs[id] == w.table.jobs[id]
  {
    assert JobOk(w, id);
    if step.id != id {
      ElsewhereIsUntouched(w, step, id);
    } else if step.Go? && id in w.threads {
      AdvanceKeepsTerminal(w, id, id);
    } else if step.GoWrong? && id in w.threads {
      assert Falter(w, id, step.ending).table == w.table;
    }
  }

  // ------------------------------------------------------------------
  // Crash safety
  // ------------------------------------------------------------------

  /** No forced download of this target was ever asked for. */
  ghost predicate Calm(w: World, p: Path) {
    forall id :: id in w.plans && w.plans[id].target == p ==> !w.plans[id].force
  }

  /** A job that reports success has its target on disk. */
  ghost predicate Held(w: World, job: Job) {
    Calm(w, job.plan.target) && job.phase.Succeeded() ==> job.plan.target in w.disk.landed
  }

  /** Stages only a thread that is done renaming can be at. */
  predicate Past(stage: Stage) {
    stage.Landed? || stage.Executed? || stage.Leaving? || (stage.Save? && (stage.point == AtEnd || stage.point == AtStore))
  }

  /** A transfer that landed has its target on disk, and none renames twice. */
  ghost predicate RenamedOnce(w: World, id: Id)
    requires id in w.plans
  {
    Calm(w, w.plans[id].target) ==>
      && w.renames[id] <= 1
      && (w.renames[id] == 1 ==> w.plans[id].target in w.disk.landed && (id in w.threads ==> Past(w.threads[id])))
      && (id in w.threads && (w.threads[id].Landed? || w.threads[id] == Executed(Fine)) ==> w.plans[id].target in w.disk.landed)
  }

  ghost predicate Safe(w: World, id: Id) {
    && (id in w.table.jobs ==> Held(w, w.table.jobs[id]))
    && (id in w.records ==> Held(w, w.records[id]))
    && (if id in w.plans then RenamedOnce(w, id) else w.renames[id] == 0)
  }

  /** Ids keep their plans, and only a forced download takes a target away. */
  ghost predicate Grows(w: World, after: World) {
    && (forall id :: id in w.plans ==> id in after.plans && after.plans[id] == w.plans[id])
    && (forall p :: p in w.disk.landed && Calm(after, p) ==> p in after.disk.landed)
  }

  lemma AdvanceGrows(w: World, id: Id)
    requires id in w.threads && id in w.table.jobs
    ensures Advance(w, id).plans == w.plans && w.disk.landed <= Advance(w, id).disk.landed
    ensures Grows(w, Advance(w, id))
  {
  }

  lemma NextKeepsPlans(w: World, step: Step)
    ensures forall id :: id in w.plans ==> id in Next(w, step).plans && Next(w, step).plans[id] == w.plans[id]
  {
    if step.Go? && step.id in w.threads && step.id in w.table.jobs {
      AdvanceGrows(w, step.id);
    }
  }

  lemma OnlyForceRemoves(w: World, step: Step)
    requires !step.RemoveForced?
    ensures w.disk.landed <= Next(w, step).disk.landed
  {
    if step.Go? && step.id in w.threads && step.id in w.table.jobs {
      AdvanceGrows(w, step.id);
    }
  }

  lemma NextGrows(w: World, step: Step)
    requires step.RemoveForced? && step.id in w.table.jobs ==> JobOk(w, step.id)
    ensures Grows(w, Next(w, step))
  {
    NextKeepsPlans(w, step);
    if !step.RemoveForced? {
      OnlyForceRemoves(w, step);
    }
  }

  lemma CalmBefore(w: World, after: World, p: Path)
    requires Grows(w, after) && Calm(after, p)
    ensures Calm(w, p)
  {
    forall id | id in w.plans && w.plans[id].target == p ensures !w.plans[id].force {
      assert after.plans[id] == w.plans[id];
    }
  }

  lemma HeldStays(w: World, after: World, job: Job)
    requires Grows(w, after) && Held(w, job)
    ensures Held(after, job)
  {
    if Calm(after, job.plan.target) {
      CalmBefore(w, after, job.plan.target);
    }
  }

  /** What a step does not touch stays safe. */
  lemma UntouchedStaysSafe(w: World, after: World, id: Id)
    requires Grows(w, after) && Safe(w, id) && (id in w.threads ==> id in w.plans)
    requires id in after.table.jobs ==> id in w.table.jobs && after.table.jobs[id] == w.table.jobs[id]
    requires id in after.threads ==> id in w.threads && after.threads[id] == w.threads[id]
    requires id in after.records ==> id in w.records && after.records[id] == w.records[id]
    requires after.renames[id] == w.renames[id]
    ensures Safe(after, id)
  {
    if id in w.table.jobs {
      HeldStays(w, after, w.table.jobs[id]);
    }
    if id in w.records {
      HeldStays(w, after, w.records[id]);
    }
    if id in w.plans && Calm(after, w.plans[id].target) {
      CalmBefore(w, after, w.plans[id].target);
    }
  }

  lemma CalmDependsOnPlans(w: World, after: World, p: Path)
    requires after.plans == w.plans
    ensures Calm(after, p) <==> Calm(w, p)
  {
  }

  /** A thread moves on without renaming. */
  lemma StageKeepsSafe(w: World, after: World, id: Id, stage: Stage)
    requires Safe(w, id) && id in w.plans && id in w.threads
    requires after.plans == w.plans && after.disk.landed == w.disk.landed && after.renames == w.renames
    requires after.threads == w.threads[id := stage] && (Past(w.threads[id]) ==> Past(stage))
    requires stage.Landed? || stage == Executed(Fine) ==> w.threads[id].Landed? || w.threads[id] == Executed(Fine)
    requires id in after.records ==> Held(w, after.records[id])
    requires id in after.table.jobs ==> Held(w, after.table.jobs[id])
    ensures Safe(after, id)
  {
    CalmDependsOnPlans(w, after, w.plans[id].target);
    if id in after.records {
      CalmDependsOnPlans(w, after, after.records[id].plan.target);
    }
    if id in after.table.jobs {
      CalmDependsOnPlans(w, after, after.table.jobs[id].plan.target);
    }
  }

  /** A finished persist call of a job that is safe. */
  lemma SaveKeepsSafe(w: World, after: World, id: Id)
    requires Safe(w, id) && id in w.threads && id in w.table.jobs && ThreadOk(w, id) && JobOk(w, id)
    requires w.threads[id].Save? && w.threads[id].snapshot.Some?
    requires after == w || after == w.(records := w.records[id := w.threads[id].snapshot.value])
    ensures Safe(AfterSave(after, id, w.threads[id].point), id)
  {
    var saved := AfterSave(after, id, w.threads[id].point);
    CalmDependsOnPlans(w, saved, w.plans[id].target);
    if id in w.records {
      CalmDependsOnPlans(w, saved, w.records[id].plan.target);
    }
  }

  lemma FinishKeepsSafe(w: World, id: Id)
    requires Safe(w, id) && id in w.threads && id in w.table.jobs && JobOk(w, id) && w.threads[id].Staged?
    ensures Safe(Finish(w, id, w.plans[id]), id)
  {
    var after := Finish(w, id, w.plans[id]);
    CalmDependsOnPlans(w, after, w.plans[id].target);
    if id in w.records {
      CalmDependsOnPlans(w, after, w.records[id].plan.target);
    }
  }

  lemma LeaveKeepsSafe(w: World, id: Id)
    requires Safe(w, id) && id in w.threads && id in w.table.jobs && JobOk(w, id) && w.threads[id].Leaving?
    ensures Safe(Advance(w, id), id)
  {
    var after := Advance(w, id);
    CalmDependsOnPlans(w, after, w.plans[id].target);
    if id in w.records {
      CalmDependsOnPlans(w, after, w.records[id].plan.target);
    }
  }

  /** A thread's own step keeps its job safe. */
  lemma AdvanceKeepsSafe(w: World, id: Id)
    requires Safe(w, id) && id in w.threads && id in w.table.jobs && ThreadOk(w, id) && JobOk(w, id)
    ensures Safe(Advance(w, id), id)
  {
    var job := w.table.jobs[id];
    match w.threads[id]
    case Save(point, None) => StageKeepsSafe(w, Advance(w, id), id, Save(point, Some(job)));
    case Save(_, Some(record)) => SaveKeepsSafe(w, w.(records := w.records[id := record]), id);
    case Spawned => StageKeepsSafe(w, Advance(w, id), id, Save(AtBegin, None));
    case Executing => StageKeepsSafe(w, Advance(w, id), id, Asked(SizeOf(w, job.plan.target)));
    case Asked(_) => StageKeepsSafe(w, Advance(w, id), id, Staged);
    case Staged => FinishKeepsSafe(w, id);
    case Landed => StageKeepsSafe(w, Advance(w, id), id, Executed(Fine));
    case Executed(_) => StageKeepsSafe(w, Advance(w, id), id, Save(AtEnd, None));
    case Leaving => LeaveKeepsSafe(w, id);
  }

  lemma FalterKeepsSafe(w: World, id: Id, ending: Ending)
    requires Safe(w, id) && id in w.threads && id in w.table.jobs && ThreadOk(w, id) && JobOk(w, id)
    ensures Safe(Falter(w, id, ending), id)
  {
    match w.threads[id]
    case Save(_, Some(_)) => SaveKeepsSafe(w, w, id);
    case Executing =>
      if !ending.Fine? {
        StageKeepsSafe(w, Falter(w, id, ending), id, Executed(ending));
      }
    case Asked(_) =>
      if !ending.Fine? {
        StageKeepsSafe(w, Falter(w, id, ending), id, Executed(ending));
      }
    case Staged =>
      if !ending.Fine? {
        StageKeepsSafe(w, Falter(w, id, ending), id, Executed(ending));
      }
    case Landed => StageKeepsSafe(w, Falter(w, id, ending), id, Executed(ending));
    case _ =>
  }

  /** A job that joins the tables: one that has not renamed, or one whose target is there. */
  lemma LaunchKeepsSafe(w: World, id: Id, job: Job)
    requires Safe(w, id) && id in w.plans && w.plans[id] == job.plan && id !in w.threads
    requires Calm(w, job.plan.target) ==> job.phase == Queued && w.renames[id] == 0
    requires !job.phase.Succeeded()
    ensures Safe(LaunchAt(w, id, job), id)
  {
    forall p ensures Calm(LaunchAt(w, id, job), p) <==> Calm(w, p) {
    }
  }

  lemma StoreKeepsSafe(w: World, id: Id, job: Job)
    requires Safe(w, id) && id in w.plans && w.plans[id] == job.plan && job.plan.target in w.disk.landed
    ensures Safe(StoreAt(w, id, job), id)
  {
    forall p ensures Calm(StoreAt(w, id, job), p) <==> Calm(w, p) {
    }
  }

  /** A step of any other id. */
  lemma ElsewhereKeepsSafe(w: World, step: Step, id: Id)
    requires Orderly(w) && Safe(w, id) && !step.CrashDaemon? && step.id != id
    ensures Safe(Next(w, step), id)
  {
    NextGrows(w, step) by {
      assert step.id in w.table.jobs ==> JobOk(w, step.id);
    }
    assert id in w.threads ==> ThreadOk(w, id) && JobOk(w, id);
    ElsewhereIsUntouched(w, step, id);
    UntouchedStaysSafe(w, Next(w, step), id);
  }

  /** A step names the one id it may touch. */
  lemma ElsewhereIsUntouched(w: World, step: Step, id: Id)
    requires !step.CrashDaemon? && step.id != id
    ensures SameAt(w, Next(w, step), id)
  {
    match step
    case Start(other, plan) => JoiningTouchesItsOwn(w.(plans := w.plans[other := plan]), other, id, Job(plan, Queued));
    case FindPresent(other, plan) =>
      JoiningTouchesItsOwn(w.(plans := w.plans[other := plan]), other, id, Job(plan, AlreadyDownloaded));
    case Go(other) =>
      if other in w.threads && other in w.table.jobs {
        AdvanceTouchesItsOwn(w, other, id);
      }
    case Reconcile(other) =>
      if other in w.todo && other in w.records {
        ReconcileTouchesItsOwn(w.(todo := w.todo - {other}), other, id, w.records[other]);
      }
    case GoWrong(other, ending) =>
      if other in w.threads {
        FalterTouchesItsOwn(w, other, id, ending);
      }
    case _ => DiskTouchesItsOwn(w, step, id);
  }

  /** ElsewhereIsUntouched for the steps that do not move a thread by themselves, or only on the disk. */
  lemma DiskTouchesItsOwn(w: World, step: Step, id: Id)
    requires step.CancelCall? || step.RemoveForced? || step.Restart? || step.Write? || step.Mismatch? || step.LoseRecord?
    requires step.id != id
    ensures SameAt(w, Next(w, step), id)
  {
    if step.CancelCall? || step.LoseRecord? {
      ListTouchesItsOwn(w, step, id);
    }
  }

  lemma ListTouchesItsOwn(w: World, step: Step, id: Id)
    requires (step.CancelCall? || step.LoseRecord?) && step.id != id
    ensures SameAt(w, Next(w, step), id)
  {
  }

  lemma JoiningTouchesItsOwn(w: World, other: Id, id: Id, job: Job)
    requires other != id
    ensures SameAt(w, LaunchAt(w, other, job), id) && SameAt(w, StoreAt(w, other, job), id)
  {
  }

  lemma FalterTouchesItsOwn(w: World, other: Id, id: Id, ending: Ending)
    requires other in w.threads && other != id
    ensures SameAt(w, Falter(w, other, ending), id)
  {
  }

  /** The two worlds agree on everything about one id. */
  ghost predicate SameAt(w: World, after: World, id: Id) {
    && (id in after.table.jobs <==> id in w.table.jobs)
    && (id in w.table.jobs ==> after.table.jobs[id] == w.table.jobs[id])
    && (id in after.threads <==> id in w.threads)
    && (id in w.threads ==> after.threads[id] == w.threads[id])
    && (id in after.records <==> id in w.records)
    && (id in w.records ==> after.records[id] == w.records[id])
    && after.renames[id] == w.renames[id]
    && (id in after.plans <==> id in w.plans)
  }

  lemma ReconcileTouchesItsOwn(w: World, other: Id, id: Id, record: Job)
    requires other != id
    ensures SameAt(w, ReconcileRecord(w, other, record), id)
  {
  }

  lemma AdvanceTouchesItsOwn(w: World, other: Id, id: Id)
    requires other in w.threads && other in w.table.jobs && other != id
    ensures SameAt(w, Advance(w, other), id)
  {
    match w.threads[other]
    case Save(_, Some(_)) =>
    case Leaving =>
    case _ =>
  }

  /** Its own step, unless that is the first. */
  lemma OwnStepKeepsSafe(w: World, step: Step)
    requires Orderly(w) && !step.CrashDaemon? && Safe(w, step.id)
    ensures Safe(Next(w, step), step.id)
  {
    var id := step.id;
    assert (id in w.table.jobs ==> JobOk(w, id)) && (id in w.threads ==> ThreadOk(w, id)) && (id in w.records ==> RecordOk(w, id));
    match step
    case Start(_, plan) =>
      if id !in w.plans {
        FirstStepIsSafe(w, step);
        LaunchKeepsSafe(w.(plans := w.plans[id := plan]), id, Job(plan, Queued));
      }
    case FindPresent(_, plan) =>
      if id !in w.plans && !plan.force && plan.target in w.disk.landed {
        FirstStepIsSafe(w, step);
        StoreKeepsSafe(w.(plans := w.plans[id := plan]), id, Job(plan, AlreadyDownloaded));
      }
    case Go(_) =>
      if id in w.threads {
        AdvanceKeepsSafe(w, id);
      }
    case GoWrong(_, ending) =>
      if id in w.threads {
        FalterKeepsSafe(w, id, ending);
      }
    case Reconcile(_) => ReconcileKeepsSafe(w, id);
    case CancelCall(_) => CancelKeepsSafe(w, id);
    case _ => DiskStepKeepsSafe(w, step);
  }

  /** A step of the disk, or a lost record. */
  lemma DiskStepKeepsSafe(w: World, step: Step)
    requires step.RemoveForced? || step.Restart? || step.Write? || step.Mismatch? || step.LoseRecord?
    requires Safe(w, step.id) && (step.id in w.table.jobs ==> JobOk(w, step.id))
    requires step.id in w.threads ==> step.id in w.plans && ThreadOk(w, step.id)
    ensures Safe(Next(w, step), step.id)
  {
    var id, after := step.id, Next(w, step);
    if step.Restart? && id in w.threads && id in w.table.jobs && w.threads[id].Asked? {
      StageKeepsSafe(w, after, id, Staged);
    } else if step.Mismatch? && id in w.threads && id in w.table.jobs && w.threads[id].Staged? {
      StageKeepsSafe(w, after, id, Executed(Errored));
    } else {
      NextGrows(w, step);
      UntouchedStaysSafe(w, after, id);
    }
  }

  lemma CancelKeepsSafe(w: World, id: Id)
    requires Safe(w, id) && (id in w.table.jobs ==> JobOk(w, id))
    ensures Safe(Next(w, CancelCall(id)), id)
  {
    var after := Next(w, CancelCall(id));
    assert after.plans == w.plans && after.disk.landed == w.disk.landed && after.records == w.records;
    forall p ensures Calm(after, p) <==> Calm(w, p) {
    }
  }

  /** An id that is given out has no history. */
  lemma FirstStepIsSafe(w: World, step: Step)
    requires Orderly(w) && (step.Start? || step.FindPresent?) && step.id !in w.plans && Safe(w, step.id)
    ensures Safe(w.(plans := w.plans[step.id := step.plan]), step.id)
    ensures step.id !in w.threads && w.renames[step.id] == 0
  {
    assert step.id in w.threads ==> ThreadOk(w, step.id);
    assert step.id in w.table.jobs ==> JobOk(w, step.id);
    assert step.id in w.records ==> RecordOk(w, step.id);
  }

  lemma ReconcileKeepsSafe(w: World, id: Id)
    requires Orderly(w) && Safe(w, id)
    ensures Safe(Next(w, Reconcile(id)), id)
  {
    if id in w.todo && id in w.records {
      assert RecordOk(w, id) && (id in w.table.jobs ==> JobOk(w, id)) && (id in w.threads ==> ThreadOk(w, id));
      var taken, record := w.(todo := w.todo - {id}), w.records[id];
      forall p ensures Calm(taken, p) <==> Calm(w, p) {
      }
      assert Safe(taken, id);
      if record.phase.IsTerminal() {
        var after := taken.(table := Restore(taken.table, id, record));
        forall p ensures Calm(after, p) <==> Calm(w, p) {
        }
        assert Held(taken, record);
      } else if record.plan.target in w.disk.landed {
        StoreKeepsSafe(taken, id, record.(phase := Completed));
      } else {
        LaunchKeepsSafe(taken, id, record.(phase := Queued));
      }
    }
  }

  lemma NextKeepsSafe(w: World, step: Step, id: Id)
    requires Orderly(w) && Safe(w, id)
    ensures Safe(Next(w, step), id)
  {
    if step.CrashDaemon? {
      NextGrows(w, step);
      assert id in w.threads ==> ThreadOk(w, id) && JobOk(w, id);
      UntouchedStaysSafe(w, Next(w, step), id);
    } else if step.id == id {
      OwnStepKeepsSafe(w, step);
    } else {
      ElsewhereKeepsSafe(w, step, id);
    }
  }

  lemma {:induction false} EveryRunIsSafe(steps: seq<Step>, id: Id)
    ensures Safe(Run(Boot, steps), id)
  {
    if steps != [] {
      EveryRunIsSafe(steps[..|steps| - 1], id);
      EveryRunIsOrderly(steps[..|steps| - 1]);
      NextKeepsSafe(Run(Boot, steps[..|steps| - 1]), steps[|steps| - 1], id);
    }
  }

  /**
   Over any number of restarts, with a crash possible between any two steps: a job
   of a target no one forces that reports success, in memory or in its record, has
   its target on disk, and it renamed into place at most once.
   */
  lemma CrashSafety(steps: seq<Step>, id: Id)
    ensures var w := Run(Boot, steps);
            && (id in w.table.jobs && w.table.jobs[id].phase.Succeeded() && Calm(w, w.table.jobs[id].plan.target) ==>
                  w.table.jobs[id].plan.target in w.disk.landed)
            && (id in w.records && w.records[id].phase.Succeeded() && Calm(w, w.records[id].plan.target) ==>
                  w.records[id].plan.target in w.disk.landed)
            && (id in w.plans && Calm(w, w.plans[id].target) ==> w.renames[id] <= 1)
  {
    EveryRunIsSafe(steps, id);
  }

  // ------------------------------------------------------------------
  // Finished records
  // ------------------------------------------------------------------

  /** Finished on disk and, where it is known, in memory. */
  ghost predicate Retired(w: World, id: Id) {
    && id in w.plans
    && (id in w.records ==> w.records[id].phase.IsTerminal())
    && (id in w.table.jobs ==> w.table.jobs[id].phase.IsTerminal())
    && (id in w.threads && w.threads[id].Save? && w.threads[id].snapshot.Some? ==>
          w.threads[id].snapshot.value.phase.IsTerminal())
  }

  /** Retired for good: no transfer is started, and nothing is renamed once its thread is gone. */
  ghost predicate StaysRetired(w: World, after: World, id: Id) {
    && Retired(after, id)
    && (id in after.threads ==> id in w.threads)
    && (id !in w.threads ==> after.renames[id] == w.renames[id])
  }

  lemma RetiredThreadEnds(w: World, id: Id)
    requires Retired(w, id) && id in w.threads && id in w.table.jobs && ThreadOk(w, id)
    ensures StaysRetired(w, Advance(w, id), id)
  {
  }

  lemma RetiredRecordIsRestored(w: World, id: Id)
    requires Retired(w, id) && id in w.records
    ensures StaysRetired(w, ReconcileRecord(w.(todo := w.todo - {id}), id, w.records[id]), id)
  {
  }

  /** No step brings a retired job back. */
  lemma RetiredStaysRetired(w: World, step: Step, id: Id)
    requires Orderly(w) && Retired(w, id)
    ensures StaysRetired(w, Next(w, step), id)
  {
    assert id in w.threads ==> ThreadOk(w, id);
    if step.CrashDaemon? {
    } else if step.id != id {
      ElsewhereIsUntouched(w, step, id);
    } else {
      match step
      case Go(_) =>
        if id in w.threads {
          RetiredThreadEnds(w, id);
        }
      case Reconcile(_) =>
        if id in w.todo && id in w.records {
          RetiredRecordIsRestored(w, id);
        }
      case _ =>
    }
  }

  /**
   A record persisted as terminal is never run again: however the run continues,
   once its thread is gone no thread of its own appears and nothing is renamed.
   */
  lemma {:induction false} TerminalRecordNeverRuns(w: World, steps: seq<Step>, id: Id)
    requires Orderly(w) && id in w.records && w.records[id].phase.IsTerminal()
    ensures Orderly(Run(w, steps)) && Retired(Run(w, steps), id)
    ensures id !in w.threads ==> id !in Run(w, steps).threads && Run(w, steps).renames[id] == w.renames[id]
    decreases |steps|
  {
    assert RecordOk(w, id);
    if steps != [] {
      var before := steps[..|steps| - 1];
      TerminalRecordNeverRuns(w, before, id);
      NextKeepsOrder(Run(w, before), steps[|steps| - 1]);
      RetiredStaysRetired(Run(w, before), steps[|steps| - 1], id);
    }
  }

  /** Reconciling a record brings an unfinished job back exactly when nothing stands against running it. */
  lemma ReconcileRunsIff(w: World, id: Id)
    requires Orderly(w) && id in w.todo
    ensures id in w.records
    ensures var after := Next(w, Reconcile(id));
            (id in after.table.jobs && !after.table.jobs[id].phase.IsTerminal()) <==>
            && !w.records[id].phase.IsTerminal()
            && w.records[id].plan.target !in w.disk.landed && w.records[id].plan.target !in w.table.active
  {
    TakeKeepsOrder(w, id);
  }

  /** The records `others` reconciled one after the other. */
  ghost function Reconciled(w: World, others: seq<Id>): World {
    if others == [] then w else Next(Reconciled(w, others[..|others| - 1]), Reconcile(others[|others| - 1]))
  }

  /** A record whose target nobody has landed, and that a restart therefore runs again. */
  ghost predicate RunsAgain(w: World, id: Id, p: Path) {
    id in w.records && !w.records[id].phase.IsTerminal() && w.records[id].plan.target == p && p !in w.disk.landed
  }

  /** After a crash, a target is taken exactly when one of the records reconciled so far runs again for it. */
  lemma {:induction false} TakenAfterReconciling(w: World, others: seq<Id>, p: Path)
    ensures var v := Reconciled(Next(w, CrashDaemon), others);
            && v.records == w.records && v.disk.landed == w.disk.landed
            && (forall id :: id in v.todo <==> id in w.records && id !in others)
            && (p in v.table.active <==> exists o :: o in others && RunsAgain(w, o, p))
    decreases |others|
  {
    if others != [] {
      var before, last := others[..|others| - 1], others[|others| - 1];
      TakenAfterReconciling(w, before, p);
      assert forall id :: id in others <==> id in before || id == last;
      OneMoreReconciled(w, Reconciled(Next(w, CrashDaemon), before), last, p);
      if last in before {
        assert last !in Reconciled(Next(w, CrashDaemon), before).todo;
      }
    }
  }

  lemma OneMoreReconciled(w: World, v: World, last: Id, p: Path)
    requires v.records == w.records && v.disk.landed == w.disk.landed && forall id :: id in v.todo ==> id in v.records
    ensures var after := Next(v, Reconcile(last));
            && after.records == w.records && after.disk.landed == w.disk.landed && after.todo == v.todo - {last}
            && (p in after.table.active <==> p in v.table.active || (last in v.todo && RunsAgain(w, last, p)))
  {
  }

  /**
   A finished job comes back unfinished from a crash exactly when its finish was
   not on disk in any form (the record still said queued or running, and the target
   had not landed) and no record reconciled before it runs again for its target.
   */
  lemma CrashForgetsAFinishIff(w: World, id: Id, others: seq<Id>)
    requires Orderly(w) && id in w.table.jobs && w.table.jobs[id].phase.IsTerminal() && id !in others
    ensures var restarted := Next(Reconciled(Next(w, CrashDaemon), others), Reconcile(id));
            (id in restarted.table.jobs && !restarted.table.jobs[id].phase.IsTerminal()) <==>
            && id in w.records && RunsAgain(w, id, w.records[id].plan.target)
            && forall o :: o in others ==> !RunsAgain(w, o, w.records[id].plan.target)
  {
    var v := Reconciled(Next(w, CrashDaemon), others);
    CrashKeepsOrder(w);
    ReconciledKeepsOrder(Next(w, CrashDaemon), others);
    UnknownUntilReconciled(Next(w, CrashDaemon), others, id);
    TakenAfterReconciling(w, others, if id in w.records then w.records[id].plan.target else "");
    if id in w.records {
      ReconcileRunsIff(v, id);
    }
  }

  lemma {:induction false} ReconciledKeepsOrder(w: World, others: seq<Id>)
    requires Orderly(w)
    ensures Orderly(Reconciled(w, others))
    decreases |others|
  {
    if others != [] {
      ReconciledKeepsOrder(w, others[..|others| - 1]);
      NextKeepsOrder(Reconciled(w, others[..|others| - 1]), Reconcile(others[|others| - 1]));
    }
  }

  lemma {:induction false} UnknownUntilReconciled(w: World, others: seq<Id>, id: Id)
    requires id !in w.table.jobs && id !in others
    ensures id !in Reconciled(w, others).table.jobs
    decreases |others|
  {
    if others != [] {
      UnknownUntilReconciled(w, others[..|others| - 1], id);
      assert others[|others| - 1] in others;
      ElsewhereIsUntouched(Reconciled(w, others[..|others| - 1]), Reconcile(others[|others| - 1]), id);
    }
  }
}
