/** Runs of the download step system that reach its rare outcomes, from an empty disk. */
module DownloadRuns {
  import opened Wrappers
  import opened DownloadJobs
  import opened DownloadProtocol
  import opened DownloadParts

  /** Where a job that was launched stands after `k` of its steps. */
  predicate StageIs(stage: Stage, k: nat) {
    if k == 0 then stage == Save(AtLaunch, None)
    else if k == 1 then stage.Save? && stage.point == AtLaunch && stage.snapshot.Some?
    else if k == 2 then stage == Spawned
    else if k == 3 then stage == Save(AtBegin, None)
    else if k == 4 then stage.Save? && stage.point == AtBegin && stage.snapshot.Some?
    else if k == 5 then stage == Executing
    else stage.Asked?
  }

  /** What its record says by then; `first` is what it said before. */
  function RecordBy(first: map<Id, Job>, id: Id, plan: Plan, k: nat): map<Id, Job> {
    if k < 2 then first else first[id := Job(plan, if k < 5 then Queued else Running)]
  }

  /** It is `k` steps on, alone on its target, and nothing else has moved since `base`. */
  ghost predicate StepsOn(base: World, w: World, id: Id, plan: Plan, k: nat) {
    && w.threads == base.threads[id := if id in w.threads then w.threads[id] else Spawned]
    && id in w.threads && StageIs(w.threads[id], k)
    && w.plans == base.plans && w.todo == base.todo && w.disk == base.disk
    && w.table == Table(base.table.jobs[id := Job(plan, if k < 3 then Queued else Running)], map[plan.target := id])
    && w.records == RecordBy(base.records, id, plan, k)
    && (k == 1 || k == 4 ==> w.threads[id].snapshot == Some(w.table.jobs[id]))
    && (k == 6 ==> w.threads[id] == Asked(SizeOf(base, plan.target)))
  }

  lemma FirstStepsOn(base: World, w: World, id: Id, plan: Plan, k: nat)
    requires StepsOn(base, w, id, plan, k) && k < 3
    ensures StepsOn(base, Next(w, Go(id)), id, plan, k + 1)
  {
  }

  lemma LaterStepsOn(base: World, w: World, id: Id, plan: Plan, k: nat)
    requires StepsOn(base, w, id, plan, k) && 3 <= k < 6
    ensures StepsOn(base, Next(w, Go(id)), id, plan, k + 1)
  {
  }

  lemma OneStepOn(base: World, w: World, id: Id, plan: Plan, k: nat)
    requires StepsOn(base, w, id, plan, k) && k < 6
    ensures StepsOn(base, Next(w, Go(id)), id, plan, k + 1)
  {
    if k < 3 {
      FirstStepsOn(base, w, id, plan, k);
    } else {
      LaterStepsOn(base, w, id, plan, k);
    }
  }

  function Goes(w: World, id: Id, n: nat): World {
    if n == 0 then w else Next(Goes(w, id, n - 1), Go(id))
  }

  lemma {:induction false} GoesOn(base: World, w: World, id: Id, plan: Plan, n: nat)
    requires StepsOn(base, w, id, plan, 0) && n <= 6
    ensures StepsOn(base, Goes(w, id, n), id, plan, n)
  {
    if n > 0 {
      GoesOn(base, w, id, plan, n - 1);
      OneStepOn(base, Goes(w, id, n - 1), id, plan, n - 1);
    }
  }

  /** A restart that finds an interrupted record and a finished one of a target with a partial file. */
  ghost predicate TwoRecords(w: World, mine: Id, done: Id, plan: Plan, size: nat) {
    && w.table == EmptyTable && w.threads == map[] && w.todo == w.records.Keys && mine != done
    && mine in w.records && w.records[mine].plan == plan && !w.records[mine].phase.IsTerminal()
    && done in w.records && w.records[done].plan.target == plan.target && w.records[done].phase.IsTerminal()
    && w.disk == Disk({}, map[plan.target := Part(size, false)], {})
  }

  /** The interrupted one runs again and has asked for the rest of the file. */
  function Asking(w: World, mine: Id): World { Goes(Next(w, Reconcile(mine)), mine, 6) }

  lemma AskingStands(w: World, mine: Id, done: Id, plan: Plan, size: nat)
    requires TwoRecords(w, mine, done, plan, size)
    ensures var asking := Asking(w, mine);
            && StandsAt(asking, mine, Asked(size)) && asking.disk == w.disk
            && asking.table == Table(map[mine := Job(plan, Running)], map[plan.target := mine])
            && done in asking.todo && done in asking.records && asking.records[done] == w.records[done]
            && Discards(asking, done, plan.target)
  {
    var begun := Next(w, Reconcile(mine));
    assert begun.table == Table(map[mine := Job(plan, Queued)], map[plan.target := mine]);
    assert StepsOn(begun, begun, mine, plan, 0);
    GoesOn(begun, begun, mine, plan, 6);
  }

  /**
   The finished record is reconciled after the size was asked about and before the file
   is opened. Without a digest the job completes with a target that lacks its beginning;
   with one it fails and the torn file is removed.
   */
  lemma ARestartCanLandASuffix(w: World, mine: Id, done: Id, plan: Plan, size: nat)
    requires TwoRecords(w, mine, done, plan, size) && size > 0
    ensures var asking := Asking(w, mine);
            var ended := Goes(Next(asking, Reconcile(done)), mine, if plan.digest then 3 else 4);
            && StandsAt(asking, mine, Asked(size)) && Discards(asking, done, plan.target)
            && mine in ended.table.jobs
            && (if plan.digest
                then ended.table.jobs[mine].phase == Failed && ended.disk == Disk({}, map[], {})
                else ended.table.jobs[mine].phase == Completed && ended.disk == Disk({plan.target}, map[], {plan.target}))
  {
    AskingStands(w, mine, done, plan, size);
    var hit := Next(Asking(w, mine), Reconcile(done));
    assert TornBy(hit, mine, plan, size, 0);
    TornGoes(hit, mine, plan, size, if plan.digest then 3 else 4);
  }

  /** A transfer whose file was discarded before it opened it, `k` steps on. */
  ghost predicate TornBy(w: World, id: Id, plan: Plan, size: nat, k: nat) {
    && id in w.table.jobs && w.table.jobs[id].plan == plan
    && (k < 3 || (k == 3 && !plan.digest) ==> w.table.jobs[id].phase == Running)
    && (if k == 0 then StandsAt(w, id, Asked(size)) && w.disk == Disk({}, map[], {})
        else if k == 1 then StandsAt(w, id, Staged) && w.disk == Disk({}, map[plan.target := Part(0, true)], {})
        else if plan.digest then
          w.disk == Disk({}, map[], {}) && if k == 2 then StandsAt(w, id, Executed(Errored)) else w.table.jobs[id].phase == Failed
        else
          && w.disk == Disk({plan.target}, map[], {plan.target})
          && if k == 2 then StandsAt(w, id, Landed)
             else if k == 3 then StandsAt(w, id, Executed(Fine))
             else w.table.jobs[id].phase == Completed)
  }

  lemma OneTornStep(w: World, id: Id, plan: Plan, size: nat, k: nat)
    requires TornBy(w, id, plan, size, k) && size > 0 && k < if plan.digest then 3 else 4
    ensures TornBy(Next(w, Go(id)), id, plan, size, k + 1)
  {
  }

  lemma {:induction false} TornGoes(w: World, id: Id, plan: Plan, size: nat, k: nat)
    requires TornBy(w, id, plan, size, 0) && size > 0 && k <= if plan.digest then 3 else 4
    ensures TornBy(Goes(w, id, k), id, plan, size, k)
  {
    if k > 0 {
      TornGoes(w, id, plan, size, k - 1);
      OneTornStep(Goes(w, id, k - 1), id, plan, size, k - 1);
    }
  }

  /** The same record reconciled after the open: the transfer can only fail. */
  lemma ARestartCanDiscardALivePart(w: World, mine: Id, done: Id, plan: Plan, size: nat)
    requires TwoRecords(w, mine, done, plan, size)
    ensures var filling := Next(Asking(w, mine), Go(mine));
            && StandsAt(filling, mine, Staged) && Discards(filling, done, plan.target)
            && Doomed(Next(filling, Reconcile(done)), mine)
  {
    AskingStands(w, mine, done, plan, size);
    var filling := Next(Asking(w, mine), Go(mine));
    assert mine in filling.table.jobs && filling.table.jobs[mine] == Job(plan, Running);
  }

  /** A transfer that ended in an error, `k` steps on. */
  ghost predicate FailsBy(base: World, w: World, id: Id, plan: Plan, k: nat) {
    && w.plans == base.plans && w.todo == base.todo && w.disk == base.disk && w.records == base.records
    && w.table == Table(base.table.jobs[id := Job(plan, if k == 0 then Running else Failed)], map[plan.target := id])
    && w.threads == base.threads[id := if k == 0 then Executed(Errored) else if k == 1 then Save(AtEnd, None)
                                       else Save(AtEnd, Some(Job(plan, Failed)))]
  }

  lemma OneFailingStep(base: World, w: World, id: Id, plan: Plan, k: nat)
    requires FailsBy(base, w, id, plan, k) && k < 2
    ensures FailsBy(base, Next(w, Go(id)), id, plan, k + 1)
  {
  }

  lemma FailingGoes(base: World, w: World, id: Id, plan: Plan)
    requires FailsBy(base, w, id, plan, 0)
    ensures FailsBy(base, Goes(w, id, 2), id, plan, 2)
  {
    OneFailingStep(base, w, id, plan, 0);
    OneFailingStep(base, Next(w, Go(id)), id, plan, 1);
    TwoGoes(w, id);
  }

  lemma TwoGoes(w: World, id: Id)
    ensures Goes(w, id, 2) == Next(Next(w, Go(id)), Go(id))
  {
    assert Goes(w, id, 0) == w;
    assert Goes(w, id, 1) == Next(w, Go(id));
  }

  /** What these runs have to say of a world between two restarts. */
  ghost predicate Looks(w: World, table: Table, threads: map<Id, Stage>, records: map<Id, Job>, size: nat, plans: map<Id, Plan>, p: Path) {
    && w.table == table && w.threads == threads && w.records == records && w.plans == plans && w.todo == {}
    && w.disk == Disk({}, map[p := Part(size, false)], {})
  }

  /** A first job that has received `size` bytes. */
  function FirstFills(plan: Plan, size: nat): World {
    Next(Next(Goes(Next(Boot, Start(0, plan)), 0, 6), Go(0)), Write(0, size))
  }

  lemma FirstBegins(plan: Plan)
    ensures var begun := Next(Boot, Start(0, plan));
            StepsOn(begun, begun, 0, plan, 0) && begun.threads == map[0 := Save(AtLaunch, None)] && begun.records == map[] &&
            begun.table.jobs == map[0 := Job(plan, Queued)] && begun.plans == map[0 := plan] && begun.todo == {} && begun.disk == Boot.disk
  {
  }

  lemma AskedFills(w: World, plan: Plan, size: nat)
    requires w.table == Table(map[0 := Job(plan, Running)], map[plan.target := 0]) && w.threads == map[0 := Asked(0)]
    requires w.records == map[0 := Job(plan, Running)] && w.plans == map[0 := plan] && w.todo == {} && w.disk == Disk({}, map[], {})
    ensures Looks(Next(Next(w, Go(0)), Write(0, size)), w.table, map[0 := Staged], w.records, size, w.plans, plan.target)
  {
    var staged := Next(w, Go(0));
    assert staged.disk.parts == map[plan.target := Part(0, false)] && staged.threads == map[0 := Staged];
  }

  lemma FirstFillsIs(plan: Plan, size: nat)
    ensures Looks(FirstFills(plan, size), Table(map[0 := Job(plan, Running)], map[plan.target := 0]), map[0 := Staged],
                  map[0 := Job(plan, Running)], size, map[0 := plan], plan.target)
  {
    var begun := Next(Boot, Start(0, plan));
    FirstBegins(plan);
    GoesOn(begun, begun, 0, plan, 6);
    var asked := Goes(begun, 0, 6);
    assert asked.threads == map[0 := Asked(0)] && asked.table.jobs == map[0 := Job(plan, Running)];
    assert asked.records == map[0 := Job(plan, Running)];
    AskedFills(asked, plan, size);
  }

  /** It fails, and the write of its last record is lost. */
  function FirstIsLost(plan: Plan, size: nat): World {
    Next(Next(Goes(Next(FirstFills(plan, size), GoWrong(0, Errored)), 0, 2), GoWrong(0, Errored)), Go(0))
  }

  lemma BreaksOff(w: World, id: Id, plan: Plan)
    requires id in w.threads && (w.threads[id].Staged? || w.threads[id].Executing?)
    requires id in w.table.jobs && w.table.jobs[id] == Job(plan, Running) && w.table.active == map[plan.target := id]
    ensures var failed := Next(w, GoWrong(id, Errored));
            && FailsBy(failed, failed, id, plan, 0) && failed.table == w.table && failed.records == w.records && failed.disk == w.disk
            && failed.plans == w.plans && failed.todo == w.todo && failed.threads.Keys == w.threads.Keys
  {
  }

  lemma LosesItsRecord(w: World, plan: Plan)
    requires w.threads == map[0 := Save(AtEnd, Some(Job(plan, Failed)))]
    requires w.table == Table(map[0 := Job(plan, Failed)], map[plan.target := 0])
    ensures var left := Next(Next(w, GoWrong(0, Errored)), Go(0));
            && left.table == Table(map[0 := Job(plan, Failed)], map[]) && left.threads == map[]
            && left.records == w.records && left.disk == w.disk && left.plans == w.plans && left.todo == w.todo
  {
    var leaving := Next(w, GoWrong(0, Errored));
    assert leaving.threads == map[0 := Leaving] && leaving.table == w.table;
  }

  lemma FirstIsLostIs(plan: Plan, size: nat)
    ensures Looks(FirstIsLost(plan, size), Table(map[0 := Job(plan, Failed)], map[]), map[], map[0 := Job(plan, Running)], size,
                  map[0 := plan], plan.target)
  {
    FirstFillsIs(plan, size);
    BreaksOff(FirstFills(plan, size), 0, plan);
    var failed := Next(FirstFills(plan, size), GoWrong(0, Errored));
    FailingGoes(failed, failed, 0, plan);
    var saving := Goes(failed, 0, 2);
    assert saving.threads == map[0 := Save(AtEnd, Some(Job(plan, Failed)))];
    assert saving.table.jobs == map[0 := Job(plan, Failed)];
    LosesItsRecord(saving, plan);
  }

  /** A second job of the same target fails before it asks for anything. */
  function SecondFails(plan: Plan, size: nat): World {
    Goes(Next(Goes(Next(FirstIsLost(plan, size), Start(1, plan)), 1, 5), GoWrong(1, Errored)), 1, 2)
  }

  lemma SecondBegins(w: World, plan: Plan, size: nat)
    requires Looks(w, Table(map[0 := Job(plan, Failed)], map[]), map[], map[0 := Job(plan, Running)], size, map[0 := plan], plan.target)
    ensures var begun := Next(w, Start(1, plan));
            && StepsOn(begun, begun, 1, plan, 0) && begun.threads == map[1 := Save(AtLaunch, None)] && begun.records == w.records
            && begun.disk == w.disk
  {
  }

  lemma SecondFailsIs(plan: Plan, size: nat)
    ensures var w := SecondFails(plan, size);
            && w.threads == map[1 := Save(AtEnd, Some(Job(plan, Failed)))] && 1 in w.table.jobs
            && w.records == map[0 := Job(plan, Running), 1 := Job(plan, Running)]
            && w.disk == Disk({}, map[plan.target := Part(size, false)], {})
  {
    FirstIsLostIs(plan, size);
    var begun := Next(FirstIsLost(plan, size), Start(1, plan));
    SecondBegins(FirstIsLost(plan, size), plan, size);
    GoesOn(begun, begun, 1, plan, 5);
    var executing := Goes(begun, 1, 5);
    assert executing.threads == map[1 := Executing];
    BreaksOff(executing, 1, plan);
    var failed := Next(executing, GoWrong(1, Errored));
    FailingGoes(failed, failed, 1, plan);
    assert executing.records == map[0 := Job(plan, Running), 1 := Job(plan, Running)];
    assert failed.threads.Keys == {1};
  }

  /** Its record is written, and the daemon dies. */
  function Restarted(plan: Plan, size: nat): World {
    Next(Next(SecondFails(plan, size), Go(1)), CrashDaemon)
  }

  lemma RestartedIs(plan: Plan, size: nat)
    ensures TwoRecords(Restarted(plan, size), 0, 1, plan, size)
  {
    SecondFailsIs(plan, size);
    WritesAndDies(SecondFails(plan, size), plan, size);
  }

  lemma WritesAndDies(w: World, plan: Plan, size: nat)
    requires w.threads == map[1 := Save(AtEnd, Some(Job(plan, Failed)))] && 1 in w.table.jobs
    requires w.records == map[0 := Job(plan, Running), 1 := Job(plan, Running)]
    requires w.disk == Disk({}, map[plan.target := Part(size, false)], {})
    ensures TwoRecords(Next(Next(w, Go(1)), CrashDaemon), 0, 1, plan, size)
  {
    var written := Next(w, Go(1));
    assert written.records == map[0 := Job(plan, Running), 1 := Job(plan, Failed)] && written.disk == w.disk;
  }

  /**
   From an empty disk, with the records in the order of their ids: an older download
   whose last record write was lost and a newer one of the same target that failed.
   The restart runs the older one again and then reconciles the newer: between the
   size and the open, and a plan without a digest completes with a suffix of its
   artifact; after the open, and the transfer never lands.
   */
  lemma APartCanBeLostFromBoot(plan: Plan, size: nat)
    requires size > 0
    ensures var asking := Asking(Restarted(plan, size), 0);
            var ended := Goes(Next(asking, Reconcile(1)), 0, if plan.digest then 3 else 4);
            && StandsAt(asking, 0, Asked(size)) && Discards(asking, 1, plan.target) && 0 in ended.table.jobs
            && (if plan.digest then ended.table.jobs[0].phase == Failed
                else ended.table.jobs[0].phase == Completed && ended.disk == Disk({plan.target}, map[], {plan.target}))
            && Doomed(Next(Next(asking, Go(0)), Reconcile(1)), 0)
  {
    RestartedIs(plan, size);
    ARestartCanLandASuffix(Restarted(plan, size), 0, 1, plan, size);
    ARestartCanDiscardALivePart(Restarted(plan, size), 0, 1, plan, size);
  }

  // ------------------------------------------------------------------
  // A forgotten cancel
  // ------------------------------------------------------------------

  /** A cancel that is not persisted yet when the daemon dies: the restart runs the job again. */
  lemma ACancelCanBeForgotten(plan: Plan)
    ensures var cancelled := Next(Goes(Next(Boot, Start(0, plan)), 0, 2), CancelCall(0));
            && cancelled.table.jobs == map[0 := Job(plan, Cancelled)]
            && Next(Next(cancelled, CrashDaemon), Reconcile(0)).table.jobs == map[0 := Job(plan, Queued)]
  {
    var begun := Next(Boot, Start(0, plan));
    assert begun.table == Table(map[0 := Job(plan, Queued)], map[plan.target := 0]) && begun.threads == map[0 := Save(AtLaunch, None)];
    assert StepsOn(begun, begun, 0, plan, 0);
    GoesOn(begun, begun, 0, plan, 2);
    CancelIsNotWritten(Goes(begun, 0, 2), plan);
  }

  lemma CancelIsNotWritten(w: World, plan: Plan)
    requires w.table.jobs == map[0 := Job(plan, Queued)] && w.records == map[0 := Job(plan, Queued)] && w.disk.landed == {}
    ensures Next(w, CancelCall(0)).table.jobs == map[0 := Job(plan, Cancelled)]
    ensures Next(Next(Next(w, CancelCall(0)), CrashDaemon), Reconcile(0)).table.jobs == map[0 := Job(plan, Queued)]
  {
    var crashed := Next(Next(w, CancelCall(0)), CrashDaemon);
    assert crashed.table == EmptyTable && crashed.todo == {0} && crashed.records == w.records;
  }
}
