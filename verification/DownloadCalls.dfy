/** The locked regions of the download manager as the steps of the step system, and what their answers mean. */
module DownloadCalls {
  import opened Wrappers
  import opened DownloadJobs
  import opened DownloadProtocol
  import opened DownloadParts

  /** Every step changes the tables as the manager's method of that name does, and no other step touches them. */
  lemma TablesOfStep(w: World, step: Step)
    ensures var t, after := w.table, Next(w, step).table;
            match step
            case Start(id, plan) => after == if id in w.plans then t else Launch(t, id, Job(plan, Queued))
            case FindPresent(id, plan) =>
              after == if id !in w.plans && !plan.force && plan.target in w.disk.landed
                       then Restore(t, id, Job(plan, AlreadyDownloaded)) else t
            case CancelCall(id) => after == Cancel(t, id)
            case Go(id) =>
              after == if StandsAt(w, id, Spawned) then Begin(t, id)
                       else if StandsAt(w, id, Leaving) then ClearActive(t, id)
                       else if id in w.threads && w.threads[id].Executed? then End(t, id, w.threads[id].ending)
                       else t
            case Reconcile(id) =>
              after == if id in w.todo && id in w.records
                       then ReconcileTable(t, id, w.records[id], w.records[id].plan.target in w.disk.landed) else t
            case CrashDaemon => after == EmptyTable
            case _ => after == t
  {
  }

  /** A transfer that ended leaves its job cancelled if it was cancelled in time or interrupted, and otherwise as it ended. */
  lemma EndingDecides(w: World, id: Id, ending: Ending)
    requires Orderly(w) && StandsAt(w, id, Executed(ending))
    ensures id in w.table.jobs && id in Next(w, Go(id)).table.jobs
    ensures var was, now := w.table.jobs[id].phase, Next(w, Go(id)).table.jobs[id].phase;
            && (now == Cancelled <==> was == Cancelled || ending == Interrupted)
            && (now == Completed <==> was != Cancelled && ending == Fine)
            && (now == Failed <==> was != Cancelled && ending == Errored)
  {
    assert ThreadOk(w, id);
  }

  /** A forced download removes the target before its rename: a daemon that dies in between leaves neither, only the filled file. */
  lemma AForcedDownloadCanLoseItsTarget(w: World, id: Id)
    requires Orderly(w) && StandsAt(w, id, Staged) && TargetOf(w, id) in w.disk.parts && id in w.table.jobs && w.table.jobs[id].plan.force
    ensures var p, after := TargetOf(w, id), Next(Next(w, RemoveForced(id)), CrashDaemon);
            p !in after.disk.landed && p in after.disk.parts && after.disk.parts[p] == w.disk.parts[p] && after.table == EmptyTable
  {
  }

  /** No record, no job and nothing left to reconcile. */
  ghost predicate Forgotten(w: World, id: Id) {
    id in w.plans && id !in w.records && id !in w.todo && id !in w.table.jobs && id !in w.threads
  }

  /** A record that cannot be read is dropped, and its job was not known yet. */
  lemma AnUnreadableRecordIsForgotten(w: World, id: Id)
    requires Orderly(w) && id in w.todo
    ensures Forgotten(Next(w, LoseRecord(id)), id) && Next(w, LoseRecord(id)).disk == w.disk
  {
  }

  /** No run brings such a job back, so what its transfer left on disk is nobody's. */
  lemma {:induction false} AForgottenJobStaysForgotten(w: World, steps: seq<Step>, id: Id)
    requires Orderly(w) && Forgotten(w, id)
    ensures Orderly(Run(w, steps)) && Forgotten(Run(w, steps), id)
    decreases |steps|
  {
    if steps != [] {
      var before, last := steps[..|steps| - 1], steps[|steps| - 1];
      AForgottenJobStaysForgotten(w, before, id);
      NextKeepsOrder(Run(w, before), last);
      ForgottenStays(Run(w, before), last, id);
    }
  }

  lemma ForgottenStays(w: World, step: Step, id: Id)
    requires Orderly(w) && Forgotten(w, id)
    ensures Forgotten(Next(w, step), id)
  {
    if step.CrashDaemon? {
    } else if step.id != id {
      ElsewhereIsUntouched(w, step, id);
      ListIsItsOwn(w, step, id);
    } else {
      assert Next(w, step) == w || step.CancelCall?;
    }
  }

  lemma ListIsItsOwn(w: World, step: Step, id: Id)
    requires !step.CrashDaemon? && id !in w.todo
    ensures id !in Next(w, step).todo
  {
    if step.Go? && step.id in w.threads && step.id in w.table.jobs {
      assert Advance(w, step.id).todo == w.todo;
    }
  }
}
