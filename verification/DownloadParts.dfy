/**
 The partial file of a transfer in the step system: who takes it away, when a resumed
 file lacks its beginning, and what becomes of a transfer that lost it.
 */
module DownloadParts {
  import opened Wrappers
  import opened DownloadJobs
  import opened DownloadProtocol

  ghost predicate StandsAt(w: World, id: Id, stage: Stage) { id in w.threads && w.threads[id] == stage }

  function TargetOf(w: World, id: Id): Path { if id in w.table.jobs then w.table.jobs[id].plan.target else "" }

  /** A transfer has asked to continue its partial file, or is filling it. */
  ghost predicate Relies(w: World, id: Id) {
    id in w.threads && (w.threads[id].Asked? || w.threads[id].Staged?) && id in w.table.jobs
  }

  /** A record a restart still has to reconcile, of a job that needs no transfer to `p` any more. */
  ghost predicate Discards(w: World, id: Id, p: Path) {
    id in w.todo && id in w.records && w.records[id].plan.target == p && (w.records[id].phase.IsTerminal() || p in w.disk.landed)
  }

  /**
   The partial file a transfer relies on goes away exactly when the transfer itself,
   having filled it, renames it or finds its digest wrong, or when a restart that is
   still reconciling discards it for another record of the same target.
   */
  lemma PartGoesIff(w: World, step: Step, id: Id)
    requires Orderly(w) && Relies(w, id) && TargetOf(w, id) in w.disk.parts
    ensures var p := TargetOf(w, id);
            p !in Next(w, step).disk.parts <==>
            || (w.threads[id].Staged? && (step == Go(id) || step == Mismatch(id)))
            || (step.Reconcile? && step.id != id && Discards(w, step.id, p))
  {
    assert ThreadOk(w, id) && JobOk(w, id);
    var p := TargetOf(w, id);
    if step.CrashDaemon? {
    } else if step.Reconcile? {
      PartsOfReconcile(w, step.id, p);
    } else if step.id != id {
      OthersKeepThePart(w, step, id);
    } else {
      OwnStepsKeepThePart(w, step);
    }
  }

  lemma PartsOfReconcile(w: World, id: Id, p: Path)
    ensures Next(w, Reconcile(id)).disk.landed == w.disk.landed && Next(w, Reconcile(id)).disk.torn == w.disk.torn
    ensures p in Next(w, Reconcile(id)).disk.parts <==> p in w.disk.parts && !Discards(w, id, p)
    ensures p in Next(w, Reconcile(id)).disk.parts ==> Next(w, Reconcile(id)).disk.parts[p] == w.disk.parts[p]
  {
  }

  lemma OtherTargets(w: World, id: Id, other: Id)
    requires Orderly(w) && id != other && id in w.threads && other in w.threads && id in w.table.jobs && other in w.table.jobs
    requires w.threads[id].Transfers() && w.threads[other].Transfers()
    ensures TargetOf(w, other) != TargetOf(w, id)
  {
    assert ThreadOk(w, id) && ThreadOk(w, other);
  }

  /** A step changes the partial file of its own target only. */
  lemma PartsOfStep(w: World, step: Step, p: Path)
    requires !step.CrashDaemon? && !step.Reconcile?
    requires step.id in w.threads && w.threads[step.id].Transfers() ==> TargetOf(w, step.id) != p
    ensures p in Next(w, step).disk.parts <==> p in w.disk.parts
    ensures p in w.disk.parts ==> Next(w, step).disk.parts[p] == w.disk.parts[p]
  {
    if step.Go? && step.id in w.threads && step.id in w.table.jobs {
      PartsOfAdvance(w, step.id, p);
    }
  }

  lemma PartsOfAdvance(w: World, id: Id, p: Path)
    requires id in w.threads && id in w.table.jobs
    requires w.threads[id].Transfers() ==> TargetOf(w, id) != p
    ensures p in Advance(w, id).disk.parts <==> p in w.disk.parts
    ensures p in w.disk.parts ==> Advance(w, id).disk.parts[p] == w.disk.parts[p]
  {
  }

  /** Another transfer's own steps leave it alone, and so do calls. */
  lemma OthersKeepThePart(w: World, step: Step, id: Id)
    requires Orderly(w) && Relies(w, id) && !step.CrashDaemon? && !step.Reconcile? && step.id != id
    ensures var p := TargetOf(w, id);
            && (p in Next(w, step).disk.parts <==> p in w.disk.parts)
            && (p in w.disk.parts ==> Next(w, step).disk.parts[p] == w.disk.parts[p])
  {
    if step.id in w.threads && w.threads[step.id].Transfers() {
      assert ThreadOk(w, step.id);
      OtherTargets(w, id, step.id);
    }
    PartsOfStep(w, step, TargetOf(w, id));
  }

  lemma OwnStepsKeepThePart(w: World, step: Step)
    requires !step.CrashDaemon? && !step.Reconcile? && Relies(w, step.id) && TargetOf(w, step.id) in w.disk.parts
    requires step.id in w.plans && step.id !in w.todo
    ensures TargetOf(w, step.id) !in Next(w, step).disk.parts <==> w.threads[step.id].Staged? && (step.Go? || step.Mismatch?)
  {
  }

  ghost predicate TornPart(w: World, p: Path) { p in w.disk.parts && w.disk.parts[p].torn }

  /** A transfer that asked to continue a file opens it, and it is gone. */
  ghost predicate Tears(w: World, step: Step, p: Path) {
    && step.Go? && step.id in w.threads && step.id in w.table.jobs && TargetOf(w, step.id) == p
    && w.threads[step.id].Asked? && w.threads[step.id].offset > 0 && p !in w.disk.parts
  }

  /** A partial file becomes torn exactly when it is opened where it was asked for and is gone. */
  lemma PartTearsIff(w: World, step: Step, p: Path)
    requires Orderly(w) && !TornPart(w, p)
    ensures TornPart(Next(w, step), p) <==> Tears(w, step, p)
  {
    if step.CrashDaemon? {
    } else if step.Reconcile? {
      PartsOfReconcile(w, step.id, p);
    } else if step.id in w.threads && w.threads[step.id].Transfers() && TargetOf(w, step.id) == p {
      assert ThreadOk(w, step.id) && JobOk(w, step.id);
      OwnStepTearsIff(w, step);
    } else {
      PartsOfStep(w, step, p);
    }
  }

  lemma OwnStepTearsIff(w: World, step: Step)
    requires !step.CrashDaemon? && !step.Reconcile? && step.id in w.threads && step.id in w.table.jobs && step.id in w.plans
    requires !TornPart(w, TargetOf(w, step.id))
    ensures TornPart(Next(w, step), TargetOf(w, step.id)) <==> Tears(w, step, TargetOf(w, step.id))
  {
  }

  // ------------------------------------------------------------------
  // Between the size and the open
  // ------------------------------------------------------------------

  /** Asking reads the size of the file that is there. */
  lemma AskingFindsTheFile(w: World, id: Id)
    requires id in w.threads && id in w.table.jobs && w.threads[id].Executing?
    ensures StandsAt(Next(w, Go(id)), id, Asked(SizeOf(w, TargetOf(w, id)))) && Next(w, Go(id)).disk == w.disk
    ensures SizeOf(w, TargetOf(w, id)) > 0 ==> TargetOf(w, id) in w.disk.parts
  {
  }

  /** None of the steps is the transfer's own, and the daemon lives. */
  ghost predicate Elsewhere(steps: seq<Step>, id: Id) {
    forall i :: 0 <= i < |steps| ==> !steps[i].CrashDaemon? && steps[i].id != id
  }

  /** One of the steps reconciles a record that discards the partial file of `p`. */
  ghost predicate HitBy(w: World, steps: seq<Step>, p: Path) {
    steps != [] &&
    var before, last := steps[..|steps| - 1], steps[|steps| - 1];
    HitBy(w, before, p) || (last.Reconcile? && Discards(Run(w, before), last.id, p))
  }

  /** While a reply is awaited the partial file stays as it was, exactly if no such record is reconciled. */
  lemma {:induction false} WhileAsked(w: World, steps: seq<Step>, id: Id, offset: nat, p: Path)
    requires Orderly(w) && StandsAt(w, id, Asked(offset)) && id in w.table.jobs && TargetOf(w, id) == p && p in w.disk.parts
    requires Elsewhere(steps, id)
    ensures var v := Run(w, steps);
            && Orderly(v) && StandsAt(v, id, Asked(offset)) && id in v.table.jobs && v.table.jobs[id] == w.table.jobs[id]
            && (p in v.disk.parts <==> !HitBy(w, steps, p))
            && (p in v.disk.parts ==> v.disk.parts[p] == w.disk.parts[p])
    decreases |steps|
  {
    if steps != [] {
      var before, last := steps[..|steps| - 1], steps[|steps| - 1];
      WhileAsked(w, before, id, offset, p);
      var v := Run(w, before);
      NextKeepsOrder(v, last);
      ElsewhereIsUntouched(v, last, id);
      if last.Reconcile? {
        PartsOfReconcile(v, last.id, p);
      } else {
        OthersKeepThePart(v, last, id);
      }
    }
  }

  /**
   A file that is resumed lacks its beginning exactly if a discard fell between the
   size that was asked about and the open, or it lacked it already; what it holds is
   then new.
   */
  lemma ResumeTearsIff(w: World, steps: seq<Step>, id: Id, offset: nat, p: Path)
    requires Orderly(w) && StandsAt(w, id, Asked(offset)) && id in w.table.jobs && TargetOf(w, id) == p && p in w.disk.parts
    requires offset > 0 && Elsewhere(steps, id)
    ensures var after := Next(Run(w, steps), Go(id));
            && StandsAt(after, id, Staged) && p in after.disk.parts
            && after.disk.parts[p] == if HitBy(w, steps, p) then Part(0, true) else w.disk.parts[p]
  {
    WhileAsked(w, steps, id, offset, p);
  }

  /** A reply that starts over mends a torn file: it is cut back to nothing before it is written. */
  lemma StartingOverMends(w: World, id: Id, offset: nat)
    requires StandsAt(w, id, Asked(offset)) && id in w.table.jobs
    ensures var after, p := Next(w, Restart(id)), TargetOf(w, id);
            StandsAt(after, id, Staged) && p in after.disk.parts && after.disk.parts[p] == Part(0, false)
  {
  }

  /** A torn file lands exactly if the plan has no digest, and the target is then known to be torn. */
  lemma TornLandsIff(w: World, id: Id)
    requires StandsAt(w, id, Staged) && id in w.table.jobs && TornPart(w, TargetOf(w, id))
    ensures var after := Next(w, Go(id));
            if w.table.jobs[id].plan.digest
            then StandsAt(after, id, Executed(Errored)) && after.disk == Discarded(w, TargetOf(w, id)).disk
            else StandsAt(after, id, Landed) && TargetOf(w, id) in after.disk.landed && TargetOf(w, id) in after.disk.torn
  {
  }

  // ------------------------------------------------------------------
  // After the open
  // ------------------------------------------------------------------

  /** A transfer that cannot land any more: its file is gone, or it ended in an error. */
  ghost predicate Doomed(w: World, id: Id) {
    && id in w.table.jobs && !w.table.jobs[id].phase.Succeeded()
    && (if id !in w.threads then w.table.jobs[id].phase.IsTerminal()
        else
          var stage := w.threads[id];
          || (stage.Staged? && TargetOf(w, id) !in w.disk.parts)
          || (stage.Executed? && !stage.ending.Fine?)
          || (((stage.Save? && stage.point == AtEnd) || stage.Leaving?) && w.table.jobs[id].phase.IsTerminal()))
  }

  lemma DoomedGoes(w: World, id: Id)
    requires Doomed(w, id) && id in w.threads
    ensures Doomed(Advance(w, id), id) && Advance(w, id).renames[id] == w.renames[id]
  {
  }

  lemma DoomedStays(w: World, step: Step, id: Id)
    requires Orderly(w) && Doomed(w, id) && !step.CrashDaemon?
    ensures Doomed(Next(w, step), id) && Next(w, step).renames[id] == w.renames[id]
  {
    assert JobOk(w, id) && (id in w.threads ==> ThreadOk(w, id));
    if step.id != id {
      ElsewhereIsUntouched(w, step, id);
      if id in w.threads && w.threads[id].Staged? {
        if step.Reconcile? {
          PartsOfReconcile(w, step.id, TargetOf(w, id));
        } else {
          OthersKeepThePart(w, step, id);
        }
      }
    } else if step.Go? && id in w.threads {
      DoomedGoes(w, id);
    } else if !step.Go? {
      OwnDoom(w, step);
    }
  }

  lemma OwnDoom(w: World, step: Step)
    requires !step.CrashDaemon? && !step.Go? && Doomed(w, step.id) && step.id in w.plans && step.id !in w.todo
    ensures Doomed(Next(w, step), step.id) && Next(w, step).renames[step.id] == w.renames[step.id]
  {
  }

  /**
   Once the file a transfer is filling has been discarded, that transfer never lands:
   however the run goes on, until the daemon dies nothing is renamed for it and its job
   does not complete.
   */
  lemma {:induction false} ALostPartNeverLands(w: World, steps: seq<Step>, id: Id)
    requires Orderly(w) && Doomed(w, id) && forall i :: 0 <= i < |steps| ==> !steps[i].CrashDaemon?
    ensures Orderly(Run(w, steps)) && Doomed(Run(w, steps), id) && Run(w, steps).renames[id] == w.renames[id]
    decreases |steps|
  {
    if steps != [] {
      var before := steps[..|steps| - 1];
      ALostPartNeverLands(w, before, id);
      NextKeepsOrder(Run(w, before), steps[|steps| - 1]);
      DoomedStays(Run(w, before), steps[|steps| - 1], id);
    }
  }

  /** A discard after the open is such a loss. */
  lemma ADiscardDooms(w: World, id: Id, other: Id)
    requires Orderly(w) && StandsAt(w, id, Staged) && id in w.table.jobs && other != id && Discards(w, other, TargetOf(w, id))
    ensures Doomed(Next(w, Reconcile(other)), id)
  {
    assert ThreadOk(w, id);
    PartsOfReconcile(w, other, TargetOf(w, id));
    ElsewhereIsUntouched(w, Reconcile(other), id);
  }
}
