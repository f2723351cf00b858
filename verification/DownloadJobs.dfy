/**
 The download manager's tables: the jobs it knows and, per target, the job whose
 transfer owns it. Every update below happens under the manager's lock.
 */
module DownloadJobs {
  import opened Wrappers

  type Id = nat
  type Path = string

  datatype Phase = Queued | Running | Completed | Failed | Cancelled | AlreadyDownloaded {
    predicate IsTerminal() { !Queued? && !Running? }
    predicate Succeeded() { Completed? || AlreadyDownloaded? }
  }

  /** `digest` says whether the plan has one to verify. */
  datatype Plan = Plan(target: Path, force: bool, digest: bool)

  datatype Job = Job(plan: Plan, phase: Phase)

  /** How a transfer ended: in place, with an error, or with its context cancelled. */
  datatype Ending = Fine | Errored | Interrupted

  datatype Table = Table(jobs: map<Id, Job>, active: map<Path, Id>) {
    /** Every owner of a target is a known job for that target. */
    ghost predicate Valid() {
      forall p :: p in active ==> active[p] in jobs && jobs[active[p]].plan.target == p
    }

    function WithPhase(id: Id, phase: Phase): Table
      requires id in jobs
    {
      this.(jobs := jobs[id := jobs[id].(phase := phase)])
    }
  }

  const EmptyTable := Table(map[], map[])

  /** A target already being downloaded keeps its job; otherwise the new one is registered for it. */
  function Launch(t: Table, id: Id, job: Job): Table {
    if job.plan.target in t.active then t
    else Table(t.jobs[id := job], t.active[job.plan.target := id])
  }

  function Restore(t: Table, id: Id, job: Job): Table { t.(jobs := t.jobs[id := job]) }

  function Cancel(t: Table, id: Id): Table {
    if id in t.jobs && !t.jobs[id].phase.IsTerminal() then t.WithPhase(id, Cancelled) else t
  }

  function Begin(t: Table, id: Id): Table {
    if id in t.jobs && !t.jobs[id].phase.Cancelled? then t.WithPhase(id, Running) else t
  }

  function End(t: Table, id: Id, ending: Ending): Table {
    if id !in t.jobs then t
    else t.WithPhase(id, if t.jobs[id].phase.Cancelled? || ending.Interrupted? then Cancelled
                         else if ending.Errored? then Failed else Completed)
  }

  function ClearActive(t: Table, id: Id): Table {
    if id in t.jobs && t.jobs[id].plan.target in t.active && t.active[t.jobs[id].plan.target] == id
    then t.(active := t.active - {t.jobs[id].plan.target})
    else t
  }

  /** What a restart makes of one record, `present` being what it finds at the target. */
  function ReconcileTable(t: Table, id: Id, record: Job, present: bool): Table {
    if record.phase.IsTerminal() then Restore(t, id, record)
    else if present then Restore(t, id, record.(phase := Completed))
    else Launch(t, id, record.(phase := Queued))
  }

  /** A finished record comes back as it was, a landed one as completed, and any other queued again, unless its target is taken. */
  lemma ReconciledPhases(t: Table, id: Id, record: Job, present: bool)
    requires id !in t.jobs
    ensures var after := ReconcileTable(t, id, record, present);
            && (forall other :: other in t.jobs ==> other in after.jobs && after.jobs[other] == t.jobs[other])
            && (id in after.jobs ==> after.jobs[id].plan == record.plan)
            && (record.phase.IsTerminal() ==> id in after.jobs && after.jobs[id].phase == record.phase && after.active == t.active)
            && (!record.phase.IsTerminal() && present ==> id in after.jobs && after.jobs[id].phase == Completed && after.active == t.active)
            && (!record.phase.IsTerminal() && !present ==>
                  && (id in after.jobs <==> record.plan.target !in t.active)
                  && (id in after.jobs ==> after.jobs[id].phase == Queued && after.active == t.active[record.plan.target := id])
                  && (id !in after.jobs ==> after == t))
  {
  }

  class Manager {
    var jobs: map<Id, Job>
    var active: map<Path, Id>

    constructor ()
      ensures Now() == EmptyTable && Now().Valid()
    {
      jobs, active := map[], map[];
    }

    ghost function Now(): Table
      reads this
    {
      Table(jobs, active)
    }

    /** Start, once its plan is validated; `present` is what it found at the target. */
    method Start(id: Id, plan: Plan, present: bool) returns (job: Job, launched: bool)
      requires Now().Valid() && id !in jobs
      modifies this
      ensures Now().Valid()
      ensures present && !plan.force ==>
              !launched && job == Job(plan, AlreadyDownloaded) && Now() == Restore(old(Now()), id, job)
      ensures !(present && !plan.force) ==>
              && Now() == Launch(old(Now()), id, Job(plan, Queued))
              && (launched <==> plan.target !in old(active))
              && job.plan.target == plan.target && job == jobs[active[plan.target]]
    {
      if present && !plan.force {
        job, launched := Job(plan, AlreadyDownloaded), false;
        jobs := jobs[id := job];
        return;
      }
      job, launched := LaunchJob(id, Job(plan, Queued));
    }

    method LaunchJob(id: Id, wanted: Job) returns (job: Job, launched: bool)
      requires Now().Valid() && id !in jobs
      modifies this
      ensures Now().Valid() && Now() == Launch(old(Now()), id, wanted)
      ensures launched <==> wanted.plan.target !in old(active)
      ensures wanted.plan.target in active && job == jobs[active[wanted.plan.target]]
      ensures job.plan.target == wanted.plan.target
    {
      var target := wanted.plan.target;
      if target in active {
        return jobs[active[target]], false;
      }
      jobs := jobs[id := wanted];
      active := active[target := id];
      job, launched := wanted, true;
    }

    /** Answers with no job when the id is unknown or the job is past cancelling. */
    method CancelJob(id: Id) returns (job: Option<Job>)
      requires Now().Valid()
      modifies this`jobs
      ensures Now().Valid() && Now() == Cancel(old(Now()), id)
      ensures job.Some? <==> id in old(jobs) && !old(jobs)[id].phase.IsTerminal()
      ensures job.Some? ==> job.value.phase == Cancelled && job.value == jobs[id]
    {
      if id !in jobs || jobs[id].phase.IsTerminal() {
        return None;
      }
      jobs := jobs[id := jobs[id].(phase := Cancelled)];
      job := Some(jobs[id]);
    }

    method BeginJob(id: Id)
      requires Now().Valid()
      modifies this`jobs
      ensures Now().Valid() && Now() == Begin(old(Now()), id)
    {
      if id in jobs && jobs[id].phase != Cancelled {
        jobs := jobs[id := jobs[id].(phase := Running)];
      }
    }

    method EndJob(id: Id, ending: Ending)
      requires Now().Valid()
      modifies this`jobs
      ensures Now().Valid() && Now() == End(old(Now()), id, ending)
      ensures id in old(jobs) ==> jobs[id].phase.IsTerminal()
    {
      if id in jobs {
        var phase := if jobs[id].phase == Cancelled || ending == Interrupted then Cancelled
                     else if ending == Errored then Failed
                     else Completed;
        jobs := jobs[id := jobs[id].(phase := phase)];
      }
    }

    method ClearActiveJob(id: Id)
      requires Now().Valid()
      modifies this`active
      ensures Now().Valid() && Now() == ClearActive(old(Now()), id)
      ensures forall p :: p in active ==> active[p] != id
    {
      if id in jobs && jobs[id].plan.target in active && active[jobs[id].plan.target] == id {
        active := active - {jobs[id].plan.target};
      }
    }

    method RestoreJob(id: Id, job: Job)
      requires Now().Valid() && id !in jobs
      modifies this`jobs
      ensures Now().Valid() && Now() == Restore(old(Now()), id, job)
    {
      jobs := jobs[id := job];
    }

    /** What a restart makes of one record; `present` is what it found at the target, and a finished one discards its partial file. */
    method ReconcileJob(id: Id, record: Job, present: bool) returns (launched: bool, discards: bool)
      requires Now().Valid() && id !in jobs
      modifies this
      ensures Now().Valid()
      ensures Now() == ReconcileTable(old(Now()), id, record, present)
      ensures discards <==> record.phase.IsTerminal() || present
      ensures launched <==> !discards && record.plan.target !in old(active)
    {
      launched, discards := false, true;
      if record.phase.IsTerminal() {
        RestoreJob(id, record);
      } else if present {
        RestoreJob(id, record.(phase := Completed));
      } else {
        var _, l := LaunchJob(id, record.(phase := Queued));
        launched, discards := l, false;
      }
    }
  }
}
