/** What each mutation of the head leaves behind, field by field, and what follows for a detached job. */
module ClusterAnswers {
  import opened JobTypes
  import opened ClusterRules
  import opened ClusterCascade
  import opened ClusterRuns
  import opened ClusterPromises

  /** A field after an update: what the update carries for it, or as before. */
  predicate IsApplied<T(==)>(before: T, change: Change<T>, after: T) {
    (change.Set? ==> after == change.value) && (change.Keep? ==> after == before)
  }

  // ---------------------------------------------------------------- jobs

  predicate HasEnded(job: Job) {
    job.status.JobCompleted? || job.status.JobFailed? || job.status.JobCanceled?
  }

  /** COMPLETED is refused by a job that does not run; a job that ends without a time for it ends now. */
  predicate IsEndUpdated(before: Job, u: JobUpdate, now: real, after: Job) {
    && (if u.status == Set(JobCompleted) && before.status != JobRunning then after.status == before.status
        else IsApplied(before.status, u.status, after.status))
    && (if HasEnded(after) && !HasEnded(before) && (u.endedAt == Set(None) || (u.endedAt.Keep? && before.endedAt.None?))
        then after.endedAt == Some(now)
        else IsApplied(before.endedAt, u.endedAt, after.endedAt))
  }

  /** Every other field is what the update carries or as before; a reason for failing is added once. */
  predicate IsRestUpdated(before: Job, u: JobUpdate, failReason: Option<nat>, after: Job) {
    && IsApplied(before.allUploaded, u.allUploaded, after.allUploaded)
    && IsApplied(before.clientHasAll, u.clientHasAll, after.clientHasAll)
    && IsApplied(before.dashboardCanceled, u.dashboardCanceled, after.dashboardCanceled)
    && IsApplied(before.endReason, u.endReason, after.endReason)
    && after.failReasons == before.failReasons
                            + (if failReason.Some? && failReason.value !in before.failReasons then [failReason.value] else [])
    && after.parent == before.parent && after.background == before.background && after.startResponse == before.startResponse
    && after.replacements == before.replacements && after.growCpus == before.growCpus && after.growGpus == before.growGpus
    && after.progress == before.progress
  }

  predicate IsUpdated(before: Job, u: JobUpdate, failReason: Option<nat>, now: real, after: Job) {
    IsEndUpdated(before, u, now, after) && IsRestUpdated(before, u, failReason, after)
  }

  lemma MergeUpdatesEnd(job: Job, u: JobUpdate, failReason: Option<nat>, now: real)
    ensures IsEndUpdated(job, u, now, MergeJob(job, u, failReason, now))
  {
  }

  lemma MergeUpdatesRest(job: Job, u: JobUpdate, failReason: Option<nat>, now: real)
    ensures IsRestUpdated(job, u, failReason, MergeJob(job, u, failReason, now))
  {
  }

  /** The updated job, found in memory or in its row, has exactly the fields of the update changed, in memory
      and, but for the progress, in its row. */
  lemma UpdateAnswer(c: Cluster, id: JobId, u: JobUpdate, failReason: Option<nat>, now: real)
    requires id in c.jobs || id in c.jobRows
    ensures var c' := UpdateJob(c, id, u, failReason, now);
            && id in c'.jobs && id in c'.jobRows && c'.jobRows[id] == c'.jobs[id].(progress := map[])
            && IsUpdated(if id in c.jobs then c.jobs[id] else c.jobRows[id].(progress := map[]), u, failReason, now, c'.jobs[id])
  {
    UpdateEffect(c, id, u, failReason, now);
    MergeUpdatesEnd(LoadJob(c, id).jobs[id], u, failReason, now);
    MergeUpdatesRest(LoadJob(c, id).jobs[id], u, failReason, now);
  }

  lemma UnknownJobIsNotUpdated(c: Cluster, id: JobId, u: JobUpdate, failReason: Option<nat>, now: real)
    requires id !in c.jobs && id !in c.jobRows
    ensures UpdateJob(c, id, u, failReason, now) == c
  {
  }

  /** A node may lose a reservation for one of the jobs in `ended`, then written to its row as well; nothing else
      about it changes, and no row of another node. */
  predicate LetGoAtMost(c: Cluster, after: Cluster, ended: set<JobId>, name: NodeId) {
    && (name in after.nodes <==> name in c.nodes)
    && (name in c.nodes ==>
          || after.nodes[name] == c.nodes[name]
          || (c.nodes[name].reservedFor.Some? && c.nodes[name].reservedFor.value in ended
              && after.nodes[name] == c.nodes[name].(reservedFor := None)))
    && (if name in c.nodes && after.nodes[name] != c.nodes[name]
        then name in after.nodeRows && after.nodeRows[name] == after.nodes[name]
        else (name in after.nodeRows <==> name in c.nodeRows)
             && (name in c.nodeRows ==> after.nodeRows[name] == c.nodeRows[name]))
  }

  lemma ReleasingLetsGo(c: Cluster, ended: set<JobId>, name: NodeId)
    ensures LetGoAtMost(c, ReleaseFrom(c, ended), ended, name) && ReleaseFrom(c, ended).paused == c.paused
  {
  }

  lemma LettingGoTwice(c: Cluster, own: Cluster, all: Cluster, id: JobId, doomed: set<JobId>, name: NodeId)
    requires LetGoAtMost(c, own, {id}, name) && LetGoAtMost(own, all, doomed, name)
    ensures LetGoAtMost(c, all, doomed + {id}, name)
  {
  }

  lemma OwnUpdateLetsGo(c: Cluster, id: JobId, u: JobUpdate, failReason: Option<nat>, now: real, name: NodeId)
    requires id in c.jobs
    ensures var own := UpdateOwn(c, id, u, failReason, now);
            LetGoAtMost(c, own, if HasEnded(own.jobs[id]) then {id} else {}, name) && own.paused == c.paused
  {
    var job := MergeJob(c.jobs[id], u, failReason, now);
    ReleasingLetsGo(c.(jobs := c.jobs[id := job], jobRows := c.jobRows[id := Stored(job)]),
                    if IsTerminal(job.status) then {id} else {}, name);
  }

  lemma CancelingLetsGo(c: Cluster, ids: set<JobId>, now: real, name: NodeId)
    requires HaveParents(c.jobs, ids)
    ensures LetGoAtMost(c, CancelAll(c, ids, now), ids, name) && CancelAll(c, ids, now).paused == c.paused
  {
    var jobs := CanceledJobs(c.jobs, ids, now);
    ReleasingLetsGo(c.(jobs := jobs, jobRows := CanceledRows(c.jobRows, jobs, ids)), ids, name);
  }

  /** An update of a job leaves every node as it is, but for reservations of the job itself once it has ended and
      of jobs canceled with it. */
  lemma UpdateLetsGo(c: Cluster, id: JobId, u: JobUpdate, failReason: Option<nat>, now: real, name: NodeId)
    ensures var c' := UpdateJob(c, id, u, failReason, now);
            var ended := set other | other in c'.jobs && HasEnded(c'.jobs[other])
                                     && (other == id || (other in c.jobs && c.jobs[other].status.JobRunning?));
            LetGoAtMost(c, c', ended, name) && c'.paused == c.paused
  {
    var loaded := LoadJob(c, id);
    if id in loaded.jobs {
      var own := UpdateOwn(loaded, id, u, failReason, now);
      OwnUpdateLetsGo(loaded, id, u, failReason, now, name);
      if Cascades(loaded.jobs[id], own.jobs[id]) {
        DoomedHaveParents(own.jobs, id);
        var doomed := Doomed(own.jobs, id);
        CancelingLetsGo(own, doomed, now, name);
        LettingGoTwice(loaded, own, CancelAll(own, doomed, now), id, doomed, name);
        CanceledHaveEnded(own, doomed, now);
      }
    }
  }

  lemma CanceledHaveEnded(c: Cluster, ids: set<JobId>, now: real)
    requires HaveParents(c.jobs, ids)
    ensures CancelAll(c, ids, now).jobs.Keys == c.jobs.Keys
    ensures forall id :: id in c.jobs ==>
              if id in ids then CancelAll(c, ids, now).jobs[id].status.JobCanceled?
              else CancelAll(c, ids, now).jobs[id] == c.jobs[id]
  {
  }

  /** When a job ends badly, another one ends with it exactly when it runs, is not detached with all its inputs,
      and its parent is the ended job or one that ends with it. */
  lemma EndsWithParentExactlyWhen(c: Cluster, id: JobId, u: JobUpdate, failReason: Option<nat>, now: real, other: JobId)
    requires id in c.jobs && !HasEnded(c.jobs[id]) && (u.status == Set(JobFailed) || u.status == Set(JobCanceled))
    requires other in c.jobs && other != id
    ensures var jobs := UpdateJob(c, id, u, failReason, now).jobs;
            var parent := c.jobs[other].parent;
            && other in jobs
            && (jobs[other] != c.jobs[other]
                <==> c.jobs[other].status.JobRunning? && !(c.jobs[other].background && c.jobs[other].allUploaded)
                     && parent.Some?
                     && (parent.value == id || (parent.value in c.jobs && jobs[parent.value] != c.jobs[parent.value])))
  {
    CancelsExactlyTheTree(c, id, u, failReason, now, other);
    if c.jobs[other].parent.Some? {
      var p := c.jobs[other].parent.value;
      if p == id {
        assert Cancelable(c.jobs[other]) ==> Below(c.jobs, id, other, 1);
      } else {
        BelowParent(c.jobs, id, other, p);
        if p in c.jobs {
          CancelsExactlyTheTree(c, id, u, failReason, now, p);
        }
      }
    }
  }

  lemma BelowParent(jobs: map<JobId, Job>, root: JobId, id: JobId, parent: JobId)
    requires id in jobs && jobs[id].parent == Some(parent) && parent != root
    ensures IsBelow(jobs, root, id) <==> Cancelable(jobs[id]) && IsBelow(jobs, root, parent)
  {
    if IsBelow(jobs, root, id) {
      var n: nat :| Below(jobs, root, id, n);
      assert Below(jobs, root, parent, n - 1);
    }
    if Cancelable(jobs[id]) && IsBelow(jobs, root, parent) {
      var n: nat :| Below(jobs, root, parent, n);
      assert Below(jobs, root, id, n + 1);
    }
  }

  // ---------------------------------------------------------------- detached jobs

  /** A background job that runs and has all its inputs. */
  predicate IsOnItsOwn(c: Cluster, id: JobId) {
    id in c.jobs && c.jobs[id].status.JobRunning? && c.jobs[id].background && c.jobs[id].allUploaded
  }

  /** The step does not itself write the job's status or take its upload back. */
  predicate LeavesAlone(step: Step, id: JobId) {
    step.JobStep? && step.id == id ==> step.jobUpdate.status.Keep? && step.jobUpdate.allUploaded != Set(false)
  }

  lemma CascadeSpares(c: Cluster, other: JobId, u: JobUpdate, failReason: Option<nat>, now: real, id: JobId)
    requires IsOnItsOwn(c, id) && id != other
    ensures IsOnItsOwn(UpdateJob(c, other, u, failReason, now), id)
  {
    var loaded := LoadJob(c, other);
    if other in loaded.jobs {
      var own := UpdateOwn(loaded, other, u, failReason, now);
      DoomedHaveParents(own.jobs, other);
      assert id !in Doomed(own.jobs, other);
    }
  }

  lemma OwnUpdateKeepsOnItsOwn(c: Cluster, id: JobId, u: JobUpdate, failReason: Option<nat>, now: real)
    requires IsOnItsOwn(c, id) && u.status.Keep? && u.allUploaded != Set(false)
    ensures IsOnItsOwn(UpdateJob(c, id, u, failReason, now), id)
  {
    UpdateAnswer(c, id, u, failReason, now);
  }

  lemma AdmissionKeepsOnItsOwn(c: Cluster, other: JobId, job: Job, names: seq<NodeId>, now: real, id: JobId)
    requires IsOnItsOwn(c, id)
    ensures IsOnItsOwn(AdmitJob(c, other, job, names, now), id)
  {
  }

  lemma ProgressKeepsOnItsOwn(c: Cluster, other: JobId, name: NodeId, results: Option<nat>, flush: bool, id: JobId)
    requires IsOnItsOwn(c, id)
    ensures IsOnItsOwn(UpdateProgress(c, other, name, results, flush), id)
  {
  }

  lemma ReplacementKeepsOnItsOwn(c: Cluster, other: JobId, name: NodeId, request: nat, cpus: nat, gpus: nat, id: JobId)
    requires IsOnItsOwn(c, id)
    ensures IsOnItsOwn(RecordReplacement(c, other, name, request, cpus, gpus), id)
  {
  }

  lemma RestartKeepsOnItsOwn(c: Cluster, id: JobId)
    requires JobsAgree(c) && IsOnItsOwn(c, id)
    ensures IsOnItsOwn(Restart(c), id)
  {
    assert c.jobRows[id] == Stored(c.jobs[id]);
  }

  lemma OtherStepsKeepOnItsOwn(c: Cluster, step: Step, id: JobId)
    requires JobsAgree(c) && IsOnItsOwn(c, id) && !step.JobStep?
    ensures IsOnItsOwn(Apply(c, step), id)
  {
    match step
    case AdmitStep(other, job, names, now) => AdmissionKeepsOnItsOwn(c, other, job, names, now, id);
    case ProgressStep(other, name, results, flush) => ProgressKeepsOnItsOwn(c, other, name, results, flush, id);
    case ReplacementStep(other, name, request, cpus, gpus) =>
      ReplacementKeepsOnItsOwn(c, other, name, request, cpus, gpus, id);
    case RestartStep => RestartKeepsOnItsOwn(c, id);
    case NodeStep(_, _) =>
    case RemoveStep(_) =>
    case PauseStep =>
    case ResumeStep =>
  }

  /** A background job keeps running through whatever happens to other jobs, its parents included, and through
      restarts of the head, as long as nobody writes its own status or takes its upload back. */
  lemma {:induction false} DetachedJobRunsOn(c: Cluster, steps: seq<Step>, id: JobId)
    requires JobsAgree(c) && IsOnItsOwn(c, id) && forall k :: 0 <= k < |steps| ==> LeavesAlone(steps[k], id)
    ensures IsOnItsOwn(After(c, steps), id)
    decreases |steps|
  {
    if steps != [] {
      StepKeepsJobsAgree(c, steps[0]);
      if !steps[0].JobStep? {
        OtherStepsKeepOnItsOwn(c, steps[0], id);
      } else if steps[0].id != id {
        CascadeSpares(c, steps[0].id, steps[0].jobUpdate, steps[0].failReason, steps[0].now, id);
      } else {
        assert LeavesAlone(steps[0], id);
        OwnUpdateKeepsOnItsOwn(c, id, steps[0].jobUpdate, steps[0].failReason, steps[0].now);
      }
      DetachedJobRunsOn(Apply(c, steps[0]), steps[1..], id);
    }
  }

  /** So once the client of a running background job has reported its upload, no bad end of a parent, however
      far up, ends it. */
  lemma UploadReportSavesJob(c: Cluster, id: JobId, now: real, steps: seq<Step>)
    requires JobsAgree(c) && id in c.jobs && c.jobs[id].status.JobRunning? && c.jobs[id].background
    requires forall k :: 0 <= k < |steps| ==> LeavesAlone(steps[k], id)
    ensures var report := JobUpdate(Keep, Set(true), Keep, Keep, Keep, Keep);
            IsOnItsOwn(After(UpdateJob(c, id, report, None, now), steps), id)
  {
    var report := JobUpdate(Keep, Set(true), Keep, Keep, Keep, Keep);
    UpdateAnswer(c, id, report, None, now);
    UpdateKeepsJobsAgree(c, id, report, None, now);
    DetachedJobRunsOn(UpdateJob(c, id, report, None, now), steps, id);
  }

  // ---------------------------------------------------------------- nodes

  predicate IsTerminalNode(status: Option<NodeStatus>) {
    status == Some(Deleted) || status == Some(Failed)
  }

  /** A dead node does not come back, and a failed one is not marked deleted. */
  predicate RefusesStatus(before: Option<NodeStatus>, wanted: NodeStatus) {
    || (IsTerminalNode(before) && (wanted.Booting? || wanted.Ready? || wanted.Running?))
    || (before == Some(Failed) && wanted.Deleted?)
  }

  predicate IsNodeUpdated(before: Node, u: NodeUpdate, after: Node) {
    && after.status == (if u.status.None? || RefusesStatus(before.status, u.status.value) then before.status else u.status)
    && IsApplied(before.address, u.address, after.address)
    && IsApplied(before.currentJob, u.currentJob, after.currentJob)
    && IsApplied(before.reservedFor, u.reservedFor, after.reservedFor)
    && IsApplied(before.scope, u.scope, after.scope)
    && IsApplied(before.details, u.details, after.details)
    && (u.pushedAt.None? ==> after.lastPushAt == before.lastPushAt && after.fromHistory == before.fromHistory)
    && (u.pushedAt.Some? ==> after.lastPushAt == u.pushedAt && !after.fromHistory)
  }

  /** An update of a node changes the fields it carries, of that node alone; its row is written exactly when the
      status changes or the update carries one of the durable fields. */
  lemma NodeUpdateAnswer(c: Cluster, name: NodeId, u: NodeUpdate)
    ensures var c' := UpdateNode(c, name, u);
            var before := if name in c.nodes then c.nodes[name] else Node(None, 0, None, None, None, None, false, 0);
            && c'.nodes.Keys == c.nodes.Keys + {name} && IsNodeUpdated(before, u, c'.nodes[name])
            && (forall other :: other in c.nodes && other != name ==> c'.nodes[other] == c.nodes[other])
            && c'.jobs == c.jobs && c'.jobRows == c.jobRows && c'.paused == c.paused
            && c'.nodeRows == if c'.nodes[name].status != before.status || u.address.Set? || u.currentJob.Set?
                                 || u.reservedFor.Set? || u.scope.Set?
                              then c.nodeRows[name := c'.nodes[name]] else c.nodeRows
  {
  }

  // ---------------------------------------------------------------- admission

  /** READY, on no job, reserved for none, not kept for one, and heard from in the last 15 seconds. */
  predicate MayBeGiven(c: Cluster, name: NodeId, now: real) {
    && name in c.nodes && c.nodes[name].status == Some(Ready)
    && c.nodes[name].currentJob.None? && c.nodes[name].reservedFor.None? && c.nodes[name].scope.None?
    && (c.nodes[name].lastPushAt.Some? ==> now - c.nodes[name].lastPushAt.value <= 15.0)
    && (c.nodes[name].lastPushAt.None? ==> now <= 15.0)
  }

  /** A job is admitted exactly when it is new, admission is not paused, and all its nodes may be given; one that
      is known gets the response it was first given, and any other none. */
  lemma AdmittedExactlyWhen(c: Cluster, id: JobId, job: Job, names: seq<NodeId>, now: real)
    ensures var answer := AdmissionOf(c, id, job, names, now);
            && (answer.admitted <==> id !in c.jobs && id !in c.jobRows && !c.paused
                                     && forall name :: name in names ==> MayBeGiven(c, name, now))
            && answer.response == (if id in c.jobs then Some(c.jobs[id].startResponse)
                                   else if id in c.jobRows then Some(c.jobRows[id].startResponse)
                                   else if answer.admitted then Some(job.startResponse) else None)
  {
    if forall name :: name in names ==> MayBeGiven(c, name, now) {
      forall k | 0 <= k < |names| ensures names[k] in c.nodes && IsFree(c.nodes[names[k]], now) {
        assert names[k] in names;
      }
    } else {
      var name :| name in names && !MayBeGiven(c, name, now);
      assert !(name in c.nodes && IsFree(c.nodes[name], now));
    }
  }

  lemma PauseAnswer(c: Cluster)
    ensures var running := exists id :: id in c.jobs && c.jobs[id].status.JobRunning?;
            PauseIfIdle(c) == c.(paused := c.paused || !running)
    ensures Resume(c) == c.(paused := false)
  {
  }

  // ---------------------------------------------------------------- progress, budgets, restarts

  /** A node's push changes its own count, to what it reports or, for a first push without one, to 0; and the
      row only by being written as the job is. */
  lemma ProgressAnswer(c: Cluster, id: JobId, name: NodeId, results: Option<nat>, flush: bool)
    requires id in c.jobs
    ensures var c' := UpdateProgress(c, id, name, results, flush);
            && c'.jobs.Keys == c.jobs.Keys && (forall other :: other in c.jobs && other != id ==> c'.jobs[other] == c.jobs[other])
            && c'.jobs[id].(progress := map[]) == c.jobs[id].(progress := map[])
            && c'.jobs[id].progress.Keys == c.jobs[id].progress.Keys + {name}
            && (forall other :: other in c.jobs[id].progress && other != name ==>
                  c'.jobs[id].progress[other] == c.jobs[id].progress[other])
            && (results.Some? ==> c'.jobs[id].progress[name] == results.value)
            && (results.None? && name in c.jobs[id].progress ==> c'.jobs[id].progress[name] == c.jobs[id].progress[name])
            && (results.None? && name !in c.jobs[id].progress ==> c'.jobs[id].progress[name] == 0)
            && c'.jobRows == (if flush then c.jobRows[id := c.jobs[id].(progress := map[])] else c.jobRows)
            && c'.nodes == c.nodes && c'.nodeRows == c.nodeRows && c'.paused == c.paused
  {
  }

  /** What is left of a budget: unlimited stays unlimited, and a limit never falls below zero. */
  predicate IsSpent(before: Option<nat>, used: nat, after: Option<nat>) {
    && (before.None? <==> after.None?)
    && (before.Some? ==> after.value as int >= before.value - used && (after.value == 0 || after.value + used == before.value))
  }

  lemma ReplacementAnswer(c: Cluster, id: JobId, name: NodeId, request: nat, cpus: nat, gpus: nat)
    requires id in c.jobs
    ensures var c' := RecordReplacement(c, id, name, request, cpus, gpus);
            && c'.jobs.Keys == c.jobs.Keys && (forall other :: other in c.jobs && other != id ==> c'.jobs[other] == c.jobs[other])
            && var before, after := c.jobs[id], c'.jobs[id];
            && after.replacements == before.replacements[name := request]
            && IsSpent(before.growCpus, cpus, after.growCpus) && IsSpent(before.growGpus, gpus, after.growGpus)
            && after == before.(replacements := after.replacements, growCpus := after.growCpus, growGpus := after.growGpus)
            && c'.jobRows == c.jobRows[id := after.(progress := map[])]
            && c'.nodes == c.nodes && c'.nodeRows == c.nodeRows && c'.paused == c.paused
  {
  }

  /** A restart keeps the rows and nothing of what was only in memory: no pushes, no progress, no pause. */
  lemma RestartAnswer(c: Cluster)
    ensures var again := Restart(c);
            && again.nodeRows == c.nodeRows && again.jobRows == c.jobRows && !again.paused
            && (forall name :: name in again.nodes <==>
                  name in c.nodeRows && c.nodeRows[name].status.Some? && c.nodeRows[name].status != Some(Deleted))
            && (forall name :: name in again.nodes ==>
                  again.nodes[name] == c.nodeRows[name].(lastPushAt := None, fromHistory := true))
            && (forall id :: id in again.jobs <==> id in c.jobRows && c.jobRows[id].status.JobRunning?)
            && (forall id :: id in again.jobs ==> again.jobs[id] == c.jobRows[id].(progress := map[]))
  {
  }
}
