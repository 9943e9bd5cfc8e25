/** Promises of the head about single nodes and jobs, over whole runs with restarts. */
module ClusterPromises {
  import opened JobTypes
  import opened ClusterRules
  import opened ClusterCascade
  import opened ClusterRuns

  // ---------------------------------------------------------------- one update, job by job

  /** An update is the job's own change and then, at once, the end of the jobs in `ended`. */
  lemma UpdateInTwo(c: Cluster, id: JobId, u: JobUpdate, failReason: Option<nat>, now: real)
    returns (own: Cluster, ended: set<JobId>)
    requires id in LoadJob(c, id).jobs
    ensures own == UpdateOwn(LoadJob(c, id), id, u, failReason, now)
    ensures HaveParents(own.jobs, ended) && id !in ended
    ensures forall other :: other in ended ==> own.jobs[other].status.JobRunning?
    ensures ended != {} ==> IsTerminal(own.jobs[id].status)
    ensures UpdateJob(c, id, u, failReason, now) == CancelAll(own, ended, now)
  {
    var loaded := LoadJob(c, id);
    own := UpdateOwn(loaded, id, u, failReason, now);
    if Cascades(loaded.jobs[id], own.jobs[id]) {
      ended := Doomed(own.jobs, id);
      DoomedHaveParents(own.jobs, id);
    } else {
      ended := {};
      CancelNone(own, now);
    }
  }

  predicate StaysOrIsCanceled(before: Job, after: Job) {
    after == before
    || (before.status.JobRunning? && after.status.JobCanceled? && after.startResponse == before.startResponse)
  }

  /** `after` is `before` with `id` rewritten, and other jobs only canceled while they ran. */
  ghost predicate JobsUpdated(before: Cluster, after: Cluster, id: JobId) {
    && after.paused == before.paused
    && (forall other :: other != id ==>
          && (other in after.jobs <==> other in before.jobs)
          && (other in before.jobs ==> StaysOrIsCanceled(before.jobs[other], after.jobs[other])))
    && (forall other :: other != id && other in before.jobRows ==>
          && other in after.jobRows
          && (after.jobRows[other] == before.jobRows[other]
              || (other in before.jobs && before.jobs[other].status.JobRunning?
                  && after.jobRows[other] == Stored(after.jobs[other]) && after.jobs[other].status.JobCanceled?)))
  }

  lemma CancelUpdatesJobs(before: Cluster, own: Cluster, id: JobId, ended: set<JobId>, now: real)
    requires HaveParents(own.jobs, ended) && id !in ended && own.paused == before.paused
    requires forall other :: other in ended ==> own.jobs[other].status.JobRunning?
    requires forall other :: other != id ==>
               && (other in own.jobs <==> other in before.jobs)
               && (other in own.jobs ==> own.jobs[other] == before.jobs[other])
               && (other in own.jobRows <==> other in before.jobRows)
               && (other in own.jobRows ==> own.jobRows[other] == before.jobRows[other])
    ensures JobsUpdated(before, CancelAll(own, ended, now), id)
  {
  }

  /** What one update does to every job; the updated one has become what the update says. */
  lemma UpdateEffect(c: Cluster, id: JobId, u: JobUpdate, failReason: Option<nat>, now: real)
    requires id in LoadJob(c, id).jobs
    ensures var c' := UpdateJob(c, id, u, failReason, now);
            && JobsUpdated(c, c', id)
            && id in c'.jobs && c'.jobs[id] == MergeJob(LoadJob(c, id).jobs[id], u, failReason, now)
            && id in c'.jobRows && c'.jobRows[id] == Stored(c'.jobs[id])
  {
    var own, ended := UpdateInTwo(c, id, u, failReason, now);
    CancelUpdatesJobs(c, own, id, ended, now);
  }

  /** An update changes nothing about a node but lets it go if its job has ended afterwards. */
  predicate StaysOrIsReleased(before: Node, after: Node, jobs: map<JobId, Job>) {
    after == before
    || (after == before.(reservedFor := None) && before.reservedFor.Some?
        && before.reservedFor.value in jobs && IsTerminal(jobs[before.reservedFor.value].status))
  }

  ghost predicate NodesReleased(before: map<NodeId, Node>, after: map<NodeId, Node>, jobs: map<JobId, Job>) {
    && after.Keys == before.Keys
    && forall name :: name in before ==> StaysOrIsReleased(before[name], after[name], jobs)
  }

  lemma CancelReleasesNodes(before: map<NodeId, Node>, own: Cluster, id: JobId, ended: set<JobId>, now: real)
    requires HaveParents(own.jobs, ended) && id !in ended && id in own.jobs
    requires own.nodes == Release(before, if IsTerminal(own.jobs[id].status) then {id} else {})
    ensures var c' := CancelAll(own, ended, now); NodesReleased(before, c'.nodes, c'.jobs)
  {
    var c' := CancelAll(own, ended, now);
    assert c'.nodes == Release(own.nodes, ended);
    assert c'.jobs[id] == own.jobs[id];
  }

  lemma UpdateReleasesNodes(c: Cluster, id: JobId, u: JobUpdate, failReason: Option<nat>, now: real)
    ensures var c' := UpdateJob(c, id, u, failReason, now); NodesReleased(c.nodes, c'.nodes, c'.jobs)
  {
    if id in LoadJob(c, id).jobs {
      var own, ended := UpdateInTwo(c, id, u, failReason, now);
      CancelReleasesNodes(c.nodes, own, id, ended, now);
    }
  }

  // ---------------------------------------------------------------- node status

  function Rank(status: Option<NodeStatus>): nat {
    if status == Some(Failed) then 2 else if status == Some(Deleted) then 1 else 0
  }

  /** Everything but an update of the node itself leaves all of it but its reservation alone. */
  predicate SameButReservation(a: map<NodeId, Node>, b: map<NodeId, Node>) {
    b.Keys == a.Keys && forall name :: name in a ==> b[name] == a[name].(reservedFor := b[name].reservedFor)
  }

  lemma OtherStepsKeepNodes(c: Cluster, step: Step)
    requires !step.NodeStep? && !step.RemoveStep? && !step.RestartStep?
    ensures SameButReservation(c.nodes, Apply(c, step).nodes)
  {
    match step
    case JobStep(id, u, failReason, now) => UpdateReleasesNodes(c, id, u, failReason, now);
    case AdmitStep(_, _, _, _) =>
    case PauseStep =>
    case ResumeStep =>
    case ProgressStep(_, _, _, _) =>
    case ReplacementStep(_, _, _, _, _) =>
  }

  /** Until the head restarts or drops the node, its status only climbs: live, DELETED, FAILED. */
  lemma {:induction false} NodeStatusOnlyClimbs(c: Cluster, steps: seq<Step>, name: NodeId)
    requires name in c.nodes
    requires forall k :: 0 <= k < |steps| ==> !steps[k].RestartStep? && steps[k] != RemoveStep(name)
    ensures var c' := After(c, steps);
            name in c'.nodes && Rank(c'.nodes[name].status) >= Rank(c.nodes[name].status)
    decreases |steps|
  {
    if steps != [] {
      if !steps[0].NodeStep? && !steps[0].RemoveStep? {
        OtherStepsKeepNodes(c, steps[0]);
      }
      NodeStatusOnlyClimbs(Apply(c, steps[0]), steps[1..], name);
    }
  }

  /** A late push brings a dead node back exactly when this head does not remember it as dead:
      a restarted head has forgotten the nodes whose row says DELETED. */
  lemma LatePushRevivesExactlyWhen(c: Cluster, name: NodeId, u: NodeUpdate)
    requires u.status.Some? && IsLive(u.status.value)
    ensures UpdateNode(c, name, u).nodes[name].status == u.status
            <==> !(name in c.nodes && Rank(c.nodes[name].status) > 0)
  {
  }

  lemma RestartForgetsDeleted(c: Cluster, name: NodeId, u: NodeUpdate)
    requires Agree(c) && name in c.nodes && c.nodes[name].status == Some(Deleted)
    requires u.status == Some(Ready)
    ensures UpdateNode(c, name, u).nodes[name].status == Some(Deleted)
    ensures UpdateNode(Restart(c), name, u).nodes[name].status == Some(Ready)
  {
  }

  predicate PushesTo(step: Step, name: NodeId) {
    step.NodeStep? && step.name == name && step.update.pushedAt.Some?
  }

  /** A node read back from history is not given to a job until it has pushed to the new head. */
  lemma {:induction false} ReloadedNodesWait(c: Cluster, steps: seq<Step>, name: NodeId, now: real)
    requires name in c.nodes ==> c.nodes[name].lastPushAt.None?
    requires forall k :: 0 <= k < |steps| ==> !PushesTo(steps[k], name)
    requires now > NODE_FRESHNESS_SEC
    ensures name in After(c, steps).nodes ==> !IsFree(After(c, steps).nodes[name], now)
    decreases |steps|
  {
    if steps != [] {
      if !steps[0].NodeStep? && !steps[0].RemoveStep? && !steps[0].RestartStep? {
        OtherStepsKeepNodes(c, steps[0]);
      }
      ReloadedNodesWait(Apply(c, steps[0]), steps[1..], name, now);
    }
  }

  // ---------------------------------------------------------------- admission

  /** Either every selected node was free and is now reserved for the job, which runs and is
      stored; or nothing is reserved, no node row changes, and no new job exists. */
  lemma AdmissionIsAllOrNothing(c: Cluster, id: JobId, job: Job, names: seq<NodeId>, now: real)
    ensures var c' := AdmitJob(c, id, job, names, now);
            if AdmissionOf(c, id, job, names, now).admitted then
              && !c.paused && id !in c.jobs && id !in c.jobRows
              && c'.jobs == c.jobs[id := Stored(job)] && c'.jobRows == c.jobRows[id := Stored(job)]
              && c'.nodes.Keys == c.nodes.Keys
              && (forall name :: name in names ==>
                    name in c.nodes && IsFree(c.nodes[name], now)
                    && c'.nodes[name] == c.nodes[name].(reservedFor := Some(id))
                    && name in c'.nodeRows && c'.nodeRows[name] == c'.nodes[name])
              && (forall name :: name in c.nodes && name !in names ==> c'.nodes[name] == c.nodes[name])
              && (forall name :: name !in names && name in c.nodeRows ==>
                    name in c'.nodeRows && c'.nodeRows[name] == c.nodeRows[name])
              && (forall name :: name in c'.nodeRows ==> name in names || name in c.nodeRows)
            else
              c'.nodes == c.nodes && c'.nodeRows == c.nodeRows && c'.jobRows == c.jobRows && c'.jobs == LoadJob(c, id).jobs
  {
  }

  predicate Remembers(c: Cluster, id: JobId, response: nat) {
    && id in c.jobRows && c.jobRows[id].startResponse == response
    && (id in c.jobs ==> c.jobs[id].startResponse == response)
  }

  lemma UpdateKeepsResponses(c: Cluster, id: JobId, u: JobUpdate, failReason: Option<nat>, now: real, known: JobId, response: nat)
    requires Remembers(c, known, response)
    ensures Remembers(UpdateJob(c, id, u, failReason, now), known, response)
  {
    if id in LoadJob(c, id).jobs {
      UpdateEffect(c, id, u, failReason, now);
      JobsUpdatedKeepsResponses(c, UpdateJob(c, id, u, failReason, now), id, known, response);
    }
  }

  lemma JobsUpdatedKeepsResponses(c: Cluster, c': Cluster, id: JobId, known: JobId, response: nat)
    requires Remembers(c, known, response) && JobsUpdated(c, c', id)
    ensures known != id ==> Remembers(c', known, response)
  {
  }

  lemma AdmitKeepsResponses(c: Cluster, id: JobId, job: Job, names: seq<NodeId>, now: real, known: JobId, response: nat)
    requires Remembers(c, known, response)
    ensures Remembers(AdmitJob(c, id, job, names, now), known, response)
  {
  }

  lemma ProgressKeepsResponses(c: Cluster, id: JobId, name: NodeId, results: Option<nat>, flush: bool, known: JobId, response: nat)
    requires Remembers(c, known, response)
    ensures Remembers(UpdateProgress(c, id, name, results, flush), known, response)
  {
  }

  lemma ReplacementKeepsResponses(c: Cluster, id: JobId, name: NodeId, request: nat, cpus: nat, gpus: nat, known: JobId, response: nat)
    requires Remembers(c, known, response)
    ensures Remembers(RecordReplacement(c, id, name, request, cpus, gpus), known, response)
  {
  }

  lemma OtherStepsKeepResponses(c: Cluster, step: Step, id: JobId, response: nat)
    requires Remembers(c, id, response) && !step.JobStep?
    ensures Remembers(Apply(c, step), id, response)
  {
    match step
    case NodeStep(_, _) =>
    case RemoveStep(_) =>
    case AdmitStep(other, job, names, now) => AdmitKeepsResponses(c, other, job, names, now, id, response);
    case PauseStep =>
    case ResumeStep =>
    case ProgressStep(other, name, results, flush) => ProgressKeepsResponses(c, other, name, results, flush, id, response);
    case ReplacementStep(other, name, request, cpus, gpus) =>
      ReplacementKeepsResponses(c, other, name, request, cpus, gpus, id, response);
    case RestartStep =>
  }

  lemma StepKeepsResponses(c: Cluster, step: Step, id: JobId, response: nat)
    requires Remembers(c, id, response)
    ensures Remembers(Apply(c, step), id, response)
  {
    if step.JobStep? {
      UpdateKeepsResponses(c, step.id, step.jobUpdate, step.failReason, step.now, id, response);
    } else {
      OtherStepsKeepResponses(c, step, id, response);
    }
  }

  lemma {:induction false} RunKeepsResponses(c: Cluster, steps: seq<Step>, id: JobId, response: nat)
    requires Remembers(c, id, response)
    ensures Remembers(After(c, steps), id, response)
    decreases |steps|
  {
    if steps != [] {
      StepKeepsResponses(c, steps[0], id, response);
      RunKeepsResponses(Apply(c, steps[0]), steps[1..], id, response);
    }
  }

  /** Whatever happens after a job was admitted, asking again with its id gives the first response,
      reserves nothing and starts nothing. */
  lemma ReplayGivesFirstResponse(c: Cluster, id: JobId, job: Job, names: seq<NodeId>, now: real,
                                 steps: seq<Step>, again: Job, others: seq<NodeId>, later: real)
    requires AdmissionOf(c, id, job, names, now).admitted
    ensures var c' := After(AdmitJob(c, id, job, names, now), steps);
            && AdmissionOf(c', id, again, others, later) == Admission(false, Some(job.startResponse))
            && AdmitJob(c', id, again, others, later).nodes == c'.nodes
            && AdmitJob(c', id, again, others, later).jobRows == c'.jobRows
  {
    RunKeepsResponses(AdmitJob(c, id, job, names, now), steps, id, job.startResponse);
  }

  // ---------------------------------------------------------------- reservations

  /** What a restart would read back about the node is what memory says. */
  predicate RowMatches(c: Cluster, name: NodeId) {
    name in c.nodes && name in c.nodeRows && Durable(c.nodeRows[name]) == Durable(c.nodes[name])
  }

  /** The node is reserved for the job or runs it. */
  predicate IsHeld(c: Cluster, name: NodeId, id: JobId) {
    && RowMatches(c, name)
    && c.nodes[name].status.Some? && !c.nodes[name].status.value.Deleted?
    && (c.nodes[name].reservedFor == Some(id) || c.nodes[name].currentJob == Some(id))
  }

  predicate IsRunning(c: Cluster, id: JobId) {
    id in c.jobs && c.jobs[id].status.JobRunning?
  }

  /** An update after which the node neither is reserved for the job nor runs it, or is deleted. */
  predicate LeavesJob(node: Node, u: NodeUpdate, id: JobId) {
    || (u.status == Some(Deleted) && node.status != Some(Failed))
    || (Changed(node.reservedFor, u.reservedFor) != Some(id) && Changed(node.currentJob, u.currentJob) != Some(id))
  }

  predicate LetsGo(c: Cluster, step: Step, name: NodeId, id: JobId) {
    || step == RemoveStep(name)
    || (step.NodeStep? && step.name == name && LeavesJob(NodeOr(c.nodes, name), step.update, id))
  }

  lemma ReleaseKeepsRow(c: Cluster, ended: set<JobId>, name: NodeId)
    requires RowMatches(c, name)
    ensures RowMatches(ReleaseFrom(c, ended), name)
  {
  }

  lemma UpdateKeepsRow(c: Cluster, id: JobId, u: JobUpdate, failReason: Option<nat>, now: real, name: NodeId)
    requires RowMatches(c, name)
    ensures RowMatches(UpdateJob(c, id, u, failReason, now), name)
  {
    var loaded := LoadJob(c, id);
    if id in loaded.jobs {
      var own, ended := UpdateInTwo(c, id, u, failReason, now);
      var job := MergeJob(loaded.jobs[id], u, failReason, now);
      ReleaseKeepsRow(loaded.(jobs := loaded.jobs[id := job], jobRows := loaded.jobRows[id := Stored(job)]),
                      if IsTerminal(job.status) then {id} else {}, name);
      ReleaseKeepsRow(own, ended, name);
    }
  }

  lemma UpdateKeepsHold(c: Cluster, id: JobId, u: JobUpdate, failReason: Option<nat>, now: real, name: NodeId, job: JobId)
    requires IsHeld(c, name, job) && IsRunning(UpdateJob(c, id, u, failReason, now), job)
    ensures IsHeld(UpdateJob(c, id, u, failReason, now), name, job)
  {
    var c' := UpdateJob(c, id, u, failReason, now);
    UpdateKeepsRow(c, id, u, failReason, now, name);
    UpdateReleasesNodes(c, id, u, failReason, now);
    assert StaysOrIsReleased(c.nodes[name], c'.nodes[name], c'.jobs);
  }

  lemma NodeStepKeepsHold(c: Cluster, pushed: NodeId, u: NodeUpdate, name: NodeId, id: JobId)
    requires IsHeld(c, name, id)
    ensures IsHeld(UpdateNode(c, pushed, u), name, id) <==> !(pushed == name && LeavesJob(c.nodes[name], u, id))
  {
  }

  lemma AdmitKeepsHold(c: Cluster, id: JobId, job: Job, names: seq<NodeId>, now: real, name: NodeId, held: JobId)
    requires IsHeld(c, name, held)
    ensures IsHeld(AdmitJob(c, id, job, names, now), name, held)
  {
  }

  /** While its job runs, a held node is let go by two steps only: an update after which it neither
      is reserved for the job nor runs it, or is deleted, and being dropped from memory. */
  lemma HoldEndsExactlyWhen(c: Cluster, step: Step, name: NodeId, id: JobId)
    requires IsHeld(c, name, id) && IsRunning(Apply(c, step), id)
    ensures IsHeld(Apply(c, step), name, id) <==> !LetsGo(c, step, name, id)
  {
    match step
    case NodeStep(pushed, u) => NodeStepKeepsHold(c, pushed, u, name, id);
    case RemoveStep(_) =>
    case AdmitStep(other, job, names, now) => AdmitKeepsHold(c, other, job, names, now, name, id);
    case JobStep(other, u, failReason, now) => UpdateKeepsHold(c, other, u, failReason, now, name, id);
    case PauseStep =>
    case ResumeStep =>
    case ProgressStep(_, _, _, _) =>
    case ReplacementStep(_, _, _, _, _) =>
    case RestartStep =>
  }

  ghost predicate KeepsRunning(c: Cluster, steps: seq<Step>, id: JobId)
    decreases |steps|
  {
    IsRunning(c, id) && (steps != [] ==> KeepsRunning(Apply(c, steps[0]), steps[1..], id))
  }

  ghost predicate NeverLetsGo(c: Cluster, steps: seq<Step>, name: NodeId, id: JobId)
    decreases |steps|
  {
    steps != [] ==> !LetsGo(c, steps[0], name, id) && NeverLetsGo(Apply(c, steps[0]), steps[1..], name, id)
  }

  /** A node held for a job that keeps running stays held, through head restarts too, and no
      admission can have it. */
  lemma {:induction false} HeldNodeStays(c: Cluster, steps: seq<Step>, name: NodeId, id: JobId)
    requires IsHeld(c, name, id) && KeepsRunning(c, steps, id) && NeverLetsGo(c, steps, name, id)
    ensures IsHeld(After(c, steps), name, id)
    ensures forall other, names, now :: name in names ==> !CanAdmit(After(c, steps), other, names, now)
    decreases |steps|
  {
    if steps != [] {
      HoldEndsExactlyWhen(c, steps[0], name, id);
      HeldNodeStays(Apply(c, steps[0]), steps[1..], name, id);
    }
  }

  /** From its admission on, a job shares its nodes with no other job: each stays held until the
      job ends or the node itself lets go. */
  lemma AdmittedNodesAreExclusive(c: Cluster, id: JobId, job: Job, names: seq<NodeId>, now: real,
                                  steps: seq<Step>, name: NodeId)
    requires AdmissionOf(c, id, job, names, now).admitted && name in names
    requires KeepsRunning(AdmitJob(c, id, job, names, now), steps, id)
    requires NeverLetsGo(AdmitJob(c, id, job, names, now), steps, name, id)
    ensures var c' := After(AdmitJob(c, id, job, names, now), steps);
            && IsHeld(c', name, id)
            && forall other, others, later :: name in others ==> !CanAdmit(c', other, others, later)
  {
    AdmissionIsAllOrNothing(c, id, job, names, now);
    HeldNodeStays(AdmitJob(c, id, job, names, now), steps, name, id);
  }

  /** The push at job start gives up the reservation and keeps the hold. */
  lemma JobStartKeepsHold(c: Cluster, name: NodeId, id: JobId, pushedAt: real)
    requires IsHeld(c, name, id)
    ensures var u := NodeUpdate(Some(Running), Keep, Set(Some(id)), Set(None), Keep, Some(pushedAt), Keep);
            && !LetsGo(c, NodeStep(name, u), name, id)
            && IsHeld(UpdateNode(c, name, u), name, id) && UpdateNode(c, name, u).nodes[name].reservedFor.None?
  {
  }

  /** Ending a job leaves no node reserved for it; ending it badly, none for a job canceled with it. */
  lemma EndingReleasesNodes(c: Cluster, id: JobId, u: JobUpdate, failReason: Option<nat>, now: real, ended: JobId)
    requires id in c.jobs && IsTerminal(MergeJob(c.jobs[id], u, failReason, now).status)
    requires ended == id || (!IsTerminal(c.jobs[id].status) && EndsBadly(u) && IsBelow(c.jobs, id, ended))
    ensures var c' := UpdateJob(c, id, u, failReason, now);
            forall name :: name in c'.nodes ==> c'.nodes[name].reservedFor != Some(ended)
  {
    var own := UpdateOwn(c, id, u, failReason, now);
    DoomedHaveParents(own.jobs, id);
    if ended != id {
      BelowIsTheSameAfter(c.jobs, own.jobs, id, ended);
    }
  }

  // ---------------------------------------------------------------- ended jobs and pauses

  predicate WritesRunning(step: Step) {
    step.JobStep? && step.jobUpdate.status == Set(JobRunning)
  }

  predicate EndedBadly(c: Cluster, id: JobId) {
    id in c.jobRows && (c.jobRows[id].status.JobFailed? || c.jobRows[id].status.JobCanceled?)
  }

  /** Neither running nor completed, so that no node can report completion. */
  predicate CannotComplete(c: Cluster, id: JobId) {
    id in c.jobRows && !c.jobRows[id].status.JobRunning? && !c.jobRows[id].status.JobCompleted?
  }

  lemma StoredJobIsLoaded(c: Cluster, id: JobId)
    requires JobsAgree(c) && id in c.jobRows
    ensures id in LoadJob(c, id).jobs && LoadJob(c, id).jobs[id].status == c.jobRows[id].status
  {
  }

  lemma RowAfterUpdate(c: Cluster, id: JobId, u: JobUpdate, failReason: Option<nat>, now: real, other: JobId)
    requires JobsAgree(c) && other in c.jobRows && !c.jobRows[other].status.JobRunning?
    ensures var c' := UpdateJob(c, id, u, failReason, now);
            && other in c'.jobRows
            && c'.jobRows[other].status == if id != other || u.status == Set(JobCompleted) then c.jobRows[other].status
                                           else Changed(c.jobRows[other].status, u.status)
  {
    StoredJobIsLoaded(c, other);
    if id in LoadJob(c, id).jobs {
      UpdateEffect(c, id, u, failReason, now);
    }
  }

  lemma AdmitKeepsRows(c: Cluster, id: JobId, job: Job, names: seq<NodeId>, now: real, other: JobId)
    requires other in c.jobRows
    ensures var c' := AdmitJob(c, id, job, names, now);
            other in c'.jobRows && c'.jobRows[other].status == c.jobRows[other].status
  {
  }

  lemma ProgressKeepsRows(c: Cluster, id: JobId, name: NodeId, results: Option<nat>, flush: bool, other: JobId)
    requires JobsAgree(c) && other in c.jobRows
    ensures var c' := UpdateProgress(c, id, name, results, flush);
            other in c'.jobRows && c'.jobRows[other].status == c.jobRows[other].status
  {
    StoredJobIsLoaded(c, other);
  }

  lemma ReplacementKeepsRows(c: Cluster, id: JobId, name: NodeId, request: nat, cpus: nat, gpus: nat, other: JobId)
    requires JobsAgree(c) && other in c.jobRows
    ensures var c' := RecordReplacement(c, id, name, request, cpus, gpus);
            other in c'.jobRows && c'.jobRows[other].status == c.jobRows[other].status
  {
    StoredJobIsLoaded(c, other);
  }

  lemma OtherStepsKeepJobStatus(c: Cluster, step: Step, id: JobId)
    requires JobsAgree(c) && id in c.jobRows && !step.JobStep?
    ensures var c' := Apply(c, step); id in c'.jobRows && c'.jobRows[id].status == c.jobRows[id].status
  {
    match step
    case AdmitStep(other, job, names, now) => AdmitKeepsRows(c, other, job, names, now, id);
    case ProgressStep(other, name, results, flush) => ProgressKeepsRows(c, other, name, results, flush, id);
    case ReplacementStep(other, name, request, cpus, gpus) =>
      ReplacementKeepsRows(c, other, name, request, cpus, gpus, id);
    case _ =>
  }

  /** A FAILED or CANCELED job stops being one exactly when an update carries a status and that is
      none of FAILED, CANCELED and COMPLETED: RUNNING, null or any other text. */
  lemma BadEndIsUndoneExactlyWhen(c: Cluster, step: Step, id: JobId)
    requires JobsAgree(c) && EndedBadly(c, id)
    ensures EndedBadly(Apply(c, step), id)
            <==> !(step.JobStep? && step.id == id && step.jobUpdate.status.Set? && !IsTerminal(step.jobUpdate.status.value))
  {
    if step.JobStep? {
      RowAfterUpdate(c, step.id, step.jobUpdate, step.failReason, step.now, id);
    } else {
      OtherStepsKeepJobStatus(c, step, id);
    }
  }

  /** Whatever else is written, only RUNNING opens the way to RUNNING and COMPLETED again. */
  lemma OnlyRunningReopens(c: Cluster, step: Step, id: JobId)
    requires JobsAgree(c) && CannotComplete(c, id)
    ensures CannotComplete(Apply(c, step), id) <==> !(WritesRunning(step) && step.id == id)
  {
    if step.JobStep? {
      RowAfterUpdate(c, step.id, step.jobUpdate, step.failReason, step.now, id);
    } else {
      OtherStepsKeepJobStatus(c, step, id);
    }
  }

  /** So a FAILED or CANCELED job is never RUNNING or COMPLETED again in any run without such an
      update, restarts included. */
  lemma {:induction false} BadEndLasts(c: Cluster, steps: seq<Step>, id: JobId)
    requires JobsAgree(c) && CannotComplete(c, id)
    requires forall k :: 0 <= k < |steps| ==> !(WritesRunning(steps[k]) && steps[k].id == id)
    ensures CannotComplete(After(c, steps), id)
    decreases |steps|
  {
    if steps != [] {
      StepKeepsJobsAgree(c, steps[0]);
      OnlyRunningReopens(c, steps[0], id);
      BadEndLasts(Apply(c, steps[0]), steps[1..], id);
    }
  }

  predicate IdleWhilePaused(c: Cluster) {
    c.paused ==> !AnyRunning(c.jobs)
  }

  lemma JobsUpdatedWhilePaused(c: Cluster, c': Cluster, id: JobId)
    requires IdleWhilePaused(c) && JobsUpdated(c, c', id) && id in c'.jobs
    ensures IdleWhilePaused(c') <==> !(c.paused && c'.jobs[id].status.JobRunning?)
  {
  }

  lemma UpdatedStatus(c: Cluster, id: JobId, u: JobUpdate, failReason: Option<nat>, now: real)
    requires JobsAgree(c) && id in LoadJob(c, id).jobs && (id in c.jobs ==> !c.jobs[id].status.JobRunning?)
    ensures MergeJob(LoadJob(c, id).jobs[id], u, failReason, now).status.JobRunning? <==> u.status == Set(JobRunning)
  {
  }

  lemma UpdateWhilePaused(c: Cluster, id: JobId, u: JobUpdate, failReason: Option<nat>, now: real)
    requires JobsAgree(c) && IdleWhilePaused(c)
    ensures IdleWhilePaused(UpdateJob(c, id, u, failReason, now))
            <==> !(c.paused && u.status == Set(JobRunning) && id in c.jobRows)
  {
    if id in LoadJob(c, id).jobs {
      if c.paused {
        UpdatedStatus(c, id, u, failReason, now);
      }
      UpdateEffect(c, id, u, failReason, now);
      JobsUpdatedWhilePaused(c, UpdateJob(c, id, u, failReason, now), id);
    }
  }

  lemma LoadingRunsNothing(c: Cluster, id: JobId)
    requires JobsAgree(c)
    ensures AnyRunning(LoadJob(c, id).jobs) ==> AnyRunning(c.jobs)
  {
  }

  lemma AdmitWhilePaused(c: Cluster, id: JobId, job: Job, names: seq<NodeId>, now: real)
    requires JobsAgree(c) && IdleWhilePaused(c)
    ensures IdleWhilePaused(AdmitJob(c, id, job, names, now))
  {
  }

  lemma ProgressWhilePaused(c: Cluster, id: JobId, name: NodeId, results: Option<nat>, flush: bool)
    requires JobsAgree(c) && IdleWhilePaused(c)
    ensures IdleWhilePaused(UpdateProgress(c, id, name, results, flush))
  {
    LoadingRunsNothing(c, id);
  }

  lemma OtherStepsWhilePaused(c: Cluster, step: Step)
    requires JobsAgree(c) && IdleWhilePaused(c) && !step.JobStep?
    ensures IdleWhilePaused(Apply(c, step))
  {
    match step
    case NodeStep(_, _) =>
    case RemoveStep(_) =>
    case AdmitStep(id, job, names, now) => AdmitWhilePaused(c, id, job, names, now);
    case PauseStep =>
    case ResumeStep =>
    case ProgressStep(id, name, results, flush) => ProgressWhilePaused(c, id, name, results, flush);
    case ReplacementStep(id, _, _, _, _) => LoadingRunsNothing(c, id);
    case RestartStep =>
  }

  /** While admission is paused no job runs, unless an update writes RUNNING to a stored job. */
  lemma PauseFailsExactlyWhen(c: Cluster, step: Step)
    requires JobsAgree(c) && Enabled(step) && IdleWhilePaused(c)
    ensures IdleWhilePaused(Apply(c, step)) <==> !(c.paused && WritesRunning(step) && step.id in c.jobRows)
  {
    if step.JobStep? {
      UpdateWhilePaused(c, step.id, step.jobUpdate, step.failReason, step.now);
    } else {
      OtherStepsWhilePaused(c, step);
    }
  }

  lemma {:induction false} PauseMeansIdle(c: Cluster, steps: seq<Step>)
    requires JobsAgree(c) && IsRun(steps) && IdleWhilePaused(c)
    requires forall k :: 0 <= k < |steps| ==> !WritesRunning(steps[k])
    ensures IdleWhilePaused(After(c, steps))
    decreases |steps|
  {
    if steps != [] {
      StepKeepsJobsAgree(c, steps[0]);
      PauseFailsExactlyWhen(c, steps[0]);
      PauseMeansIdle(Apply(c, steps[0]), steps[1..]);
    }
  }
}
