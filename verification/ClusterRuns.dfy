/** Runs of the head's mutations and restarts: memory and history agree but for nodes dropped from
    memory, and a job that ends badly takes exactly its tree with it. */
module ClusterRuns {
  import opened JobTypes
  import opened ClusterRules
  import opened ClusterCascade

  datatype Step =
    | NodeStep(name: NodeId, update: NodeUpdate)
    | RemoveStep(name: NodeId)
    | AdmitStep(id: JobId, job: Job, names: seq<NodeId>, now: real)
    | JobStep(id: JobId, jobUpdate: JobUpdate, failReason: Option<nat>, now: real)
    | PauseStep
    | ResumeStep
    | ProgressStep(id: JobId, name: NodeId, results: Option<nat>, flush: bool)
    | ReplacementStep(id: JobId, name: NodeId, request: nat, cpus: nat, gpus: nat)
    | RestartStep

  /** A job is admitted as RUNNING. */
  predicate Enabled(step: Step) {
    step.AdmitStep? ==> step.job.status.JobRunning?
  }

  ghost function Apply(c: Cluster, step: Step): Cluster {
    match step
    case NodeStep(name, u) => UpdateNode(c, name, u)
    case RemoveStep(name) => RemoveNode(c, name)
    case AdmitStep(id, job, names, now) => AdmitJob(c, id, job, names, now)
    case JobStep(id, u, failReason, now) => UpdateJob(c, id, u, failReason, now)
    case PauseStep => PauseIfIdle(c)
    case ResumeStep => Resume(c)
    case ProgressStep(id, name, results, flush) => UpdateProgress(c, id, name, results, flush)
    case ReplacementStep(id, name, request, cpus, gpus) => RecordReplacement(c, id, name, request, cpus, gpus)
    case RestartStep => Restart(c)
  }

  predicate IsRun(steps: seq<Step>) {
    forall k :: 0 <= k < |steps| ==> Enabled(steps[k])
  }

  ghost function After(c: Cluster, steps: seq<Step>): Cluster
    decreases |steps|
  {
    if steps == [] then c else After(Apply(c, steps[0]), steps[1..])
  }

  // ---------------------------------------------------------------- memory and history agree

  datatype DurableNode = DurableNode(
    status: Option<NodeStatus>,
    address: nat,
    currentJob: Option<JobId>,
    reservedFor: Option<JobId>,
    scope: Option<JobId>)

  function Durable(node: Node): DurableNode {
    DurableNode(node.status, node.address, node.currentJob, node.reservedFor, node.scope)
  }

  /** Memory is in history, and what history would bring back is in memory, but for nodes in `lost`. */
  predicate NodesAgree(nodes: map<NodeId, Node>, rows: map<NodeId, Node>, lost: set<NodeId>) {
    && (forall name :: name in nodes && nodes[name].status.Some? ==> name in rows && Durable(rows[name]) == Durable(nodes[name]))
    && (forall name :: name in rows && IsActiveRow(rows[name]) && name !in lost ==>
          name in nodes && Durable(nodes[name]) == Durable(rows[name]))
  }

  predicate JobsAgree(c: Cluster) {
    && (forall id :: id in c.jobs ==> id in c.jobRows && c.jobRows[id] == Stored(c.jobs[id]))
    && (forall id :: id in c.jobRows && c.jobRows[id].status.JobRunning? ==> id in c.jobs)
    && (forall id :: id in c.jobRows ==> c.jobRows[id] == Stored(c.jobRows[id]))
  }

  predicate AgreeBut(c: Cluster, lost: set<NodeId>) {
    NodesAgree(c.nodes, c.nodeRows, lost) && JobsAgree(c)
  }

  predicate Agree(c: Cluster) {
    AgreeBut(c, {})
  }

  // Jobs: every mutation writes the row along with memory.

  lemma LoadKeepsJobsAgree(c: Cluster, id: JobId)
    requires JobsAgree(c)
    ensures JobsAgree(LoadJob(c, id))
  {
  }

  lemma WriteKeepsJobsAgree(c: Cluster, id: JobId, job: Job)
    requires JobsAgree(c)
    ensures JobsAgree(c.(jobs := c.jobs[id := job], jobRows := c.jobRows[id := Stored(job)]))
  {
  }

  lemma CancelKeepsJobsAgree(c: Cluster, ids: set<JobId>, now: real)
    requires HaveParents(c.jobs, ids) && JobsAgree(c)
    ensures JobsAgree(CancelAll(c, ids, now))
  {
  }

  lemma UpdateTreeKeepsJobsAgree(c: Cluster, id: JobId, u: JobUpdate, failReason: Option<nat>, now: real)
    requires id in c.jobs && JobsAgree(c)
    ensures JobsAgree(UpdateTree(c, id, u, failReason, now))
  {
    var own := UpdateOwn(c, id, u, failReason, now);
    WriteKeepsJobsAgree(c, id, MergeJob(c.jobs[id], u, failReason, now));
    DoomedHaveParents(own.jobs, id);
    CancelKeepsJobsAgree(own, Doomed(own.jobs, id), now);
  }

  lemma UpdateKeepsJobsAgree(c: Cluster, id: JobId, u: JobUpdate, failReason: Option<nat>, now: real)
    requires JobsAgree(c)
    ensures JobsAgree(UpdateJob(c, id, u, failReason, now))
  {
    LoadKeepsJobsAgree(c, id);
    if id in LoadJob(c, id).jobs {
      UpdateTreeKeepsJobsAgree(LoadJob(c, id), id, u, failReason, now);
    }
  }

  lemma AdmitKeepsJobsAgree(c: Cluster, id: JobId, job: Job, names: seq<NodeId>, now: real)
    requires JobsAgree(c)
    ensures JobsAgree(AdmitJob(c, id, job, names, now))
  {
    LoadKeepsJobsAgree(c, id);
    WriteKeepsJobsAgree(c, id, Stored(job));
  }

  lemma ProgressKeepsJobsAgree(c: Cluster, id: JobId, name: NodeId, results: Option<nat>, flush: bool)
    requires JobsAgree(c)
    ensures JobsAgree(UpdateProgress(c, id, name, results, flush))
  {
    LoadKeepsJobsAgree(c, id);
  }

  lemma ReplacementKeepsJobsAgree(c: Cluster, id: JobId, name: NodeId, request: nat, cpus: nat, gpus: nat)
    requires JobsAgree(c)
    ensures JobsAgree(RecordReplacement(c, id, name, request, cpus, gpus))
  {
    LoadKeepsJobsAgree(c, id);
    var loaded := LoadJob(c, id);
    if id in loaded.jobs {
      WriteKeepsJobsAgree(loaded, id, RecordReplacement(c, id, name, request, cpus, gpus).jobs[id]);
    }
  }

  lemma StepKeepsJobsAgree(c: Cluster, step: Step)
    requires JobsAgree(c)
    ensures JobsAgree(Apply(c, step))
  {
    match step
    case AdmitStep(id, job, names, now) => AdmitKeepsJobsAgree(c, id, job, names, now);
    case JobStep(id, u, failReason, now) => UpdateKeepsJobsAgree(c, id, u, failReason, now);
    case ProgressStep(id, name, results, flush) => ProgressKeepsJobsAgree(c, id, name, results, flush);
    case ReplacementStep(id, name, request, cpus, gpus) => ReplacementKeepsJobsAgree(c, id, name, request, cpus, gpus);
    case _ =>
  }

  // Nodes: every mutation that touches a durable field writes the row, but for dropping a node.

  lemma ReleaseKeepsNodesAgree(c: Cluster, ended: set<JobId>, lost: set<NodeId>)
    requires NodesAgree(c.nodes, c.nodeRows, lost)
    ensures var c' := ReleaseFrom(c, ended); NodesAgree(c'.nodes, c'.nodeRows, lost)
  {
  }

  lemma UpdateKeepsNodesAgree(c: Cluster, id: JobId, u: JobUpdate, failReason: Option<nat>, now: real, lost: set<NodeId>)
    requires NodesAgree(c.nodes, c.nodeRows, lost)
    ensures var c' := UpdateJob(c, id, u, failReason, now); NodesAgree(c'.nodes, c'.nodeRows, lost)
  {
    var loaded := LoadJob(c, id);
    if id in loaded.jobs {
      var own := UpdateOwn(loaded, id, u, failReason, now);
      ReleaseKeepsNodesAgree(c, if IsTerminal(own.jobs[id].status) then {id} else {}, lost);
      ReleaseKeepsNodesAgree(own, Doomed(own.jobs, id), lost);
      DoomedHaveParents(own.jobs, id);
    }
  }

  lemma AdmitKeepsNodesAgree(c: Cluster, id: JobId, job: Job, names: seq<NodeId>, now: real, lost: set<NodeId>)
    requires NodesAgree(c.nodes, c.nodeRows, lost)
    ensures var c' := AdmitJob(c, id, job, names, now); NodesAgree(c'.nodes, c'.nodeRows, lost)
  {
    if CanAdmit(c, id, names, now) {
      var chosen := set k | 0 <= k < |names| :: names[k];
      ReserveKeepsNodesAgree(c, chosen, id, lost);
    }
  }

  lemma ReserveKeepsNodesAgree(c: Cluster, names: set<NodeId>, id: JobId, lost: set<NodeId>)
    requires NodesAgree(c.nodes, c.nodeRows, lost)
    ensures var nodes := Reserve(c.nodes, names, id); NodesAgree(nodes, Overwrite(c.nodeRows, nodes, names), lost)
  {
  }

  lemma NodeUpdateAgrees(c: Cluster, name: NodeId, u: NodeUpdate, lost: set<NodeId>)
    requires NodesAgree(c.nodes, c.nodeRows, lost)
    ensures var c' := UpdateNode(c, name, u); NodesAgree(c'.nodes, c'.nodeRows, lost)
  {
  }

  /** A node dropped from memory may still come back from history; a restart brings it back. */
  function LostAfter(lost: set<NodeId>, step: Step): set<NodeId> {
    if step.RemoveStep? then lost + {step.name} else if step.RestartStep? then {} else lost
  }

  /** The nodes dropped from memory since the last restart. */
  function LostBy(steps: seq<Step>, lost: set<NodeId>): set<NodeId>
    decreases |steps|
  {
    if steps == [] then lost else LostBy(steps[1..], LostAfter(lost, steps[0]))
  }

  lemma StepKeepsNodesAgree(c: Cluster, step: Step, lost: set<NodeId>)
    requires NodesAgree(c.nodes, c.nodeRows, lost)
    ensures var c' := Apply(c, step); NodesAgree(c'.nodes, c'.nodeRows, LostAfter(lost, step))
  {
    match step
    case NodeStep(name, u) => NodeUpdateAgrees(c, name, u, lost);
    case AdmitStep(id, job, names, now) => AdmitKeepsNodesAgree(c, id, job, names, now, lost);
    case JobStep(id, u, failReason, now) => UpdateKeepsNodesAgree(c, id, u, failReason, now, lost);
    case _ =>
  }

  lemma StepAgrees(c: Cluster, step: Step, lost: set<NodeId>)
    requires AgreeBut(c, lost)
    ensures AgreeBut(Apply(c, step), LostAfter(lost, step))
  {
    StepKeepsJobsAgree(c, step);
    StepKeepsNodesAgree(c, step, lost);
  }

  lemma {:induction false} RunAgreesBut(c: Cluster, steps: seq<Step>, lost: set<NodeId>)
    requires AgreeBut(c, lost)
    ensures AgreeBut(After(c, steps), LostBy(steps, lost))
    decreases |steps|
  {
    if steps != [] {
      StepAgrees(c, steps[0], lost);
      RunAgreesBut(Apply(c, steps[0]), steps[1..], LostAfter(lost, steps[0]));
    }
  }

  /** Drops a node whose row a restart would read back. */
  predicate RemovesActive(c: Cluster, step: Step) {
    step.RemoveStep? && step.name in c.nodeRows && IsActiveRow(c.nodeRows[step.name])
  }

  /** The one mutation that parts memory from history is dropping a node whose row is active. */
  lemma AgreementEndsExactlyWhen(c: Cluster, step: Step)
    requires Agree(c)
    ensures Agree(Apply(c, step)) <==> !RemovesActive(c, step)
  {
    if !step.RemoveStep? {
      StepAgrees(c, step, {});
    }
  }

  /** That is what a cluster shutdown does to its FAILED nodes: the next head shows them again. */
  lemma RemovedFailedNodeComesBack(c: Cluster, name: NodeId)
    requires Agree(c) && name in c.nodes && c.nodes[name].status == Some(Failed)
    ensures !Agree(RemoveNode(c, name)) && name !in RemoveNode(c, name).nodes
    ensures var again := Restart(RemoveNode(c, name));
            name in again.nodes && Durable(again.nodes[name]) == Durable(c.nodes[name])
  {
    AgreementEndsExactlyWhen(c, RemoveStep(name));
  }

  ghost predicate RemovesOnlyInactive(c: Cluster, steps: seq<Step>)
    decreases |steps|
  {
    steps != [] ==> !RemovesActive(c, steps[0]) && RemovesOnlyInactive(Apply(c, steps[0]), steps[1..])
  }

  lemma {:induction false} RunAgrees(c: Cluster, steps: seq<Step>)
    requires Agree(c) && RemovesOnlyInactive(c, steps)
    ensures Agree(After(c, steps))
    decreases |steps|
  {
    if steps != [] {
      AgreementEndsExactlyWhen(c, steps[0]);
      RunAgrees(Apply(c, steps[0]), steps[1..]);
    }
  }

  /** A head that crashes after any run and restarts has the running jobs, all fields but the
      per-node progress, and the nodes that are not DELETED, their status and assignment, that it
      had before. The only others are nodes dropped from memory since the last restart. */
  lemma CrashLosesNothing(c: Cluster, steps: seq<Step>)
    requires Agree(c)
    ensures var before := After(c, steps);
            var after := Restart(before);
            && (forall id :: id in after.jobs <==> id in before.jobs && before.jobs[id].status.JobRunning?)
            && (forall id :: id in after.jobs ==> after.jobs[id] == Stored(before.jobs[id]))
            && (forall name :: name in before.nodes && IsActiveRow(before.nodes[name]) ==>
                  name in after.nodes && Durable(after.nodes[name]) == Durable(before.nodes[name]))
            && (forall name :: name in after.nodes && name !in LostBy(steps, {}) ==>
                  name in before.nodes && IsActiveRow(before.nodes[name]))
  {
    RunAgreesBut(c, steps, {});
  }

  // ---------------------------------------------------------------- cancellation

  lemma {:induction false} BelowBeforeAndAfter(jobs: map<JobId, Job>, later: map<JobId, Job>, root: JobId, id: JobId, n: nat)
    requires root in jobs && later.Keys == jobs.Keys && !Cancelable(later[root])
    requires forall j :: j in jobs && j != root ==> later[j] == jobs[j]
    ensures Below(jobs, root, id, n) && id != root ==> IsBelow(later, root, id)
    ensures Below(later, root, id, n) ==> IsBelow(jobs, root, id) && id != root
    decreases n
  {
    if n > 0 && id in jobs && id != root && jobs[id].parent.Some? {
      var p := jobs[id].parent.value;
      if p == root {
        assert Cancelable(jobs[id]) ==> Below(later, root, id, 1) && Below(jobs, root, id, 1);
      } else {
        BelowBeforeAndAfter(jobs, later, root, p, n - 1);
        if Below(jobs, root, id, n) {
          var m: nat :| Below(later, root, p, m);
          assert Below(later, root, id, m + 1);
        }
        if Below(later, root, id, n) {
          var m: nat :| Below(jobs, root, p, m);
          assert Below(jobs, root, id, m + 1);
        }
      }
    }
  }

  lemma BelowIsTheSameAfter(jobs: map<JobId, Job>, later: map<JobId, Job>, root: JobId, id: JobId)
    requires root in jobs && later.Keys == jobs.Keys && !Cancelable(later[root])
    requires forall j :: j in jobs && j != root ==> later[j] == jobs[j]
    requires id != root
    ensures IsBelow(later, root, id) <==> IsBelow(jobs, root, id)
  {
    if IsBelow(jobs, root, id) {
      var n: nat :| Below(jobs, root, id, n);
      BelowBeforeAndAfter(jobs, later, root, id, n);
    }
    if IsBelow(later, root, id) {
      var n: nat :| Below(later, root, id, n);
      BelowBeforeAndAfter(jobs, later, root, id, n);
    }
  }

  predicate EndsBadly(u: JobUpdate) {
    u.status == Set(JobFailed) || u.status == Set(JobCanceled)
  }

  lemma JobsAfterEnding(c: Cluster, id: JobId, u: JobUpdate, failReason: Option<nat>, now: real)
    requires id in c.jobs && !IsTerminal(c.jobs[id].status) && EndsBadly(u)
    ensures var jobs := c.jobs[id := MergeJob(c.jobs[id], u, failReason, now)];
            && jobs[id].status == u.status.value
            && HaveParents(jobs, Doomed(jobs, id))
            && UpdateJob(c, id, u, failReason, now).jobs == CanceledJobs(jobs, Doomed(jobs, id), now)
  {
  }

  /** Failing or canceling a job that has not ended cancels the running jobs that hang below it through
      running jobs that are not detached, each with its parent as the reason; no other job changes. */
  lemma CancelsExactlyTheTree(c: Cluster, id: JobId, u: JobUpdate, failReason: Option<nat>, now: real, other: JobId)
    requires id in c.jobs && !IsTerminal(c.jobs[id].status) && EndsBadly(u)
    requires other in c.jobs && other != id
    ensures var after := UpdateJob(c, id, u, failReason, now);
            && other in after.jobs
            && (IsBelow(c.jobs, id, other) ==>
                  after.jobs[other] == c.jobs[other].(
                    status := JobCanceled, dashboardCanceled := true,
                    endedAt := Some(if c.jobs[other].endedAt.Some? then c.jobs[other].endedAt.value else now),
                    endReason := Some(ParentEnded(c.jobs[other].parent.value,
                                                  c.jobs[other].parent.value == id && u.status == Set(JobFailed)))))
            && (!IsBelow(c.jobs, id, other) ==> after.jobs[other] == c.jobs[other])
  {
    var jobs := c.jobs[id := MergeJob(c.jobs[id], u, failReason, now)];
    JobsAfterEnding(c, id, u, failReason, now);
    BelowIsTheSameAfter(c.jobs, jobs, id, other);
    if IsBelow(c.jobs, id, other) {
      var n: nat :| Below(jobs, id, other, n);
      var p := jobs[other].parent.value;
      assert p == id || Below(jobs, id, p, n - 1);
    }
  }

  /** A detached job shields everything below it: canceling a job elsewhere does not reach past it. */
  lemma {:induction false} DetachedShieldsItsTree(jobs: map<JobId, Job>, root: JobId, detached: JobId, id: JobId, n: nat)
    requires detached in jobs && !Cancelable(jobs[detached]) && detached != root
    requires !IsBelow(jobs, detached, root) && Below(jobs, detached, id, n)
    ensures !IsBelow(jobs, root, id)
    decreases n
  {
    var p := jobs[id].parent.value;
    if p != detached {
      assert Below(jobs, detached, p, n - 1);
      DetachedShieldsItsTree(jobs, root, detached, p, n - 1);
    }
    forall m: nat ensures !Below(jobs, root, id, m) {
      assert m > 0 ==> !Below(jobs, root, p, m - 1);
    }
  }
}
