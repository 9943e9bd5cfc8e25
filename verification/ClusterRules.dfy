/** The head's live state and its history store as values, and what each mutation does to both.
    The methods of class ClusterState are proved to do this; the theorems are about it. */
module ClusterRules {
  import opened JobTypes

  type NodeId = nat
  type JobId = nat

  const NODE_FRESHNESS_SEC: real := 15.0

  /** A field of a partial update: absent, or present with a value. */
  datatype Change<+T> = Keep | Set(value: T)

  function Changed<T>(before: T, change: Change<T>): T {
    if change.Set? then change.value else before
  }

  // ---------------------------------------------------------------- entities

  datatype NodeStatus = Booting | Ready | Running | Deleted | Failed

  /** `address` stands for host, public_ip, private_ip and zone; `details` for the fields that are
      written to history only along with the others. */
  datatype Node = Node(
    status: Option<NodeStatus>,
    address: nat,
    currentJob: Option<JobId>,
    reservedFor: Option<JobId>,
    scope: Option<JobId>,
    lastPushAt: Option<real>,
    fromHistory: bool,
    details: nat)

  const BLANK_NODE: Node := Node(None, 0, None, None, None, None, false, 0)

  datatype NodeUpdate = NodeUpdate(
    status: Option<NodeStatus>,
    address: Change<nat>,
    currentJob: Change<Option<JobId>>,
    reservedFor: Change<Option<JobId>>,
    scope: Change<Option<JobId>>,
    pushedAt: Option<real>,
    details: Change<nat>)

  /** A partial update may write any status: null, or a text no rule knows. */
  datatype JobStatus = JobRunning | JobCompleted | JobFailed | JobCanceled | NoStatus | OtherStatus(text: nat)

  datatype EndReason = Given(text: nat) | ParentEnded(parent: JobId, failed: bool)

  datatype Job = Job(
    status: JobStatus,
    parent: Option<JobId>,
    background: bool,
    allUploaded: bool,
    clientHasAll: bool,
    dashboardCanceled: bool,
    endedAt: Option<real>,
    endReason: Option<EndReason>,
    failReasons: seq<nat>,
    startResponse: nat,
    replacements: map<NodeId, nat>,
    growCpus: Option<nat>,
    growGpus: Option<nat>,
    progress: map<NodeId, nat>)       // `assigned_nodes`; never stored

  datatype JobUpdate = JobUpdate(
    status: Change<JobStatus>,
    allUploaded: Change<bool>,
    clientHasAll: Change<bool>,
    dashboardCanceled: Change<bool>,
    endedAt: Change<Option<real>>,
    endReason: Change<Option<EndReason>>)

  /** Memory, and the rows a restart finds. */
  datatype Cluster = Cluster(
    nodes: map<NodeId, Node>,
    jobs: map<JobId, Job>,
    paused: bool,
    nodeRows: map<NodeId, Node>,
    jobRows: map<JobId, Job>)

  // ---------------------------------------------------------------- nodes

  predicate IsLive(status: NodeStatus) {
    status.Booting? || status.Ready? || status.Running?
  }

  /** DELETED is never undone by a late push, and FAILED not even by a deletion. */
  function AcceptedStatus(current: Option<NodeStatus>, wanted: Option<NodeStatus>): Option<NodeStatus> {
    if wanted.None? || current.None? then wanted
    else if !IsLive(current.value) && IsLive(wanted.value) then None
    else if current.value.Failed? && wanted.value.Deleted? then None
    else wanted
  }

  function MergeNode(node: Node, u: NodeUpdate): Node {
    var status := AcceptedStatus(node.status, u.status);
    Node(if status.Some? then status else node.status,
         Changed(node.address, u.address),
         Changed(node.currentJob, u.currentJob),
         Changed(node.reservedFor, u.reservedFor),
         Changed(node.scope, u.scope),
         if u.pushedAt.Some? then u.pushedAt else node.lastPushAt,
         if u.pushedAt.Some? then false else node.fromHistory,
         Changed(node.details, u.details))
  }

  predicate WritesHistory(node: Node, u: NodeUpdate) {
    || MergeNode(node, u).status != node.status
    || u.address.Set? || u.currentJob.Set? || u.reservedFor.Set? || u.scope.Set?
  }

  function NodeOr(nodes: map<NodeId, Node>, name: NodeId): Node {
    if name in nodes then nodes[name] else BLANK_NODE
  }

  function UpdateNode(c: Cluster, name: NodeId, u: NodeUpdate): Cluster {
    var node := NodeOr(c.nodes, name);
    var merged := MergeNode(node, u);
    c.(nodes := c.nodes[name := merged],
       nodeRows := if WritesHistory(node, u) then c.nodeRows[name := merged] else c.nodeRows)
  }

  /** Drops a node from memory only, not from history. */
  function RemoveNode(c: Cluster, name: NodeId): Cluster {
    c.(nodes := c.nodes - {name})
  }

  /** A node that has never pushed to this head counts as having pushed at time 0. */
  predicate IsFresh(node: Node, now: real) {
    now - (if node.lastPushAt.Some? then node.lastPushAt.value else 0.0) <= NODE_FRESHNESS_SEC
  }

  predicate IsFree(node: Node, now: real) {
    && node.status == Some(Ready) && node.currentJob.None? && node.reservedFor.None? && node.scope.None?
    && IsFresh(node, now)
  }

  // ---------------------------------------------------------------- jobs

  predicate IsTerminal(status: JobStatus) {
    status.JobCompleted? || status.JobFailed? || status.JobCanceled?
  }

  function Stored(job: Job): Job {
    job.(progress := map[])
  }

  /** After a head restart a finished job is read back from its row when somebody asks for it. */
  function LoadJob(c: Cluster, id: JobId): Cluster {
    if id in c.jobs || id !in c.jobRows then c
    else c.(jobs := c.jobs[id := Stored(c.jobRows[id])])
  }

  function Reserve(nodes: map<NodeId, Node>, names: set<NodeId>, id: JobId): map<NodeId, Node> {
    map name | name in nodes :: if name in names then nodes[name].(reservedFor := Some(id)) else nodes[name]
  }

  function Overwrite<T>(rows: map<nat, T>, live: map<nat, T>, names: set<nat>): map<nat, T> {
    map name | name in rows.Keys + (live.Keys * names) ::
      if name in names && name in live then live[name] else rows[name]
  }

  datatype Admission = Admission(admitted: bool, response: Option<nat>)

  predicate CanAdmit(c: Cluster, id: JobId, names: seq<NodeId>, now: real) {
    && id !in LoadJob(c, id).jobs && !c.paused
    && (forall k :: 0 <= k < |names| ==> names[k] in c.nodes && IsFree(c.nodes[names[k]], now))
  }

  function AdmissionOf(c: Cluster, id: JobId, job: Job, names: seq<NodeId>, now: real): Admission {
    if id in LoadJob(c, id).jobs then Admission(false, Some(LoadJob(c, id).jobs[id].startResponse))
    else if CanAdmit(c, id, names, now) then Admission(true, Some(job.startResponse))
    else Admission(false, None)
  }

  function AdmitJob(c: Cluster, id: JobId, job: Job, names: seq<NodeId>, now: real): Cluster {
    if !CanAdmit(c, id, names, now) then LoadJob(c, id)
    else
      var chosen := set k | 0 <= k < |names| :: names[k];
      var nodes := Reserve(c.nodes, chosen, id);
      c.(nodes := nodes, nodeRows := Overwrite(c.nodeRows, nodes, chosen),
         jobs := c.jobs[id := Stored(job)], jobRows := c.jobRows[id := Stored(job)])
  }

  // ---------------------------------------------------------------- ending a job

  /** COMPLETED only applies to a running job. */
  function AcceptedJobStatus(job: Job, u: JobUpdate): Change<JobStatus> {
    if u.status == Set(JobCompleted) && !job.status.JobRunning? then Keep else u.status
  }

  function MergeJob(job: Job, u: JobUpdate, failReason: Option<nat>, now: real): Job {
    var merged := job.(status := Changed(job.status, AcceptedJobStatus(job, u)),
                       allUploaded := Changed(job.allUploaded, u.allUploaded),
                       clientHasAll := Changed(job.clientHasAll, u.clientHasAll),
                       dashboardCanceled := Changed(job.dashboardCanceled, u.dashboardCanceled),
                       endedAt := Changed(job.endedAt, u.endedAt),
                       endReason := Changed(job.endReason, u.endReason));
    var ends := IsTerminal(merged.status) && !IsTerminal(job.status);
    merged.(endedAt := if ends && merged.endedAt.None? then Some(now) else merged.endedAt,
            failReasons := if failReason.Some? && failReason.value !in merged.failReasons
                           then merged.failReasons + [failReason.value] else merged.failReasons)
  }

  function Release(nodes: map<NodeId, Node>, ended: set<JobId>): map<NodeId, Node> {
    map name | name in nodes ::
      if nodes[name].reservedFor.Some? && nodes[name].reservedFor.value in ended
      then nodes[name].(reservedFor := None) else nodes[name]
  }

  function ReservedFor(nodes: map<NodeId, Node>, ended: set<JobId>): set<NodeId> {
    set name | name in nodes && nodes[name].reservedFor.Some? && nodes[name].reservedFor.value in ended
  }

  /** Memory and rows after the nodes reserved for any of `ended` are let go. */
  function ReleaseFrom(c: Cluster, ended: set<JobId>): Cluster {
    var nodes := Release(c.nodes, ended);
    c.(nodes := nodes, nodeRows := Overwrite(c.nodeRows, nodes, ReservedFor(c.nodes, ended)))
  }

  /** One call's own effect: the job's fields, its row, and its nodes once it is terminal. */
  function UpdateOwn(c: Cluster, id: JobId, u: JobUpdate, failReason: Option<nat>, now: real): Cluster
    requires id in c.jobs
  {
    var job := MergeJob(c.jobs[id], u, failReason, now);
    ReleaseFrom(c.(jobs := c.jobs[id := job], jobRows := c.jobRows[id := Stored(job)]),
                if IsTerminal(job.status) then {id} else {})
  }

  predicate Cascades(before: Job, after: Job) {
    !IsTerminal(before.status) && (after.status.JobFailed? || after.status.JobCanceled?)
  }

  /** A running nested job that dies with its parent: not one that was detached and has all its inputs. */
  predicate Cancelable(job: Job) {
    job.status.JobRunning? && !(job.background && job.allUploaded)
  }

  function Children(jobs: map<JobId, Job>, parent: JobId): set<JobId> {
    set id | id in jobs && jobs[id].parent == Some(parent) && Cancelable(jobs[id])
  }

  /** `id` hangs below `root` through `n` parent links, each of a cancelable job. */
  predicate Below(jobs: map<JobId, Job>, root: JobId, id: JobId, n: nat)
    decreases n
  {
    && n > 0 && id in jobs && Cancelable(jobs[id]) && jobs[id].parent.Some?
    && (jobs[id].parent.value == root || Below(jobs, root, jobs[id].parent.value, n - 1))
  }

  ghost predicate IsBelow(jobs: map<JobId, Job>, root: JobId, id: JobId) {
    exists n: nat :: Below(jobs, root, id, n)
  }

  ghost function Doomed(jobs: map<JobId, Job>, root: JobId): set<JobId> {
    set id | id in jobs && IsBelow(jobs, root, id)
  }

  function CancelUpdate(parent: JobId, failed: bool): JobUpdate {
    JobUpdate(Set(JobCanceled), Keep, Keep, Set(true), Keep, Set(Some(ParentEnded(parent, failed))))
  }

  /** What canceling a child records: its parent, and whether that had failed. */
  function CanceledWithParent(jobs: map<JobId, Job>, id: JobId, now: real): Job
    requires id in jobs && jobs[id].parent.Some?
  {
    var parent := jobs[id].parent.value;
    MergeJob(jobs[id], CancelUpdate(parent, parent in jobs && jobs[parent].status.JobFailed?), None, now)
  }

  predicate HaveParents(jobs: map<JobId, Job>, ids: set<JobId>) {
    forall id :: id in ids ==> id in jobs && jobs[id].parent.Some?
  }

  function CanceledJobs(jobs: map<JobId, Job>, ids: set<JobId>, now: real): map<JobId, Job>
    requires HaveParents(jobs, ids)
  {
    map id | id in jobs :: if id in ids then CanceledWithParent(jobs, id, now) else jobs[id]
  }

  function CanceledRows(rows: map<JobId, Job>, jobs: map<JobId, Job>, ids: set<JobId>): map<JobId, Job>
    requires ids <= jobs.Keys
  {
    map id | id in rows.Keys + ids :: if id in ids then Stored(jobs[id]) else rows[id]
  }

  /** Every job in `ids` is canceled, each for the end of its own parent. */
  function CancelAll(c: Cluster, ids: set<JobId>, now: real): Cluster
    requires HaveParents(c.jobs, ids)
  {
    var jobs := CanceledJobs(c.jobs, ids, now);
    var rows := CanceledRows(c.jobRows, jobs, ids);
    ReleaseFrom(c.(jobs := jobs, jobRows := rows), ids)
  }

  lemma DoomedHaveParents(jobs: map<JobId, Job>, root: JobId)
    ensures HaveParents(jobs, Doomed(jobs, root))
  {
  }

  /** The whole update: the job itself, then everything that must not outlive it. */
  ghost function UpdateTree(c: Cluster, id: JobId, u: JobUpdate, failReason: Option<nat>, now: real): Cluster
    requires id in c.jobs
  {
    var own := UpdateOwn(c, id, u, failReason, now);
    if Cascades(c.jobs[id], own.jobs[id]) then
      DoomedHaveParents(own.jobs, id);
      CancelAll(own, Doomed(own.jobs, id), now)
    else own
  }

  ghost function UpdateJob(c: Cluster, id: JobId, u: JobUpdate, failReason: Option<nat>, now: real): Cluster {
    var loaded := LoadJob(c, id);
    if id in loaded.jobs then UpdateTree(loaded, id, u, failReason, now) else loaded
  }

  // ---------------------------------------------------------------- the rest

  /** A progress push; every few seconds it also rewrites the job's row. */
  function UpdateProgress(c: Cluster, id: JobId, name: NodeId, results: Option<nat>, flush: bool): Cluster {
    var loaded := LoadJob(c, id);
    if id !in loaded.jobs then loaded
    else
      var job := loaded.jobs[id];
      var known := if name in job.progress then job.progress[name] else 0;
      var pushed := job.(progress := job.progress[name := if results.Some? then results.value else known]);
      loaded.(jobs := loaded.jobs[id := pushed],
              jobRows := if flush then loaded.jobRows[id := Stored(pushed)] else loaded.jobRows)
  }

  function Minus(budget: Option<nat>, used: nat): Option<nat> {
    if budget.None? then None else if budget.value < used then Some(0) else Some(budget.value - used)
  }

  function RecordReplacement(c: Cluster, id: JobId, name: NodeId, request: nat, cpus: nat, gpus: nat): Cluster {
    var loaded := LoadJob(c, id);
    if id !in loaded.jobs then loaded
    else
      var before := loaded.jobs[id];
      var job := before.(replacements := before.replacements[name := request],
                       growCpus := Minus(before.growCpus, cpus), growGpus := Minus(before.growGpus, gpus));
      loaded.(jobs := loaded.jobs[id := job], jobRows := loaded.jobRows[id := Stored(job)])
  }

  predicate AnyRunning(jobs: map<JobId, Job>) {
    exists id :: id in jobs && jobs[id].status.JobRunning?
  }

  function PauseIfIdle(c: Cluster): Cluster {
    if AnyRunning(c.jobs) then c else c.(paused := true)
  }

  function Resume(c: Cluster): Cluster {
    c.(paused := false)
  }

  predicate IsActiveRow(row: Node) {
    row.status.Some? && !row.status.value.Deleted?
  }

  /** What a restarted head knows: the rows, and nothing of what was only in memory. */
  function Restart(c: Cluster): Cluster {
    c.(nodes := map name | name in c.nodeRows && IsActiveRow(c.nodeRows[name]) ::
                  c.nodeRows[name].(lastPushAt := None, fromHistory := true),
       jobs := map id | id in c.jobRows && c.jobRows[id].status.JobRunning? :: Stored(c.jobRows[id]),
       paused := false)
  }
}
