/** The head's live state as the code keeps it: two dictionaries and a pause flag, changed in place
    under one lock, beside the rows of the history store. */
module ClusterState {
  import opened JobTypes
  import opened ClusterRules
  import opened ClusterCascade

  /** The two tables the head writes on every durable mutation; each call is one transaction. */
  class History {
    var nodeRows: map<NodeId, Node>
    var jobRows: map<JobId, Job>

    constructor ()
      ensures nodeRows == map[] && jobRows == map[]
    {
      nodeRows, jobRows := map[], map[];
    }

    method UpsertNode(name: NodeId, node: Node)
      modifies this`nodeRows
      ensures nodeRows == old(nodeRows)[name := node]
    {
      nodeRows := nodeRows[name := node];
    }

    method UpsertJobAndNodes(id: JobId, job: Job, nodes: map<NodeId, Node>)
      modifies this
      ensures jobRows == old(jobRows)[id := Stored(job)]
      ensures nodeRows == old(nodeRows) + nodes
    {
      jobRows := jobRows[id := Stored(job)];
      nodeRows := nodeRows + nodes;
    }
  }

  /** Jobs that have not ended, in memory or in a row not loaded yet. */
  ghost function Active(c: Cluster): set<JobId> {
    set id | id in c.jobs.Keys + c.jobRows.Keys &&
             !IsTerminal((if id in c.jobs then c.jobs[id] else c.jobRows[id]).status)
  }

  lemma LoadKeepsActive(c: Cluster, id: JobId)
    ensures Active(LoadJob(c, id)) == Active(c)
  {
  }

  /** A job that ends with its children leaves fewer jobs unended: the recursion ends even on
      cyclic parent links. */
  lemma EndingShrinksActive(c: Cluster, id: JobId, u: JobUpdate, failReason: Option<nat>, now: real)
    requires id in c.jobs && Cascades(c.jobs[id], UpdateOwn(c, id, u, failReason, now).jobs[id])
    ensures |Active(UpdateOwn(c, id, u, failReason, now))| < |Active(c)|
  {
    var own := UpdateOwn(c, id, u, failReason, now);
    assert id in Active(c) && id !in Active(own);
    assert Active(own) <= Active(c) - {id};
    SubsetIsSmaller(Active(own), Active(c) - {id});
  }

  lemma CancelingKeepsActive(c: Cluster, ended: set<JobId>, now: real)
    requires HaveParents(c.jobs, ended)
    ensures |Active(CancelAll(c, ended, now))| <= |Active(c)|
  {
    assert Active(CancelAll(c, ended, now)) <= Active(c);
    SubsetIsSmaller(Active(CancelAll(c, ended, now)), Active(c));
  }

  /** `c` with the children in `done` and everything below them canceled. */
  ghost predicate CanceledSoFar(was: Cluster, root: JobId, done: set<JobId>, now: real, c: Cluster) {
    && root in was.jobs && !Cancelable(was.jobs[root]) && done <= Children(was.jobs, root)
    && HaveParents(was.jobs, Handled(was.jobs, done))
    && c == CancelAll(was, Handled(was.jobs, done), now)
  }

  lemma NothingCanceledYet(was: Cluster, root: JobId, now: real)
    requires root in was.jobs && !Cancelable(was.jobs[root])
    ensures CanceledSoFar(was, root, {}, now, was)
  {
    assert Handled(was.jobs, {}) == {};
    CancelNone(was, now);
  }

  lemma CancelNextChild(was: Cluster, root: JobId, done: set<JobId>, child: JobId, now: real, c: Cluster)
    requires CanceledSoFar(was, root, done, now, c) && child in Children(was.jobs, root) && child !in done
    ensures |Active(c)| <= |Active(was)|
    ensures CanceledSoFar(was, root, done + {child}, now,
                          UpdateJob(c, child, CancelUpdate(root, was.jobs[root].status.JobFailed?), None, now))
  {
    CancelingKeepsActive(was, Handled(was.jobs, done), now);
    ChildCascade(was, root, done, child, now);
  }

  lemma CanceledAllChildren(was: Cluster, root: JobId, now: real, c: Cluster)
    requires CanceledSoFar(was, root, Children(was.jobs, root), now, c)
    ensures HaveParents(was.jobs, Doomed(was.jobs, root)) && c == CancelAll(was, Doomed(was.jobs, root), now)
  {
    HandledAll(was.jobs, root);
  }

  lemma {:induction false} SubsetIsSmaller(a: set<JobId>, b: set<JobId>)
    requires a <= b
    ensures |a| <= |b|
  {
    if a != {} {
      var x :| x in a;
      SubsetIsSmaller(a - {x}, b - {x});
    }
  }

  /** `names` are the nodes still to look at; the others have been let go if reserved for `id`. */
  ghost predicate Releasing(was: map<NodeId, Node>, nodes: map<NodeId, Node>, released: map<NodeId, Node>,
                            id: JobId, left: set<NodeId>)
  {
    && left <= was.Keys && nodes.Keys == was.Keys
    && (forall name :: name in was ==>
          nodes[name] == if name !in left && was[name].reservedFor == Some(id) then was[name].(reservedFor := None)
                         else was[name])
    && (forall name :: name in released <==> name in was && name !in left && was[name].reservedFor == Some(id))
    && (forall name :: name in released ==> released[name] == nodes[name])
  }

  lemma ReleasedAll(was: map<NodeId, Node>, nodes: map<NodeId, Node>, released: map<NodeId, Node>,
                    rows: map<NodeId, Node>, id: JobId)
    requires Releasing(was, nodes, released, id, {})
    ensures nodes == Release(was, {id})
    ensures rows + released == Overwrite(rows, nodes, ReservedFor(was, {id}))
  {
  }

  /** Writing the chosen nodes' snapshots writes the reservation and nothing else. */
  lemma ReservedAll(nodes: map<NodeId, Node>, rows: map<NodeId, Node>, snapshots: map<NodeId, Node>, chosen: set<NodeId>, id: JobId)
    requires snapshots.Keys == chosen <= nodes.Keys
    requires forall name :: name in chosen ==> snapshots[name] == nodes[name].(reservedFor := Some(id))
    ensures nodes + snapshots == Reserve(nodes, chosen, id)
    ensures rows + snapshots == Overwrite(rows, Reserve(nodes, chosen, id), chosen)
  {
  }

  class ClusterState {
    var nodes: map<NodeId, Node>
    var jobs: map<JobId, Job>
    var jobAdmissionPaused: bool
    const history: History

    function View(): Cluster
      reads this, history
    {
      Cluster(nodes, jobs, jobAdmissionPaused, history.nodeRows, history.jobRows)
    }

    /** `load_from_history`: a head starts from the rows alone. */
    constructor (store: History)
      ensures history == store
      ensures View() == Restart(Cluster(map[], map[], false, store.nodeRows, store.jobRows))
    {
      history := store;
      nodes := map name | name in store.nodeRows && IsActiveRow(store.nodeRows[name]) ::
        store.nodeRows[name].(lastPushAt := None, fromHistory := true);
      jobs := map id | id in store.jobRows && store.jobRows[id].status.JobRunning? :: Stored(store.jobRows[id]);
      jobAdmissionPaused := false;
    }

    method UpdateNodeState(name: NodeId, u: NodeUpdate) returns (merged: Node)
      modifies this`nodes, history`nodeRows
      ensures View() == UpdateNode(old(View()), name, u)
      ensures name in nodes && merged == nodes[name]
    {
      var node := NodeOr(nodes, name);
      merged := MergeNode(node, u);
      if WritesHistory(node, u) {
        history.UpsertNode(name, merged);
      }
      nodes := nodes[name := merged];
    }

    method RemoveNodeFromMemory(name: NodeId)
      modifies this`nodes
      ensures View() == RemoveNode(old(View()), name)
    {
      nodes := nodes - {name};
    }

    method PauseJobAdmissionIfIdle() returns (paused: bool)
      modifies this`jobAdmissionPaused
      ensures paused <==> !AnyRunning(jobs)
      ensures View() == PauseIfIdle(old(View()))
    {
      var left := jobs.Keys;
      while |left| > 0
        invariant left <= jobs.Keys
        invariant forall id :: id in jobs && id !in left ==> !jobs[id].status.JobRunning?
        decreases |left|
      {
        var id :| id in left;
        if jobs[id].status.JobRunning? {
          return false;
        }
        left := left - {id};
      }
      jobAdmissionPaused := true;
      paused := true;
    }

    method ResumeJobAdmission()
      modifies this`jobAdmissionPaused
      ensures View() == Resume(old(View()))
    {
      jobAdmissionPaused := false;
    }

    method GetOrLoadJob(id: JobId) returns (found: bool)
      modifies this`jobs
      ensures View() == LoadJob(old(View()), id)
      ensures found <==> id in jobs
    {
      if id in jobs {
        return true;
      }
      found := id in history.jobRows;
      if found {
        jobs := jobs[id := Stored(history.jobRows[id])];
      }
    }

    /** Are all the selected nodes free to be reserved? */
    method AllFree(names: seq<NodeId>, now: real) returns (free: bool)
      ensures free <==> forall k :: 0 <= k < |names| ==> names[k] in nodes && IsFree(nodes[names[k]], now)
    {
      free := true;
      for k := 0 to |names|
        invariant free <==> forall j :: 0 <= j < k ==> names[j] in nodes && IsFree(nodes[names[j]], now)
      {
        if names[k] !in nodes || !IsFree(nodes[names[k]], now) {
          free := false;
        }
      }
    }

    method SnapshotReserved(names: seq<NodeId>, id: JobId) returns (snapshots: map<NodeId, Node>)
      requires forall k :: 0 <= k < |names| ==> names[k] in nodes
      ensures snapshots.Keys == set k | 0 <= k < |names| :: names[k]
      ensures forall name :: name in snapshots ==> name in nodes && snapshots[name] == nodes[name].(reservedFor := Some(id))
    {
      snapshots := map[];
      for k := 0 to |names|
        invariant snapshots.Keys == set j | 0 <= j < k :: names[j]
        invariant forall name :: name in snapshots ==> name in nodes && snapshots[name] == nodes[name].(reservedFor := Some(id))
      {
        snapshots := snapshots[names[k] := nodes[names[k]].(reservedFor := Some(id))];
      }
    }

    method Admit(id: JobId, job: Job, names: seq<NodeId>, now: real) returns (result: Admission)
      modifies this`nodes, this`jobs, history
      ensures result == AdmissionOf(old(View()), id, job, names, now)
      ensures View() == AdmitJob(old(View()), id, job, names, now)
    {
      var known := GetOrLoadJob(id);
      if known {
        return Admission(false, Some(jobs[id].startResponse));
      }
      var free := AllFree(names, now);
      if jobAdmissionPaused || !free {
        return Admission(false, None);
      }
      var snapshots := SnapshotReserved(names, id);
      ReservedAll(nodes, history.nodeRows, snapshots, snapshots.Keys, id);
      history.UpsertJobAndNodes(id, job, snapshots);
      nodes := nodes + snapshots;
      jobs := jobs[id := Stored(job)];
      result := Admission(true, Some(job.startResponse));
    }

    /** Lets go of every node reserved for the job, one at a time. */
    method ReleaseNodes(id: JobId) returns (released: map<NodeId, Node>)
      modifies this`nodes
      ensures nodes == Release(old(nodes), {id})
      ensures history.nodeRows + released == Overwrite(history.nodeRows, nodes, ReservedFor(old(nodes), {id}))
    {
      released := map[];
      var left := nodes.Keys;
      while |left| > 0
        invariant Releasing(old(nodes), nodes, released, id, left)
        decreases |left|
      {
        var name :| name in left;
        if nodes[name].reservedFor == Some(id) {
          nodes := nodes[name := nodes[name].(reservedFor := None)];
          released := released[name := nodes[name]];
        }
        left := left - {name};
      }
      ReleasedAll(old(nodes), nodes, released, history.nodeRows, id);
    }

    /** The part of `update_job` under the lock. */
    method UpdateOwnJob(id: JobId, u: JobUpdate, failReason: Option<nat>, now: real)
      requires id in jobs
      modifies this`nodes, this`jobs, history
      ensures View() == UpdateOwn(old(View()), id, u, failReason, now)
    {
      jobs := jobs[id := MergeJob(jobs[id], u, failReason, now)];
      var released := map[];
      if IsTerminal(jobs[id].status) {
        released := ReleaseNodes(id);
      } else {
        ReleaseNone(View());
      }
      history.UpsertJobAndNodes(id, jobs[id], released);
    }

    /** Updates a job and, when that ends it badly, cancels its children one after the other. */
    method UpdateJobAndChildren(id: JobId, u: JobUpdate, failReason: Option<nat>, now: real) returns (found: bool)
      modifies this`nodes, this`jobs, history
      ensures found <==> id in LoadJob(old(View()), id).jobs
      ensures View() == UpdateJob(old(View()), id, u, failReason, now)
      decreases |Active(View())|, 0
    {
      LoadKeepsActive(View(), id);
      found := GetOrLoadJob(id);
      if !found {
        return;
      }
      ghost var loaded := View();
      var before := jobs[id];
      UpdateOwnJob(id, u, failReason, now);
      if Cascades(before, jobs[id]) {
        EndingShrinksActive(loaded, id, u, failReason, now);
        CancelChildren(id, now);
      }
    }

    /** The part of `update_job` after the lock: one recursive call for each child found under it. */
    method CancelChildren(id: JobId, now: real)
      requires id in jobs && !Cancelable(jobs[id])
      modifies this`nodes, this`jobs, history
      ensures HaveParents(old(jobs), Doomed(old(jobs), id))
      ensures View() == CancelAll(old(View()), Doomed(old(jobs), id), now)
      decreases |Active(View())|, 2
    {
      var failed := jobs[id].status.JobFailed?;
      var left := Children(jobs, id);
      ghost var was, children := View(), left;
      assert children - left == {};
      NothingCanceledYet(was, id, now);
      while |left| > 0
        invariant left <= children
        invariant CanceledSoFar(was, id, children - left, now, View())
        decreases |left|
      {
        var child :| child in left;
        CancelChild(id, failed, child, now, was, children - left);
        assert children - left + {child} == children - (left - {child});
        left := left - {child};
      }
      assert children - left == children;
      CanceledAllChildren(was, id, now, View());
    }

    method CancelChild(id: JobId, failed: bool, child: JobId, now: real, ghost was: Cluster, ghost done: set<JobId>)
      requires CanceledSoFar(was, id, done, now, View()) && failed == was.jobs[id].status.JobFailed?
      requires child in Children(was.jobs, id) && child !in done
      modifies this`nodes, this`jobs, history
      ensures CanceledSoFar(was, id, done + {child}, now, View())
      decreases |Active(was)|, 1
    {
      CancelNextChild(was, id, done, child, now, View());
      var _ := UpdateJobAndChildren(child, CancelUpdate(id, failed), None, now);
    }

    method UpdateJobProgress(id: JobId, name: NodeId, results: Option<nat>, flush: bool)
      modifies this`jobs, history
      ensures View() == UpdateProgress(old(View()), id, name, results, flush)
    {
      var found := GetOrLoadJob(id);
      if !found {
        return;
      }
      var job := jobs[id];
      var known := if name in job.progress then job.progress[name] else 0;
      jobs := jobs[id := job.(progress := job.progress[name := if results.Some? then results.value else known])];
      if flush {
        history.UpsertJobAndNodes(id, jobs[id], map[]);
        assert history.nodeRows + map[] == history.nodeRows;
      }
    }

    method RecordReplacementRequest(id: JobId, name: NodeId, request: nat, cpus: nat, gpus: nat)
      modifies this`jobs, history
      ensures View() == RecordReplacement(old(View()), id, name, request, cpus, gpus)
    {
      var found := GetOrLoadJob(id);
      if !found {
        return;
      }
      var job := jobs[id].(replacements := jobs[id].replacements[name := request]);
      job := job.(growCpus := Minus(job.growCpus, cpus), growGpus := Minus(job.growGpus, gpus));
      jobs := jobs[id := job];
      history.UpsertJobAndNodes(id, job, map[]);
      assert history.nodeRows + map[] == history.nodeRows;
    }
  }
}
