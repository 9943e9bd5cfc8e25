/** Canceling the children one after the other, each with everything below it, cancels exactly the
    jobs below the root: no job is visited twice and none is missed. */
module ClusterCascade {
  import opened JobTypes
  import opened ClusterRules

  /** A child of an ended job hangs below no other job. */
  lemma ChildHangsOnlyThere(jobs: map<JobId, Job>, root: JobId, child: JobId, other: JobId, n: nat)
    requires root in jobs && !Cancelable(jobs[root]) && child in Children(jobs, root)
    requires other in Children(jobs, root)
    ensures !Below(jobs, other, child, n)
  {
  }

  /** Two different children of an ended job share no descendant. */
  lemma {:induction false} SubtreesAreApart(jobs: map<JobId, Job>, root: JobId, a: JobId, b: JobId, id: JobId, n: nat, m: nat)
    requires root in jobs && !Cancelable(jobs[root]) && a in Children(jobs, root) && b in Children(jobs, root) && a != b
    requires Below(jobs, a, id, n)
    ensures !Below(jobs, b, id, m)
    decreases n
  {
    if Below(jobs, b, id, m) {
      var p := jobs[id].parent.value;
      if p == a {
        ChildHangsOnlyThere(jobs, root, a, b, m - 1);
      } else if p == b {
        ChildHangsOnlyThere(jobs, root, b, a, n - 1);
      } else {
        SubtreesAreApart(jobs, root, a, b, p, n - 1, m - 1);
      }
    }
  }

  lemma {:induction false} BelowChildIsBelowRoot(jobs: map<JobId, Job>, root: JobId, child: JobId, id: JobId, n: nat)
    requires child in Children(jobs, root) && Below(jobs, child, id, n)
    ensures Below(jobs, root, id, n + 1)
    decreases n
  {
    if jobs[id].parent.value == child {
      assert Below(jobs, root, child, n);
    } else {
      BelowChildIsBelowRoot(jobs, root, child, jobs[id].parent.value, n - 1);
    }
  }

  /** Whatever hangs below the root is one of its children or hangs below one. */
  lemma {:induction false} BelowRootIsBelowChild(jobs: map<JobId, Job>, root: JobId, id: JobId, n: nat) returns (child: JobId)
    requires Below(jobs, root, id, n)
    ensures child in Children(jobs, root) && (id == child || IsBelow(jobs, child, id))
    decreases n
  {
    var p := jobs[id].parent.value;
    if p == root {
      child := id;
    } else {
      child := BelowRootIsBelowChild(jobs, root, p, n - 1);
      if p == child {
        assert Below(jobs, child, id, 1);
      } else {
        var m: nat :| Below(jobs, child, p, m);
        assert Below(jobs, child, id, m + 1);
      }
    }
  }

  /** `later` is `jobs` with only jobs that are not below `root` ended. */
  predicate EndedElsewhere(jobs: map<JobId, Job>, later: map<JobId, Job>, ended: set<JobId>) {
    && later.Keys == jobs.Keys
    && (forall id :: id in jobs && id !in ended ==> later[id] == jobs[id])
    && (forall id :: id in jobs && id in ended ==> !Cancelable(later[id]))
  }

  lemma {:induction false} BelowUnaffected(jobs: map<JobId, Job>, later: map<JobId, Job>, ended: set<JobId>, root: JobId, id: JobId, n: nat)
    requires EndedElsewhere(jobs, later, ended) && ended !! Doomed(jobs, root)
    ensures Below(jobs, root, id, n) <==> Below(later, root, id, n)
    decreases n
  {
    if n > 0 && id in jobs {
      if Below(jobs, root, id, n) {
        assert id in Doomed(jobs, root);
      }
      if jobs[id].parent.Some? {
        BelowUnaffected(jobs, later, ended, root, jobs[id].parent.value, n - 1);
      }
    }
  }

  lemma DoomedUnaffected(jobs: map<JobId, Job>, later: map<JobId, Job>, ended: set<JobId>, root: JobId)
    requires EndedElsewhere(jobs, later, ended) && ended !! Doomed(jobs, root)
    ensures Doomed(later, root) == Doomed(jobs, root)
  {
    forall id ensures id in Doomed(later, root) <==> id in Doomed(jobs, root) {
      forall n: nat ensures Below(jobs, root, id, n) <==> Below(later, root, id, n) {
        BelowUnaffected(jobs, later, ended, root, id, n);
      }
    }
  }

  // ---------------------------------------------------------------- the children handled so far

  /** The jobs canceled once the children in `done` have been dealt with. */
  ghost function Handled(jobs: map<JobId, Job>, done: set<JobId>): set<JobId> {
    set id | id in jobs && (id in done || exists child :: child in done && id in Doomed(jobs, child))
  }

  lemma HandledAll(jobs: map<JobId, Job>, root: JobId)
    ensures Handled(jobs, Children(jobs, root)) == Doomed(jobs, root)
  {
    var children := Children(jobs, root);
    forall id ensures id in Handled(jobs, children) <==> id in Doomed(jobs, root) {
      if id in Doomed(jobs, root) {
        var n: nat :| Below(jobs, root, id, n);
        var child := BelowRootIsBelowChild(jobs, root, id, n);
      }
      if id in children {
        assert Below(jobs, root, id, 1);
      }
      forall child | child in children && id in Doomed(jobs, child) ensures id in Doomed(jobs, root) {
        var n: nat :| Below(jobs, child, id, n);
        BelowChildIsBelowRoot(jobs, root, child, id, n);
      }
    }
  }

  /** The next child and everything below it are untouched so far. */
  lemma NextChildIsFresh(jobs: map<JobId, Job>, root: JobId, done: set<JobId>, child: JobId)
    requires root in jobs && !Cancelable(jobs[root])
    requires done <= Children(jobs, root) && child in Children(jobs, root) && child !in done
    ensures child !in Handled(jobs, done) && root !in Handled(jobs, done)
    ensures (Handled(jobs, done) + {child}) !! Doomed(jobs, child)
  {
    if child in Handled(jobs, done) {
      var other :| other in done && child in Doomed(jobs, other);
      var n: nat :| Below(jobs, other, child, n);
      ChildHangsOnlyThere(jobs, root, child, other, n);
    }
    if child in Doomed(jobs, child) {
      var n: nat :| Below(jobs, child, child, n);
      ChildHangsOnlyThere(jobs, root, child, child, n);
    }
    forall id | id in Handled(jobs, done) ensures id !in Doomed(jobs, child) {
      if id in Doomed(jobs, child) {
        var n: nat :| Below(jobs, child, id, n);
        if id in done {
          ChildHangsOnlyThere(jobs, root, id, child, n);
        } else {
          var other :| other in done && id in Doomed(jobs, other);
          var m: nat :| Below(jobs, other, id, m);
          SubtreesAreApart(jobs, root, child, other, id, n, m);
        }
      }
    }
  }

  lemma HandledOneMore(jobs: map<JobId, Job>, done: set<JobId>, child: JobId)
    requires child in jobs
    ensures Handled(jobs, done + {child}) == Handled(jobs, done) + {child} + Doomed(jobs, child)
  {
  }

  // ---------------------------------------------------------------- canceling in two goes

  lemma ReleaseTwice(c: Cluster, a: set<JobId>, b: set<JobId>)
    requires a !! b
    ensures ReleaseFrom(ReleaseFrom(c, a), b) == ReleaseFrom(c, a + b)
  {
    var first := ReleaseFrom(c, a);
    assert ReservedFor(first.nodes, b) == ReservedFor(c.nodes, b);
    assert ReservedFor(c.nodes, a + b) == ReservedFor(c.nodes, a) + ReservedFor(c.nodes, b);
    assert Release(first.nodes, b) == Release(c.nodes, a + b);
    assert ReleaseFrom(first, b).nodeRows == ReleaseFrom(c, a + b).nodeRows;
  }

  lemma ReleaseNone(c: Cluster)
    ensures ReleaseFrom(c, {}) == c
  {
  }

  lemma CanceledJobsTwice(jobs: map<JobId, Job>, a: set<JobId>, b: set<JobId>, now: real)
    requires HaveParents(jobs, a) && HaveParents(jobs, b) && a !! b
    requires forall id :: id in a ==> jobs[id].status.JobRunning?
    ensures HaveParents(CanceledJobs(jobs, a, now), b)
    ensures CanceledJobs(CanceledJobs(jobs, a, now), b, now) == CanceledJobs(jobs, a + b, now)
  {
  }

  lemma CanceledRowsTwice(rows: map<JobId, Job>, jobs: map<JobId, Job>, a: set<JobId>, b: set<JobId>, now: real)
    requires HaveParents(jobs, a) && HaveParents(jobs, b) && a !! b
    requires forall id :: id in a ==> jobs[id].status.JobRunning?
    ensures HaveParents(CanceledJobs(jobs, a, now), b)
    ensures var once := CanceledJobs(jobs, a, now);
            CanceledRows(CanceledRows(rows, once, a), CanceledJobs(once, b, now), b)
            == CanceledRows(rows, CanceledJobs(jobs, a + b, now), a + b)
  {
    CanceledJobsTwice(jobs, a, b, now);
  }

  lemma CancelAllTwice(c: Cluster, a: set<JobId>, b: set<JobId>, now: real)
    requires HaveParents(c.jobs, a) && HaveParents(c.jobs, b) && a !! b
    requires forall id :: id in a ==> c.jobs[id].status.JobRunning?
    ensures HaveParents(CancelAll(c, a, now).jobs, b)
    ensures CancelAll(CancelAll(c, a, now), b, now) == CancelAll(c, a + b, now)
  {
    CanceledJobsTwice(c.jobs, a, b, now);
    CanceledRowsTwice(c.jobRows, c.jobs, a, b, now);
    ReleaseTwice(c, a, b);
  }

  lemma CancelNone(c: Cluster, now: real)
    ensures CancelAll(c, {}, now) == c
  {
  }

  lemma CancelOne(c: Cluster, child: JobId, now: real)
    requires child in c.jobs && c.jobs[child].parent.Some?
    ensures var parent := c.jobs[child].parent.value;
            var failed := parent in c.jobs && c.jobs[parent].status.JobFailed?;
            UpdateOwn(c, child, CancelUpdate(parent, failed), None, now) == CancelAll(c, {child}, now)
  {
    var job := CanceledWithParent(c.jobs, child, now);
    assert CanceledJobs(c.jobs, {child}, now) == c.jobs[child := job];
    assert CanceledRows(c.jobRows, c.jobs[child := job], {child}) == c.jobRows[child := Stored(job)];
  }

  lemma ChildOwn(c: Cluster, root: JobId, done: set<JobId>, child: JobId, now: real)
    requires root in c.jobs && !Cancelable(c.jobs[root]) && HaveParents(c.jobs, Handled(c.jobs, done))
    requires done <= Children(c.jobs, root) && child in Children(c.jobs, root) && child !in done
    ensures HaveParents(c.jobs, Handled(c.jobs, done) + {child})
    ensures var sofar := CancelAll(c, Handled(c.jobs, done), now);
            && child in sofar.jobs && sofar.jobs[child] == c.jobs[child]
            && UpdateOwn(sofar, child, CancelUpdate(root, c.jobs[root].status.JobFailed?), None, now)
               == CancelAll(c, Handled(c.jobs, done) + {child}, now)
  {
    var p := Handled(c.jobs, done);
    NextChildIsFresh(c.jobs, root, done, child);
    CancelOne(CancelAll(c, p, now), child, now);
    CancelAllTwice(c, p, {child}, now);
  }

  lemma DoomedAfterCancel(c: Cluster, gone: set<JobId>, root: JobId, now: real)
    requires HaveParents(c.jobs, gone) && gone !! Doomed(c.jobs, root)
    ensures Doomed(CancelAll(c, gone, now).jobs, root) == Doomed(c.jobs, root)
  {
    DoomedUnaffected(c.jobs, CanceledJobs(c.jobs, gone, now), gone, root);
  }

  lemma CancelingCascades(c: Cluster, child: JobId, parent: JobId, failed: bool, now: real)
    requires child in c.jobs && Cancelable(c.jobs[child])
    ensures var own := UpdateOwn(c, child, CancelUpdate(parent, failed), None, now);
            && HaveParents(own.jobs, Doomed(own.jobs, child))
            && UpdateTree(c, child, CancelUpdate(parent, failed), None, now)
               == CancelAll(own, Doomed(own.jobs, child), now)
  {
    DoomedHaveParents(UpdateOwn(c, child, CancelUpdate(parent, failed), None, now).jobs, child);
  }

  /** The recursive call for one child does what canceling it and everything below it at once does. */
  lemma ChildCascade(c: Cluster, root: JobId, done: set<JobId>, child: JobId, now: real)
    requires root in c.jobs && !Cancelable(c.jobs[root]) && HaveParents(c.jobs, Handled(c.jobs, done))
    requires done <= Children(c.jobs, root) && child in Children(c.jobs, root) && child !in done
    ensures HaveParents(c.jobs, Handled(c.jobs, done + {child}))
    ensures var sofar := CancelAll(c, Handled(c.jobs, done), now);
            && child in sofar.jobs
            && UpdateTree(sofar, child, CancelUpdate(root, c.jobs[root].status.JobFailed?), None, now)
               == CancelAll(c, Handled(c.jobs, done + {child}), now)
  {
    var gone, q := Handled(c.jobs, done) + {child}, Doomed(c.jobs, child);
    ChildOwn(c, root, done, child, now);
    NextChildIsFresh(c.jobs, root, done, child);
    HandledOneMore(c.jobs, done, child);
    DoomedHaveParents(c.jobs, child);
    DoomedAfterCancel(c, gone, child, now);
    CancelAllTwice(c, gone, q, now);
    CancelingCascades(CancelAll(c, Handled(c.jobs, done), now), child, root, c.jobs[root].status.JobFailed?, now);
  }
}
