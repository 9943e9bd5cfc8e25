/** How a node leaves a job through the claim: it can, it then takes part in no transfer any more, and
    its client has everything. */
module JobLeaving {
  import opened JobTypes
  import opened NodeInputs
  import opened NodeResults
  import I = InputTransfer
  import O = InputOwnership
  import R = ResultDelivery
  import S = SlotLedger
  import opened JobRun
  import opened JobEnding

  predicate HasStopped(w: I.World, i: nat) {
    i < |w.nodes| && (w.nodes[i].phase.Stopped? || w.nodes[i].phase.Gone?)
  }

  /** The node answers 404 to every GET from now on. */
  ghost predicate RefusesGets(w: I.World, i: nat) {
    && (forall id: nat, queueSize: nat, idle: nat, victims: seq<nat> ::
          I.Enabled(w, I.HandleGet(id, queueSize, idle, victims)) ==> w.transfers[id].donor != i)
    && (forall id: nat :: id < |w.transfers| && w.transfers[id].donor == i ==> I.Enabled(w, I.RefuseGet(id)))
  }

  lemma StoppedStaysStopped(w: I.World, step: I.Step, i: nat)
    requires HasStopped(w, i) && I.Enabled(w, step)
    ensures HasStopped(I.Apply(w, step), i)
  {
    match step
    case Finish(_, _, _) =>
    case Start(_, _) =>
    case Claim(_) =>
    case Leave(_) =>
    case Join =>
    case Reset(_) =>
    case _ => I.PhasesChangeOnlyAsNamed(w, step);
  }

  /** A claim that finds the node drained stops it, and it can then leave; a GET that comes before or
      after it has left, in any run from there, is refused and hands out nothing. */
  lemma ClaimStopsDonating(w: I.World, i: nat, steps: seq<I.Step>)
    requires I.Enabled(w, I.Claim(i)) && Drained(w.nodes[i]) && O.IsRun(I.Apply(w, I.Claim(i)), steps)
    ensures var claimed := I.Apply(w, I.Claim(i));
            && claimed.nodes[i].phase.Stopped? && I.Enabled(claimed, I.Leave(i))
            && RefusesGets(claimed, i) && RefusesGets(O.After(claimed, steps), i)
            && HasStopped(O.After(claimed, steps), i)
  {
    StoppedThroughout(I.Apply(w, I.Claim(i)), i, steps);
  }

  lemma {:induction false} StoppedThroughout(w: I.World, i: nat, steps: seq<I.Step>)
    requires HasStopped(w, i) && O.IsRun(w, steps)
    ensures HasStopped(O.After(w, steps), i) && RefusesGets(w, i) && RefusesGets(O.After(w, steps), i)
    decreases |steps|
  {
    if steps != [] {
      StoppedStaysStopped(w, steps[0], i);
      StoppedThroughout(I.Apply(w, steps[0]), i, steps[1..]);
    }
  }

  /** A node that is not drained, or owes a result, stays on the job. */
  lemma OnlyDrainedNodesClaim(w: I.World, i: nat)
    requires I.Enabled(w, I.Claim(i)) && !Drained(w.nodes[i])
    ensures I.Apply(w, I.Claim(i)) == w
  {
    assert w.nodes[i := w.nodes[i]] == w.nodes;
  }

  lemma ClaimInJob(j: Job, i: nat)
    requires Enabled(j, ClaimPart(i))
    ensures var j1 := Apply(j, ClaimPart(i));
            && i < |j1.lanes| && j1.lanes == j.lanes && j1.lanes[i].over.NotOver? && j1.lanes[i].outbox == Outbox([], None)
            && i < |j1.inputs.nodes| && j1.inputs.nodes[i].phase.Stopped? && S.Enabled(j1.slots, S.Reset(i))
  {
  }

  lemma LeaveEnabled(j: Job, i: nat)
    requires i < |j.lanes| && j.lanes[i].over.NotOver? && j.lanes[i].outbox == Outbox([], None)
    requires i < |j.inputs.nodes| && j.inputs.nodes[i].phase.Stopped? && S.Enabled(j.slots, S.Reset(i))
    ensures Enabled(j, LeaveJob(i))
  {
  }

  lemma LeaveInJob(j: Job, i: nat)
    requires Enabled(j, LeaveJob(i))
    ensures var j1 := Apply(j, LeaveJob(i));
            && i < |j1.lanes| == |j.lanes| && j1.lanes[i] == j.lanes[i].(gone := true)
            && i < |j1.inputs.nodes| && j1.inputs.nodes[i].phase.Gone?
  {
  }

  lemma NothingOwed(l: R.Lane)
    requires R.Inv(l) && l.outbox == Outbox([], None)
    ensures l.delivered == l.produced
  {
  }

  /** From any state of any run in which it may claim its part, the node can leave, and its client be
      DONE with every result the node produced. */
  lemma ClaimingNodeLeaves(inputs: multiset<Input>, j: Job, i: nat) returns (end: Job)
    requires Reachable(inputs, j) && Enabled(j, ClaimPart(i)) && R.Inv(j.lanes[i]) && j.lanes[i].state.Polling?
    ensures Reachable(inputs, end) && i < |end.lanes| && i < |end.inputs.nodes| && end.inputs.nodes[i].phase.Gone?
    ensures end.lanes[i].state.Done? && end.lanes[i].over.NotOver?
    ensures end.lanes[i].delivered == end.lanes[i].produced == j.lanes[i].produced
  {
    ClaimInJob(j, i);
    NothingOwed(j.lanes[i]);
    ReachableOneStepOn(inputs, j, ClaimPart(i));
    var j1 := Apply(j, ClaimPart(i));
    LeaveEnabled(j1, i);
    LeaveInJob(j1, i);
    ReachableOneStepOn(inputs, j1, LeaveJob(i));
    end := ClientReadsNotFound(inputs, Apply(j1, LeaveJob(i)), i);
  }

  lemma PlayedScene(k: nat, x: Input)
    ensures k == 8 ==>
              var j := Scene(k, x);
              && |j.lanes| == 1 && j.lanes[0] == R.Apply(R.NEW_LANE, R.Produce(ResultOf(x)))
              && j.lanes[0].outbox == Outbox([ResultOf(x)], None)
              && |j.inputs.nodes| == 1 && j.inputs.nodes[0].phase.Active? && Drained(j.inputs.nodes[0])
              && S.Enabled(j.slots, S.StopWorking(0))
  {
  }

  lemma ClaimEnabled(j: Job, i: nat)
    requires i < |j.lanes| && j.lanes[i].over.NotOver? && j.lanes[i].outbox == Outbox([], None)
    requires i < |j.inputs.nodes| && j.inputs.nodes[i].phase.Active? && Drained(j.inputs.nodes[i])
    requires S.Enabled(j.slots, S.StopWorking(i))
    ensures Enabled(j, ClaimPart(i))
  {
  }

  /** For any input there is a whole run: it is uploaded, taken, run and its result delivered and
      acknowledged; the node claims its part and leaves, and the client is DONE with the result. */
  lemma NodeDeliversAndLeaves(x: Input) returns (end: Job)
    ensures Reachable(multiset{x}, end) && |end.lanes| > 0 && |end.inputs.nodes| > 0
    ensures end.inputs.nodes[0].phase.Gone? && end.lanes[0].over.NotOver?
    ensures end.lanes[0].state.Done? && end.lanes[0].delivered == end.lanes[0].produced == [ResultOf(x)]
  {
    var last: nat :| last == 8;
    var j := Scene(last, x);
    SceneIsReachable(last, x);
    PlayedScene(last, x);
    ReachableHolds(multiset{x}, j);
    assert R.Inv(j.lanes[0]);
    var polls := R.OneResultIsDelivered(j.lanes[0], ResultOf(x));
    var delivered := PollsInJob(multiset{x}, j, 0, polls);
    ReachableHolds(multiset{x}, delivered);
    assert R.Inv(delivered.lanes[0]);
    ClaimEnabled(delivered, 0);
    end := ClaimingNodeLeaves(multiset{x}, delivered, 0);
  }
}
