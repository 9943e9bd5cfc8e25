/** The end of a job that is found completed while its client is out of contact: exactly when results
    are thrown away, over all that may happen between the test and the client's giving up, and a
    whole run from the first upload in which one is. */
module JobEnding {
  import opened JobTypes
  import opened NodeInputs
  import opened NodeResults
  import I = InputTransfer
  import R = ResultDelivery
  import N = NodeSlots
  import S = SlotLedger
  import opened JobRun

  // ---------------------------------------------------------------- one node's lane in the job

  /** What the step does to the lane of node `i`. */
  function LaneStepAt(step: Step, i: nat): seq<R.Step> {
    match LaneStep(step)
    case Some(s) => if step.node == i then [s] else []
    case None => []
  }

  function LaneStepsAt(steps: seq<Step>, i: nat): seq<R.Step> {
    if steps == [] then [] else LaneStepAt(steps[0], i) + LaneStepsAt(steps[1..], i)
  }

  lemma LaneTakesStep(j: Job, step: Step, i: nat)
    requires Enabled(j, step) && i < |j.lanes|
    ensures i < |LanesAfter(j, step)|
    ensures LaneStepAt(step, i) == [] ==> LanesAfter(j, step)[i] == j.lanes[i]
    ensures LaneStepAt(step, i) != [] ==>
              var s := LaneStepAt(step, i)[0];
              R.Enabled(j.lanes[i], s) && LanesAfter(j, step)[i] == R.Apply(j.lanes[i], s)
  {
  }

  /** In a run of the job every lane makes a run of the delivery protocol. */
  lemma {:induction false} LaneRuns(j: Job, steps: seq<Step>, i: nat)
    requires IsRun(j, steps) && i < |j.lanes|
    ensures i < |After(j, steps).lanes|
    ensures R.IsRun(j.lanes[i], LaneStepsAt(steps, i))
    ensures After(j, steps).lanes[i] == R.After(j.lanes[i], LaneStepsAt(steps, i))
    decreases |steps|
  {
    if steps != [] {
      LaneTakesStep(j, steps[0], i);
      LaneRuns(Apply(j, steps[0]), steps[1..], i);
      if LaneStepAt(steps[0], i) != [] {
        R.OneStepMore(j.lanes[i], LaneStepAt(steps[0], i)[0], LaneStepsAt(steps[1..], i));
      } else {
        assert LaneStepsAt(steps, i) == LaneStepsAt(steps[1..], i);
      }
    }
  }

  // ---------------------------------------------------------------- exactly when results are thrown away

  predicate IsReplyTo(step: Step, i: nat) {
    step.Results? && step.node == i && step.poll.ReceiveReply?
  }

  lemma {:induction false} NoReplyInLane(steps: seq<Step>, i: nat)
    requires forall s :: s in steps ==> !IsReplyTo(s, i)
    ensures forall s :: s in LaneStepsAt(steps, i) ==> !s.ReceiveReply?
  {
    if steps != [] {
      assert steps[0] in steps;
      NoReplyInLane(steps[1..], i);
    }
  }

  function LostTest(i: nat, reported: seq<nat>): Step {
    FindOver(i, R.ClientLost, reported)
  }

  lemma TestReachesLane(j: Job, i: nat, reported: seq<nat>)
    requires Inv(j) && Enabled(j, LostTest(i, reported))
    ensures i < |j.lanes| == |Apply(j, LostTest(i, reported)).lanes|
    ensures R.Inv(j.lanes[i]) && R.Enabled(j.lanes[i], R.FindOver(R.ClientLost))
    ensures Apply(j, LostTest(i, reported)).lanes[i] == R.Apply(j.lanes[i], R.FindOver(R.ClientLost))
  {
  }

  /** A node finds a detached job completed without its client. Whatever the job does from there, the
      node produces nothing more; and while its client gets no reply from it, the client misses
      results of it for good exactly when its queue was not empty at the test. */
  lemma CompletionLosesExactlyWhen(j: Job, i: nat, reported: seq<nat>, steps: seq<Step>)
    requires Inv(j) && Enabled(j, LostTest(i, reported)) && IsRun(Apply(j, LostTest(i, reported)), steps)
    ensures i < |j.lanes| && i < |After(Apply(j, LostTest(i, reported)), steps).lanes|
    ensures var before, after := j.lanes[i], After(Apply(j, LostTest(i, reported)), steps).lanes[i];
            && after.produced == before.delivered + before.outbox.results
            && ((forall s :: s in steps ==> !IsReplyTo(s, i)) ==>
                  (after.delivered != after.produced <==> before.outbox.results != []))
  {
    TestReachesLane(j, i, reported);
    var j1 := Apply(j, LostTest(i, reported));
    LaneRuns(j1, steps, i);
    LaneLosesExactlyWhen(j.lanes[i], steps, i);
  }

  lemma LaneLosesExactlyWhen(l: R.Lane, steps: seq<Step>, i: nat)
    requires R.Inv(l) && R.Enabled(l, R.FindOver(R.ClientLost))
    requires R.IsRun(R.Apply(l, R.FindOver(R.ClientLost)), LaneStepsAt(steps, i))
    ensures var after := R.After(R.Apply(l, R.FindOver(R.ClientLost)), LaneStepsAt(steps, i));
            && after.produced == l.delivered + l.outbox.results
            && ((forall s :: s in steps ==> !IsReplyTo(s, i)) ==>
                  (after.delivered != after.produced <==> l.outbox.results != []))
  {
    R.CompletionLosesExactlyWhen(l, LaneStepsAt(steps, i));
    if forall s :: s in steps ==> !IsReplyTo(s, i) {
      NoReplyInLane(steps, i);
    }
  }

  // ---------------------------------------------------------------- a run that throws a result away

  function OneInput(x: Input): seq<Input> { [x] }

  function ResultOf(x: Input): Result {
    Result(x.index, false, [])
  }

  /** One node, one input: uploaded, taken and run, while the result stays in the queue. */
  function Opening(k: nat, x: Input): Step {
    match k
    case 0 => JoinJob
    case 1 => StartJob(0, 1)
    case 2 => Inputs(I.Post(0, OneInput(x)))
    case 3 => Inputs(I.AdmitPost(0))
    case 4 => Inputs(I.HandlePost(0))
    case 5 => Inputs(I.LearnAllUploaded(0))
    case 6 => Inputs(I.TakeInput(0, 0))
    case _ => Complete(0, 0, false, ResultOf(x))
  }

  function OneNode(node: Inbox, done: seq<Input>, unsent: multiset<Input>, chunks: seq<I.Chunk>): I.World {
    I.World([node], [done], [], {}, unsent, chunks)
  }

  function OneSlot(k: nat): S.World {
    var flows := S.Flows(0, 0, 0, 0, 0, 0);
    if k == 0 then S.World([], [], [], [], [], [], map[], {}, flows)
    else if k == 1 then S.World([N.NO_SLOTS], [S.NotStarted], [], [], [None], [], map[], {}, flows)
    else S.World([N.NO_SLOTS.(target := 1)], [S.Working], [], [], [None], [], map[], {}, flows.(started := 1))
  }

  function Scene(k: nat, x: Input): Job {
    var unsent := if k <= 2 then multiset{x} else multiset{};
    var chunks := if k <= 2 then [] else [I.Chunk(0, OneInput(x), k >= 4, k >= 5)];
    var worker := if k == 7 then Running(x) else Idle;
    var node := Inbox(if k <= 1 then Assigning else Active, if k == 5 || k == 6 then [x] else [], map[],
                      if k <= 1 then [] else [worker], NoSteal, k >= 6);
    var done := if k >= 8 then [x] else [];
    var lane := if k >= 8 then R.Apply(R.NEW_LANE, R.Produce(ResultOf(x))) else R.NEW_LANE;
    Job(if k == 0 then I.World([], [], [], {}, unsent, []) else OneNode(node, done, unsent, chunks),
        if k == 0 then [] else [lane], OneSlot(k), multiset{x}, true, false)
  }

  lemma StartingScene(k: nat, x: Input)
    requires 0 <= k < 2
    ensures Enabled(Scene(k, x), Opening(k, x)) && Apply(Scene(k, x), Opening(k, x)) == Scene(k + 1, x)
  {
    var after, next := Apply(Scene(k, x), Opening(k, x)), Scene(k + 1, x);
    assert after.slots == next.slots;
    assert after.inputs.nodes[0].queue == next.inputs.nodes[0].queue;
    assert after.inputs.nodes[0].workers == next.inputs.nodes[0].workers;
    assert after.inputs.done[0] == next.inputs.done[0];
    assert after.inputs.nodes == next.inputs.nodes && after.inputs.done == next.inputs.done;
    assert after.inputs.chunks == next.inputs.chunks && after.lanes == next.lanes;
  }

  lemma PostingScene(k: nat, x: Input)
    requires k == 2
    ensures Enabled(Scene(k, x), Opening(k, x)) && Apply(Scene(k, x), Opening(k, x)) == Scene(k + 1, x)
  {
    var after, next := Apply(Scene(k, x), Opening(k, x)), Scene(k + 1, x);
    assert multiset{x} - multiset(OneInput(x)) == multiset{};
    assert after.inputs.nodes[0].queue == next.inputs.nodes[0].queue;
    assert after.inputs.nodes[0].workers == next.inputs.nodes[0].workers;
    assert after.inputs.done[0] == next.inputs.done[0];
    assert after.inputs.nodes == next.inputs.nodes && after.inputs.done == next.inputs.done;
    assert after.inputs.chunks == next.inputs.chunks && after.lanes == next.lanes;
  }

  lemma QueueingScene(k: nat, x: Input)
    requires 3 <= k < 5
    ensures Enabled(Scene(k, x), Opening(k, x)) && Apply(Scene(k, x), Opening(k, x)) == Scene(k + 1, x)
  {
    var after, next := Apply(Scene(k, x), Opening(k, x)), Scene(k + 1, x);
    assert after.inputs.nodes[0].queue == next.inputs.nodes[0].queue;
    assert after.inputs.nodes[0].workers == next.inputs.nodes[0].workers;
    assert after.inputs.done[0] == next.inputs.done[0];
    assert after.inputs.nodes == next.inputs.nodes && after.inputs.done == next.inputs.done;
    assert after.inputs.chunks == next.inputs.chunks && after.lanes == next.lanes;
  }

  lemma RunningScene(k: nat, x: Input)
    requires 5 <= k < 8
    ensures Enabled(Scene(k, x), Opening(k, x)) && Apply(Scene(k, x), Opening(k, x)) == Scene(k + 1, x)
  {
    var after, next := Apply(Scene(k, x), Opening(k, x)), Scene(k + 1, x);
    assert after.inputs.nodes[0].queue == next.inputs.nodes[0].queue;
    assert after.inputs.nodes[0].workers == next.inputs.nodes[0].workers;
    assert after.inputs.done[0] == next.inputs.done[0];
    assert after.inputs.nodes == next.inputs.nodes && after.inputs.done == next.inputs.done;
    assert after.inputs.chunks == next.inputs.chunks && after.lanes == next.lanes;
  }

  lemma InitialSlots(k: nat)
    ensures k == 0 ==> S.Init(OneSlot(k))
  {
  }

  lemma InitialScene(k: nat, x: Input)
    ensures k == 0 ==> Init(Scene(k, x)) && Scene(k, x).inputs.unsent == multiset{x}
  {
    InitialSlots(k);
    if k == 0 {
      assert Scene(k, x).slots == OneSlot(k);
      assert I.Init(Scene(k, x).inputs);
    }
  }

  lemma {:induction false} SceneIsReachable(k: nat, x: Input)
    requires k <= 8
    ensures Reachable(multiset{x}, Scene(k, x))
  {
    if k == 0 {
      InitialScene(k, x);
      InitIsReachable(Scene(k, x));
    } else {
      SceneIsReachable(k - 1, x);
      if k - 1 < 2 {
        StartingScene(k - 1, x);
      } else if k - 1 == 2 {
        PostingScene(k - 1, x);
      } else if k - 1 < 5 {
        QueueingScene(k - 1, x);
      } else {
        RunningScene(k - 1, x);
      }
      ReachableOneStepOn(multiset{x}, Scene(k - 1, x), Opening(k - 1, x));
    }
  }

  lemma EndReachesLane(j: Job, i: nat)
    requires Enabled(j, EndJob(i))
    ensures i < |j.lanes| == |Apply(j, EndJob(i)).lanes|
    ensures Apply(j, EndJob(i)).lanes[i] == j.lanes[i].(gone := true)
  {
  }

  lemma PollReachesLane(j: Job, i: nat, poll: R.Step)
    requires i < |j.lanes| && R.Enabled(j.lanes[i], poll) && IsPoll(poll)
    ensures Enabled(j, Results(i, poll)) && |Apply(j, Results(i, poll)).lanes| == |j.lanes|
    ensures Apply(j, Results(i, poll)).lanes[i] == R.Apply(j.lanes[i], poll)
    ensures Apply(j, Results(i, poll)).inputs == j.inputs && Apply(j, Results(i, poll)).slots == j.slots
  {
  }

  /** What the client and one node say to each other touches nothing else of the job. */
  lemma {:induction false} PollsInJob(inputs: multiset<Input>, j: Job, i: nat, polls: seq<R.Step>) returns (end: Job)
    requires Reachable(inputs, j) && i < |j.lanes| && R.IsRun(j.lanes[i], polls)
    requires forall s :: s in polls ==> IsPoll(s)
    ensures Reachable(inputs, end) && |end.lanes| == |j.lanes| && end.lanes[i] == R.After(j.lanes[i], polls)
    ensures end.inputs == j.inputs && end.slots == j.slots
    decreases |polls|
  {
    end := j;
    if polls != [] {
      assert polls[0] in polls;
      PollReachesLane(j, i, polls[0]);
      ReachableOneStepOn(inputs, j, Results(i, polls[0]));
      end := PollsInJob(inputs, Apply(j, Results(i, polls[0])), i, polls[1..]);
    }
  }

  /** The client polls a node that is gone once more, is answered 404 and is DONE. */
  lemma ClientReadsNotFound(inputs: multiset<Input>, j: Job, i: nat) returns (end: Job)
    requires Reachable(inputs, j) && i < |j.lanes| && j.lanes[i].gone && j.lanes[i].state.Polling?
    ensures Reachable(inputs, end) && |end.lanes| == |j.lanes| && end.lanes[i].state.Done?
    ensures end.lanes[i].delivered == j.lanes[i].delivered && end.lanes[i].produced == j.lanes[i].produced
    ensures end.inputs == j.inputs && end.lanes[i].over == j.lanes[i].over
  {
    var polls := R.ClientReadsNotFound(j.lanes[i]);
    R.GoneStaysGone(j.lanes[i], polls);
    end := PollsInJob(inputs, j, i, polls);
  }

  lemma TestChangesOneLane(j: Job, i: nat, reported: seq<nat>)
    requires Enabled(j, LostTest(i, reported))
    ensures i < |j.inputs.nodes| && j.inputs.nodes[i].phase.Active?
    ensures Apply(j, LostTest(i, reported)).inputs == j.inputs && Apply(j, LostTest(i, reported)).slots == j.slots
  {
  }

  lemma ResetEnabled(j: Job, i: nat)
    requires i < |j.lanes| && R.Enabled(j.lanes[i], R.Complete) && S.Enabled(j.slots, S.Reset(i))
    requires i < |j.inputs.nodes| && j.inputs.nodes[i].phase.Active?
    ensures Enabled(j, EndJob(i))
  {
  }

  /** Right after the test the node can be reset, and its client read 404 and be DONE with what it had. */
  lemma LostClientIsDone(inputs: multiset<Input>, j: Job, i: nat, reported: seq<nat>) returns (end: Job)
    requires Reachable(inputs, j) && Inv(j) && Enabled(j, LostTest(i, reported)) && j.lanes[i].state.Polling?
    requires S.Enabled(j.slots, S.Reset(i))
    ensures Reachable(inputs, end) && i < |end.lanes| && end.lanes[i].state.Done?
    ensures end.lanes[i].delivered == j.lanes[i].delivered && end.lanes[i].produced == j.lanes[i].produced
  {
    TestReachesLane(j, i, reported);
    ReachableOneStepOn(inputs, j, LostTest(i, reported));
    TestChangesOneLane(j, i, reported);
    var j1 := Apply(j, LostTest(i, reported));
    ResetEnabled(j1, i);
    EndReachesLane(j1, i);
    ReachableOneStepOn(inputs, j1, EndJob(i));
    end := ClientReadsNotFound(inputs, Apply(j1, EndJob(i)), i);
  }

  lemma LastScene(k: nat, x: Input)
    ensures k == 8 ==>
              && |Scene(k, x).lanes| == 1 && Scene(k, x).lanes[0] == R.Apply(R.NEW_LANE, R.Produce(ResultOf(x)))
              && Enabled(Scene(k, x), LostTest(0, [1])) && S.Enabled(Scene(k, x).slots, S.Reset(0))
  {
    assert [1][1..] == [];
    assert Sum([1]) == 1 + Sum([]);
  }

  /** For every input there is a whole run, from its upload on, after which the client of a detached job
      is DONE with the one node that ran it and does not have its result. */
  lemma CompletionCanLoseAResult(x: Input) returns (end: Job)
    ensures Reachable(multiset{x}, end) && |end.lanes| > 0 && end.lanes[0].state.Done?
    ensures end.lanes[0].produced == [ResultOf(x)] && end.lanes[0].delivered == []
  {
    var last: nat :| last == 8;
    SceneIsReachable(last, x);
    LastScene(last, x);
    ReachableHolds(multiset{x}, Scene(last, x));
    end := LostClientIsDone(multiset{x}, Scene(last, x), 0, [1]);
  }
}
