/** A whole job: the inputs, the results and the slots of every node move together, each step
    being one handler or one task of the code between two awaits. States what the client and
    the cluster may rely on from the first upload to the last result. */
module JobRun {
  import opened JobTypes
  import opened NodeInputs
  import opened NodeResults
  import I = InputTransfer
  import O = InputOwnership
  import R = ResultDelivery
  import N = NodeSlots
  import S = SlotLedger

  datatype Job = Job(
    inputs: I.World,
    lanes: seq<R.Lane>,
    slots: S.World,
    call: multiset<Input>,           // what the client passed in; its size is `n_inputs`
    detached: bool,                  // a background job goes on without its client
    clientHasAll: bool)

  datatype Step =
    | Inputs(step: I.Step)
    | Results(node: nat, poll: R.Step)
    | Slots(trade: S.Step)
    | Steal(node: nat, donor: nat, idle: nat)                // only a node with slots steals
    | Receive(node: nat, items: seq<Input>)                  // a node traded to zero bounces the batch
    | Complete(node: nat, worker: nat, retires: bool, result: Result)
    | GrantSlots(grant: S.Step, retired: seq<nat>)           // idle workers retire with their slots
    | ShedWorker(node: nat, worker: nat)
    | JoinJob
    | StartJob(node: nat, slots: nat)
    | ClaimPart(node: nat)
    | LeaveJob(node: nat)
    | TellAllReceived                                        // the client has counted every result
    | FindOver(node: nat, ending: R.Ending, reported: seq<nat>)
    | EndJob(node: nat)                                      // some awaits later, the node is reset

  predicate IsPlainInputStep(step: I.Step) {
    !(step.BeginSteal? || step.ReceiveItems? || step.Finish? || step.RetireIdle? || step.Join? || step.Start?
      || step.Claim? || step.Leave? || step.Reset?)
  }

  predicate IsPoll(step: R.Step) {
    step.SendPoll? || step.ServePoll? || step.RefusePoll? || step.ReceiveReply? || step.ReceiveNotFound?
  }

  predicate IsPlainSlotStep(step: S.Step) {
    !(step.Join? || step.Start? || step.GrantTrade? || step.RetireShedWorker? || step.StopWorking? || step.Reset?)
  }

  predicate IdleWorkers(workers: seq<Worker>, chosen: seq<nat>) {
    && (forall k :: 0 <= k < |chosen| ==> chosen[k] < |workers| && workers[chosen[k]].Idle?)
    && (forall j, k :: 0 <= j < k < |chosen| ==> chosen[j] != chosen[k])
  }

  function DeliveredCounts(lanes: seq<R.Lane>): (parts: seq<nat>)
    ensures |parts| == |lanes|
    ensures forall i :: 0 <= i < |lanes| ==> parts[i] == |lanes[i].delivered|
  {
    seq(|lanes|, i requires 0 <= i < |lanes| => |lanes[i].delivered|)
  }

  /** `total_result_count`: what the client has received from all nodes. */
  function ResultCount(j: Job): nat {
    Sum(DeliveredCounts(j.lanes))
  }

  /** The head adds up what each node last reported, which may be behind, and it makes `n_inputs`. */
  predicate ReportsAllResults(j: Job, reported: seq<nat>) {
    && |reported| == |j.lanes| && Sum(reported) == |j.call|
    && (forall i :: 0 <= i < |reported| ==> reported[i] <= |j.lanes[i].produced|)
  }

  /** The watcher's view of a node with nothing left to do. */
  predicate AllProcessed(n: Inbox) {
    n.allUploaded && n.queue == [] && AllResting(n.workers) && forall id :: id in n.parked ==> n.parked[id] == []
  }

  predicate Enabled(j: Job, step: Step) {
    match step
    case Inputs(s) => I.Enabled(j.inputs, s) && I.Orderly(j.inputs, s) && IsPlainInputStep(s)
    case Results(i, s) => i < |j.lanes| && R.Enabled(j.lanes[i], s) && IsPoll(s)
    case Slots(s) => S.Enabled(j.slots, s) && IsPlainSlotStep(s)
    case Steal(i, donor, idle) =>
      I.Enabled(j.inputs, I.BeginSteal(i, donor, idle)) && i < |j.slots.nodes| && j.slots.nodes[i].target > 0
    case Receive(i, items) => i < |j.slots.nodes| && I.Enabled(j.inputs, I.ReceiveItems(i, items, true))
    case Complete(i, k, retires, result) =>
      && I.Enabled(j.inputs, I.Finish(i, k, retires)) && i < |j.lanes|
      && R.Enabled(j.lanes[i], R.Produce(result))
      && result.index == j.inputs.nodes[i].workers[k].input.index
    case GrantSlots(s, retired) =>
      && s.GrantTrade? && S.Enabled(j.slots, s) && I.OnJob(j.inputs, s.donor)
      && var n := j.inputs.nodes[s.donor];
      && s.alive == CountAlive(n.workers) && s.idle == CountIdle(n.workers)
      && (s.drained ==> n.queue == [] && n.allUploaded)
      && IdleWorkers(n.workers, retired)
      && |retired| == N.IdleGrant(j.slots.nodes[s.donor].(target := s.seen), s.alive, s.idle, s.wanted, s.pressured, s.drained)
    case ShedWorker(i, k) =>
      I.Enabled(j.inputs, I.RetireIdle(i, k)) && S.Enabled(j.slots, S.RetireShedWorker(i))
    case JoinJob => true
    case StartJob(i, slots) => I.Enabled(j.inputs, I.Start(i, slots)) && S.Enabled(j.slots, S.Start(i, slots))
    case ClaimPart(i) =>
      && I.Enabled(j.inputs, I.Claim(i)) && i < |j.lanes| && j.lanes[i].over.NotOver? && S.Enabled(j.slots, S.StopWorking(i))
      && Drained(j.inputs.nodes[i]) && j.lanes[i].outbox == Outbox([], None)
    case LeaveJob(i) =>
      && I.Enabled(j.inputs, I.Leave(i)) && i < |j.lanes| && R.Enabled(j.lanes[i], R.Close)
      && S.Enabled(j.slots, S.Reset(i))
    case TellAllReceived => ResultCount(j) == |j.call|
    case FindOver(i, ending, reported) =>
      && i < |j.lanes| && R.Enabled(j.lanes[i], R.FindOver(ending))
      && I.IsNode(j.inputs, i) && j.inputs.nodes[i].phase.Active? && AllProcessed(j.inputs.nodes[i])
      && (ending.AllReceived? ==> j.clientHasAll)
      && (ending.ClientLost? ==> j.detached && ReportsAllResults(j, reported))
    case EndJob(i) =>
      && i < |j.lanes| && R.Enabled(j.lanes[i], R.Complete) && I.Enabled(j.inputs, I.Reset(i))
      && S.Enabled(j.slots, S.Reset(i))
  }

  /** The input, result and slot step inside a job step, when there is one. */
  function InputStep(j: Job, step: Step): Option<I.Step> {
    match step
    case Inputs(s) => Some(s)
    case Steal(i, donor, idle) => Some(I.BeginSteal(i, donor, idle))
    case Receive(i, items) =>
      if i < |j.slots.nodes| then Some(I.ReceiveItems(i, items, j.slots.nodes[i].target > 0)) else None
    case Complete(i, k, retires, _) => Some(I.Finish(i, k, retires))
    case ShedWorker(i, k) => Some(I.RetireIdle(i, k))
    case JoinJob => Some(I.Join)
    case StartJob(i, slots) => Some(I.Start(i, slots))
    case ClaimPart(i) => Some(I.Claim(i))
    case LeaveJob(i) => Some(I.Leave(i))
    case EndJob(i) => Some(I.Reset(i))
    case _ => None
  }

  function LaneStep(step: Step): Option<R.Step> {
    match step
    case Results(_, s) => Some(s)
    case Complete(_, _, _, result) => Some(R.Produce(result))
    case LeaveJob(_) => Some(R.Close)
    case FindOver(_, ending, _) => Some(R.FindOver(ending))
    case EndJob(_) => Some(R.Complete)
    case _ => None
  }

  function SlotStep(step: Step): Option<S.Step> {
    match step
    case Slots(s) => Some(s)
    case GrantSlots(s, _) => Some(s)
    case ShedWorker(i, _) => Some(S.RetireShedWorker(i))
    case JoinJob => Some(S.Join)
    case StartJob(i, slots) => Some(S.Start(i, slots))
    case ClaimPart(i) => Some(S.StopWorking(i))
    case LeaveJob(i) => Some(S.Reset(i))
    case EndJob(i) => Some(S.Reset(i))
    case _ => None
  }

  function RetireEach(w: I.World, i: nat, chosen: seq<nat>): (w': I.World)
    requires I.OnJob(w, i) && IdleWorkers(w.nodes[i].workers, chosen)
    decreases |chosen|
  {
    if chosen == [] then w
    else
      var w1 := I.Apply(w, I.RetireIdle(i, chosen[0]));
      RetireEach(w1, i, chosen[1..])
  }

  function InputsAfter(j: Job, step: Step): I.World
    requires Enabled(j, step)
  {
    if step.GrantSlots? then RetireEach(j.inputs, step.grant.donor, step.retired)
    else match InputStep(j, step)
    case Some(s) => I.Apply(j.inputs, s)
    case None => j.inputs
  }

  function LanesAfter(j: Job, step: Step): seq<R.Lane>
    requires Enabled(j, step)
  {
    if step.JoinJob? then j.lanes + [R.NEW_LANE]
    else match LaneStep(step)
    case Some(s) => j.lanes[step.node := R.Apply(j.lanes[step.node], s)]
    case None => j.lanes
  }

  function SlotsAfter(j: Job, step: Step): S.World
    requires Enabled(j, step)
  {
    match SlotStep(step)
    case Some(s) => S.Apply(j.slots, s)
    case None => j.slots
  }

  function Apply(j: Job, step: Step): Job
    requires Enabled(j, step)
  {
    Job(InputsAfter(j, step), LanesAfter(j, step), SlotsAfter(j, step), j.call, j.detached,
        j.clientHasAll || step.TellAllReceived?)
  }

  // ---------------------------------------------------------------- invariant

  /** The lane's results are those of the inputs the node finished, in order. */
  predicate ResultsOf(done: seq<Input>, produced: seq<Result>) {
    |done| == |produced| && forall k :: 0 <= k < |done| ==> done[k].index == produced[k].index
  }

  predicate NodeCoupled(phase: Phase, done: seq<Input>, lane: R.Lane) {
    && ResultsOf(done, lane.produced)
    && ((phase.Stopped? || phase.Gone?) && lane.over.NotOver? ==> lane.outbox == Outbox([], None))
    && (phase.Gone? <==> lane.gone)
    && (!lane.over.NotOver? ==> phase.Active? || phase.Gone?)
  }

  ghost predicate Coupled(w: I.World, lanes: seq<R.Lane>) {
    && |lanes| == |w.nodes| == |w.done|
    && (forall i :: 0 <= i < |lanes| ==> NodeCoupled(w.nodes[i].phase, w.done[i], lanes[i]))
  }

  ghost predicate LanesOk(lanes: seq<R.Lane>) {
    forall i :: 0 <= i < |lanes| ==> R.Inv(lanes[i])
  }

  /** Every input passed in is where the client, a node or the results have it. */
  ghost predicate Accounted(w: I.World, call: multiset<Input>) {
    forall x :: I.Owners(w, x) == call[x]
  }

  /** Every input has been run to its result. */
  ghost predicate AllRun(w: I.World, call: multiset<Input>) {
    forall x :: Sum(I.DoneParts(w.done, x)) == call[x]
  }

  /** A node finds the job over only when it is, and why it may. */
  predicate EndingOk(ending: R.Ending, detached: bool, clientHasAll: bool) {
    (ending.ClientLost? ==> detached) && (ending.AllReceived? ==> clientHasAll)
  }

  predicate OversOk(lanes: seq<R.Lane>, detached: bool, clientHasAll: bool) {
    forall i :: 0 <= i < |lanes| ==> EndingOk(lanes[i].over, detached, clientHasAll)
  }

  predicate IsOverSomewhere(lanes: seq<R.Lane>) {
    exists i :: 0 <= i < |lanes| && !lanes[i].over.NotOver?
  }

  ghost predicate EndingsOk(j: Job) {
    && (j.clientHasAll ==> ResultCount(j) == |j.call|)
    && OversOk(j.lanes, j.detached, j.clientHasAll)
    && (IsOverSomewhere(j.lanes) ==> AllRun(j.inputs, j.call))
  }

  ghost predicate Inv(j: Job) {
    && I.Inv(j.inputs) && LanesOk(j.lanes) && S.TradesOk(j.slots) && S.Balanced(j.slots)
    && Coupled(j.inputs, j.lanes) && Accounted(j.inputs, j.call) && EndingsOk(j)
  }

  ghost predicate Init(j: Job) {
    I.Init(j.inputs) && j.lanes == [] && S.Init(j.slots) && j.call == j.inputs.unsent && !j.clientHasAll
  }

  // ---------------------------------------------------------------- every input has been run

  lemma {:induction false} FlattenCounts(lists: seq<seq<Input>>, x: Input)
    ensures Copies(Flatten(lists), x) == Sum(I.DoneParts(lists, x))
  {
    if lists != [] {
      FlattenCounts(lists[1..], x);
      CopiesConcat(lists[0], Flatten(lists[1..]), x);
      assert I.DoneParts(lists, x)[1..] == I.DoneParts(lists[1..], x);
    }
  }

  /** As many results as inputs, and none for an input not passed in: every input has been run. */
  lemma CountMeansAllRun(w: I.World, call: multiset<Input>)
    requires Accounted(w, call) && Sum(Lengths(w.done)) >= |call|
    ensures AllRun(w, call) && Sum(Lengths(w.done)) == |call|
  {
    var done := multiset(Flatten(w.done));
    FlattenLength(w.done);
    forall x ensures done[x] == Sum(I.DoneParts(w.done, x)) <= call[x] {
      FlattenCounts(w.done, x);
      assert I.Owners(w, x) == call[x];
    }
    assert done <= call;
    assert |call| == |done| + |call - done|;
    SameSizeSubsetIsAll(done, call);
  }

  lemma ReportsMeanAllRun(j: Job, reported: seq<nat>)
    requires Inv(j) && ReportsAllResults(j, reported)
    ensures AllRun(j.inputs, j.call)
  {
    forall i | 0 <= i < |j.lanes| ensures reported[i] <= Lengths(j.inputs.done)[i] {
      assert NodeCoupled(j.inputs.nodes[i].phase, j.inputs.done[i], j.lanes[i]);
    }
    SumAtMost(Lengths(j.inputs.done), reported);
    CountMeansAllRun(j.inputs, j.call);
  }

  /** A client that has counted `n_inputs` results has, from every node, all it produced. */
  lemma CountMeansAllReceived(j: Job)
    requires Inv(j) && ResultCount(j) >= |j.call|
    ensures AllRun(j.inputs, j.call) && ResultCount(j) == |j.call|
    ensures forall i :: 0 <= i < |j.lanes| ==> j.lanes[i].delivered == j.lanes[i].produced
  {
    var produced, delivered := Lengths(j.inputs.done), DeliveredCounts(j.lanes);
    forall i | 0 <= i < |j.lanes| ensures delivered[i] <= produced[i] == |j.lanes[i].produced| {
      assert NodeCoupled(j.inputs.nodes[i].phase, j.inputs.done[i], j.lanes[i]) && R.Inv(j.lanes[i]);
    }
    SumAtMost(produced, delivered);
    CountMeansAllRun(j.inputs, j.call);
    forall i | 0 <= i < |j.lanes| ensures j.lanes[i].delivered == j.lanes[i].produced {
      SumDrops(produced, delivered, i);
      assert R.Inv(j.lanes[i]);
    }
  }

  /** Then no node owns an input, so a reset takes none with it. */
  lemma AllRunMeansNothingHeld(w: I.World, call: multiset<Input>, i: nat)
    requires I.Inv(w) && Accounted(w, call) && AllRun(w, call) && I.IsNode(w, i)
    ensures I.HoldsNothing(w, i)
  {
    if w.nodes[i].phase.Gone? {
      assert I.NodeOk(w, i);
    } else if !I.HoldsNothing(w, i) {
      var x := O.ResetLosesSome(w, i);
      assert false;
    }
  }

  /** No worker is running anything once a node has found the job over. */
  lemma NothingRunsOnceOver(j: Job, i: nat, k: nat)
    requires Inv(j) && i < |j.lanes| && I.IsWorker(j.inputs, i, k) && j.inputs.nodes[i].workers[k].Running?
    ensures j.lanes[i].over.NotOver?
  {
    if !j.lanes[i].over.NotOver? {
      AllRunMeansNothingHeld(j.inputs, j.call, i);
    }
  }

  // ---------------------------------------------------------------- each component keeps its invariant

  lemma {:induction false} RetireEachIsQuiet(w: I.World, i: nat, chosen: seq<nat>)
    requires I.Inv(w) && I.OnJob(w, i) && IdleWorkers(w.nodes[i].workers, chosen)
    ensures I.Inv(RetireEach(w, i, chosen))
    ensures forall x :: I.Owners(RetireEach(w, i, chosen), x) == I.Owners(w, x)
    ensures RetireEach(w, i, chosen).done == w.done
    ensures |RetireEach(w, i, chosen).nodes| == |w.nodes|
    ensures forall d :: 0 <= d < |w.nodes| ==> RetireEach(w, i, chosen).nodes[d].phase == w.nodes[d].phase
    decreases |chosen|
  {
    if chosen != [] {
      var step := I.RetireIdle(i, chosen[0]);
      var w1 := I.Apply(w, step);
      I.StepKeepsInv(w, step);
      forall x ensures I.Owners(w1, x) == I.Owners(w, x) {
        O.HarmlessStepConserves(w, step, x);
      }
      RetireEachIsQuiet(w1, i, chosen[1..]);
    }
  }

  /** Every step that reaches the inputs is one the input protocol allows. */
  lemma InputStepIsOrderly(j: Job, step: Step)
    requires Inv(j) && Enabled(j, step) && InputStep(j, step).Some?
    ensures I.Enabled(j.inputs, InputStep(j, step).value) && I.Orderly(j.inputs, InputStep(j, step).value)
  {
    if step.EndJob? {
      EndedNodeHoldsNothing(j, step.node);
    }
  }

  lemma EndedNodeHoldsNothing(j: Job, i: nat)
    requires Inv(j) && i < |j.lanes| && !j.lanes[i].over.NotOver? && I.IsNode(j.inputs, i)
    ensures I.HoldsNothing(j.inputs, i)
  {
    assert EndingOk(j.lanes[i].over, j.detached, j.clientHasAll);
    AllRunMeansNothingHeld(j.inputs, j.call, i);
  }

  lemma OrderlyInputStepConserves(w: I.World, step: I.Step)
    requires I.Inv(w) && I.Enabled(w, step) && I.Orderly(w, step)
    ensures I.Inv(I.Apply(w, step))
    ensures forall x :: I.Owners(I.Apply(w, step), x) == I.Owners(w, x)
  {
    I.StepKeepsInv(w, step);
    O.OrderlyIsHarmless(w, step);
    O.ConservedExactlyWhenHarmless(w, step);
  }

  /** No step of a job changes how many owners an input has. */
  lemma StepKeepsInputs(j: Job, step: Step)
    requires Inv(j) && Enabled(j, step)
    ensures I.Inv(InputsAfter(j, step))
    ensures forall x :: I.Owners(InputsAfter(j, step), x) == I.Owners(j.inputs, x)
  {
    if step.GrantSlots? {
      RetireEachIsQuiet(j.inputs, step.grant.donor, step.retired);
    } else if InputStep(j, step).Some? {
      InputStepIsOrderly(j, step);
      OrderlyInputStepConserves(j.inputs, InputStep(j, step).value);
    }
  }

  lemma StepKeepsSlots(j: Job, step: Step)
    requires Inv(j) && Enabled(j, step)
    ensures S.TradesOk(SlotsAfter(j, step)) && S.Balanced(SlotsAfter(j, step))
  {
    match SlotStep(step)
    case Some(s) =>
      S.StepKeepsTrades(j.slots, s);
      S.StepKeepsBalance(j.slots, s);
    case None =>
  }

  lemma StepKeepsLanes(j: Job, step: Step)
    requires Inv(j) && Enabled(j, step)
    ensures LanesOk(LanesAfter(j, step))
  {
    match LaneStep(step)
    case Some(s) => R.StepKeepsInv(j.lanes[step.node], s);
    case None =>
  }

  lemma PollKeepsCoupled(w: I.World, lanes: seq<R.Lane>, i: nat, poll: R.Step)
    requires Coupled(w, lanes) && i < |lanes| && R.Enabled(lanes[i], poll) && (IsPoll(poll) || (poll.FindOver? && w.nodes[i].phase.Active?))
    ensures Coupled(w, lanes[i := R.Apply(lanes[i], poll)])
  {
  }

  lemma CompleteKeepsCoupled(w: I.World, lanes: seq<R.Lane>, i: nat, k: nat, retires: bool, result: Result)
    requires I.Inv(w) && Coupled(w, lanes) && i < |lanes|
    requires I.Enabled(w, I.Finish(i, k, retires)) && R.Enabled(lanes[i], R.Produce(result))
    requires result.index == w.nodes[i].workers[k].input.index
    ensures Coupled(I.Apply(w, I.Finish(i, k, retires)), lanes[i := R.Apply(lanes[i], R.Produce(result))])
  {
    assert I.NodeOk(w, i);
    assert NodeCoupled(w.nodes[i].phase, w.done[i], lanes[i]);
  }

  lemma LeaveKeepsCoupled(w: I.World, lanes: seq<R.Lane>, i: nat)
    requires Coupled(w, lanes) && i < |lanes|
    requires I.Enabled(w, I.Leave(i)) && R.Enabled(lanes[i], R.Close)
    ensures Coupled(I.Apply(w, I.Leave(i)), lanes[i := R.Apply(lanes[i], R.Close)])
  {
  }

  lemma EndKeepsCoupled(w: I.World, lanes: seq<R.Lane>, i: nat)
    requires Coupled(w, lanes) && i < |lanes|
    requires I.Enabled(w, I.Reset(i)) && R.Enabled(lanes[i], R.Complete)
    ensures Coupled(I.Apply(w, I.Reset(i)), lanes[i := R.Apply(lanes[i], R.Complete)])
  {
  }

  lemma ClaimKeepsCoupled(w: I.World, lanes: seq<R.Lane>, i: nat)
    requires Coupled(w, lanes) && i < |lanes| && I.Enabled(w, I.Claim(i)) && lanes[i].outbox == Outbox([], None)
    requires lanes[i].over.NotOver?
    ensures Coupled(I.Apply(w, I.Claim(i)), lanes)
  {
  }

  lemma OpeningKeepsCoupled(w: I.World, lanes: seq<R.Lane>, i: nat, slots: nat)
    requires Coupled(w, lanes)
    ensures Coupled(I.Apply(w, I.Join), lanes + [R.NEW_LANE])
    ensures I.Enabled(w, I.Start(i, slots)) ==> Coupled(I.Apply(w, I.Start(i, slots)), lanes)
  {
  }

  /** Steps inside the inputs of nodes that stay in their phase. */
  lemma PlainStepKeepsCoupled(w: I.World, lanes: seq<R.Lane>, step: I.Step)
    requires Coupled(w, lanes) && I.Enabled(w, step)
    requires IsPlainInputStep(step) || step.BeginSteal? || step.ReceiveItems? || step.RetireIdle?
    ensures Coupled(I.Apply(w, step), lanes)
  {
    I.PhasesChangeOnlyAsNamed(w, step);
  }

  lemma LaneStepKeepsCoupled(j: Job, step: Step)
    requires Inv(j) && Enabled(j, step) && (LaneStep(step).Some? || step.JoinJob?)
    ensures Coupled(InputsAfter(j, step), LanesAfter(j, step))
  {
    match step
    case Results(i, poll) => PollKeepsCoupled(j.inputs, j.lanes, i, poll);
    case Complete(i, k, retires, result) => CompleteKeepsCoupled(j.inputs, j.lanes, i, k, retires, result);
    case LeaveJob(i) => LeaveKeepsCoupled(j.inputs, j.lanes, i);
    case FindOver(i, ending, _) => PollKeepsCoupled(j.inputs, j.lanes, i, R.FindOver(ending));
    case EndJob(i) => EndKeepsCoupled(j.inputs, j.lanes, i);
    case JoinJob => OpeningKeepsCoupled(j.inputs, j.lanes, 0, 0);
  }

  lemma StepKeepsCoupled(j: Job, step: Step)
    requires Inv(j) && Enabled(j, step)
    ensures Coupled(InputsAfter(j, step), LanesAfter(j, step))
  {
    if LaneStep(step).Some? || step.JoinJob? {
      LaneStepKeepsCoupled(j, step);
    } else if step.ClaimPart? {
      ClaimKeepsCoupled(j.inputs, j.lanes, step.node);
    } else if step.GrantSlots? {
      RetireEachIsQuiet(j.inputs, step.grant.donor, step.retired);
    } else if step.StartJob? {
      OpeningKeepsCoupled(j.inputs, j.lanes, step.node, step.slots);
    } else if !step.Slots? && !step.TellAllReceived? {
      PlainStepKeepsCoupled(j.inputs, j.lanes, InputStep(j, step).value);
    }
  }

  // ---------------------------------------------------------------- what has been run stays run

  lemma {:induction false} RetireEachKeepsDone(w: I.World, i: nat, chosen: seq<nat>)
    requires I.OnJob(w, i) && IdleWorkers(w.nodes[i].workers, chosen)
    ensures RetireEach(w, i, chosen).done == w.done
    decreases |chosen|
  {
    if chosen != [] {
      RetireEachKeepsDone(I.Apply(w, I.RetireIdle(i, chosen[0])), i, chosen[1..]);
    }
  }

  lemma FinishGrowsDone(done: seq<seq<Input>>, i: nat, input: Input, x: Input)
    requires i < |done|
    ensures Sum(I.DoneParts(done[i := done[i] + [input]], x)) >= Sum(I.DoneParts(done, x))
  {
    CopiesConcat(done[i], [input], x);
    SumAtMost(I.DoneParts(done[i := done[i] + [input]], x), I.DoneParts(done, x));
  }

  lemma JoinKeepsDone(done: seq<seq<Input>>, x: Input)
    ensures Sum(I.DoneParts(done + [[]], x)) == Sum(I.DoneParts(done, x))
  {
    assert I.DoneParts(done + [[]], x) == I.DoneParts(done, x) + [0];
    SumAppend(I.DoneParts(done, x), 0);
  }

  lemma DoneGrows(w: I.World, step: I.Step, x: Input)
    requires I.Enabled(w, step)
    ensures Sum(I.DoneParts(I.Apply(w, step).done, x)) >= Sum(I.DoneParts(w.done, x))
  {
    match step
    case Finish(i, k, _) => FinishGrowsDone(w.done, i, w.nodes[i].workers[k].input, x);
    case Join => JoinKeepsDone(w.done, x);
    case _ =>
  }

  lemma AllRunCarries(w: I.World, w': I.World, call: multiset<Input>)
    requires AllRun(w, call) && Accounted(w', call)
    requires forall x :: Sum(I.DoneParts(w'.done, x)) >= Sum(I.DoneParts(w.done, x))
    ensures AllRun(w', call)
  {
    forall x ensures Sum(I.DoneParts(w'.done, x)) == call[x] {
      assert I.Owners(w', x) == call[x];
    }
  }

  lemma AllRunLasts(j: Job, step: Step)
    requires Inv(j) && Enabled(j, step) && AllRun(j.inputs, j.call)
    requires Accounted(InputsAfter(j, step), j.call)
    ensures AllRun(InputsAfter(j, step), j.call)
  {
    if InputStep(j, step).Some? {
      InputStepIsOrderly(j, step);
    }
    forall x ensures Sum(I.DoneParts(InputsAfter(j, step).done, x)) >= Sum(I.DoneParts(j.inputs.done, x)) {
      DoneGrowsInJob(j, step, x);
    }
    AllRunCarries(j.inputs, InputsAfter(j, step), j.call);
  }

  lemma DoneGrowsInJob(j: Job, step: Step, x: Input)
    requires Enabled(j, step)
    requires InputStep(j, step).Some? ==> I.Enabled(j.inputs, InputStep(j, step).value)
    ensures Sum(I.DoneParts(InputsAfter(j, step).done, x)) >= Sum(I.DoneParts(j.inputs.done, x))
  {
    if step.GrantSlots? {
      RetireEachKeepsDone(j.inputs, step.grant.donor, step.retired);
    } else if InputStep(j, step).Some? {
      DoneGrows(j.inputs, InputStep(j, step).value, x);
    }
  }

  /** Lanes grow, and only one of them takes a step at a time. */
  lemma LanesAfterStep(j: Job, step: Step)
    requires Enabled(j, step)
    ensures var lanes := LanesAfter(j, step);
            || lanes == j.lanes || lanes == j.lanes + [R.NEW_LANE]
            || (exists s: R.Step, i: nat :: i < |j.lanes| && LaneStep(step) == Some(s) && R.Enabled(j.lanes[i], s)
                                            && lanes == j.lanes[i := R.Apply(j.lanes[i], s)])
  {
  }

  lemma LaneCountGrows(lanes: seq<R.Lane>, i: nat, s: R.Step)
    requires i < |lanes| && R.Enabled(lanes[i], s)
    ensures Sum(DeliveredCounts(lanes[i := R.Apply(lanes[i], s)])) >= Sum(DeliveredCounts(lanes))
  {
    SumAtMost(DeliveredCounts(lanes[i := R.Apply(lanes[i], s)]), DeliveredCounts(lanes));
  }

  /** What the client has counted only grows. */
  lemma CountGrows(j: Job, step: Step)
    requires Enabled(j, step)
    ensures Sum(DeliveredCounts(LanesAfter(j, step))) >= ResultCount(j)
  {
    var lanes := LanesAfter(j, step);
    LanesAfterStep(j, step);
    if lanes == j.lanes + [R.NEW_LANE] {
      assert DeliveredCounts(lanes) == DeliveredCounts(j.lanes) + [0];
      SumAppend(DeliveredCounts(j.lanes), 0);
    } else if lanes != j.lanes {
      var s: R.Step, i: nat :| i < |j.lanes| && LaneStep(step) == Some(s) && R.Enabled(j.lanes[i], s)
                               && lanes == j.lanes[i := R.Apply(j.lanes[i], s)];
      LaneCountGrows(j.lanes, i, s);
    }
  }

  /** A node that finds the job over is right. */
  lemma FoundOverMeansAllRun(j: Job, step: Step)
    requires Inv(j) && Enabled(j, step) && step.FindOver?
    ensures AllRun(j.inputs, j.call)
  {
    if step.ending.ClientLost? {
      ReportsMeanAllRun(j, step.reported);
    } else {
      CountMeansAllReceived(j);
    }
  }

  lemma LaneKeepsOver(l: R.Lane, s: R.Step)
    requires R.Enabled(l, s) && !s.FindOver?
    ensures R.Apply(l, s).over == l.over
  {
  }

  lemma OversUnchanged(j: Job, step: Step)
    requires Enabled(j, step) && !step.FindOver?
    ensures |LanesAfter(j, step)| >= |j.lanes|
    ensures forall i :: 0 <= i < |LanesAfter(j, step)| ==>
              LanesAfter(j, step)[i].over == if i < |j.lanes| then j.lanes[i].over else R.NotOver
  {
    match LaneStep(step)
    case Some(s) => LaneKeepsOver(j.lanes[step.node], s);
    case None =>
  }

  lemma OverIsFoundByTest(j: Job, step: Step)
    requires OversOk(j.lanes, j.detached, j.clientHasAll) && Enabled(j, step)
    ensures OversOk(LanesAfter(j, step), j.detached, j.clientHasAll)
    ensures IsOverSomewhere(LanesAfter(j, step)) ==> step.FindOver? || IsOverSomewhere(j.lanes)
  {
    if !step.FindOver? {
      OversUnchanged(j, step);
      forall i | 0 <= i < |LanesAfter(j, step)|
        ensures EndingOk(LanesAfter(j, step)[i].over, j.detached, j.clientHasAll)
        ensures !LanesAfter(j, step)[i].over.NotOver? ==> i < |j.lanes| && !j.lanes[i].over.NotOver?
      {
        assert i < |j.lanes| ==> EndingOk(j.lanes[i].over, j.detached, j.clientHasAll);
      }
    }
  }

  lemma StepKeepsTold(j: Job, step: Step)
    requires EndingsOk(j) && Enabled(j, step)
    requires Sum(DeliveredCounts(LanesAfter(j, step))) <= |j.call|
    ensures Apply(j, step).clientHasAll ==> ResultCount(Apply(j, step)) == |j.call|
  {
    CountGrows(j, step);
  }

  lemma StepKeepsAllRun(j: Job, step: Step)
    requires Inv(j) && Enabled(j, step) && Accounted(InputsAfter(j, step), j.call)
    ensures IsOverSomewhere(LanesAfter(j, step)) ==> AllRun(InputsAfter(j, step), j.call)
  {
    OverIsFoundByTest(j, step);
    if step.FindOver? {
      FoundOverMeansAllRun(j, step);
    }
    if IsOverSomewhere(LanesAfter(j, step)) {
      AllRunLasts(j, step);
    }
  }

  lemma OversStayOk(lanes: seq<R.Lane>, detached: bool, before: bool, after: bool)
    requires OversOk(lanes, detached, before) && (before ==> after)
    ensures OversOk(lanes, detached, after)
  {
    forall i | 0 <= i < |lanes| ensures EndingOk(lanes[i].over, detached, after) {
      assert EndingOk(lanes[i].over, detached, before);
    }
  }

  lemma StepKeepsEndings(j: Job, step: Step)
    requires Inv(j) && Enabled(j, step)
    requires LanesOk(LanesAfter(j, step)) && Coupled(InputsAfter(j, step), LanesAfter(j, step))
    requires Accounted(InputsAfter(j, step), j.call)
    ensures EndingsOk(Apply(j, step))
  {
    CountIsAtMostCall(InputsAfter(j, step), LanesAfter(j, step), j.call);
    StepKeepsTold(j, step);
    StepKeepsAllRun(j, step);
    OverIsFoundByTest(j, step);
    OversStayOk(LanesAfter(j, step), j.detached, j.clientHasAll, Apply(j, step).clientHasAll);
  }

  lemma CountIsAtMostCall(w: I.World, lanes: seq<R.Lane>, call: multiset<Input>)
    requires LanesOk(lanes) && Coupled(w, lanes) && Accounted(w, call)
    ensures Sum(DeliveredCounts(lanes)) <= |call|
  {
    forall i | 0 <= i < |lanes| ensures DeliveredCounts(lanes)[i] <= Lengths(w.done)[i] {
      assert NodeCoupled(w.nodes[i].phase, w.done[i], lanes[i]) && R.Inv(lanes[i]);
    }
    SumAtMost(Lengths(w.done), DeliveredCounts(lanes));
    if Sum(Lengths(w.done)) >= |call| {
      CountMeansAllRun(w, call);
    }
  }

  /** Every step of the job keeps every invariant, and no input changes its number of owners. */
  lemma StepKeepsInv(j: Job, step: Step)
    requires Inv(j) && Enabled(j, step)
    ensures Inv(Apply(j, step))
    ensures forall x :: I.Owners(Apply(j, step).inputs, x) == I.Owners(j.inputs, x)
  {
    StepKeepsInputs(j, step);
    StepKeepsSlots(j, step);
    StepKeepsLanes(j, step);
    StepKeepsCoupled(j, step);
    StepKeepsEndings(j, step);
  }

  // ---------------------------------------------------------------- runs

  predicate IsRun(j: Job, steps: seq<Step>)
    decreases |steps|
  {
    steps == [] || (Enabled(j, steps[0]) && IsRun(Apply(j, steps[0]), steps[1..]))
  }

  function After(j: Job, steps: seq<Step>): Job
    requires IsRun(j, steps)
    decreases |steps|
  {
    if steps == [] then j else After(Apply(j, steps[0]), steps[1..])
  }

  lemma {:induction false} RunKeepsInv(j: Job, steps: seq<Step>)
    requires Inv(j) && IsRun(j, steps)
    ensures Inv(After(j, steps)) && After(j, steps).call == j.call
    decreases |steps|
  {
    if steps != [] {
      StepKeepsInv(j, steps[0]);
      RunKeepsInv(Apply(j, steps[0]), steps[1..]);
    }
  }

  /** `j` can be reached from a job whose inputs are all still with the client. */
  ghost predicate Reachable(inputs: multiset<Input>, j: Job) {
    exists j0, steps :: Init(j0) && j0.inputs.unsent == inputs && IsRun(j0, steps) && After(j0, steps) == j
  }

  lemma {:induction false} RunOneStepOn(j: Job, steps: seq<Step>, step: Step)
    requires IsRun(j, steps) && Enabled(After(j, steps), step)
    ensures IsRun(j, steps + [step]) && After(j, steps + [step]) == Apply(After(j, steps), step)
    decreases |steps|
  {
    var longer := steps + [step];
    if steps == [] {
      assert longer[0] == step && longer[1..] == [];
    } else {
      assert longer[0] == steps[0] && longer[1..] == steps[1..] + [step];
      RunOneStepOn(Apply(j, steps[0]), steps[1..], step);
    }
  }

  lemma InitIsReachable(j: Job)
    requires Init(j)
    ensures Reachable(j.inputs.unsent, j)
  {
    var none: seq<Step> := [];
    assert IsRun(j, none) && After(j, none) == j;
  }

  lemma {:induction false} ReachableOneStepOn(inputs: multiset<Input>, j: Job, step: Step)
    requires Reachable(inputs, j) && Enabled(j, step)
    ensures Reachable(inputs, Apply(j, step))
  {
    var j0, steps :| Init(j0) && j0.inputs.unsent == inputs && IsRun(j0, steps) && After(j0, steps) == j;
    RunOneStepOn(j0, steps, step);
  }

  lemma {:induction false} InitHolds(j: Job)
    requires Init(j)
    ensures Inv(j)
  {
    forall x ensures I.Owners(j.inputs, x) == j.call[x] {
      O.InitOwners(j.inputs, x);
    }
  }

  lemma {:induction false} ReachableHolds(inputs: multiset<Input>, j: Job)
    requires Reachable(inputs, j)
    ensures Inv(j) && j.call == inputs
  {
    var j0, steps :| Init(j0) && j0.inputs.unsent == inputs && IsRun(j0, steps) && After(j0, steps) == j;
    InitHolds(j0);
    RunKeepsInv(j0, steps);
  }
}
