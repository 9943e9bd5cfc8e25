/** Conservation of inputs over every run: no step creates, copies or drops an input, except
    the message orders the handlers cannot refuse and the reset of a node that owns some. */
module InputOwnership {
  import opened JobTypes
  import opened NodeInputs
  import opened InputTransfer

  // ---------------------------------------------------------------- sums

  lemma HeldUpdate(nodes: seq<Inbox>, i: nat, n: Inbox, x: Input)
    requires i < |nodes|
    ensures Sum(HeldParts(nodes[i := n], x)) + Held(nodes[i], x) == Sum(HeldParts(nodes, x)) + Held(n, x)
  {
    assert HeldParts(nodes[i := n], x) == HeldParts(nodes, x)[i := Held(n, x)];
    SumUpdate(HeldParts(nodes, x), i, Held(n, x));
  }

  /** Changing one transfer's parked copies changes the sum by just that. */
  lemma ParkedUpdate(nodes: seq<Inbox>, transfers: seq<Transfer>, nodes': seq<Inbox>, transfers': seq<Transfer>, id: TransferId, x: Input)
    requires id < |transfers| == |transfers'|
    requires forall id' :: 0 <= id' < |transfers| && id' != id ==>
               ParkedCopies(nodes', transfers', id', x) == ParkedCopies(nodes, transfers, id', x)
    ensures Sum(ParkedParts(nodes', transfers', x)) + ParkedCopies(nodes, transfers, id, x)
            == Sum(ParkedParts(nodes, transfers, x)) + ParkedCopies(nodes', transfers', id, x)
  {
    var parts, part := ParkedParts(nodes, transfers, x), ParkedCopies(nodes', transfers', id, x);
    assert ParkedParts(nodes', transfers', x) == parts[id := part];
    SumUpdate(parts, id, part);
  }

  lemma ParkedUnchanged(nodes: seq<Inbox>, nodes': seq<Inbox>, transfers: seq<Transfer>, x: Input)
    requires forall id :: 0 <= id < |transfers| ==>
               ParkedCopies(nodes', transfers, id, x) == ParkedCopies(nodes, transfers, id, x)
    ensures Sum(ParkedParts(nodes', transfers, x)) == Sum(ParkedParts(nodes, transfers, x))
  {
    assert ParkedParts(nodes', transfers, x) == ParkedParts(nodes, transfers, x);
  }

  /** A step inside one node moves the total by what the node gains or loses. */
  lemma NodeStepOwners(w: World, i: nat, n: Inbox, x: Input)
    requires IsNode(w, i) && n.parked == w.nodes[i].parked
    ensures Owners(SetNode(w, i, n), x) + Held(w.nodes[i], x) == Owners(w, x) + Held(n, x)
  {
    HeldUpdate(w.nodes, i, n, x);
    ParkedUnchanged(w.nodes, w.nodes[i := n], w.transfers, x);
  }

  lemma DoneUpdate(w: World, i: nat, item: Input, x: Input)
    requires i < |w.done|
    ensures Owners(w.(done := w.done[i := w.done[i] + [item]]), x) == Owners(w, x) + Copies([item], x)
  {
    var done' := w.done[i := w.done[i] + [item]];
    CopiesConcat(w.done[i], [item], x);
    assert DoneParts(done', x) == DoneParts(w.done, x)[i := Copies(done'[i], x)];
    SumUpdate(DoneParts(w.done, x), i, Copies(done'[i], x));
  }

  // ---------------------------------------------------------------- each step

  lemma TakingMovesHeld(n: Inbox, k: nat, x: Input)
    requires k < |n.workers| && n.workers[k].Idle? && n.queue != []
    ensures Held(n.(queue := n.queue[1..], workers := n.workers[k := Running(n.queue[0])]), x) == Held(n, x)
  {
    CopiesConcat([n.queue[0]], n.queue[1..], x);
    assert n.queue == [n.queue[0]] + n.queue[1..];
    RunningUpdate(n.workers, k, Running(n.queue[0]), x);
  }

  lemma FinishingReleasesHeld(n: Inbox, k: nat, next: Worker, x: Input)
    requires k < |n.workers| && n.workers[k].Running? && !next.Running?
    ensures Held(n.(workers := n.workers[k := next]), x) + Copies([n.workers[k].input], x) == Held(n, x)
  {
    RunningUpdate(n.workers, k, next, x);
  }

  lemma RequeuingMovesHeld(n: Inbox, k: nat, x: Input)
    requires k < |n.workers| && n.workers[k].Running?
    ensures Held(n.(queue := n.queue + [n.workers[k].input], workers := n.workers[k := Retired]), x) == Held(n, x)
  {
    CopiesConcat(n.queue, [n.workers[k].input], x);
    RunningUpdate(n.workers, k, Retired, x);
  }

  lemma RestingWorkersComeAndGo(workers: seq<Worker>, k: nat, x: Input)
    ensures RunningCopies(workers + [Idle], x) == RunningCopies(workers, x)
    ensures k < |workers| && !workers[k].Running? ==>
              RunningCopies(workers[k := Retired], x) == RunningCopies(workers, x)
              && RunningCopies(workers[..k] + workers[k + 1..], x) == RunningCopies(workers, x)
  {
    RunningConcat(workers, [Idle], x);
    RunningOne(Idle, x);
    if k < |workers| && !workers[k].Running? {
      RunningUpdate(workers, k, Retired, x);
      var front, back := workers[..k], workers[k + 1..];
      assert workers == (front + [workers[k]]) + back;
      RunningConcat(front, back, x);
      RunningConcat(front + [workers[k]], back, x);
      RunningConcat(front, [workers[k]], x);
      RunningOne(workers[k], x);
    }
  }

  lemma TakeInputConserves(w: World, i: nat, k: nat, x: Input)
    requires Enabled(w, TakeInput(i, k))
    ensures Owners(Apply(w, TakeInput(i, k)), x) == Owners(w, x)
  {
    var n := w.nodes[i];
    TakingMovesHeld(n, k, x);
    NodeStepOwners(w, i, n.(queue := n.queue[1..], workers := n.workers[k := Running(n.queue[0])]), x);
  }

  lemma FinishConserves(w: World, i: nat, k: nat, retires: bool, x: Input)
    requires Enabled(w, Finish(i, k, retires))
    ensures Owners(Apply(w, Finish(i, k, retires)), x) == Owners(w, x)
  {
    var n := w.nodes[i];
    var next := if retires then Retired else Idle;
    var n' := n.(workers := n.workers[k := next]);
    FinishingReleasesHeld(n, k, next, x);
    NodeStepOwners(w, i, n', x);
    DoneUpdate(SetNode(w, i, n'), i, n.workers[k].input, x);
  }

  lemma RequeueConserves(w: World, i: nat, k: nat, x: Input)
    requires Enabled(w, Requeue(i, k))
    ensures Owners(Apply(w, Requeue(i, k)), x) == Owners(w, x)
  {
    var n := w.nodes[i];
    RequeuingMovesHeld(n, k, x);
    NodeStepOwners(w, i, n.(queue := n.queue + [n.workers[k].input], workers := n.workers[k := Retired]), x);
  }

  lemma WorkerListConserves(w: World, step: Step, x: Input)
    requires Enabled(w, step)
    requires step.RetireIdle? || step.AddWorker? || step.DropRetired?
    ensures Owners(Apply(w, step), x) == Owners(w, x)
  {
    var n := w.nodes[step.node];
    RestingWorkersComeAndGo(n.workers, if step.AddWorker? then 0 else step.worker, x);
    NodeStepOwners(w, step.node, Apply(w, step).nodes[step.node], x);
  }

  lemma StartConserves(w: World, i: nat, workers: nat, x: Input)
    requires Enabled(w, Start(i, workers))
    ensures Owners(Apply(w, Start(i, workers)), x) == Owners(w, x)
  {
    RestingHoldNothing(seq(workers, _ => Idle), x);
    RestingHoldNothing([], x);
    NodeStepOwners(w, i, w.nodes[i].(phase := Active, workers := seq(workers, _ => Idle)), x);
  }

  lemma LeaveConserves(w: World, i: nat, x: Input)
    requires Inv(w) && Enabled(w, Leave(i))
    ensures Owners(Apply(w, Leave(i)), x) == Owners(w, x)
  {
    assert NodeOk(w, i);
    RestingHoldNothing(w.nodes[i].workers, x);
    RestingHoldNothing([], x);
    NodeStepOwners(w, i, EMPTY_INBOX.(phase := Gone), x);
  }

  lemma ResetParkedParts(w: World, i: nat, x: Input)
    requires Enabled(w, Reset(i))
    ensures var nodes' := Apply(w, Reset(i)).nodes;
            forall id :: 0 <= id < |w.transfers| ==>
              ParkedCopies(nodes', w.transfers, id, x)
              == if w.transfers[id].donor == i then 0 else ParkedCopies(w.nodes, w.transfers, id, x)
  {
  }

  /** A reset loses what the node holds, and every batch parked there that nobody has taken. */
  lemma ResetLosesAtLeast(w: World, i: nat, x: Input)
    requires Enabled(w, Reset(i))
    ensures Owners(Apply(w, Reset(i)), x) + Held(w.nodes[i], x) <= Owners(w, x)
    ensures forall id :: 0 <= id < |w.transfers| && w.transfers[id].donor == i ==>
              Owners(Apply(w, Reset(i)), x) + ParkedCopies(w.nodes, w.transfers, id, x) <= Owners(w, x)
  {
    var w' := Apply(w, Reset(i));
    RestingHoldNothing([], x);
    HeldUpdate(w.nodes, i, w'.nodes[i], x);
    ResetParkedParts(w, i, x);
    var before, after := ParkedParts(w.nodes, w.transfers, x), ParkedParts(w'.nodes, w.transfers, x);
    SumAtMost(before, after);
    forall id | 0 <= id < |w.transfers| && w.transfers[id].donor == i ensures Sum(after) + before[id] <= Sum(before) {
      SumDrops(before, after, id);
    }
  }

  lemma EmptyResetConserves(w: World, i: nat, x: Input)
    requires Inv(w) && Enabled(w, Reset(i)) && HoldsNothing(w, i)
    ensures Owners(Apply(w, Reset(i)), x) == Owners(w, x)
  {
    var w' := Apply(w, Reset(i));
    RestingHoldNothing(w.nodes[i].workers, x);
    RestingHoldNothing([], x);
    HeldUpdate(w.nodes, i, w'.nodes[i], x);
    ResetParkedParts(w, i, x);
    assert NodeOk(w, i);
    ParkedUnchanged(w.nodes, w'.nodes, w.transfers, x);
  }

  lemma ResetLosesSome(w: World, i: nat) returns (x: Input)
    requires Inv(w) && Enabled(w, Reset(i)) && !HoldsNothing(w, i)
    ensures Owners(Apply(w, Reset(i)), x) < Owners(w, x)
  {
    var n := w.nodes[i];
    if n.queue != [] {
      x := n.queue[0];
      assert x in multiset(n.queue);
    } else if !AllResting(n.workers) {
      var k :| 0 <= k < |n.workers| && n.workers[k].Running?;
      x := n.workers[k].input;
      RunnersCounted(n.workers, k, x);
    } else {
      var id :| id in n.parked && id < |w.transfers| && !w.transfers[id].decision.Took? && n.parked[id] != [];
      x := n.parked[id][0];
      assert x in multiset(n.parked[id]);
      assert NodeOk(w, i) && ParkedOk(w, i, id);
    }
    ResetLosesAtLeast(w, i, x);
  }

  lemma JoinConserves(w: World, x: Input)
    requires Inv(w)
    ensures Owners(Apply(w, Join), x) == Owners(w, x)
  {
    var w' := Apply(w, Join);
    RestingHoldNothing([], x);
    assert HeldParts(w'.nodes, x) == HeldParts(w.nodes, x) + [0];
    SumAppend(HeldParts(w.nodes, x), 0);
    assert DoneParts(w'.done, x) == DoneParts(w.done, x) + [0];
    SumAppend(DoneParts(w.done, x), 0);
    forall id | 0 <= id < |w.transfers|
      ensures ParkedCopies(w'.nodes, w.transfers, id, x) == ParkedCopies(w.nodes, w.transfers, id, x)
    {
      assert TransferOk(w, id);
    }
    ParkedUnchanged(w.nodes, w'.nodes, w.transfers, x);
  }

  lemma PostConserves(w: World, i: nat, items: seq<Input>, x: Input)
    requires Enabled(w, Post(i, items))
    ensures Owners(Apply(w, Post(i, items)), x) == Owners(w, x)
  {
    var w' := Apply(w, Post(i, items));
    assert ChunkParts(w'.chunks, x) == ChunkParts(w.chunks, x) + [Copies(items, x)];
    SumAppend(ChunkParts(w.chunks, x), Copies(items, x));
    assert multiset(items)[x] <= w.unsent[x];
  }

  lemma HandlePostAdds(w: World, c: nat, x: Input)
    requires Enabled(w, HandlePost(c))
    ensures Owners(Apply(w, HandlePost(c)), x)
            == Owners(w, x) + if w.chunks[c].handled then Copies(w.chunks[c].items, x) else 0
  {
    var i := w.chunks[c].node;
    var n' := w.nodes[i].(queue := w.nodes[i].queue + w.chunks[c].items);
    CopiesConcat(w.nodes[i].queue, w.chunks[c].items, x);
    NodeStepOwners(w, i, n', x);
    var chunks' := w.chunks[c := w.chunks[c].(handled := true)];
    assert ChunkParts(chunks', x) == ChunkParts(w.chunks, x)[c := 0];
    SumUpdate(ChunkParts(w.chunks, x), c, 0);
  }

  lemma AdmitPostConserves(w: World, c: nat, x: Input)
    requires Enabled(w, AdmitPost(c))
    ensures Owners(Apply(w, AdmitPost(c)), x) == Owners(w, x)
  {
    assert ChunkParts(Apply(w, AdmitPost(c)).chunks, x) == ChunkParts(w.chunks, x);
  }

  /** An upload that passed the test before the reset and queues after it takes exactly its inputs
      out of the job, unless they were queued here before. */
  lemma UploadAfterResetIsLost(w: World, c: nat, x: Input)
    requires Enabled(w, LeakPost(c))
    ensures Owners(w, x) == Owners(Apply(w, LeakPost(c)), x) + InFlight(w.chunks[c], x)
  {
    assert ChunkParts(Apply(w, LeakPost(c)).chunks, x) == ChunkParts(w.chunks, x)[c := 0];
    SumUpdate(ChunkParts(w.chunks, x), c, 0);
  }

  lemma BeginStealConserves(w: World, step: Step, x: Input)
    requires Inv(w) && Enabled(w, step) && step.BeginSteal?
    ensures Owners(Apply(w, step), x) == Owners(w, x)
  {
    var w' := Apply(w, step);
    HeldUpdate(w.nodes, step.node, w'.nodes[step.node], x);
    var id := |w.transfers|;
    assert !IsParked(w'.nodes, w'.transfers, id) by {
      assert NodeOk(w, step.donor);
      assert id in w.nodes[step.donor].parked ==> ParkedOk(w, step.donor, id);
    }
    assert ParkedParts(w'.nodes, w'.transfers, x) == ParkedParts(w.nodes, w.transfers, x) + [0] by {
      forall t | 0 <= t < id
        ensures ParkedParts(w'.nodes, w'.transfers, x)[t] == ParkedParts(w.nodes, w.transfers, x)[t]
      {
        assert ParkedCopies(w'.nodes, w'.transfers, t, x) == ParkedCopies(w.nodes, w.transfers, t, x);
      }
    }
    SumAppend(ParkedParts(w.nodes, w.transfers, x), 0);
  }

  /** Donating under one transfer does not touch what is parked for another. */
  lemma DonationLeavesOthers(w: World, step: Step, x: Input)
    requires Enabled(w, step) && step.HandleGet?
    ensures forall id :: 0 <= id < |w.transfers| && id != step.id ==>
              ParkedCopies(Apply(w, step).nodes, w.transfers, id, x) == ParkedCopies(w.nodes, w.transfers, id, x)
  {
    var donor := w.transfers[step.id].donor;
    forall id | 0 <= id < |w.transfers| && id != step.id
      ensures ParkedCopies(Apply(w, step).nodes, w.transfers, id, x) == ParkedCopies(w.nodes, w.transfers, id, x)
    {
      assert id in Apply(w, step).nodes[donor].parked <==> id in w.nodes[donor].parked;
    }
  }

  /** A GET moves inputs from the donor's hands into a parked batch; they stay owned unless
      the requester is already past taking that batch. */
  lemma HandleGetLoses(w: World, step: Step, x: Input)
    requires Inv(w) && Enabled(w, step) && step.HandleGet?
    ensures var t := w.transfers[step.id];
            Owners(w, x) == Owners(Apply(w, step), x)
                            + if t.decision.Took?
                              then Copies(Donated(w.nodes[t.donor], step.id, step.queueSize, step.idle, step.victims), x)
                              else 0
  {
    var t := w.transfers[step.id];
    var w' := Apply(w, step);
    var n := w.nodes[t.donor];
    DonationMovesInputs(n, step.id, step.queueSize, step.idle, step.victims, x);
    HeldUpdate(w.nodes, t.donor, w'.nodes[t.donor], x);
    DonationLeavesOthers(w, step, x);
    ParkedUpdate(w.nodes, w.transfers, w'.nodes, w.transfers, step.id, x);
  }

  lemma DecideChangesParked(w: World, i: nat, took: bool, x: Input)
    requires Inv(w) && IsNode(w, i) && w.nodes[i].steal.Asking? && w.nodes[i].steal.id < |w.transfers|
    ensures Owners(w, x) == Owners(Decide(w, i, took), x)
                            + if took then ParkedCopies(w.nodes, w.transfers, w.nodes[i].steal.id, x) else 0
  {
    var w' := Decide(w, i, took);
    var id := w.nodes[i].steal.id;
    assert NodeOk(w, i);
    HeldUpdate(w.nodes, i, w'.nodes[i], x);
    forall id' | 0 <= id' < |w.transfers| && id' != id
      ensures ParkedCopies(w'.nodes, w'.transfers, id', x) == ParkedCopies(w.nodes, w.transfers, id', x)
    {
    }
    ParkedUpdate(w.nodes, w.transfers, w'.nodes, w'.transfers, id, x);
  }

  function Queued(w: World, i: nat, items: seq<Input>): World
    requires IsNode(w, i)
  {
    SetNode(w, i, w.nodes[i].(queue := w.nodes[i].queue + items))
  }

  lemma QueuingAdds(w: World, i: nat, items: seq<Input>, x: Input)
    requires Inv(w) && IsNode(w, i) && w.nodes[i].steal.Asking?
    ensures Inv(Queued(w, i, items))
    ensures Owners(Queued(w, i, items), x) == Owners(w, x) + Copies(items, x)
  {
    var w1 := Queued(w, i, items);
    assert NodeOk(w, i);
    NodeStepOwners(w, i, w1.nodes[i], x);
    CopiesConcat(w.nodes[i].queue, items, x);
    forall d | 0 <= d < |w.nodes| ensures LeftOk(w1.nodes[d]) {
      assert NodeOk(w, d);
    }
    KeepingTransfersKeepsInv(w, w1);
  }

  lemma ReceiveItemsConserves(w: World, step: Step, x: Input)
    requires Inv(w) && Enabled(w, step) && step.ReceiveItems?
    ensures Owners(Apply(w, step), x) == Owners(w, x)
  {
    var i := step.node;
    assert NodeOk(w, i);
    if step.items != [] && step.hasSlots {
      var id, w1 := w.nodes[i].steal.id, Queued(w, i, step.items);
      assert MessageOk(w, Items(id, step.items));
      QueuingAdds(w, i, step.items, x);
      assert ParkedCopies(w1.nodes, w1.transfers, id, x) == Copies(step.items, x);
      DecideChangesParked(w1, i, true, x);
    } else {
      DecideChangesParked(w, i, false, x);
    }
  }

  lemma SettlingMovesHeld(n: Inbox, id: TransferId, received: bool, x: Input)
    ensures Held(SettleTransfer(n, id, received), x)
            == Held(n, x) + if id in n.parked && !received then Copies(n.parked[id], x) else 0
  {
  }

  /** Settling one transfer does not touch what is parked for another. */
  lemma SettlingLeavesOthers(w: World, id: TransferId, received: bool, x: Input)
    requires id < |w.transfers| && w.transfers[id].donor < |w.nodes|
    ensures var d := w.transfers[id].donor;
            var nodes' := w.nodes[d := SettleTransfer(w.nodes[d], id, received)];
            var transfers' := w.transfers[id := w.transfers[id].(acked := true)];
            forall id' :: 0 <= id' < |w.transfers| && id' != id ==>
              ParkedCopies(nodes', transfers', id', x) == ParkedCopies(w.nodes, w.transfers, id', x)
  {
  }

  lemma HandleAckConserves(w: World, step: Step, x: Input)
    requires Inv(w) && Enabled(w, step) && step.HandleAck?
    ensures Owners(Apply(w, step), x) == Owners(w, x)
  {
    var id, d := step.id, w.transfers[step.id].donor;
    var n' := SettleTransfer(w.nodes[d], id, step.received);
    var nodes' := w.nodes[d := n'];
    var transfers' := w.transfers[id := w.transfers[id].(acked := true)];
    assert MessageOk(w, Ack(id, step.received));
    SettlingMovesHeld(w.nodes[d], id, step.received, x);
    HeldUpdate(w.nodes, d, n', x);
    SettlingLeavesOthers(w, id, step.received, x);
    ParkedUpdate(w.nodes, w.transfers, nodes', transfers', id, x);
  }

  lemma OtherStepConserves(w: World, step: Step, x: Input)
    requires Enabled(w, step)
    requires step.RefuseGet? || step.ReceiveNotFound? || step.ReceiveAckOk? || step.SettledByPeerLeaving?
             || step.AckTimeout? || step.LearnAllUploaded? || step.Claim?
    ensures Owners(Apply(w, step), x) == Owners(w, x)
  {
    if !step.RefuseGet? {
      NodeStepOwners(w, step.node, Apply(w, step).nodes[step.node], x);
    }
  }

  // ---------------------------------------------------------------- theorem

  /** The steps that keep every input exactly where it can be found. */
  predicate Harmless(w: World, step: Step)
    requires Enabled(w, step)
  {
    match step
    case HandlePost(c) => w.chunks[c].handled ==> w.chunks[c].items == []
    case LeakPost(c) => !w.chunks[c].handled ==> w.chunks[c].items == []
    case Reset(i) => HoldsNothing(w, i)
    case HandleGet(id, queueSize, idle, victims) =>
      w.transfers[id].decision.Took? ==>
        Donated(w.nodes[w.transfers[id].donor], id, queueSize, idle, victims) == []
    case _ => true
  }

  lemma HarmlessStepConserves(w: World, step: Step, x: Input)
    requires Inv(w) && Enabled(w, step) && Harmless(w, step)
    ensures Owners(Apply(w, step), x) == Owners(w, x)
  {
    match step
    case Post(i, items) => PostConserves(w, i, items, x);
    case AdmitPost(c) => AdmitPostConserves(w, c, x);
    case HandlePost(c) => HandlePostAdds(w, c, x);
    case LeakPost(c) => UploadAfterResetIsLost(w, c, x);
    case Reset(i) => EmptyResetConserves(w, i, x);
    case BeginSteal(_, _, _) => BeginStealConserves(w, step, x);
    case HandleGet(_, _, _, _) => HandleGetLoses(w, step, x);
    case ReceiveItems(_, _, _) => ReceiveItemsConserves(w, step, x);
    case LoseGet(i) => DecideChangesParked(w, i, false, x);
    case HandleAck(_, _) => HandleAckConserves(w, step, x);
    case TakeInput(i, k) => TakeInputConserves(w, i, k, x);
    case Finish(i, k, retires) => FinishConserves(w, i, k, retires, x);
    case Requeue(i, k) => RequeueConserves(w, i, k, x);
    case RetireIdle(_, _) => WorkerListConserves(w, step, x);
    case AddWorker(_) => WorkerListConserves(w, step, x);
    case DropRetired(_, _) => WorkerListConserves(w, step, x);
    case Start(i, workers) => StartConserves(w, i, workers, x);
    case Join => JoinConserves(w, x);
    case Leave(i) => LeaveConserves(w, i, x);
    case _ => OtherStepConserves(w, step, x);
  }

  /** A step keeps the number of owners of every input exactly when it does not handle a
      non-empty upload again, does not queue one after the reset for the first time, does not
      hand out inputs for a batch already taken, and does not reset a node that owns an input. */
  lemma ConservedExactlyWhenHarmless(w: World, step: Step)
    requires Inv(w) && Enabled(w, step)
    ensures (forall x :: Owners(Apply(w, step), x) == Owners(w, x)) <==> Harmless(w, step)
  {
    if Harmless(w, step) {
      forall x ensures Owners(Apply(w, step), x) == Owners(w, x) {
        HarmlessStepConserves(w, step, x);
      }
    } else if step.HandlePost? {
      var x := w.chunks[step.chunk].items[0];
      HandlePostAdds(w, step.chunk, x);
      assert x in multiset(w.chunks[step.chunk].items);
    } else if step.LeakPost? {
      var x := w.chunks[step.chunk].items[0];
      UploadAfterResetIsLost(w, step.chunk, x);
      assert x in multiset(w.chunks[step.chunk].items);
    } else if step.Reset? {
      var x := ResetLosesSome(w, step.node);
    } else {
      var t := w.transfers[step.id];
      var gone := Donated(w.nodes[t.donor], step.id, step.queueSize, step.idle, step.victims);
      HandleGetLoses(w, step, gone[0]);
      assert gone[0] in multiset(gone);
    }
  }

  /** Orderly steps are harmless: while the batch its requester took is still parked, a
      repeated GET is a replay. */
  lemma OrderlyIsHarmless(w: World, step: Step)
    requires Inv(w) && Enabled(w, step) && Orderly(w, step)
    ensures Harmless(w, step)
  {
    if step.HandleGet? {
      assert TransferOk(w, step.id);
    }
  }

  // ---------------------------------------------------------------- runs

  /** A run: every step is enabled where it is taken. */
  predicate IsRun(w: World, steps: seq<Step>)
    decreases |steps|
  {
    steps == [] || (Enabled(w, steps[0]) && Orderly(w, steps[0]) && IsRun(Apply(w, steps[0]), steps[1..]))
  }

  function After(w: World, steps: seq<Step>): World
    requires IsRun(w, steps)
    decreases |steps|
  {
    if steps == [] then w else After(Apply(w, steps[0]), steps[1..])
  }

  /** Over every run of any number of nodes, every input has as many owners at the end as
      at the start. */
  lemma {:induction false} RunConserves(w: World, steps: seq<Step>)
    requires Inv(w) && IsRun(w, steps)
    ensures Inv(After(w, steps))
    ensures forall x :: Owners(After(w, steps), x) == Owners(w, x)
    decreases |steps|
  {
    if steps != [] {
      var w1 := Apply(w, steps[0]);
      StepKeepsInv(w, steps[0]);
      OrderlyIsHarmless(w, steps[0]);
      ConservedExactlyWhenHarmless(w, steps[0]);
      RunConserves(w1, steps[1..]);
    }
  }

  lemma InitOwners(w: World, x: Input)
    requires Init(w)
    ensures Inv(w) && Owners(w, x) == w.unsent[x]
  {
  }

  /** From the client's call on: each input of the job has exactly as many owners as times
      it was passed in, wherever the run has got to. */
  lemma {:induction false} EveryInputOwned(w: World, steps: seq<Step>, x: Input)
    requires Init(w) && IsRun(w, steps)
    ensures Owners(After(w, steps), x) == w.unsent[x]
  {
    InitOwners(w, x);
    RunConserves(w, steps);
  }

  // ---------------------------------------------------------------- consequences

  lemma {:induction false} RunnersCounted(workers: seq<Worker>, k: nat, x: Input)
    requires k < |workers| && workers[k] == Running(x)
    ensures RunningCopies(workers, x) >= 1
  {
    SumContains(WorkerParts(workers, x), k);
  }

  /** No input with a single owner is run by two live workers, on one node or on two. */
  lemma NeverRunFromTwoPlaces(w: World, x: Input, i: nat, k: nat, j: nat, l: nat)
    requires IsWorker(w, i, k) && w.nodes[i].workers[k] == Running(x)
    requires IsWorker(w, j, l) && w.nodes[j].workers[l] == Running(x)
    requires Owners(w, x) <= 1
    ensures i == j && k == l
  {
    if i == j {
      var parts := WorkerParts(w.nodes[i].workers, x);
      if k < l {
        SumContainsBoth(parts, k, l);
      } else if l < k {
        SumContainsBoth(parts, l, k);
      }
      SumContains(HeldParts(w.nodes, x), i);
    } else {
      RunnersCounted(w.nodes[i].workers, k, x);
      RunnersCounted(w.nodes[j].workers, l, x);
      if i < j {
        SumContainsBoth(HeldParts(w.nodes, x), i, j);
      } else {
        SumContainsBoth(HeldParts(w.nodes, x), j, i);
      }
    }
  }

  /** So when a call's inputs are all different, no two live workers ever run the same one, in any
      state of any run. */
  lemma {:induction false} DistinctInputsRunOnce(w: World, steps: seq<Step>, x: Input, i: nat, k: nat, j: nat, l: nat)
    requires Init(w) && IsRun(w, steps) && w.unsent[x] <= 1
    requires IsWorker(After(w, steps), i, k) && After(w, steps).nodes[i].workers[k] == Running(x)
    requires IsWorker(After(w, steps), j, l) && After(w, steps).nodes[j].workers[l] == Running(x)
    ensures i == j && k == l
  {
    EveryInputOwned(w, steps, x);
    NeverRunFromTwoPlaces(After(w, steps), x, i, k, j, l);
  }

  /** An upload handled after the claim is lost with the node: the reset that follows drops
      exactly its inputs. */
  lemma LateUploadIsLost(w: World, c: nat, x: Input)
    requires Inv(w) && Enabled(w, HandlePost(c)) && !w.chunks[c].handled
    requires w.nodes[w.chunks[c].node].phase.Stopped?
    ensures var w1 := Apply(w, HandlePost(c));
            Enabled(w1, Leave(w.chunks[c].node))
            && Owners(w, x) == Owners(Apply(w1, Leave(w.chunks[c].node)), x) + Copies(w.chunks[c].items, x)
  {
    var i := w.chunks[c].node;
    var w1 := Apply(w, HandlePost(c));
    assert NodeOk(w, i);
    HandlePostAdds(w, c, x);
    assert w1.nodes[i].queue == w.chunks[c].items;
    RestingHoldNothing(w1.nodes[i].workers, x);
    RestingHoldNothing([], x);
    NodeStepOwners(w1, i, EMPTY_INBOX.(phase := Gone), x);
  }
}
