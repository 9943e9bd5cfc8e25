/** Every node of a job at once: uploads, input stealing with lost, delayed and repeated
    messages, workers, and nodes that join and leave. Proves where each input is. */
module InputTransfer {
  import opened JobTypes
  import opened NodeInputs

  /** What the requester made of a transfer. `acked` records that the donor has handled an
      ACK for it. Neither is a field of a running node: they are the history the proof is
      about. */
  datatype Decision = Undecided | Took | Refused
  datatype Transfer = Transfer(requester: nat, donor: nat, decision: Decision, acked: bool)

  /** Everything ever sent stays in `net`, and a step may read any of it any number of
      times or never: messages are delayed, repeated and lost. */
  datatype Message =
    | Get(id: TransferId, queueSize: nat, idle: nat)
    | Items(id: TransferId, items: seq<Input>)
    | NotFound(id: TransferId)
    | Ack(id: TransferId, received: bool)
    | AckOk(id: TransferId)

  /** One upload POST: `admitted` once it has passed the test for the node's current job, and
      `handled` once its inputs are queued. The node does not test again in between. */
  datatype Chunk = Chunk(node: nat, items: seq<Input>, admitted: bool, handled: bool)

  datatype World = World(
    nodes: seq<Inbox>,
    done: seq<seq<Input>>,        // per node, the inputs it has produced a result for, in order
    transfers: seq<Transfer>,     // indexed by transfer id
    net: set<Message>,
    unsent: multiset<Input>,      // still in the client's lists
    chunks: seq<Chunk>)

  datatype Step =
    | Post(node: nat, items: seq<Input>)
    | AdmitPost(chunk: nat)
    | HandlePost(chunk: nat)
    | LeakPost(chunk: nat)               // queued after the reset, for whatever job comes next
    | BeginSteal(node: nat, donor: nat, idle: nat)
    | HandleGet(id: TransferId, queueSize: nat, idle: nat, victims: seq<nat>)
    | RefuseGet(id: TransferId)
    | ReceiveItems(node: nat, items: seq<Input>, hasSlots: bool)
    | ReceiveNotFound(node: nat)
    | LoseGet(node: nat)
    | HandleAck(id: TransferId, received: bool)
    | ReceiveAckOk(node: nat)
    | SettledByPeerLeaving(node: nat)
    | AckTimeout(node: nat)
    | TakeInput(node: nat, worker: nat)
    | Finish(node: nat, worker: nat, retires: bool)
    | Requeue(node: nat, worker: nat)
    | RetireIdle(node: nat, worker: nat)
    | AddWorker(node: nat)
    | DropRetired(node: nat, worker: nat)
    | Join
    | Start(node: nat, workers: nat)
    | LearnAllUploaded(node: nat)
    | Claim(node: nat)
    | Leave(node: nat)
    | Reset(node: nat)                   // the job is over: completed, failed or canceled

  // ---------------------------------------------------------------- steps

  predicate IsNode(w: World, i: nat) {
    i < |w.nodes|
  }

  predicate IsWorker(w: World, i: nat, k: nat) {
    i < |w.nodes| && k < |w.nodes[i].workers|
  }

  /** A node's tasks run while it is on the job: its watcher, its workers and its handlers. */
  predicate OnJob(w: World, i: nat) {
    i < |w.nodes| && (w.nodes[i].phase.Active? || w.nodes[i].phase.Stopped?)
  }

  predicate Enabled(w: World, step: Step) {
    match step
    case Post(i, items) =>
      IsNode(w, i) && multiset(items) <= w.unsent
    case AdmitPost(c) =>
      c < |w.chunks| && IsNode(w, w.chunks[c].node) && !w.nodes[w.chunks[c].node].phase.Gone?
    case HandlePost(c) =>
      c < |w.chunks| && IsNode(w, w.chunks[c].node) && w.chunks[c].admitted && !w.nodes[w.chunks[c].node].phase.Gone?
    case LeakPost(c) =>
      c < |w.chunks| && IsNode(w, w.chunks[c].node) && w.chunks[c].admitted && w.nodes[w.chunks[c].node].phase.Gone?
    case BeginSteal(i, donor, idle) =>
      IsNode(w, i) && IsNode(w, donor) && i != donor
      && w.nodes[i].phase.Active? && w.nodes[i].steal.NoSteal? && w.nodes[i].allUploaded
    case HandleGet(id, queueSize, idle, victims) =>
      Get(id, queueSize, idle) in w.net && id < |w.transfers| && IsNode(w, w.transfers[id].donor)
      && var n := w.nodes[w.transfers[id].donor];
      n.phase.Active? && ValidVictims(n.workers, victims) && |victims| <= idle
    case RefuseGet(id) =>
      id < |w.transfers| && IsNode(w, w.transfers[id].donor) && !w.nodes[w.transfers[id].donor].phase.Active?
    case ReceiveItems(i, items, _) =>
      IsNode(w, i) && w.nodes[i].steal.Asking? && Items(w.nodes[i].steal.id, items) in w.net
      && w.nodes[i].steal.id < |w.transfers|
    case ReceiveNotFound(i) =>
      IsNode(w, i) && w.nodes[i].steal.Asking? && NotFound(w.nodes[i].steal.id) in w.net
    case LoseGet(i) =>
      IsNode(w, i) && w.nodes[i].steal.Asking? && w.nodes[i].steal.id < |w.transfers|
    case HandleAck(id, received) =>
      Ack(id, received) in w.net && id < |w.transfers| && IsNode(w, w.transfers[id].donor)
      && !w.nodes[w.transfers[id].donor].phase.Gone?
    case ReceiveAckOk(i) =>
      IsNode(w, i) && w.nodes[i].steal.Acking? && AckOk(w.nodes[i].steal.id) in w.net
    case SettledByPeerLeaving(i) =>
      IsNode(w, i) && w.nodes[i].steal.Acking? && IsNode(w, w.nodes[i].steal.donor)
      && w.nodes[w.nodes[i].steal.donor].phase.Gone?
    case AckTimeout(i) =>
      IsNode(w, i) && w.nodes[i].steal.Acking?
    case TakeInput(i, k) =>
      OnJob(w, i) && IsWorker(w, i, k) && w.nodes[i].workers[k].Idle? && w.nodes[i].queue != []
    case Finish(i, k, _) =>
      OnJob(w, i) && IsWorker(w, i, k) && w.nodes[i].workers[k].Running? && i < |w.done|
    case Requeue(i, k) =>
      OnJob(w, i) && IsWorker(w, i, k) && w.nodes[i].workers[k].Running?
    case RetireIdle(i, k) =>
      OnJob(w, i) && IsWorker(w, i, k) && w.nodes[i].workers[k].Idle?
    case AddWorker(i) =>
      OnJob(w, i)
    case DropRetired(i, k) =>
      OnJob(w, i) && IsWorker(w, i, k) && w.nodes[i].workers[k].Retired?
    case Join =>
      true
    case Start(i, _) =>
      IsNode(w, i) && w.nodes[i].phase.Assigning? && w.nodes[i].workers == []
    case LearnAllUploaded(i) =>
      OnJob(w, i)
    case Claim(i) =>
      IsNode(w, i) && w.nodes[i].phase.Active?
    case Leave(i) =>
      IsNode(w, i) && w.nodes[i].phase.Stopped?
    case Reset(i) =>
      IsNode(w, i) && !w.nodes[i].phase.Gone?
  }

  function SetNode(w: World, i: nat, n: Inbox): World
    requires i < |w.nodes|
  {
    w.(nodes := w.nodes[i := n])
  }

  /** The requester decides: it puts a non-empty batch on its queue if it still owns slots,
      and answers the donor either way. */
  function Decide(w: World, i: nat, took: bool): World
    requires IsNode(w, i) && w.nodes[i].steal.Asking? && w.nodes[i].steal.id < |w.transfers|
  {
    var id := w.nodes[i].steal.id;
    w.(nodes := w.nodes[i := w.nodes[i].(steal := Acking(id, w.nodes[i].steal.donor, took))],
       transfers := w.transfers[id := w.transfers[id].(decision := if took then Took else Refused)],
       net := w.net + {Ack(id, took)})
  }

  function Apply(w: World, step: Step): World
    requires Enabled(w, step)
  {
    match step
    case Post(i, items) =>
      w.(unsent := w.unsent - multiset(items), chunks := w.chunks + [Chunk(i, items, false, false)])
    case AdmitPost(c) =>
      w.(chunks := w.chunks[c := w.chunks[c].(admitted := true)])
    case HandlePost(c) =>
      var i := w.chunks[c].node;
      w.(nodes := w.nodes[i := w.nodes[i].(queue := w.nodes[i].queue + w.chunks[c].items)],
         chunks := w.chunks[c := w.chunks[c].(handled := true)])
    case LeakPost(c) =>
      w.(chunks := w.chunks[c := w.chunks[c].(handled := true)])
    case BeginSteal(i, donor, idle) =>
      var id := |w.transfers|;
      w.(nodes := w.nodes[i := w.nodes[i].(steal := Asking(id, donor))],
         transfers := w.transfers + [Transfer(i, donor, Undecided, false)],
         net := w.net + {Get(id, |w.nodes[i].queue|, idle)})
    case HandleGet(id, queueSize, idle, victims) =>
      var d := w.transfers[id].donor;
      var n := DonateInputs(w.nodes[d], id, queueSize, idle, victims);
      w.(nodes := w.nodes[d := n], net := w.net + {Items(id, n.parked[id])})
    case RefuseGet(id) =>
      w.(net := w.net + {NotFound(id)})
    case ReceiveItems(i, items, hasSlots) =>
      if items != [] && hasSlots then
        Decide(SetNode(w, i, w.nodes[i].(queue := w.nodes[i].queue + items)), i, true)
      else
        Decide(w, i, false)
    case ReceiveNotFound(i) =>
      SetNode(w, i, w.nodes[i].(steal := NoSteal))
    case LoseGet(i) =>
      Decide(w, i, false)
    case HandleAck(id, received) =>
      var d := w.transfers[id].donor;
      w.(nodes := w.nodes[d := SettleTransfer(w.nodes[d], id, received)],
         transfers := w.transfers[id := w.transfers[id].(acked := true)],
         net := w.net + {AckOk(id)})
    case ReceiveAckOk(i) =>
      SetNode(w, i, w.nodes[i].(steal := NoSteal))
    case SettledByPeerLeaving(i) =>
      SetNode(w, i, w.nodes[i].(steal := NoSteal))
    case AckTimeout(i) =>
      SetNode(w, i, w.nodes[i].(steal := NoSteal))
    case TakeInput(i, k) =>
      var n := w.nodes[i];
      SetNode(w, i, n.(queue := n.queue[1..], workers := n.workers[k := Running(n.queue[0])]))
    case Finish(i, k, retires) =>
      var n := w.nodes[i];
      SetNode(w, i, n.(workers := n.workers[k := if retires then Retired else Idle]))
      .(done := w.done[i := w.done[i] + [n.workers[k].input]])
    case Requeue(i, k) =>
      var n := w.nodes[i];
      SetNode(w, i, n.(queue := n.queue + [n.workers[k].input], workers := n.workers[k := Retired]))
    case RetireIdle(i, k) =>
      SetNode(w, i, w.nodes[i].(workers := w.nodes[i].workers[k := Retired]))
    case AddWorker(i) =>
      SetNode(w, i, w.nodes[i].(workers := w.nodes[i].workers + [Idle]))
    case DropRetired(i, k) =>
      SetNode(w, i, w.nodes[i].(workers := w.nodes[i].workers[..k] + w.nodes[i].workers[k + 1..]))
    case Join =>
      w.(nodes := w.nodes + [EMPTY_INBOX], done := w.done + [[]])
    case Start(i, workers) =>
      SetNode(w, i, w.nodes[i].(phase := Active, workers := seq(workers, _ => Idle)))
    case LearnAllUploaded(i) =>
      SetNode(w, i, w.nodes[i].(allUploaded := true))
    case Claim(i) =>
      SetNode(w, i, ClaimDrained(w.nodes[i], true))
    case Leave(i) =>
      SetNode(w, i, EMPTY_INBOX.(phase := Gone))
    case Reset(i) =>
      SetNode(w, i, EMPTY_INBOX.(phase := Gone))
  }

  // ---------------------------------------------------------------- where inputs are

  function HeldParts(nodes: seq<Inbox>, x: Input): (parts: seq<nat>)
    ensures |parts| == |nodes|
    ensures forall i :: 0 <= i < |nodes| ==> parts[i] == Held(nodes[i], x)
  {
    seq(|nodes|, i requires 0 <= i < |nodes| => Held(nodes[i], x))
  }

  function DoneParts(done: seq<seq<Input>>, x: Input): (parts: seq<nat>)
    ensures |parts| == |done|
    ensures forall i :: 0 <= i < |done| ==> parts[i] == Copies(done[i], x)
  {
    seq(|done|, i requires 0 <= i < |done| => Copies(done[i], x))
  }

  function InFlight(chunk: Chunk, x: Input): nat {
    if chunk.handled then 0 else Copies(chunk.items, x)
  }

  function ChunkParts(chunks: seq<Chunk>, x: Input): (parts: seq<nat>)
    ensures |parts| == |chunks|
    ensures forall c :: 0 <= c < |chunks| ==> parts[c] == InFlight(chunks[c], x)
  {
    seq(|chunks|, c requires 0 <= c < |chunks| => InFlight(chunks[c], x))
  }

  predicate IsParked(nodes: seq<Inbox>, transfers: seq<Transfer>, id: TransferId) {
    id < |transfers| && transfers[id].donor < |nodes| && id in nodes[transfers[id].donor].parked
  }

  /** A parked batch belongs to the donor until its requester has put it on its queue. */
  function ParkedCopies(nodes: seq<Inbox>, transfers: seq<Transfer>, id: TransferId, x: Input): nat {
    if IsParked(nodes, transfers, id) && !transfers[id].decision.Took?
    then Copies(nodes[transfers[id].donor].parked[id], x)
    else 0
  }

  function ParkedParts(nodes: seq<Inbox>, transfers: seq<Transfer>, x: Input): (parts: seq<nat>)
    ensures |parts| == |transfers|
    ensures forall id :: 0 <= id < |transfers| ==> parts[id] == ParkedCopies(nodes, transfers, id, x)
  {
    seq(|transfers|, id requires 0 <= id < |transfers| => ParkedCopies(nodes, transfers, id, x))
  }

  /** How many owners the input `x` has: client lists, uploads under way, queues, live
      workers, parked batches nobody has taken, and produced results. */
  function Owners(w: World, x: Input): nat {
    w.unsent[x] + Sum(ChunkParts(w.chunks, x)) + Sum(HeldParts(w.nodes, x))
    + Sum(ParkedParts(w.nodes, w.transfers, x)) + Sum(DoneParts(w.done, x))
  }

  // ---------------------------------------------------------------- invariant

  /** A taken batch stays parked until the ACK comes or its donor is gone; only a decided transfer
      is acked. */
  predicate TransferOk(w: World, id: TransferId)
    requires id < |w.transfers|
  {
    var t := w.transfers[id];
    && t.requester < |w.nodes| && t.donor < |w.nodes|
    && (t.acked ==> !t.decision.Undecided?)
    && (t.decision.Took? && !t.acked ==> id in w.nodes[t.donor].parked || w.nodes[t.donor].phase.Gone?)
  }

  /** An unacked batch in transit is the one its donor has parked; a donor that is gone had nothing
      in it, or its requester has it. */
  predicate IsBatchOf(w: World, id: TransferId, items: seq<Input>)
    requires id < |w.transfers|
  {
    var t := w.transfers[id];
    && t.donor < |w.nodes|
    && ((id in w.nodes[t.donor].parked && w.nodes[t.donor].parked[id] == items)
        || (w.nodes[t.donor].phase.Gone? && (items == [] || t.decision.Took?)))
  }

  predicate MessageOk(w: World, m: Message) {
    && m.id < |w.transfers|
    && (m.Items? && !w.transfers[m.id].acked ==> IsBatchOf(w, m.id, m.items))
    && (m.Ack? ==> w.transfers[m.id].decision == if m.received then Took else Refused)
  }

  predicate StealOk(w: World, i: nat, steal: Steal) {
    match steal
    case NoSteal => true
    case Asking(id, donor) =>
      id < |w.transfers| && w.transfers[id] == Transfer(i, donor, Undecided, false)
    case Acking(id, donor, received) =>
      id < |w.transfers| && w.transfers[id].requester == i && w.transfers[id].donor == donor
      && w.transfers[id].decision == if received then Took else Refused
  }

  /** `d` parks only batches of transfers that name it as donor and are not yet acked, or
      were refused. */
  predicate ParkedOk(w: World, d: nat, id: TransferId) {
    && id < |w.transfers| && w.transfers[id].donor == d
    && (w.transfers[id].acked ==> w.transfers[id].decision.Refused?)
  }

  /** A node that has claimed its part holds nothing, and nothing can be given to it. */
  predicate LeftOk(n: Inbox) {
    (n.phase.Stopped? || n.phase.Gone?) ==> Drained(n)
  }

  predicate NodeOk(w: World, i: nat)
    requires i < |w.nodes|
  {
    && StealOk(w, i, w.nodes[i].steal)
    && LeftOk(w.nodes[i])
    && (forall id :: id in w.nodes[i].parked ==> ParkedOk(w, i, id))
  }

  ghost predicate Inv(w: World) {
    && |w.done| == |w.nodes|
    && (forall c :: 0 <= c < |w.chunks| ==> w.chunks[c].node < |w.nodes|)
    && (forall id :: 0 <= id < |w.transfers| ==> TransferOk(w, id))
    && (forall m :: m in w.net ==> MessageOk(w, m))
    && (forall i :: 0 <= i < |w.nodes| ==> NodeOk(w, i))
  }

  predicate Init(w: World) {
    w.nodes == [] && w.done == [] && w.transfers == [] && w.net == {} && w.chunks == []
  }

  /** The node owns no input: none queued, none running, none parked that its requester has not taken. */
  predicate HoldsNothing(w: World, i: nat)
    requires IsNode(w, i)
  {
    var n := w.nodes[i];
    && n.queue == [] && AllResting(n.workers)
    && (forall id :: id in n.parked && id < |w.transfers| ==> w.transfers[id].decision.Took? || n.parked[id] == [])
  }

  /** What the protocol asks of the network and the client, since the POST and GET handlers
      cannot check it: an upload is handled once and not after the claim or the reset, no GET is
      handled after the ACK of a batch its requester took, and a node is only reset when it owns no input. */
  predicate Orderly(w: World, step: Step)
    requires Enabled(w, step)
  {
    match step
    case HandlePost(c) => !w.chunks[c].handled && !w.nodes[w.chunks[c].node].phase.Stopped?
    case LeakPost(c) => w.chunks[c].handled
    case Reset(i) => HoldsNothing(w, i)
    case HandleGet(id, _, _, _) => !(w.transfers[id].acked && w.transfers[id].decision.Took?)
    case _ => true
  }

  /** A step that leaves the transfers and what is parked where it was. */
  predicate KeepsTransfers(w: World, w': World) {
    && w'.transfers == w.transfers && w'.net == w.net && |w'.nodes| >= |w.nodes|
    && (forall d :: 0 <= d < |w.nodes| ==> w'.nodes[d].parked == w.nodes[d].parked)
    && (forall d :: |w.nodes| <= d < |w'.nodes| ==> w'.nodes[d] == EMPTY_INBOX)
    && (forall d :: 0 <= d < |w.nodes| ==>
          w'.nodes[d].steal == w.nodes[d].steal || w'.nodes[d].steal.NoSteal?)
    && (forall d :: 0 <= d < |w.nodes| && w.nodes[d].phase.Gone? ==> w'.nodes[d].phase.Gone?)
    && (forall d :: 0 <= d < |w.nodes| ==> LeftOk(w'.nodes[d]))
  }

  lemma KeepingTransfersKeepsInv(w: World, w': World)
    requires Inv(w) && KeepsTransfers(w, w')
    requires |w'.done| == |w'.nodes|
    requires forall c :: 0 <= c < |w'.chunks| ==> w'.chunks[c].node < |w'.nodes|
    ensures Inv(w')
  {
    forall id | 0 <= id < |w'.transfers| ensures TransferOk(w', id) {
      assert TransferOk(w, id);
    }
    forall m | m in w'.net ensures MessageOk(w', m) {
      assert MessageOk(w, m);
    }
    forall i | 0 <= i < |w'.nodes| ensures NodeOk(w', i) {
      if i < |w.nodes| {
        assert NodeOk(w, i);
        forall id | id in w'.nodes[i].parked ensures ParkedOk(w', i, id) {
          assert ParkedOk(w, i, id);
        }
      }
    }
  }

  predicate IsQuiet(step: Step) {
    !(step.BeginSteal? || step.HandleGet? || step.RefuseGet? || step.ReceiveItems? || step.LoseGet? || step.HandleAck?
      || step.Reset?)
  }

  predicate IsWorkerStep(step: Step) {
    step.TakeInput? || step.Finish? || step.Requeue? || step.RetireIdle? || step.AddWorker? || step.DropRetired?
  }

  lemma WorkerStepKeepsInv(w: World, step: Step)
    requires Inv(w) && Enabled(w, step) && IsWorkerStep(step)
    ensures Inv(Apply(w, step))
  {
    assert NodeOk(w, step.node);
    forall d | 0 <= d < |w.nodes| ensures LeftOk(w.nodes[d]) {
      assert NodeOk(w, d);
    }
    KeepingTransfersKeepsInv(w, Apply(w, step));
  }

  lemma QuietStepKeepsInv(w: World, step: Step)
    requires Inv(w) && Enabled(w, step) && Orderly(w, step) && IsQuiet(step) && !IsWorkerStep(step)
    ensures Inv(Apply(w, step))
  {
    var w' := Apply(w, step);
    forall d | 0 <= d < |w.nodes|
      ensures w'.nodes[d].parked == w.nodes[d].parked && LeftOk(w'.nodes[d])
    {
      assert NodeOk(w, d);
    }
    KeepingTransfersKeepsInv(w, w');
  }

  /** Adding an honest message changes nothing else. */
  lemma SendKeepsInv(w: World, m: Message)
    requires Inv(w) && MessageOk(w, m)
    ensures Inv(w.(net := w.net + {m}))
  {
    var w' := w.(net := w.net + {m});
    forall id | 0 <= id < |w'.transfers| ensures TransferOk(w', id) {
      assert TransferOk(w, id);
    }
    forall m' | m' in w'.net ensures MessageOk(w', m') {
      assert MessageOk(w, m');
    }
    forall i | 0 <= i < |w'.nodes| ensures NodeOk(w', i) {
      assert NodeOk(w, i);
      forall id | id in w'.nodes[i].parked ensures ParkedOk(w', i, id) {
        assert ParkedOk(w, i, id);
      }
    }
  }

  lemma BeginStealKeepsInv(w: World, step: Step)
    requires Inv(w) && Enabled(w, step) && step.BeginSteal?
    ensures Inv(Apply(w, step))
  {
    var w' := Apply(w, step);
    forall id | 0 <= id < |w'.transfers| ensures TransferOk(w', id) {
      assert id < |w.transfers| ==> TransferOk(w, id);
    }
    forall m | m in w'.net ensures MessageOk(w', m) {
      assert m in w.net ==> MessageOk(w, m);
    }
    forall i | 0 <= i < |w'.nodes| ensures NodeOk(w', i) {
      assert NodeOk(w, i);
      forall id | id in w'.nodes[i].parked ensures ParkedOk(w', i, id) {
        assert ParkedOk(w, i, id);
      }
    }
  }

  lemma HandleGetKeepsInv(w: World, step: Step)
    requires Inv(w) && Enabled(w, step) && Orderly(w, step) && step.HandleGet?
    ensures Inv(Apply(w, step))
  {
    var d := w.transfers[step.id].donor;
    assert TransferOk(w, step.id);
    var n := DonateInputs(w.nodes[d], step.id, step.queueSize, step.idle, step.victims);
    var w1 := SetNode(w, d, n);
    forall id | 0 <= id < |w1.transfers| ensures TransferOk(w1, id) {
      assert TransferOk(w, id);
    }
    forall m | m in w1.net ensures MessageOk(w1, m) {
      assert MessageOk(w, m);
    }
    forall i | 0 <= i < |w1.nodes| ensures NodeOk(w1, i) {
      assert NodeOk(w, i);
      forall id | id in w1.nodes[i].parked ensures ParkedOk(w1, i, id) {
        assert id in w.nodes[i].parked ==> ParkedOk(w, i, id);
      }
    }
    SendKeepsInv(w1, Items(step.id, n.parked[step.id]));
  }

  lemma DecideKeepsInv(w: World, i: nat, took: bool)
    requires Inv(w) && IsNode(w, i) && w.nodes[i].steal.Asking?
    requires w.nodes[i].steal.id < |w.transfers|
    requires took ==> IsParked(w.nodes, w.transfers, w.nodes[i].steal.id)
    ensures Inv(Decide(w, i, took))
  {
    var id := w.nodes[i].steal.id;
    var w' := Decide(w, i, took);
    assert NodeOk(w, i) && TransferOk(w, id);
    forall id' | 0 <= id' < |w'.transfers| ensures TransferOk(w', id') {
      assert TransferOk(w, id');
    }
    forall m | m in w'.net ensures MessageOk(w', m) {
      assert m in w.net ==> MessageOk(w, m);
    }
    forall j | 0 <= j < |w'.nodes| ensures NodeOk(w', j) {
      assert NodeOk(w, j);
      forall id' | id' in w'.nodes[j].parked ensures ParkedOk(w', j, id') {
        assert ParkedOk(w, j, id');
      }
    }
  }

  lemma ReceiveItemsKeepsInv(w: World, step: Step)
    requires Inv(w) && Enabled(w, step) && step.ReceiveItems?
    ensures Inv(Apply(w, step))
  {
    var i := step.node;
    assert NodeOk(w, i);
    var id := w.nodes[i].steal.id;
    assert MessageOk(w, Items(id, step.items));
    if step.items != [] && step.hasSlots {
      var w1 := SetNode(w, i, w.nodes[i].(queue := w.nodes[i].queue + step.items));
      forall d | 0 <= d < |w.nodes| ensures LeftOk(w1.nodes[d]) {
        assert NodeOk(w, d);
      }
      KeepingTransfersKeepsInv(w, w1);
      assert IsParked(w1.nodes, w1.transfers, id);
      DecideKeepsInv(w1, i, true);
    } else {
      DecideKeepsInv(w, i, false);
    }
  }

  lemma HandleAckKeepsInv(w: World, step: Step)
    requires Inv(w) && Enabled(w, step) && step.HandleAck?
    ensures Inv(Apply(w, step))
  {
    var d := w.transfers[step.id].donor;
    var w1 := SetNode(w, d, SettleTransfer(w.nodes[d], step.id, step.received))
    .(transfers := w.transfers[step.id := w.transfers[step.id].(acked := true)]);
    assert MessageOk(w, Ack(step.id, step.received));
    forall id | 0 <= id < |w1.transfers| ensures TransferOk(w1, id) {
      assert TransferOk(w, id);
    }
    forall m | m in w1.net ensures MessageOk(w1, m) {
      assert MessageOk(w, m);
    }
    forall j | 0 <= j < |w1.nodes| ensures NodeOk(w1, j) {
      assert NodeOk(w, j);
      forall id | id in w1.nodes[j].parked ensures ParkedOk(w1, j, id) {
        assert ParkedOk(w, j, id);
      }
    }
    SendKeepsInv(w1, AckOk(step.id));
  }

  lemma ResetKeepsInv(w: World, step: Step)
    requires Inv(w) && Enabled(w, step) && Orderly(w, step) && step.Reset?
    ensures Inv(Apply(w, step))
  {
    var w' := Apply(w, step);
    forall id | 0 <= id < |w'.transfers| ensures TransferOk(w', id) {
      assert TransferOk(w, id);
    }
    forall m | m in w'.net ensures MessageOk(w', m) {
      assert MessageOk(w, m);
    }
    forall i | 0 <= i < |w'.nodes| ensures NodeOk(w', i) {
      assert NodeOk(w, i);
      forall id | id in w'.nodes[i].parked ensures ParkedOk(w', i, id) {
        assert ParkedOk(w, i, id);
      }
    }
  }

  lemma TransferStepKeepsInv(w: World, step: Step)
    requires Inv(w) && Enabled(w, step) && Orderly(w, step) && !IsQuiet(step)
    ensures Inv(Apply(w, step))
  {
    match step
    case BeginSteal(_, _, _) => BeginStealKeepsInv(w, step);
    case HandleGet(_, _, _, _) => HandleGetKeepsInv(w, step);
    case RefuseGet(id) => SendKeepsInv(w, NotFound(id));
    case ReceiveItems(_, _, _) => ReceiveItemsKeepsInv(w, step);
    case LoseGet(i) => DecideKeepsInv(w, i, false);
    case HandleAck(_, _) => HandleAckKeepsInv(w, step);
    case Reset(_) => ResetKeepsInv(w, step);
  }

  /** Every orderly step keeps the protocol invariant. */
  lemma StepKeepsInv(w: World, step: Step)
    requires Inv(w) && Enabled(w, step) && Orderly(w, step)
    ensures Inv(Apply(w, step))
  {
    if IsWorkerStep(step) {
      WorkerStepKeepsInv(w, step);
    } else if IsQuiet(step) {
      QuietStepKeepsInv(w, step);
    } else {
      TransferStepKeepsInv(w, step);
    }
  }

  /** Only starting, claiming, leaving, joining and a reset change a node's phase, and only finishing an input
      adds to what the node has done. */
  lemma PhasesChangeOnlyAsNamed(w: World, step: Step)
    requires Enabled(w, step) && !step.Finish? && !step.Start? && !step.Claim? && !step.Leave? && !step.Join?
      && !step.Reset?
    ensures Apply(w, step).done == w.done && |Apply(w, step).nodes| == |w.nodes|
    ensures forall i :: 0 <= i < |w.nodes| ==> Apply(w, step).nodes[i].phase == w.nodes[i].phase
  {
  }
}
