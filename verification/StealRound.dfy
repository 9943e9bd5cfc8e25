/** One whole steal, from the GET to the settled ACK: what gets through when nothing is lost. */
module StealRound {
  import opened JobTypes
  import opened NodeInputs
  import opened InputTransfer
  import opened InputOwnership

  /** Both nodes are on the job, and the requester may steal. */
  predicate CanSteal(w: World, i: nat, d: nat) {
    && IsNode(w, i) && IsNode(w, d) && i != d && w.nodes[i].phase.Active? && w.nodes[d].phase.Active?
    && w.nodes[i].steal.NoSteal? && w.nodes[i].allUploaded && w.nodes[d].queue != []
  }

  /** The batch is with the donor, parked, and on its way to the requester. */
  predicate IsOffered(w: World, after: World, i: nat, d: nat, items: seq<Input>) {
    var id := |w.transfers|;
    && |after.nodes| == |w.nodes| && |after.transfers| == id + 1 && i < |w.nodes| && d < |w.nodes|
    && after.transfers[id] == Transfer(i, d, Undecided, false)
    && after.nodes[i] == w.nodes[i].(steal := Asking(id, d))
    && IsFairShare(w.nodes[d].queue, after.nodes[d].queue, items, |w.nodes[i].queue|)
    && id !in w.nodes[d].parked
    && after.nodes[d] == w.nodes[d].(queue := after.nodes[d].queue, parked := w.nodes[d].parked[id := items])
    && Items(id, items) in after.net
    && (forall k :: 0 <= k < |w.nodes| && k != i && k != d ==> after.nodes[k] == w.nodes[k])
  }

  lemma OfferingWorks(w: World, i: nat, d: nat, idle: nat) returns (after: World, items: seq<Input>)
    requires Inv(w) && CanSteal(w, i, d)
    ensures var id, begin := |w.transfers|, BeginSteal(i, d, idle);
            var get := HandleGet(id, |w.nodes[i].queue|, idle, []);
            && Enabled(w, begin) && Enabled(Apply(w, begin), get) && after == Apply(Apply(w, begin), get)
    ensures IsOffered(w, after, i, d, items)
  {
    var id, begin := |w.transfers|, BeginSteal(i, d, idle);
    assert NodeOk(w, d);
    assert forall t :: t in w.nodes[d].parked ==> ParkedOk(w, d, t);
    var asked := Apply(w, begin);
    var none: seq<nat> := [];
    assert none == [] && ValidVictims(asked.nodes[d].workers, none);
    items := TakenFromQueue(w.nodes[d], |w.nodes[i].queue|);
    TakingIsFair(w.nodes[d], |w.nodes[i].queue|);
    assert !RevokesWorkers(asked.nodes[d], |w.nodes[i].queue|, idle);
    after := Apply(asked, HandleGet(id, |w.nodes[i].queue|, idle, none));
  }

  /** The requester takes the batch or, with no slots or an empty batch, refuses it; the donor then
      forgets it or has it back. */
  lemma SettlingWorks(w: World, offered: World, i: nat, d: nat, items: seq<Input>, hasSlots: bool) returns (end: World)
    requires IsOffered(w, offered, i, d, items) && i != d && w.nodes[d].phase.Active?
    ensures var id, took := |w.transfers|, items != [] && hasSlots;
            var receive := ReceiveItems(i, items, hasSlots);
            && Enabled(offered, receive)
            && var decided := Apply(offered, receive);
            && Enabled(decided, HandleAck(id, took))
            && var acked := Apply(decided, HandleAck(id, took));
            && Enabled(acked, ReceiveAckOk(i)) && end == Apply(acked, ReceiveAckOk(i))
            && |end.nodes| == |w.nodes|
            && end.nodes[i] == w.nodes[i].(queue := w.nodes[i].queue + if took then items else [], steal := NoSteal)
            && end.nodes[d] == w.nodes[d].(queue := if took then offered.nodes[d].queue else w.nodes[d].queue)
            && (forall k :: 0 <= k < |w.nodes| && k != i && k != d ==> end.nodes[k] == w.nodes[k])
  {
    var id, took := |w.transfers|, items != [] && hasSlots;
    var decided := Apply(offered, ReceiveItems(i, items, hasSlots));
    var acked := Apply(decided, HandleAck(id, took));
    end := Apply(acked, ReceiveAckOk(i));
    assert w.nodes[d].parked[id := items] - {id} == w.nodes[d].parked;
    assert w.nodes[i].queue + [] == w.nodes[i].queue;
  }

  lemma OneStepMore(w: World, step: Step, rest: seq<Step>)
    requires Enabled(w, step) && Orderly(w, step) && IsRun(Apply(w, step), rest)
    ensures IsRun(w, [step] + rest) && After(w, [step] + rest) == After(Apply(w, step), rest)
  {
    assert ([step] + rest)[1..] == rest;
  }

  /** A steal that gets through moves a fair share from the end of the donor's queue to the end of the
      requester's; one that is refused leaves both queues, and all else, as they were. */
  lemma StealGetsThrough(w: World, i: nat, d: nat, idle: nat, hasSlots: bool) returns (steps: seq<Step>, given: seq<Input>)
    requires Inv(w) && CanSteal(w, i, d)
    ensures IsRun(w, steps) && |After(w, steps).nodes| == |w.nodes| && |given| <= |w.nodes[d].queue|
    ensures var end, queue := After(w, steps), w.nodes[d].queue;
            var left, took := queue[..|queue| - |given|], given != [] && hasSlots;
            && IsFairShare(queue, left, given, |w.nodes[i].queue|)
            && end.nodes[i] == w.nodes[i].(queue := w.nodes[i].queue + if took then given else [])
            && end.nodes[d] == w.nodes[d].(queue := if took then left else queue)
            && (forall k :: 0 <= k < |w.nodes| && k != i && k != d ==> end.nodes[k] == w.nodes[k])
  {
    var id, size := |w.transfers|, |w.nodes[i].queue|;
    var offered, end;
    offered, given := OfferingWorks(w, i, d, idle);
    end := SettlingWorks(w, offered, i, d, given, hasSlots);
    assert offered.nodes[d].queue == w.nodes[d].queue[..|w.nodes[d].queue| - |given|];
    var took := given != [] && hasSlots;
    var asked := Apply(w, BeginSteal(i, d, idle));
    var decided := Apply(offered, ReceiveItems(i, given, hasSlots));
    var acked := Apply(decided, HandleAck(id, took));
    steps := [ReceiveAckOk(i)] + [];
    OneStepMore(acked, ReceiveAckOk(i), []);
    OneStepMore(decided, HandleAck(id, took), steps);
    steps := [HandleAck(id, took)] + steps;
    OneStepMore(offered, ReceiveItems(i, given, hasSlots), steps);
    steps := [ReceiveItems(i, given, hasSlots)] + steps;
    OneStepMore(asked, HandleGet(id, size, idle, []), steps);
    steps := [HandleGet(id, size, idle, [])] + steps;
    OneStepMore(w, BeginSteal(i, d, idle), steps);
    steps := [BeginSteal(i, d, idle)] + steps;
  }

  /** `end` is `w` with the batch parked under `id`, if there is one, back on the donor's queue and the requester free. */
  predicate IsBack(w: World, end: World, i: nat, d: nat, id: TransferId) {
    && i < |w.nodes| && d < |w.nodes| && |end.nodes| == |w.nodes|
    && var parked := w.nodes[d].parked;
    && end.nodes[i] == w.nodes[i].(steal := NoSteal)
    && end.nodes[d] == w.nodes[d].(parked := parked - {id},
                                   queue := w.nodes[d].queue + if id in parked then parked[id] else [])
    && (forall k :: 0 <= k < |w.nodes| && k != i && k != d ==> end.nodes[k] == w.nodes[k])
  }

  lemma GivingUpWorks(w: World, i: nat, d: nat, id: TransferId) returns (decided: World, settled: World)
    requires Inv(w) && IsNode(w, i) && IsNode(w, d) && i != d && !w.nodes[d].phase.Gone?
    requires w.nodes[i].steal == Asking(id, d)
    ensures Enabled(w, LoseGet(i)) && decided == Apply(w, LoseGet(i))
    ensures Enabled(decided, HandleAck(id, false)) && settled == Apply(decided, HandleAck(id, false))
    ensures Enabled(settled, ReceiveAckOk(i)) && IsBack(w, Apply(settled, ReceiveAckOk(i)), i, d, id)
  {
    assert NodeOk(w, i);
    decided := Apply(w, LoseGet(i));
    settled := Apply(decided, HandleAck(id, false));
    if id !in w.nodes[d].parked {
      assert w.nodes[d].parked - {id} == w.nodes[d].parked && w.nodes[d].queue + [] == w.nodes[d].queue;
    }
  }

  /** When no answer to a GET gets through, the requester gives up and says so, and the donor, if it is still
      there, has whatever it parked for it back at the end of its queue. */
  lemma LostAnswerGoesBack(w: World, i: nat, d: nat, id: TransferId) returns (steps: seq<Step>)
    requires Inv(w) && IsNode(w, i) && IsNode(w, d) && i != d && !w.nodes[d].phase.Gone?
    requires w.nodes[i].steal == Asking(id, d)
    ensures IsRun(w, steps) && IsBack(w, After(w, steps), i, d, id)
  {
    var decided, settled := GivingUpWorks(w, i, d, id);
    steps := [ReceiveAckOk(i)] + [];
    OneStepMore(settled, ReceiveAckOk(i), []);
    OneStepMore(decided, HandleAck(id, false), steps);
    steps := [HandleAck(id, false)] + steps;
    OneStepMore(w, LoseGet(i), steps);
    steps := [LoseGet(i)] + steps;
  }
}
