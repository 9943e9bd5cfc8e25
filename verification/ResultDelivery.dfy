/** Results between one node and the client: polls carry the id of the last batch received,
    replies may be lost, and polls may be handled late or more than once. */
module ResultDelivery {
  import opened JobTypes
  import opened NodeResults

  /** Each attempt of a poll has its own number; a reply reaches the client only while it
      still waits on that attempt. */
  datatype Message =
    | Poll(attempt: nat, ack: Option<BatchId>)
    | Reply(attempt: nat, batchId: Option<BatchId>, results: seq<Result>)
    | NotFound(attempt: nat)

  datatype ClientState = Polling | Done | Raised

  /** Why the watcher has found the job completed: the client said that it has every result, or
      every result of a detached job is there and the client is out of contact. */
  datatype Ending = NotOver | AllReceived | ClientLost

  datatype Lane = Lane(
    outbox: Outbox,                // once the node is gone: what its reset threw away
    over: Ending,
    gone: bool,                    // the node was reset: polls get 404
    produced: seq<Result>,         // every result its workers ever put on the queue
    nextBatch: BatchId,
    toAck: Option<BatchId>,        // the client's `result_batch_id_to_ack`
    waiting: Option<nat>,
    attempts: nat,
    state: ClientState,
    delivered: seq<Result>,        // what the client put on its return queue
    seen: set<BatchId>,            // ids of the batches behind `delivered`
    net: set<Message>)

  datatype Step =
    | Produce(result: Result)
    | SendPoll
    | ServePoll(attempt: nat, ack: Option<BatchId>)
    | RefusePoll(attempt: nat)
    | ReceiveReply(batchId: Option<BatchId>, results: seq<Result>, raises: bool)
    | ReceiveNotFound
    | Close                        // the reset after the claim
    | FindOver(ending: Ending)     // the watcher's test, some awaits before the reset
    | Complete                     // the reset of a completed job
    | Abort                        // the reset of a failed or canceled job

  const NEW_LANE: Lane := Lane(Outbox([], None), NotOver, false, [], 0, None, None, 0, Polling, [], {}, {})

  /** The completion test looks at the unacked batch and not at the queue. No worker has an input
      left once it succeeds. */
  predicate Enabled(l: Lane, step: Step) {
    match step
    case Produce(_) => !l.gone && l.over.NotOver?
    case SendPoll => l.state.Polling?
    case ServePoll(attempt, ack) => Poll(attempt, ack) in l.net && !l.gone
    case RefusePoll(attempt) => l.gone
    case ReceiveReply(batchId, results, raises) =>
      l.state.Polling? && l.waiting.Some? && Reply(l.waiting.value, batchId, results) in l.net
      && (raises ==> exists k :: 0 <= k < |results| && results[k].isError)
    case ReceiveNotFound => l.state.Polling? && l.waiting.Some? && NotFound(l.waiting.value) in l.net
    case Close => l.outbox == Outbox([], None) && l.over.NotOver?
    case FindOver(ending) =>
      !l.gone && l.over.NotOver?
      && ((ending.AllReceived? && l.delivered == l.produced) || (ending.ClientLost? && l.outbox.batch.None?))
    case Complete => !l.gone && !l.over.NotOver?
    case Abort => !l.gone
  }

  function Apply(l: Lane, step: Step): Lane
    requires Enabled(l, step)
  {
    match step
    case Produce(result) =>
      l.(outbox := l.outbox.(results := l.outbox.results + [result]), produced := l.produced + [result])
    case SendPoll =>
      l.(waiting := Some(l.attempts), attempts := l.attempts + 1, net := l.net + {Poll(l.attempts, l.toAck)})
    case ServePoll(attempt, ack) =>
      var o := AfterPoll(l.outbox, ack, l.nextBatch);
      var reply := if o.batch.Some? then Reply(attempt, Some(o.batch.value.id), o.batch.value.results)
                   else Reply(attempt, None, []);
      l.(outbox := o, nextBatch := l.nextBatch + 1, net := l.net + {reply})
    case RefusePoll(attempt) =>
      l.(net := l.net + {NotFound(attempt)})
    case ReceiveReply(batchId, results, raises) =>
      // an error the caller wants raised ends the call before anything of this batch is returned
      if raises then l.(waiting := None, toAck := None, state := Raised)
      else l.(waiting := None, toAck := batchId, delivered := l.delivered + results,
              seen := if batchId.Some? then l.seen + {batchId.value} else l.seen)
    case ReceiveNotFound =>
      l.(waiting := None, state := Done)
    case Close =>
      l.(gone := true)
    case FindOver(ending) =>
      l.(over := ending)
    case Complete =>
      l.(gone := true)
    case Abort =>
      l.(gone := true)
  }

  // ---------------------------------------------------------------- invariant

  /** The part of the unacked batch the client has not had. */
  function Undelivered(l: Lane): seq<Result> {
    if l.outbox.batch.Some? && l.outbox.batch.value.id !in l.seen then l.outbox.batch.value.results else []
  }

  predicate MessageOk(l: Lane, m: Message) {
    match m
    case Poll(attempt, ack) =>
      && attempt < l.attempts
      && (ack.Some? ==> ack.value in l.seen)
      && (l.waiting == Some(attempt) ==> ack == l.toAck)
    case Reply(attempt, batchId, results) =>
      && attempt < l.attempts
      && (batchId.None? ==> results == [])
      && (l.waiting == Some(attempt) ==>
            && (l.outbox.batch.Some? ==> l.outbox.batch.value.id !in l.seen)
            && (batchId.Some? ==> l.outbox.batch == Some(Batch(batchId.value, results))))
    case NotFound(attempt) => l.gone
  }

  predicate InOrder(l: Lane) {
    l.delivered + (Undelivered(l) + l.outbox.results) == l.produced
  }

  ghost predicate Linked(l: Lane) {
    && (l.outbox.batch.Some? ==>
          l.outbox.batch.value.results != [] && l.outbox.batch.value.id < l.nextBatch
          && (l.outbox.batch.value.id in l.seen ==> l.toAck == Some(l.outbox.batch.value.id)))
    && (l.toAck.Some? ==> l.toAck.value in l.seen)
    && (forall id :: id in l.seen ==> id < l.nextBatch)
    && (l.waiting.Some? ==> l.waiting.value < l.attempts)
    && (l.state.Done? ==> l.gone)
    && (l.over.AllReceived? ==> l.delivered == l.produced)
    && (forall m :: m in l.net ==> MessageOk(l, m))
  }

  ghost predicate Inv(l: Lane) {
    InOrder(l) && Linked(l)
  }

  /** Serving a poll with an ack the client really sent moves results from the queue to the
      batch and forgets only what the client has. */
  lemma ServingKeepsOwed(l: Lane, ack: Option<BatchId>)
    requires Linked(l) && (ack.Some? ==> ack.value in l.seen)
    ensures var l' := l.(outbox := AfterPoll(l.outbox, ack, l.nextBatch));
            Undelivered(l) + l.outbox.results == Undelivered(l') + l'.outbox.results
  {
  }

  lemma ServePollKeepsLinks(l: Lane, step: Step)
    requires Linked(l) && Enabled(l, step) && step.ServePoll?
    ensures Linked(Apply(l, step))
  {
  }

  lemma ServePollKeepsInv(l: Lane, step: Step)
    requires Inv(l) && Enabled(l, step) && step.ServePoll?
    ensures Inv(Apply(l, step))
  {
    assert MessageOk(l, Poll(step.attempt, step.ack));
    ServingKeepsOwed(l, step.ack);
    ServePollKeepsLinks(l, step);
  }

  lemma ReceiveReplyKeepsInv(l: Lane, step: Step)
    requires Inv(l) && Enabled(l, step) && step.ReceiveReply?
    ensures Inv(Apply(l, step))
  {
  }

  /** Every step of the node, the network and the client keeps the lane in order. */
  lemma StepKeepsInv(l: Lane, step: Step)
    requires Inv(l) && Enabled(l, step)
    ensures Inv(Apply(l, step))
  {
    if step.ServePoll? {
      ServePollKeepsInv(l, step);
    } else if step.ReceiveReply? {
      ReceiveReplyKeepsInv(l, step);
    } else {
      var l' := Apply(l, step);
      forall m | m in l'.net ensures MessageOk(l', m) {
        assert m in l.net ==> MessageOk(l, m);
      }
      if step.ReceiveNotFound? {
        assert MessageOk(l, NotFound(l.waiting.value));
      }
    }
  }

  // ---------------------------------------------------------------- runs

  predicate IsRun(l: Lane, steps: seq<Step>)
    decreases |steps|
  {
    steps == [] || (Enabled(l, steps[0]) && IsRun(Apply(l, steps[0]), steps[1..]))
  }

  function After(l: Lane, steps: seq<Step>): Lane
    requires IsRun(l, steps)
    decreases |steps|
  {
    if steps == [] then l else After(Apply(l, steps[0]), steps[1..])
  }

  lemma {:induction false} RunKeepsInv(l: Lane, steps: seq<Step>)
    requires Inv(l) && IsRun(l, steps)
    ensures Inv(After(l, steps))
    decreases |steps|
  {
    if steps != [] {
      StepKeepsInv(l, steps[0]);
      RunKeepsInv(Apply(l, steps[0]), steps[1..]);
    }
  }

  /** The client and the node together are a FIFO channel: what was delivered is a prefix of
      what was produced, and the rest is waiting in the batch and the queue, in order. */
  lemma {:induction false} DeliveryIsFifo(steps: seq<Step>)
    requires IsRun(NEW_LANE, steps)
    ensures var l := After(NEW_LANE, steps);
            l.delivered + Undelivered(l) + l.outbox.results == l.produced
            && l.delivered <= l.produced
  {
    RunKeepsInv(NEW_LANE, steps);
  }

  // ---------------------------------------------------------------- what a reset throws away

  /** What the client has not had of what is, or at the reset was, in the outbox. */
  function Pending(l: Lane): seq<Result> {
    Undelivered(l) + l.outbox.results
  }

  predicate IsReset(step: Step) {
    step.Close? || step.Complete? || step.Abort?
  }

  /** Once the node is gone, its outbox is history and nothing is produced any more. */
  lemma {:induction false} GoneStaysGone(l: Lane, steps: seq<Step>)
    requires l.gone && IsRun(l, steps)
    ensures var l' := After(l, steps);
            l'.gone && l'.over == l.over && l'.outbox == l.outbox && l'.produced == l.produced && l.seen <= l'.seen
    decreases |steps|
  {
    if steps != [] {
      GoneStaysGone(Apply(l, steps[0]), steps[1..]);
    }
  }

  /** A reset throws away a result for good exactly when the queue is not empty at the reset, or an
      unacked batch is there that the client has not seen and gets no reply with later. */
  lemma ResetLosesExactlyWhen(l: Lane, step: Step, steps: seq<Step>)
    requires Inv(l) && Enabled(l, step) && IsReset(step) && IsRun(Apply(l, step), steps)
    ensures var l' := After(Apply(l, step), steps);
            l'.delivered != l'.produced
            <==> l.outbox.results != [] || (l.outbox.batch.Some? && l.outbox.batch.value.id !in l'.seen)
  {
    StepKeepsInv(l, step);
    RunKeepsInv(Apply(l, step), steps);
    GoneStaysGone(Apply(l, step), steps);
  }

  lemma {:induction false} OverProducesNothing(l: Lane, steps: seq<Step>)
    requires !l.over.NotOver? && IsRun(l, steps)
    ensures After(l, steps).produced == l.produced && After(l, steps).over == l.over
    ensures (forall s :: s in steps ==> !s.ReceiveReply?) ==> After(l, steps).delivered == l.delivered
    decreases |steps|
  {
    if steps != [] {
      OverProducesNothing(Apply(l, steps[0]), steps[1..]);
      if forall s :: s in steps ==> !s.ReceiveReply? {
        assert steps[0] in steps;
      }
    }
  }

  /** A job completed without its client: of the results queued at the test, those no reply carries
      over before the end are thrown away. While no reply gets through, which is what being out of
      contact means, some are exactly when the queue was not empty at the test. */
  lemma CompletionLosesExactlyWhen(l: Lane, steps: seq<Step>)
    requires Inv(l) && Enabled(l, FindOver(ClientLost)) && IsRun(Apply(l, FindOver(ClientLost)), steps)
    ensures var l' := After(Apply(l, FindOver(ClientLost)), steps);
            && l'.delivered + Pending(l') == l.delivered + l.outbox.results == l'.produced
            && ((forall s :: s in steps ==> !s.ReceiveReply?) ==>
                  Pending(l') == l.outbox.results
                  && (l'.delivered != l'.produced <==> l.outbox.results != []))
  {
    var l1 := Apply(l, FindOver(ClientLost));
    StepKeepsInv(l, FindOver(ClientLost));
    RunKeepsInv(l1, steps);
    OverProducesNothing(l1, steps);
    var l' := After(l1, steps);
    assert l'.delivered + Pending(l') == l'.produced;
    if forall s :: s in steps ==> !s.ReceiveReply? {
      assert (l.delivered + Pending(l'))[|l.delivered|..] == Pending(l');
      assert (l.delivered + l.outbox.results)[|l.delivered|..] == l.outbox.results;
    }
  }

  /** A client that reads 404 as DONE lacks exactly the results the reset threw away. */
  lemma {:induction false} DoneMissesWhatWasThrownAway(steps: seq<Step>)
    requires IsRun(NEW_LANE, steps) && After(NEW_LANE, steps).state.Done?
    ensures var l := After(NEW_LANE, steps);
            && l.gone && l.delivered + Undelivered(l) + l.outbox.results == l.produced
            && (l.delivered == l.produced <==> Undelivered(l) == [] && l.outbox.results == [])
  {
    RunKeepsInv(NEW_LANE, steps);
  }

  /** A node that left, did so through the claim or with its client having every result. */
  predicate LeftProperly(l: Lane) {
    !l.over.ClientLost? && (l.gone && l.over.NotOver? ==> l.outbox == Outbox([], None))
  }

  lemma {:induction false} RunLeavesProperly(l: Lane, steps: seq<Step>)
    requires IsRun(l, steps) && LeftProperly(l) && Abort !in steps && FindOver(ClientLost) !in steps
    ensures LeftProperly(After(l, steps))
    decreases |steps|
  {
    if steps != [] {
      assert steps[0] in steps;
      RunLeavesProperly(Apply(l, steps[0]), steps[1..]);
    }
  }

  /** So a client that reads 404 as DONE holds every result the node produced, unless the job failed,
      was canceled, or was found completed while its client was out of contact. */
  lemma {:induction false} DoneMeansAllDelivered(steps: seq<Step>)
    requires IsRun(NEW_LANE, steps) && After(NEW_LANE, steps).state.Done?
    requires Abort !in steps && FindOver(ClientLost) !in steps
    ensures After(NEW_LANE, steps).delivered == After(NEW_LANE, steps).produced
  {
    RunLeavesProperly(NEW_LANE, steps);
    RunKeepsInv(NEW_LANE, steps);
    DoneMissesWhatWasThrownAway(steps);
  }

  lemma OneStepMore(l: Lane, step: Step, rest: seq<Step>)
    requires Enabled(l, step) && IsRun(Apply(l, step), rest)
    ensures IsRun(l, [step] + rest) && After(l, [step] + rest) == After(Apply(l, step), rest)
  {
    assert ([step] + rest)[1..] == rest;
  }

  /** Two rounds of polling carry a single result over and acknowledge it. */
  lemma OneResultIsDelivered(l: Lane, result: Result) returns (steps: seq<Step>)
    requires Inv(l) && l.state.Polling? && !l.gone && l.outbox == Outbox([result], None)
    ensures IsRun(l, steps) && (forall s :: s in steps ==> s.SendPoll? || s.ServePoll? || s.ReceiveReply?)
    ensures var l' := After(l, steps);
            && l'.outbox == Outbox([], None) && l'.delivered == l.delivered + [result] && l'.produced == l.produced
            && l'.state.Polling? && l'.gone == l.gone && l'.over == l.over
  {
    var first, second := l.attempts, l.attempts + 1;
    var l1 := Apply(l, SendPoll);
    var serve := ServePoll(first, l.toAck);
    var batch := Batch(l.nextBatch, [result]);
    SingleResultIsBatch(result, l.nextBatch);
    assert AfterPoll(l.outbox, l.toAck, l.nextBatch) == Outbox([], Some(batch));
    var l2 := Apply(l1, serve);
    var receive := ReceiveReply(Some(batch.id), [result], false);
    var l3 := Apply(l2, receive);
    var l4 := Apply(l3, SendPoll);
    var ack := ServePoll(second, Some(batch.id));
    OneStepMore(l4, ack, []);
    steps := [ack] + [];
    OneStepMore(l3, SendPoll, steps);
    steps := [SendPoll] + steps;
    OneStepMore(l2, receive, steps);
    steps := [receive] + steps;
    OneStepMore(l1, serve, steps);
    steps := [serve] + steps;
    OneStepMore(l, SendPoll, steps);
    steps := [SendPoll] + steps;
  }

  lemma SingleResultIsBatch(result: Result, freshId: BatchId)
    ensures NextBatch(Outbox([result], None), freshId) == Outbox([], Some(Batch(freshId, [result])))
  {
    var results := [result];
    var k := BatchSize(results);
    assert k > 0 by {
      var none: nat :| none == 0;
      assert BatchSize(results) == BatchCount(results, none) && HeadBytes(results, none) == 0;
    }
    assert results[..k] == results && results[k..] == [];
  }

  /** The client polls once more, is answered 404 and is DONE. */
  lemma ClientReadsNotFound(l: Lane) returns (steps: seq<Step>)
    requires l.gone && l.state.Polling?
    ensures IsRun(l, steps) && After(l, steps).state.Done? && After(l, steps).delivered == l.delivered
    ensures forall s :: s in steps ==> s.SendPoll? || s.RefusePoll? || s.ReceiveNotFound?
  {
    var l1 := Apply(l, SendPoll);
    var l2 := Apply(l1, RefusePoll(l.attempts));
    steps := [ReceiveNotFound] + [];
    OneStepMore(l2, ReceiveNotFound, []);
    OneStepMore(l1, RefusePoll(l.attempts), steps);
    steps := [RefusePoll(l.attempts)] + steps;
    OneStepMore(l, SendPoll, steps);
    steps := [SendPoll] + steps;
  }

  /** The reset of a failed job can lose a result: the client's poll is answered 404. */
  lemma AbortLosesResults(result: Result) returns (steps: seq<Step>)
    ensures IsRun(NEW_LANE, steps) && After(NEW_LANE, steps).state.Done?
    ensures After(NEW_LANE, steps).delivered == [] && After(NEW_LANE, steps).produced == [result]
  {
    var l1 := Apply(NEW_LANE, Produce(result));
    var l2 := Apply(l1, Abort);
    steps := ClientReadsNotFound(l2);
    GoneStaysGone(l2, steps);
    OneStepMore(l1, Abort, steps);
    steps := [Abort] + steps;
    OneStepMore(NEW_LANE, Produce(result), steps);
    steps := [Produce(result)] + steps;
  }

  /** One poll that gets through hands over every result of the next batch, and at least one
      if the node has any to give; the channel never gets stuck on a lost reply. */
  lemma ARoundDelivers(l: Lane)
    requires Inv(l) && l.state.Polling? && !l.gone
    ensures var l1 := Apply(l, SendPoll);
            Enabled(l1, ServePoll(l.attempts, l.toAck))
            && var l2 := Apply(l1, ServePoll(l.attempts, l.toAck));
            var o := AfterPoll(l.outbox, l.toAck, l.nextBatch);
            var round := if o.batch.Some? then ReceiveReply(Some(o.batch.value.id), o.batch.value.results, false)
                         else ReceiveReply(None, [], false);
            Enabled(l2, round)
            && Apply(l2, round).delivered == l.delivered + round.results
            && (l.delivered != l.produced ==> round.results != [])
  {
  }
}
