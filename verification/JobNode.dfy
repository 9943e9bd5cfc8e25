/** The node service of one machine while it is on a job: its request handlers and the parts of
    its tasks that change the job's state, in the form the code gives them. Each is proved to do
    to the node what NodeInputs, NodeResults and NodeSlots say. */
module JobNode {
  import opened Arithmetic
  import opened JobTypes
  import opened SizedQueues
  import opened NodeInputs
  import opened NodeResults
  import opened NodeSlots

  lemma TakenIsTail(q: seq<Input>, left: seq<Input>, taken: seq<Input>, target: nat)
    requires q == left + taken && |taken| <= target
    requires StealCount(q, |taken|) == |taken|
    requires |taken| == target || StopsAt(q, |taken|)
    ensures BeforeTail(q, target) == left && TailOf(q, target) == taken
  {
    if |taken| < target {
      StealCountStops(q, |taken|, target);
    }
  }

  /** `taken` has come off the tail of `q`; `full` when the donor's loop goes no further. */
  ghost predicate TailTaken(q: seq<Input>, left: seq<Input>, taken: seq<Input>, totalBytes: nat, full: bool) {
    && q == left + taken && StealCount(q, |taken|) == |taken| && totalBytes == TailBytes(q, |taken|)
    && (full ==> StopsAt(q, |taken|))
  }

  lemma TakingNextInput(q: seq<Input>, left: seq<Input>, taken: seq<Input>, totalBytes: nat)
    requires TailTaken(q, left, taken, totalBytes, false) && left != []
    requires taken == [] || totalBytes + |left[|left| - 1].pkl| <= STEAL_BATCH_LIMIT
    ensures TailTaken(q, left[..|left| - 1], [left[|left| - 1]] + taken, totalBytes + |left[|left| - 1].pkl|, false)
  {
    assert q[|q| - (|taken| + 1)] == left[|left| - 1];
  }

  lemma NoNextInput(q: seq<Input>, left: seq<Input>, taken: seq<Input>, totalBytes: nat)
    requires TailTaken(q, left, taken, totalBytes, false)
    requires left != [] ==> taken != [] && totalBytes + |left[|left| - 1].pkl| > STEAL_BATCH_LIMIT
    ensures TailTaken(q, left, taken, totalBytes, true)
  {
    if left != [] {
      assert q[|q| - (|taken| + 1)] == left[|left| - 1];
    }
  }

  /** The first `k` results of `q` have been taken, and the batch was not full before. */
  ghost predicate HeadTaken(q: seq<Result>, k: nat, results: seq<Result>, totalBytes: nat) {
    k <= |q| && results == q[..k] && totalBytes == HeadBytes(q, k) && BatchSize(q) == BatchCount(q, k)
  }

  lemma TakingNextResult(q: seq<Result>, k: nat, results: seq<Result>, totalBytes: nat)
    requires k < |q| && HeadTaken(q, k, results, totalBytes) && totalBytes < MAX_RESULTS_RESPONSE_BYTES
    ensures HeadTaken(q, k + 1, results + [q[k]], totalBytes + |q[k].pkl|)
  {
  }

  lemma HeadIsBatch(q: seq<Result>, k: nat, results: seq<Result>, totalBytes: nat)
    requires HeadTaken(q, k, results, totalBytes) && (k == |q| || totalBytes >= MAX_RESULTS_RESPONSE_BYTES)
    ensures BatchSize(q) == k && results == q[..k]
  {
  }

  lemma NewBatchIsHead(q: seq<Result>, k: nat, freshId: BatchId)
    requires k <= |q| && BatchSize(q) == k && (k == 0 ==> q == [])
    ensures NextBatch(Outbox(q, None), freshId)
            == Outbox(q[k..], if k == 0 then None else Some(Batch(freshId, q[..k])))
  {
  }

  /** One step of retiring idle workers from the front. */
  lemma RetiringNext(workers: seq<Worker>, i: nat, k: nat)
    requires i < |workers| && k > 0
    ensures var isIdle := workers[i].Idle?;
            var after := if isIdle then workers[i := Retired] else workers;
            && after[..i + 1] + RetireIdle(after[i + 1..], if isIdle then k - 1 else k)
               == workers[..i] + RetireIdle(workers[i..], k)
            && CountIdle(after[i + 1..]) == CountIdle(workers[i..]) - if isIdle then 1 else 0
  {
  }

  /** The first `i` workers of `was` have been looked at and `retired` of them retired. */
  ghost predicate RetiredSoFar(was: seq<Worker>, list: seq<Worker>, i: nat, k: nat, retired: nat) {
    && i <= |list| && retired <= k
    && list[..i] + RetireIdle(list[i..], k - retired) == RetireIdle(was, k)
    && retired + Min(k - retired, CountIdle(list[i..])) == Min(k, CountIdle(was))
  }

  lemma NoneRetiredYet(was: seq<Worker>, k: nat)
    ensures RetiredSoFar(was, was, 0, k, 0)
  {
    assert was[0..] == was && was[..0] + RetireIdle(was, k) == RetireIdle(was, k);
  }

  lemma RetiringOneMore(was: seq<Worker>, list: seq<Worker>, i: nat, k: nat, retired: nat)
    requires RetiredSoFar(was, list, i, k, retired) && i < |list| && retired < k
    ensures var isIdle := list[i].Idle?;
            RetiredSoFar(was, if isIdle then list[i := Retired] else list, i + 1, k, if isIdle then retired + 1 else retired)
  {
    RetiringNext(list, i, k - retired);
  }

  lemma RetiringIsDone(was: seq<Worker>, list: seq<Worker>, i: nat, k: nat, retired: nat)
    requires RetiredSoFar(was, list, i, k, retired) && (i == |list| || retired == k)
    ensures list == RetireIdle(was, k) && retired == Min(k, CountIdle(was))
  {
    assert list[..i] + list[i..] == list;
  }

  /** What a trade gives: one slot for each worker it retires and, while the node is pressured and no
      replacement for them may be in flight, as many of the slots without a live worker as are wanted.
      It retires workers only for what is wanted beyond those, idle ones of a drained node. */
  predicate IsTradeAnswer(before: seq<Worker>, after: seq<Worker>, target: int, replacing: bool, wanted: nat,
                          pressured: bool, drained: bool, given: nat)
  {
    var retired := CountAlive(before) - CountAlive(after);
    && given == retired + (if pressured && !replacing then Min(wanted, Max(0, target - CountAlive(before))) else 0)
    && retired == (if drained then Min(CountIdle(before), wanted - (given - retired)) else 0)
    && (forall i :: 0 <= i < |before| && i < |after| && after[i] != before[i] ==> before[i].Idle? && after[i].Retired?)
    && |after| == |before|
  }

  lemma TradeGrantIsAnswer(workers: seq<Worker>, s: Slots, wanted: nat, pressured: bool, drained: bool)
    ensures var alive, idle := CountAlive(workers), CountIdle(workers);
            IsTradeAnswer(workers, RetireIdle(workers, IdleGrant(s, alive, idle, wanted, pressured, drained)),
                          s.target, s.replacing, wanted, pressured, drained,
                          TradeGrant(s, alive, idle, wanted, pressured, drained))
  {
    var k := IdleGrant(s, CountAlive(workers), CountIdle(workers), wanted, pressured, drained);
    RetiringIdleStrandsNothing(workers, k, Input(0, []));
    forall i: nat | i < |workers| && RetireIdle(workers, k)[i] != workers[i]
      ensures workers[i].Idle? && RetireIdle(workers, k)[i].Retired?
    {
      TheFirstIdleRetire(workers, k, i);
    }
  }

  class JobNode {
    var phase: Phase
    var inputsQueue: SizedQueue<Input>
    var pendingTransfers: map<TransferId, seq<Input>>
    var workers: seq<Worker>
    var activeSteal: Steal
    var allInputsUploaded: bool
    var resultsQueue: SizedQueue<Result>
    var pendingBatch: Option<Batch>
    var targetParallelism: int
    var tradesGranted: map<nat, Grant>
    var tradeId: Option<TradeId>
    var replacing: bool
    var shedPending: int

    ghost predicate Valid()
      reads this, inputsQueue, resultsQueue
    {
      inputsQueue as object != resultsQueue && inputsQueue.Valid() && resultsQueue.Valid()
    }

    /** The node as the cluster-wide model sees it. */
    function InboxView(): Inbox
      reads this, inputsQueue
    {
      Inbox(phase, inputsQueue.Items(), pendingTransfers, workers, activeSteal, allInputsUploaded)
    }

    function OutboxView(): Outbox
      reads this, resultsQueue
    {
      Outbox(resultsQueue.Items(), pendingBatch)
    }

    function SlotsView(): Slots
      reads this
    {
      Slots(targetParallelism, tradesGranted, tradeId, replacing, shedPending)
    }

    constructor ()
      ensures Valid() && fresh(inputsQueue) && fresh(resultsQueue)
      ensures InboxView() == EMPTY_INBOX && OutboxView() == Outbox([], None) && SlotsView() == NO_SLOTS
    {
      phase, pendingTransfers, workers, activeSteal, allInputsUploaded := Assigning, map[], [], NoSteal, false;
      inputsQueue := new SizedQueue();
      resultsQueue := new SizedQueue();
      pendingBatch := None;
      targetParallelism, tradesGranted, tradeId, replacing, shedPending := 0, map[], None, false, 0;
    }

    // -------------------------------------------------------------- inputs

    /** Appends a batch to the inputs queue, one item at a time: what an upload does once admitted,
        without looking at the job again. */
    method EnqueueAll(items: seq<Input>)
      requires Valid()
      modifies inputsQueue
      ensures Valid() && inputsQueue.Items() == old(inputsQueue.Items()) + items
    {
      for i := 0 to |items|
        invariant Valid() && inputsQueue.Items() == old(inputsQueue.Items()) + items[..i]
      {
        inputsQueue.Put(items[i], |items[i].pkl|);
        assert items[..i + 1] == items[..i] + [items[i]];
      }
      assert items[..|items|] == items;
    }

    /** Pops the newest input, or puts it straight back when it does not fit beside those taken. */
    method PopFitting(totalBytes: nat, isFirst: bool) returns (input: Option<Input>)
      requires Valid()
      modifies inputsQueue
      ensures Valid()
      ensures var q := old(inputsQueue.Items());
              if q == [] || (!isFirst && totalBytes + |q[|q| - 1].pkl| > STEAL_BATCH_LIMIT)
              then input.None? && inputsQueue.Items() == q
              else input == Some(q[|q| - 1]) && inputsQueue.Items() == q[..|q| - 1]
    {
      input := inputsQueue.GetLast();
      if input.Some? && totalBytes + |input.value.pkl| > STEAL_BATCH_LIMIT && !isFirst {
        inputsQueue.Put(input.value, |input.value.pkl|);
        input := None;
      }
    }

    /** The donor's loop: takes from the tail while the batch is short and fits. */
    method TakeFromTail(target: nat) returns (items: seq<Input>)
      requires Valid()
      modifies inputsQueue
      ensures Valid()
      ensures items == TailOf(old(inputsQueue.Items()), target)
      ensures inputsQueue.Items() == BeforeTail(old(inputsQueue.Items()), target)
    {
      ghost var q, taken := inputsQueue.Items(), [];
      items := [];
      var totalBytes: nat, full := 0, false;
      while |items| < target && !full
        invariant Valid() && TailTaken(q, inputsQueue.Items(), taken, totalBytes, full)
        invariant items == Reverse(taken) && |taken| <= target
        decreases target - |items|, !full
      {
        ghost var left := inputsQueue.Items();
        var input := PopFitting(totalBytes, items == []);
        full := input.None?;
        if full {
          NoNextInput(q, left, taken, totalBytes);
        } else {
          TakingNextInput(q, left, taken, totalBytes);
          items := items + [input.value];
          totalBytes := totalBytes + |input.value.pkl|;
          ReverseFirst(input.value, taken);
          taken := [input.value] + taken;
        }
      }
      TakenIsTail(q, inputsQueue.Items(), taken, target);
      ReverseTwice(taken);
      items := Reverse(items);
    }

    /** Clears each victim's input under the lock, so that a late result of its is dropped. */
    method RevokeInputs(victims: seq<nat>) returns (items: seq<Input>)
      requires Valid() && ValidVictims(workers, victims)
      modifies this`workers
      ensures items == RevokedInputs(old(workers), victims)
      ensures workers == RetireVictims(old(workers), victims)
    {
      items := [];
      for v := 0 to |victims|
        invariant |items| == v && |workers| == |old(workers)|
        invariant forall k :: 0 <= k < v ==> items[k] == old(workers)[victims[k]].input
        invariant forall i :: 0 <= i < |workers| ==>
                                workers[i] == if i in victims[..v] then Retired else old(workers)[i]
      {
        var victim := victims[v];
        assert victim !in victims[..v];
        items := items + [workers[victim].input];
        workers := workers[victim := Retired];
        assert victims[..v + 1] == victims[..v] + [victim];
      }
      assert victims[..|victims|] == victims;
    }

    /** The batch a live donor gives: the tail of its queue or, when both queues are empty and
        the requester is idle, inputs revoked from busy workers. */
    method TakeBatch(requesterQueueSize: nat, requesterIdle: nat, victims: seq<nat>) returns (items: seq<Input>)
      requires Valid() && ValidVictims(workers, victims)
      modifies this`workers, inputsQueue
      ensures Valid()
      ensures var was := old(InboxView());
              if RevokesWorkers(was, requesterQueueSize, requesterIdle)
              then items == RevokedInputs(was.workers, victims)
                   && InboxView() == was.(workers := RetireVictims(was.workers, victims))
              else items == TakenFromQueue(was, requesterQueueSize)
                   && InboxView() == was.(queue := LeftInQueue(was, requesterQueueSize))
    {
      ghost var was := InboxView();
      items := TakeFromTail(StealTarget(|inputsQueue.Items()|, requesterQueueSize));
      assert items == TakenFromQueue(was, requesterQueueSize);
      assert inputsQueue.Items() == LeftInQueue(was, requesterQueueSize);
      if items == [] && inputsQueue.Items() == [] && requesterQueueSize == 0 && requesterIdle > 0 {
        items := RevokeInputs(victims);
      }
    }

    method GetInputs(id: TransferId, requesterQueueSize: nat, requesterIdle: nat, victims: seq<nat>)
      returns (response: Option<seq<Input>>)
      requires Valid() && ValidVictims(workers, victims) && |victims| <= requesterIdle
      modifies this`pendingTransfers, this`workers, inputsQueue
      ensures Valid()
      ensures !phase.Active? ==> response.None? && InboxView() == old(InboxView())
      ensures phase.Active? ==>
                InboxView() == DonateInputs(old(InboxView()), id, requesterQueueSize, requesterIdle, victims)
                && response == Some(InboxView().parked[id])
      // a repeated GET is answered with the batch already parked
      ensures phase.Active? && id in old(pendingTransfers) ==>
                response == Some(old(pendingTransfers)[id]) && InboxView() == old(InboxView())
      // an idle requester of a node with an empty queue gets the victims' inputs
      ensures phase.Active? && id !in old(pendingTransfers) && old(inputsQueue.Items()) == []
              && requesterQueueSize == 0 && requesterIdle > 0 ==>
                AreRevoked(old(workers), workers, victims, response.value) && inputsQueue.Items() == []
      // everybody else gets a fair share of the queue
      ensures phase.Active? && id !in old(pendingTransfers)
              && !(old(inputsQueue.Items()) == [] && requesterQueueSize == 0 && requesterIdle > 0) ==>
                IsFairShare(old(inputsQueue.Items()), inputsQueue.Items(), response.value, requesterQueueSize)
                && workers == old(workers)
    {
      ghost var was := InboxView();
      TakingIsFair(was, requesterQueueSize);
      if !phase.Active? {
        return None;
      }
      if id !in pendingTransfers {
        var items := TakeBatch(requesterQueueSize, requesterIdle, victims);
        pendingTransfers := pendingTransfers[id := items];
      }
      response := Some(pendingTransfers[id]);
    }

    method AckTransfer(id: TransferId, received: bool) returns (found: bool)
      requires Valid()
      modifies this`pendingTransfers, inputsQueue
      ensures Valid()
      ensures found <==> !phase.Gone?
      ensures found ==> pendingTransfers == old(pendingTransfers) - {id}
      ensures inputsQueue.Items() == old(inputsQueue.Items())
                                     + if found && !received && id in old(pendingTransfers) then old(pendingTransfers)[id] else []
      ensures InboxView() == if found then SettleTransfer(old(InboxView()), id, received) else old(InboxView())
    {
      if phase.Gone? {
        return false;
      }
      found := true;
      if id in pendingTransfers {
        var items := pendingTransfers[id];
        pendingTransfers := pendingTransfers - {id};
        if !received {
          EnqueueAll(items);
        }
      }
    }

    /** The requester's side of a GET answer, under the retire lock: a node traded to zero
        refuses the batch. */
    method DecideTransfer(items: seq<Input>) returns (received: bool)
      requires Valid() && activeSteal.Asking?
      modifies this`activeSteal, inputsQueue
      ensures Valid()
      ensures received <==> items != [] && targetParallelism > 0
      ensures InboxView() == old(InboxView()).(
                               queue := old(InboxView()).queue + if received then items else [],
                               steal := Acking(old(activeSteal).id, old(activeSteal).donor, received))
    {
      received := items != [] && targetParallelism > 0;
      if received {
        EnqueueAll(items);
      }
      activeSteal := Acking(activeSteal.id, activeSteal.donor, received);
    }

    /** The requester opens its transaction and reports its queue as it is. */
    method BeginSteal(id: TransferId, donor: nat) returns (queueSize: nat)
      requires Valid() && activeSteal.NoSteal?
      modifies this`activeSteal
      ensures Valid() && InboxView() == old(InboxView()).(steal := Asking(id, donor))
      ensures queueSize == |InboxView().queue|
    {
      activeSteal := Asking(id, donor);
      queueSize := |inputsQueue.Items()|;
    }

    /** The donor answered 404, has settled the ACK, or is gone; or the ACK timed out. */
    method EndSteal()
      requires Valid() && !activeSteal.NoSteal?
      modifies this`activeSteal
      ensures Valid() && InboxView() == old(InboxView()).(steal := NoSteal)
    {
      activeSteal := NoSteal;
    }

    /** A push of this node's state came back with the job's signals. */
    method ApplyJobSignals(uploaded: bool)
      requires Valid()
      modifies this`allInputsUploaded
      ensures Valid()
      ensures InboxView() == old(InboxView()).(allUploaded := old(InboxView()).allUploaded || uploaded)
    {
      if uploaded {
        allInputsUploaded := true;
      }
    }

    method ClaimDrainedJobPart() returns (drained: bool)
      requires Valid()
      modifies this`phase
      ensures Valid()
      ensures drained <==> inputsQueue.Items() == [] && pendingTransfers == map[] && activeSteal.NoSteal?
                           && (forall k :: 0 <= k < |workers| ==> !workers[k].Running?)
                           && resultsQueue.Items() == [] && pendingBatch.None?
      ensures drained ==> phase.Stopped?
      ensures !drained ==> phase == old(phase)
      ensures drained <==> Drained(old(InboxView())) && old(OutboxView()) == Outbox([], None)
      ensures InboxView() == ClaimDrained(old(InboxView()), old(OutboxView()) == Outbox([], None))
    {
      var allResting := true;
      for i := 0 to |workers|
        invariant allResting <==> forall k :: 0 <= k < i ==> !workers[k].Running?
      {
        if workers[i].Running? {
          allResting := false;
        }
      }
      drained := inputsQueue.Items() == [] && pendingTransfers == map[] && activeSteal.NoSteal? && allResting
                 && resultsQueue.Items() == [] && pendingBatch.None?;
      if drained {
        phase := Stopped;
      }
    }

    // -------------------------------------------------------------- workers and results

    method TakeInput(k: nat) returns (taken: bool)
      requires Valid() && k < |workers| && workers[k].Idle?
      modifies this`workers, inputsQueue
      ensures Valid()
      ensures taken <==> old(InboxView()).queue != []
      ensures InboxView() == if !taken then old(InboxView()) else
                old(InboxView()).(queue := old(InboxView()).queue[1..],
                                  workers := old(workers)[k := Running(old(InboxView()).queue[0])])
    {
      var input := inputsQueue.Get();
      taken := input.Some?;
      if taken {
        workers := workers[k := Running(input.value)];
      }
    }

    method FinishInput(k: nat, isError: bool, pkl: seq<byte>, retires: bool)
      requires Valid() && k < |workers| && workers[k].Running?
      modifies this`workers, resultsQueue
      ensures Valid()
      ensures InboxView() == old(InboxView()).(workers := old(workers)[k := if retires then Retired else Idle])
      ensures OutboxView() == old(OutboxView()).(
                                results := old(OutboxView()).results
                                           + [Result(old(workers)[k].input.index, isError, pkl)])
    {
      var result := Result(workers[k].input.index, isError, pkl);
      resultsQueue.Put(result, |result.pkl|);
      workers := workers[k := if retires then Retired else Idle];
    }

    /** Pops the result at place `k` of the queue as it was, `q`. */
    method PopResult(ghost q: seq<Result>, ghost k: nat) returns (result: Result)
      requires Valid() && k < |q| && resultsQueue.Items() == q[k..]
      modifies resultsQueue
      ensures Valid() && resultsQueue.Items() == q[k + 1..]
      ensures result == q[k]
    {
      var next := resultsQueue.Get();
      result := next.value;
      assert q[k..][1..] == q[k + 1..];
    }

    /** Takes results off the queue until a batch is long enough or the queue is empty. */
    method DrainResults() returns (results: seq<Result>)
      requires Valid()
      modifies resultsQueue
      ensures Valid()
      ensures var q := old(resultsQueue.Items());
              var k := BatchSize(q);
              results == q[..k] && resultsQueue.Items() == q[k..]
    {
      ghost var q, k := resultsQueue.Items(), 0;
      results := [];
      var totalBytes: nat := 0;
      while resultsQueue.Items() != [] && totalBytes < MAX_RESULTS_RESPONSE_BYTES
        invariant Valid() && k <= |q| && resultsQueue.Items() == q[k..]
        invariant HeadTaken(q, k, results, totalBytes)
        decreases |q| - k
      {
        TakingNextResult(q, k, results, totalBytes);
        var next := PopResult(q, k);
        results := results + [next];
        totalBytes := totalBytes + |next.pkl|;
        k := k + 1;
      }
      HeadIsBatch(q, k, results, totalBytes);
    }

    /** `_get_result_batch`: the batch that awaits its ack, or a new one. */
    method GetResultBatch(freshId: BatchId)
      requires Valid()
      modifies this`pendingBatch, resultsQueue
      ensures Valid() && OutboxView() == NextBatch(old(OutboxView()), freshId)
    {
      if pendingBatch.Some? {
        return;
      }
      ghost var q := resultsQueue.Items();
      var results := DrainResults();
      NewBatchIsHead(q, |results|, freshId);
      if results != [] {
        pendingBatch := Some(Batch(freshId, results));
      }
    }

    method GetResults(ack: Option<BatchId>, freshId: BatchId) returns (response: Option<(Option<BatchId>, seq<Result>)>)
      requires Valid()
      modifies this`pendingBatch, resultsQueue
      ensures Valid()
      ensures phase.Gone? ==> response.None? && OutboxView() == old(OutboxView())
      ensures !phase.Gone? ==>
                OutboxView() == AfterPoll(old(OutboxView()), ack, freshId)
                && response == Some(if pendingBatch.Some? then (Some(pendingBatch.value.id), pendingBatch.value.results)
                                    else (None, []))
      // a batch that is not acknowledged comes again
      ensures !phase.Gone? && old(pendingBatch).Some? && ack != Some(old(pendingBatch).value.id) ==>
                pendingBatch == old(pendingBatch) && resultsQueue.Items() == old(resultsQueue.Items())
                && response == Some((Some(pendingBatch.value.id), pendingBatch.value.results))
      // otherwise the next one is taken
      ensures !phase.Gone? && !(old(pendingBatch).Some? && ack != Some(old(pendingBatch).value.id)) ==>
                IsNewBatch(old(resultsQueue.Items()), response.value.1, resultsQueue.Items())
                && response.value.0 == (if response.value.1 == [] then None else Some(freshId))
                && pendingBatch == if response.value.1 == [] then None else Some(Batch(freshId, response.value.1))
    {
      NextBatchIsNew(resultsQueue.Items(), freshId);
      if phase.Gone? {
        return None;
      }
      if pendingBatch.Some? && ack == Some(pendingBatch.value.id) {
        pendingBatch := None;
      }
      GetResultBatch(freshId);
      match pendingBatch
      case Some(batch) => response := Some((Some(batch.id), batch.results));
      case None => response := Some((None, []));
    }

    // -------------------------------------------------------------- slots

    method CountWorkers() returns (alive: nat, idle: nat)
      ensures alive == CountAlive(workers) && idle == CountIdle(workers)
    {
      alive, idle := 0, 0;
      var i := |workers|;
      while i > 0
        invariant 0 <= i <= |workers|
        invariant alive == CountAlive(workers[i..]) && idle == CountIdle(workers[i..])
      {
        i := i - 1;
        assert workers[i..][1..] == workers[i + 1..];
        alive := alive + if workers[i].Retired? then 0 else 1;
        idle := idle + if workers[i].Idle? then 1 else 0;
      }
    }

    /** Retires idle workers from the front of the list until `k` are retired or none is idle. */
    method RetireIdleWorkers(k: nat) returns (retired: nat)
      modifies this`workers
      ensures workers == RetireIdle(old(workers), k) && retired == Min(k, CountIdle(old(workers)))
    {
      var was, list := workers, workers;
      retired := 0;
      var i := 0;
      NoneRetiredYet(was, k);
      while i < |list| && retired < k
        invariant RetiredSoFar(was, list, i, k, retired)
      {
        RetiringOneMore(was, list, i, k, retired);
        if list[i].Idle? {
          list := list[i := Retired];
          retired := retired + 1;
        }
        i := i + 1;
      }
      RetiringIsDone(was, list, i, k, retired);
      workers := list;
    }

    /** The slots a live node gives to a neighbour: those with no worker behind them while it is
        pressured, then idle workers' once its queue is drained. */
    method FreeSlots(wanted: nat, pressured: bool, graceOver: bool) returns (slots: nat)
      modifies this`workers
      ensures var drained := old(InboxView()).queue == [] && allInputsUploaded && graceOver;
              var s, alive, idle := SlotsView(), CountAlive(old(workers)), CountIdle(old(workers));
              && slots == TradeGrant(s, alive, idle, wanted, pressured, drained)
              && workers == RetireIdle(old(workers), IdleGrant(s, alive, idle, wanted, pressured, drained))
              && IsTradeAnswer(old(workers), workers, targetParallelism, replacing, wanted, pressured, drained, slots)
    {
      var alive, idle := CountWorkers();
      slots := 0;
      if pressured && !replacing {
        slots := slots + Min(wanted, Max(0, targetParallelism - alive));
      }
      if inputsQueue.Items() == [] && allInputsUploaded && graceOver {
        var beyond := wanted - slots;
        var retired := RetireIdleWorkers(beyond);
        if idle < beyond {
          RetiringBeyondIdle(old(workers), beyond);
        }
        slots := slots + retired;
      }
      TradeGrantIsAnswer(old(workers), SlotsView(), wanted, pressured,
                         inputsQueue.Items() == [] && allInputsUploaded && graceOver);
    }

    /** A neighbour asks for slots. The same trade id from the same node gets the same answer
        again; a node without a live watcher grants nothing. */
    method TradeSlots(requester: nat, id: TradeId, wanted: nat, pressured: bool, graceOver: bool)
      returns (granted: Option<nat>)
      requires Valid()
      modifies this`workers, this`targetParallelism, this`tradesGranted
      ensures Valid()
      ensures phase.Gone? <==> granted.None?
      ensures (!phase.Active? || (requester in old(tradesGranted) && old(tradesGranted)[requester].tradeId == id)) ==>
                SlotsView() == old(SlotsView()) && workers == old(workers)
      ensures phase.Active? && requester in old(tradesGranted) && old(tradesGranted)[requester].tradeId == id ==>
                granted == Some(old(tradesGranted)[requester].slots)
      ensures phase.Active? && !(requester in old(tradesGranted) && old(tradesGranted)[requester].tradeId == id) ==>
                var drained := old(InboxView()).queue == [] && allInputsUploaded && graceOver;
                var s, alive, idle := old(SlotsView()), CountAlive(old(workers)), CountIdle(old(workers));
                && granted == Some(TradeGrant(s, alive, idle, wanted, pressured, drained))
                && SlotsView() == CommitTrade(s, requester, id, granted.value)
                && workers == RetireIdle(old(workers), IdleGrant(s, alive, idle, wanted, pressured, drained))
      ensures phase.Active? && !(requester in old(tradesGranted) && old(tradesGranted)[requester].tradeId == id) ==>
                granted.Some? && targetParallelism == old(targetParallelism) - granted.value
                && tradesGranted == old(tradesGranted)[requester := Grant(id, granted.value)]
                && var drained := old(inputsQueue.Items()) == [] && allInputsUploaded && graceOver;
                IsTradeAnswer(old(workers), workers, old(targetParallelism), replacing, wanted, pressured, drained,
                              granted.value)
      ensures !phase.Active? ==> granted == if phase.Gone? then None else Some(0)
    {
      if phase.Gone? {
        return None;
      }
      if !phase.Active? {
        return Some(0);
      }
      if requester in tradesGranted && tradesGranted[requester].tradeId == id {
        return Some(tradesGranted[requester].slots);
      }
      var slots := FreeSlots(wanted, pressured, graceOver);
      targetParallelism := targetParallelism - slots;
      tradesGranted := tradesGranted[requester := Grant(id, slots)];
      granted := Some(slots);
    }

    /** The id of the open trade, or a fresh one when the last trade has been settled. */
    method OpenTrade(freshId: TradeId) returns (id: TradeId)
      requires Valid()
      modifies this`tradeId
      ensures Valid() && SlotsView() == old(SlotsView()).(tradeId := Some(id))
      ensures id == if old(tradeId).Some? then old(tradeId).value else freshId
    {
      if tradeId.None? {
        tradeId := Some(freshId);
      }
      id := tradeId.value;
    }

    /** A response settles the trade: the slots granted, or none from a neighbour that has left. */
    method SettleTrade(granted: Option<nat>)
      requires Valid()
      modifies this`tradeId, this`targetParallelism
      ensures Valid()
      ensures SlotsView() == old(SlotsView()).(
                               tradeId := None,
                               target := old(targetParallelism) + if granted.Some? then granted.value else 0)
    {
      tradeId := None;
      if granted.Some? {
        targetParallelism := targetParallelism + granted.value;
      }
    }

    /** A replacement request is settled by the slots it booted or by a permanent refusal; while
        neither is known the same request is sent again. */
    method SettleReplacement(booted: Option<nat>)
      requires Valid() && replacing
      modifies this`replacing, this`targetParallelism
      ensures Valid()
      ensures SlotsView() == old(SlotsView()).(
                               replacing := false,
                               target := old(targetParallelism) - if booted.Some? then booted.value else 0)
    {
      replacing := false;
      if booted.Some? {
        targetParallelism := targetParallelism - booted.value;
      }
    }

    /** The head took slots back: the target drops now, workers follow as they go idle. */
    method TakeBackSlots(shed: nat)
      requires Valid()
      modifies this`targetParallelism, this`shedPending
      ensures Valid() && SlotsView() == ApplyShed(old(SlotsView()), shed)
      ensures shedPending - old(shedPending) == old(targetParallelism) - targetParallelism
      ensures targetParallelism == if shed <= old(targetParallelism) then old(targetParallelism) - shed else 0
    {
      var applied := Min(shed, targetParallelism);
      targetParallelism := targetParallelism - applied;
      shedPending := shedPending + applied;
    }

    /** Workers parked on an empty queue retire against the slots to be shed. */
    method ShedIdleWorkers() returns (retired: nat)
      requires Valid()
      modifies this`workers, this`shedPending
      ensures Valid()
      ensures retired == if old(InboxView()).queue == [] then Min(Max(0, old(shedPending)), CountIdle(old(workers))) else 0
      ensures workers == RetireIdle(old(workers), if old(InboxView()).queue == [] then Max(0, old(shedPending)) else 0)
      ensures shedPending == old(shedPending) - retired
    {
      retired := 0;
      if inputsQueue.Items() == [] && shedPending > 0 {
        retired := RetireIdleWorkers(shedPending);
        shedPending := shedPending - retired;
      }
    }

    /** Queued inputs on a node with no slot and no live worker: take slots back to run them. */
    method ReclaimStranded(cpus: nat) returns (stranded: bool)
      requires Valid()
      modifies this`targetParallelism
      ensures Valid()
      ensures stranded <==> old(InboxView()).queue != [] && old(targetParallelism) == 0 && CountAlive(workers) == 0
      ensures targetParallelism == if stranded then Reclaimed(|old(InboxView()).queue|, cpus) else old(targetParallelism)
      ensures stranded ==> targetParallelism <= cpus && targetParallelism <= |inputsQueue.Items()|
                           && (targetParallelism == cpus || targetParallelism == |inputsQueue.Items()|)
    {
      var alive, _ := CountWorkers();
      stranded := inputsQueue.Items() != [] && targetParallelism == 0 && alive == 0;
      if stranded {
        targetParallelism := Min(|inputsQueue.Items()|, cpus);
      }
    }
  }
}
