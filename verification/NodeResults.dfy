/** One node's outgoing results: the queue workers fill and the batch awaiting its ack. */
module NodeResults {
  import opened JobTypes

  const MAX_RESULTS_RESPONSE_BYTES: nat := 1_000_000

  datatype Batch = Batch(id: BatchId, results: seq<Result>)
  datatype Outbox = Outbox(results: seq<Result>, batch: Option<Batch>)

  /** Pickled size of the `k` oldest results of a queue. */
  function HeadBytes(results: seq<Result>, k: nat): nat
    requires k <= |results|
  {
    if k == 0 then 0 else HeadBytes(results, k - 1) + |results[k - 1].pkl|
  }

  /** How many results go into a batch when `taken` are in it already: the batch closes at
      the first one that brings it to the response limit. */
  function BatchCount(results: seq<Result>, taken: nat): (k: nat)
    requires taken <= |results|
    ensures taken <= k <= |results|
    decreases |results| - taken
  {
    if taken == |results| || HeadBytes(results, taken) >= MAX_RESULTS_RESPONSE_BYTES then taken
    else BatchCount(results, taken + 1)
  }

  function BatchSize(results: seq<Result>): (k: nat)
    ensures k <= |results|
  {
    BatchCount(results, 0)
  }

  /** A batch stops short of the queue only once it has reached the limit, and no earlier. */
  lemma {:induction false} BatchIsJustLongEnough(results: seq<Result>, taken: nat)
    requires taken <= |results|
    ensures var k := BatchCount(results, taken);
            && (k < |results| ==> HeadBytes(results, k) >= MAX_RESULTS_RESPONSE_BYTES)
            && forall j :: taken <= j < k ==> HeadBytes(results, j) < MAX_RESULTS_RESPONSE_BYTES
    decreases |results| - taken
  {
    if taken < |results| && HeadBytes(results, taken) < MAX_RESULTS_RESPONSE_BYTES {
      BatchIsJustLongEnough(results, taken + 1);
    }
  }

  /** `_get_result_batch`: the unacked batch again, or a new one from the front of the queue. */
  function NextBatch(o: Outbox, freshId: BatchId): (o': Outbox)
    ensures o'.batch.None? <==> o.batch.None? && o.results == []
    ensures o.batch.Some? ==> o' == o
    ensures o.batch.None? && o'.batch.Some? ==>
              o'.batch.value.id == freshId && o'.batch.value.results != []
              && o.results == o'.batch.value.results + o'.results
  {
    if o.batch.Some? || o.results == [] then o
    else
      var k := BatchSize(o.results);
      Outbox(o.results[k..], Some(Batch(freshId, o.results[..k])))
  }

  function ResultBytes(results: seq<Result>): nat {
    if results == [] then 0 else ResultBytes(results[..|results| - 1]) + |results[|results| - 1].pkl|
  }

  lemma {:induction false} HeadBytesAreTotal(results: seq<Result>, k: nat)
    requires k <= |results|
    ensures HeadBytes(results, k) == ResultBytes(results[..k])
  {
    if k > 0 {
      HeadBytesAreTotal(results, k - 1);
      assert results[..k][..k - 1] == results[..k - 1];
    }
  }

  /** A new batch is the front of the queue: all of it, unless it comes to 1 MB before, and then no
      longer than it takes to come to 1 MB. */
  predicate IsNewBatch(queue: seq<Result>, batch: seq<Result>, left: seq<Result>) {
    && queue == batch + left && (batch == [] ==> queue == [])
    && (left != [] ==> ResultBytes(batch) >= 1_000_000)
    && (batch != [] ==> ResultBytes(batch[..|batch| - 1]) < 1_000_000)
  }

  lemma {:induction false} ResultBytesGrow(results: seq<Result>, k: nat)
    requires k <= |results|
    ensures ResultBytes(results[..k]) <= ResultBytes(results)
  {
    if k < |results| {
      assert results[..|results| - 1][..k] == results[..k];
      ResultBytesGrow(results[..|results| - 1], k);
    } else {
      assert results[..k] == results;
    }
  }

  lemma NewBatchIsLongest(queue: seq<Result>, batch: seq<Result>, left: seq<Result>, other: seq<Result>, rest: seq<Result>)
    requires IsNewBatch(queue, batch, left) && IsNewBatch(queue, other, rest)
    ensures |other| <= |batch|
  {
    if |batch| < |other| {
      assert batch == queue[..|batch|] && other == queue[..|other|];
      assert other[..|other| - 1][..|batch|] == batch;
      ResultBytesGrow(other[..|other| - 1], |batch|);
    }
  }

  /** There is only one. */
  lemma OnlyOneNewBatch(queue: seq<Result>, batch: seq<Result>, left: seq<Result>, other: seq<Result>, rest: seq<Result>)
    requires IsNewBatch(queue, batch, left) && IsNewBatch(queue, other, rest)
    ensures other == batch && rest == left
  {
    NewBatchIsLongest(queue, batch, left, other, rest);
    NewBatchIsLongest(queue, other, rest, batch, left);
    assert batch == queue[..|batch|] && other == queue[..|batch|];
    assert left == queue[|batch|..] && rest == queue[|batch|..];
  }

  lemma NextBatchIsNew(queue: seq<Result>, freshId: BatchId)
    ensures var o := NextBatch(Outbox(queue, None), freshId);
            IsNewBatch(queue, if o.batch.Some? then o.batch.value.results else [], o.results)
  {
    var k := BatchSize(queue);
    BatchIsJustLongEnough(queue, 0);
    HeadBytesAreTotal(queue, k);
    if k > 0 {
      HeadBytesAreTotal(queue, k - 1);
      assert queue[..k][..k - 1] == queue[..k - 1];
    }
  }

  /** `get_results`: a matching ack drops the pending batch before the next one is taken. */
  function AfterPoll(o: Outbox, ack: Option<BatchId>, freshId: BatchId): Outbox {
    var acked := o.batch.Some? && ack == Some(o.batch.value.id);
    NextBatch(if acked then o.(batch := None) else o, freshId)
  }
}
