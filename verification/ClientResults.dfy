/** The client's side of one node's results: the fields of its `Node` that the polling loop changes. */
module ClientResults {
  import opened JobTypes
  import opened ResultDelivery

  /** An error result ends the call when the caller wants errors raised, or when the worker itself
      failed; `infrastructure` are the places of such results. */
  predicate IsFatal(results: seq<Result>, k: nat, raiseErrors: bool, infrastructure: set<nat>)
    requires k < |results|
  {
    results[k].isError && (raiseErrors || k in infrastructure)
  }

  predicate Raises(results: seq<Result>, raiseErrors: bool, infrastructure: set<nat>) {
    exists k :: 0 <= k < |results| && IsFatal(results, k, raiseErrors, infrastructure)
  }

  class NodeClient {
    var resultBatchIdToAck: Option<BatchId>
    var state: ClientState
    var resultCount: nat
    var returnQueue: seq<Result>

    ghost predicate Valid()
      reads this
    {
      resultCount == |returnQueue|
    }

    /** This client is the client of the lane. */
    ghost predicate Plays(l: Lane)
      reads this
    {
      l.toAck == resultBatchIdToAck && l.state == state && l.delivered == returnQueue
    }

    constructor ()
      ensures Valid() && Plays(NEW_LANE)
    {
      resultBatchIdToAck, state, resultCount, returnQueue := None, Polling, 0, [];
    }

    /** A 404 after assignment means the node finished its part and left. */
    method HandleNotFound(ghost l: Lane)
      requires Valid() && Plays(l) && Enabled(l, ReceiveNotFound)
      modifies this`state
      ensures Valid() && Plays(Apply(l, ReceiveNotFound))
    {
      state := Done;
    }

    /** A reply: nothing of a batch with a fatal error is returned; otherwise all of it is, in
        order, and its id goes with the next poll. */
    method HandleReply(batchId: Option<BatchId>, results: seq<Result>, raiseErrors: bool, infrastructure: set<nat>,
                       ghost l: Lane)
      requires Valid() && Plays(l) && l.state.Polling?
      requires Enabled(l, ReceiveReply(batchId, results, Raises(results, raiseErrors, infrastructure)))
      modifies this
      ensures Valid()
      ensures Plays(Apply(l, ReceiveReply(batchId, results, Raises(results, raiseErrors, infrastructure))))
      ensures if exists k :: 0 <= k < |results| && results[k].isError && (raiseErrors || k in infrastructure)
              then state.Raised? && returnQueue == old(returnQueue)
              else state.Polling? && returnQueue == old(returnQueue) + results && resultBatchIdToAck == batchId
    {
      resultBatchIdToAck := None;
      var returnValues := [];
      for k := 0 to |results|
        invariant returnValues == results[..k]
        invariant forall j :: 0 <= j < k ==> !(results[j].isError && (raiseErrors || j in infrastructure))
        invariant state == l.state && returnQueue == l.delivered && resultBatchIdToAck.None? && Valid()
      {
        if IsFatal(results, k, raiseErrors, infrastructure) {
          state := Raised;
          return;
        }
        returnValues := returnValues + [results[k]];
      }
      assert returnValues == results;
      PutAll(returnValues);
      if batchId.Some? {
        resultBatchIdToAck := batchId;
      }
    }

    method PutAll(values: seq<Result>)
      requires Valid()
      modifies this`returnQueue, this`resultCount
      ensures Valid() && returnQueue == old(returnQueue) + values
    {
      for k := 0 to |values|
        invariant Valid() && returnQueue == old(returnQueue) + values[..k]
      {
        returnQueue := returnQueue + [values[k]];
        resultCount := resultCount + 1;
        assert values[..k + 1] == values[..k] + [values[k]];
      }
      assert values[..|values|] == values;
    }
  }
}
