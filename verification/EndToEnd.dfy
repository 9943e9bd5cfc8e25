/** What a caller of the job may rely on, for every reachable state of every run. */
module EndToEnd {
  import opened JobTypes
  import opened NodeInputs
  import I = InputTransfer
  import R = ResultDelivery
  import S = SlotLedger
  import opened JobRun

  // ---------------------------------------------------------------- delivered and waiting inputs

  /** The inputs behind the results the client has received from node `i`, in order. */
  function DeliveredFrom(j: Job, i: nat): seq<Input>
    requires Coupled(j.inputs, j.lanes) && LanesOk(j.lanes) && i < |j.lanes|
  {
    assert NodeCoupled(j.inputs.nodes[i].phase, j.inputs.done[i], j.lanes[i]);
    assert R.Inv(j.lanes[i]);
    j.inputs.done[i][..|j.lanes[i].delivered|]
  }

  /** The inputs behind the results of node `i` that the client does not have. */
  function MissingFrom(j: Job, i: nat): seq<Input>
    requires Coupled(j.inputs, j.lanes) && LanesOk(j.lanes) && i < |j.lanes|
  {
    j.inputs.done[i][|DeliveredFrom(j, i)|..]
  }

  function DeliveredList(j: Job): (lists: seq<seq<Input>>)
    requires Coupled(j.inputs, j.lanes) && LanesOk(j.lanes)
    ensures |lists| == |j.lanes|
    ensures forall i :: 0 <= i < |j.lanes| ==> lists[i] == DeliveredFrom(j, i)
  {
    seq(|j.lanes|, i requires 0 <= i < |j.lanes| => DeliveredFrom(j, i))
  }

  /** What nodes on the job still owe the client, or what nodes that have left threw away. */
  function MissingList(j: Job, gone: bool): (lists: seq<seq<Input>>)
    requires Coupled(j.inputs, j.lanes) && LanesOk(j.lanes)
    ensures |lists| == |j.lanes|
    ensures forall i :: 0 <= i < |j.lanes| ==> lists[i] == if j.lanes[i].gone == gone then MissingFrom(j, i) else []
  {
    seq(|j.lanes|, i requires 0 <= i < |j.lanes| => if j.lanes[i].gone == gone then MissingFrom(j, i) else [])
  }

  /** Every input whose result the client has. */
  function Delivered(j: Job): seq<Input>
    requires Coupled(j.inputs, j.lanes) && LanesOk(j.lanes)
  {
    Flatten(DeliveredList(j))
  }

  /** Every input whose result went with the reset of its node. */
  function ThrownAway(j: Job): seq<Input>
    requires Coupled(j.inputs, j.lanes) && LanesOk(j.lanes)
  {
    Flatten(MissingList(j, true))
  }

  /** Every other place an input can be: the client's lists, an upload, a queue, a worker, a
      parked batch, or a result that a node on the job still owes. */
  function Waiting(j: Job, x: Input): nat
    requires Coupled(j.inputs, j.lanes) && LanesOk(j.lanes)
  {
    j.inputs.unsent[x] + Sum(I.ChunkParts(j.inputs.chunks, x)) + Sum(I.HeldParts(j.inputs.nodes, x))
    + Sum(I.ParkedParts(j.inputs.nodes, j.inputs.transfers, x)) + Copies(Flatten(MissingList(j, false)), x)
  }

  /** Cutting every list in three splits the count. */
  lemma {:induction false} CutCounts(whole: seq<seq<Input>>, a: seq<seq<Input>>, b: seq<seq<Input>>, c: seq<seq<Input>>, x: Input)
    requires |whole| == |a| == |b| == |c|
    requires forall i :: 0 <= i < |whole| ==> whole[i] == a[i] + b[i] + c[i]
    ensures Sum(I.DoneParts(whole, x)) == Sum(I.DoneParts(a, x)) + Sum(I.DoneParts(b, x)) + Sum(I.DoneParts(c, x))
  {
    if whole != [] {
      CutCounts(whole[1..], a[1..], b[1..], c[1..], x);
      CopiesConcat(a[0] + b[0], c[0], x);
      CopiesConcat(a[0], b[0], x);
      assert I.DoneParts(whole, x)[1..] == I.DoneParts(whole[1..], x);
      assert I.DoneParts(a, x)[1..] == I.DoneParts(a[1..], x);
      assert I.DoneParts(b, x)[1..] == I.DoneParts(b[1..], x);
      assert I.DoneParts(c, x)[1..] == I.DoneParts(c[1..], x);
    }
  }

  lemma DoneInThree(j: Job, x: Input)
    requires Coupled(j.inputs, j.lanes) && LanesOk(j.lanes)
    ensures Sum(I.DoneParts(j.inputs.done, x))
            == Copies(Delivered(j), x) + Copies(Flatten(MissingList(j, false)), x) + Copies(ThrownAway(j), x)
  {
    var front, owed, thrown := DeliveredList(j), MissingList(j, false), MissingList(j, true);
    forall i | 0 <= i < |j.lanes| ensures j.inputs.done[i] == front[i] + owed[i] + thrown[i] {
      assert j.inputs.done[i] == DeliveredFrom(j, i) + MissingFrom(j, i);
    }
    CutCounts(j.inputs.done, front, owed, thrown, x);
    FlattenCounts(front, x);
    FlattenCounts(owed, x);
    FlattenCounts(thrown, x);
  }

  /** Every input of the call is delivered to the client, still owned by somebody on the job, or
      has a result that went with the reset of its node; as many times as it was passed in. */
  lemma DeliveredOrOwned(inputs: multiset<Input>, j: Job, x: Input)
    requires Reachable(inputs, j)
    ensures Inv(j) && Waiting(j, x) + Copies(Delivered(j), x) + Copies(ThrownAway(j), x) == inputs[x]
  {
    ReachableHolds(inputs, j);
    DoneInThree(j, x);
    assert I.Owners(j.inputs, x) == inputs[x];
  }

  /** A node that has left owes the client nothing, unless it found a detached job completed while
      the client was out of contact. */
  lemma LeavesOwingNothing(j: Job, i: nat)
    requires Inv(j) && i < |j.lanes| && j.lanes[i].gone && !j.lanes[i].over.ClientLost?
    ensures j.lanes[i].delivered == j.lanes[i].produced && MissingFrom(j, i) == []
  {
    assert NodeCoupled(j.inputs.nodes[i].phase, j.inputs.done[i], j.lanes[i]);
    assert R.Inv(j.lanes[i]);
  }

  lemma {:induction false} FlattenNothing<T>(lists: seq<seq<T>>)
    requires forall i :: 0 <= i < |lists| ==> lists[i] == []
    ensures Flatten(lists) == []
  {
    if lists != [] {
      FlattenNothing(lists[1..]);
    }
  }

  /** So in a job that is not detached no result is ever thrown away, nor in any while no node has
      found it completed without its client. */
  lemma NothingThrownAway(inputs: multiset<Input>, j: Job)
    requires Reachable(inputs, j)
    requires !j.detached || forall i :: 0 <= i < |j.lanes| ==> !j.lanes[i].over.ClientLost?
    ensures Inv(j) && ThrownAway(j) == []
  {
    ReachableHolds(inputs, j);
    forall i | 0 <= i < |j.lanes| ensures MissingList(j, true)[i] == [] {
      assert EndingOk(j.lanes[i].over, j.detached, j.clientHasAll);
      if j.lanes[i].gone {
        LeavesOwingNothing(j, i);
      }
    }
    FlattenNothing(MissingList(j, true));
  }

  /** What the client received from a node are results of the inputs named here, one each. */
  lemma DeliveredResultsMatch(inputs: multiset<Input>, j: Job, i: nat, k: nat)
    requires Reachable(inputs, j) && i < |j.lanes| && k < |j.lanes[i].delivered|
    ensures Inv(j) && |DeliveredFrom(j, i)| == |j.lanes[i].delivered|
    ensures DeliveredFrom(j, i)[k].index == j.lanes[i].delivered[k].index
  {
    ReachableHolds(inputs, j);
    assert NodeCoupled(j.inputs.nodes[i].phase, j.inputs.done[i], j.lanes[i]);
    assert R.Inv(j.lanes[i]);
  }

  // ---------------------------------------------------------------- job completion

  lemma CountIsDelivered(j: Job)
    requires Inv(j)
    ensures ResultCount(j) == |Delivered(j)|
  {
    FlattenLength(DeliveredList(j));
    forall i | 0 <= i < |j.lanes| ensures Lengths(DeliveredList(j))[i] == DeliveredCounts(j.lanes)[i] {
      assert NodeCoupled(j.inputs.nodes[i].phase, j.inputs.done[i], j.lanes[i]);
      assert R.Inv(j.lanes[i]);
    }
    assert Lengths(DeliveredList(j)) == DeliveredCounts(j.lanes);
  }

  lemma DeliveredIsPartOfCall(inputs: multiset<Input>, j: Job)
    requires Reachable(inputs, j)
    ensures Inv(j) && multiset(Delivered(j)) <= inputs
  {
    ReachableHolds(inputs, j);
    forall x ensures multiset(Delivered(j))[x] <= inputs[x] {
      DeliveredOrOwned(inputs, j, x);
    }
  }

  lemma NoCopiesNothing<T>(s: seq<T>)
    requires forall x :: Copies(s, x) == 0
    ensures s == []
  {
    assert s != [] ==> Copies(s, s[0]) == 0;
  }

  lemma AllDeliveredLeavesNothing(inputs: multiset<Input>, j: Job)
    requires Reachable(inputs, j) && Inv(j) && multiset(Delivered(j)) == inputs
    ensures ThrownAway(j) == [] && forall x :: Waiting(j, x) == 0
  {
    forall x ensures Waiting(j, x) == 0 && Copies(ThrownAway(j), x) == 0 {
      DeliveredOrOwned(inputs, j, x);
    }
    NoCopiesNothing(ThrownAway(j));
  }

  /** When the client has counted as many results as inputs, it holds the result of every
      input exactly once, and nothing is left in any queue, worker, parked batch, upload or
      outbox, nor was thrown away: stopping then loses nothing. */
  lemma CountReachedMeansDone(inputs: multiset<Input>, j: Job)
    requires Reachable(inputs, j)
    ensures Inv(j)
    ensures ResultCount(j) <= |inputs|
    ensures ResultCount(j) == |inputs| ==>
              multiset(Delivered(j)) == inputs && ThrownAway(j) == [] && forall x :: Waiting(j, x) == 0
  {
    DeliveredIsPartOfCall(inputs, j);
    CountIsDelivered(j);
    var delivered := multiset(Delivered(j));
    assert |inputs| == |delivered| + |inputs - delivered|;
    if ResultCount(j) == |inputs| {
      SameSizeSubsetIsAll(delivered, inputs);
      AllDeliveredLeavesNothing(inputs, j);
    }
  }

  // ---------------------------------------------------------------- leaving

  /** No node that has left took an input with it: none queued, none in a transfer, none running.
      Nor did it take a result the client does not have, unless it found a detached job completed
      while the client was out of contact. */
  lemma LeftNodeTookNothing(inputs: multiset<Input>, j: Job, i: nat)
    requires Reachable(inputs, j) && i < |j.lanes| && i < |j.inputs.nodes|
    requires j.inputs.nodes[i].phase.Stopped? || j.inputs.nodes[i].phase.Gone?
    ensures Drained(j.inputs.nodes[i]) && (forall x :: Held(j.inputs.nodes[i], x) == 0)
    ensures Inv(j)
    ensures !j.lanes[i].over.ClientLost? || !j.detached ==>
              j.lanes[i].delivered == j.lanes[i].produced && MissingFrom(j, i) == []
  {
    ReachableHolds(inputs, j);
    assert I.NodeOk(j.inputs, i);
    assert NodeCoupled(j.inputs.nodes[i].phase, j.inputs.done[i], j.lanes[i]);
    assert R.Inv(j.lanes[i]) && EndingOk(j.lanes[i].over, j.detached, j.clientHasAll);
    forall x ensures Held(j.inputs.nodes[i], x) == 0 {
      RestingHoldNothing(j.inputs.nodes[i].workers, x);
    }
  }

  /** A client that reads 404 as DONE is right to, unless the job is detached and the node found it
      completed while the client was out of contact: the node it gave up on owes it nothing. */
  lemma DoneClientMissesNothing(inputs: multiset<Input>, j: Job, i: nat)
    requires Reachable(inputs, j) && i < |j.lanes| && j.lanes[i].state.Done?
    ensures i < |j.inputs.nodes| && j.inputs.nodes[i].phase.Gone?
    ensures !j.lanes[i].over.ClientLost? || !j.detached ==> j.lanes[i].delivered == j.lanes[i].produced
  {
    ReachableHolds(inputs, j);
    assert NodeCoupled(j.inputs.nodes[i].phase, j.inputs.done[i], j.lanes[i]);
    assert R.Inv(j.lanes[i]);
    LeftNodeTookNothing(inputs, j, i);
  }

  /** Throughout the job the nodes' slot counts and the grants in transit add up to the slots
      assigned, minted and reclaimed less those shed, replaced and released. */
  lemma SlotsAccountedFor(inputs: multiset<Input>, j: Job)
    requires Reachable(inputs, j)
    ensures S.TotalTarget(j.slots) + S.Outstanding(j.slots) == S.Net(j.slots.flows)
    ensures S.Outstanding(j.slots) >= 0
  {
    ReachableHolds(inputs, j);
    S.OutstandingNotNegative(j.slots.debits);
  }
}
