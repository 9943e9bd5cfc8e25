/** The inputs on the client's side of an upload: per-node lists, or one list shared by all nodes
    while none is ready, chunks on their way, and what has been uploaded. Whatever the tasks do,
    in whatever order, every input is in exactly one of these places. */
module ClientInputs {
  import opened JobTypes
  import opened InputSplit
  import opened InputChunks

  // ---------------------------------------------------------------- counting over several lists

  function Parts(lists: seq<seq<Input>>, x: Input): (parts: seq<nat>)
    ensures |parts| == |lists|
    ensures forall i :: 0 <= i < |lists| ==> parts[i] == Copies(lists[i], x)
  {
    seq(|lists|, i requires 0 <= i < |lists| => Copies(lists[i], x))
  }

  function Stored(lists: seq<seq<Input>>, x: Input): nat {
    Sum(Parts(lists, x))
  }

  lemma StoredUpdate(lists: seq<seq<Input>>, i: nat, list: seq<Input>, x: Input)
    requires i < |lists|
    ensures Stored(lists[i := list], x) + Copies(lists[i], x) == Stored(lists, x) + Copies(list, x)
  {
    assert Parts(lists[i := list], x) == Parts(lists, x)[i := Copies(list, x)];
    SumUpdate(Parts(lists, x), i, Copies(list, x));
  }

  lemma StoredAppend(lists: seq<seq<Input>>, list: seq<Input>, x: Input)
    ensures Stored(lists + [list], x) == Stored(lists, x) + Copies(list, x)
  {
    assert Parts(lists + [list], x) == Parts(lists, x) + [Copies(list, x)];
    SumAppend(Parts(lists, x), Copies(list, x));
  }

  lemma StoredNothing(lists: seq<seq<Input>>, x: Input)
    requires forall i :: 0 <= i < |lists| ==> lists[i] == []
    ensures Stored(lists, x) == 0
  {
    SumOfNothing(Parts(lists, x));
  }

  // ---------------------------------------------------------------- the first layout

  function DealtLists(destinations: seq<nat>, inputs: seq<Input>, nodes: nat, n: nat): seq<seq<Input>>
    requires destinations != [] && n <= |inputs|
  {
    seq(nodes, i requires 0 <= i < nodes => DealtTo(destinations, inputs, i, n))
  }

  lemma DealtListsNext(destinations: seq<nat>, inputs: seq<Input>, nodes: nat, n: nat)
    requires destinations != [] && 0 < n <= |inputs|
    requires forall k :: 0 <= k < |destinations| ==> destinations[k] < nodes
    ensures var before, d := DealtLists(destinations, inputs, nodes, n - 1), destinations[(n - 1) % |destinations|];
            DealtLists(destinations, inputs, nodes, n) == before[d := before[d] + [inputs[n - 1]]]
  {
    var before, d := DealtLists(destinations, inputs, nodes, n - 1), destinations[(n - 1) % |destinations|];
    forall i | 0 <= i < nodes
      ensures DealtTo(destinations, inputs, i, n) == if i == d then before[d] + [inputs[n - 1]] else before[i]
    {
      assert Goes(destinations, n - 1, i) <==> i == d;
    }
  }

  lemma {:induction false} DealingKeepsInputs(destinations: seq<nat>, inputs: seq<Input>, nodes: nat, n: nat, x: Input)
    requires destinations != [] && n <= |inputs|
    requires forall k :: 0 <= k < |destinations| ==> destinations[k] < nodes
    ensures Stored(DealtLists(destinations, inputs, nodes, n), x) == Copies(inputs[..n], x)
  {
    var lists := DealtLists(destinations, inputs, nodes, n);
    if n == 0 {
      StoredNothing(lists, x);
    } else {
      var before, d := DealtLists(destinations, inputs, nodes, n - 1), destinations[(n - 1) % |destinations|];
      DealingKeepsInputs(destinations, inputs, nodes, n - 1, x);
      DealtListsNext(destinations, inputs, nodes, n);
      StoredUpdate(before, d, before[d] + [inputs[n - 1]], x);
      CopiesConcat(before[d], [inputs[n - 1]], x);
      assert inputs[..n] == inputs[..n - 1] + [inputs[n - 1]];
      CopiesConcat(inputs[..n - 1], [inputs[n - 1]], x);
    }
  }

  function ReverseEach(lists: seq<seq<Input>>): (reversed: seq<seq<Input>>)
    ensures |reversed| == |lists|
  {
    seq(|lists|, i requires 0 <= i < |lists| => Reverse(lists[i]))
  }

  lemma ReversingKeepsInputs(lists: seq<seq<Input>>, x: Input)
    ensures Stored(ReverseEach(lists), x) == Stored(lists, x)
  {
    forall i | 0 <= i < |lists| ensures Copies(Reverse(lists[i]), x) == Copies(lists[i], x) {
      ReverseCopies(lists[i], x);
    }
    assert Parts(ReverseEach(lists), x) == Parts(lists, x);
  }

  lemma {:induction false} EmptyListsHoldNothing(lists: seq<seq<Input>>, more: nat, x: Input)
    ensures Stored(lists + seq(more, _ => []), x) == Stored(lists, x)
    decreases more
  {
    if more == 0 {
      assert lists + seq(more, _ => []) == lists;
    } else {
      EmptyListsHoldNothing(lists, more - 1, x);
      assert lists + seq(more, _ => []) == (lists + seq(more - 1, _ => [])) + [[]];
      StoredAppend(lists + seq(more - 1, _ => []), [], x);
    }
  }

  /** The lists the client starts with: one per node, the nodes still booting having none yet, or
      a single one for all when no node is ready. Each will be popped from its end. */
  function FirstLists(inputs: seq<Input>, ready: seq<nat>, booting: nat): seq<seq<Input>>
    requires ready != [] ==> Destinations(ready) != []
  {
    if ready == [] then [Reverse(inputs)]
    else ReverseEach(DealtLists(Destinations(ready), inputs, |ready|, |inputs|)) + seq(booting, _ => [])
  }

  lemma FirstListsKeepInputs(inputs: seq<Input>, ready: seq<nat>, booting: nat, x: Input)
    requires ready != [] ==> Destinations(ready) != []
    ensures Stored(FirstLists(inputs, ready, booting), x) == Copies(inputs, x)
  {
    if ready == [] {
      ReverseCopies(inputs, x);
      StoredAppend([], Reverse(inputs), x);
      assert [] + [Reverse(inputs)] == [Reverse(inputs)];
    } else {
      var lists := DealtLists(Destinations(ready), inputs, |ready|, |inputs|);
      RoundsNodes(ready, MaxOf(ready));
      DealingKeepsInputs(Destinations(ready), inputs, |ready|, |inputs|, x);
      assert inputs[..|inputs|] == inputs;
      ReversingKeepsInputs(lists, x);
      EmptyListsHoldNothing(ReverseEach(lists), booting, x);
    }
  }

  /** The first lists are popped in the caller's order. Node `i` of those ready gets the inputs at whose turn its
      destination comes and a booting one none; with no node ready one list has them all. */
  lemma FirstListsAreTurns(inputs: seq<Input>, ready: seq<nat>, booting: nat, i: nat, k: nat)
    requires (ready != [] ==> Destinations(ready) != []) && Enumerated(inputs)
    requires k < |inputs| && i < |FirstLists(inputs, ready, booting)|
    ensures var list, d := Reverse(FirstLists(inputs, ready, booting)[i]), Destinations(ready);
            && Increasing(list)
            && (inputs[k] in list <==> ready == [] || (i < |ready| && d[k % |d|] == i))
            && |FirstLists(inputs, ready, booting)| == if ready == [] then 1 else |ready| + booting
  {
    if ready == [] {
      ReverseTwice(inputs);
    } else if i < |ready| {
      var d := Destinations(ready);
      assert FirstLists(inputs, ready, booting)[i] == Reverse(DealtTo(d, inputs, i, |inputs|));
      ReverseTwice(DealtTo(d, inputs, i, |inputs|));
      DealtInOrder(d, inputs, i, |inputs|);
      DealtToOneList(d, inputs, i, |inputs|, k);
    }
  }

  /** Deals the inputs to the ready nodes' destinations and turns every list round. */
  method SplitInputs(inputs: seq<Input>, ready: seq<nat>, booting: nat) returns (lists: seq<seq<Input>>)
    requires ready != [] ==> Destinations(ready) != []
    ensures lists == FirstLists(inputs, ready, booting)
  {
    if ready == [] {
      return [Reverse(inputs)];
    }
    var destinations := BuildDestinations(ready);
    RoundsNodes(ready, MaxOf(ready));
    var dealt := Deal(inputs, destinations, |ready|);
    assert dealt == DealtLists(destinations, inputs, |ready|, |inputs|);
    lists := ReverseEach(dealt) + seq(booting, _ => []);
  }

  /** New list objects with the given contents, no two the same. */
  method MakeLists(contents: seq<seq<Input>>) returns (lists: seq<InputList>)
    ensures |lists| == |contents| && forall i :: 0 <= i < |lists| ==> fresh(lists[i]) && lists[i].items == contents[i]
    ensures forall i, j :: 0 <= i < j < |lists| ==> lists[i] != lists[j]
  {
    lists := [];
    for k := 0 to |contents|
      invariant |lists| == k
      invariant forall i :: 0 <= i < k ==> fresh(lists[i]) && lists[i].items == contents[i]
      invariant forall i, j :: 0 <= i < j < k ==> lists[i] != lists[j]
    {
      var list := new InputList(contents[k]);
      lists := lists + [list];
    }
  }

  /** Popping a chunk takes as many copies off the list as it puts in the chunk. */
  lemma ChunkMovesInputs(lists: seq<seq<Input>>, chunks: seq<seq<Input>>, p: nat, node: nat,
                         chunk: seq<Input>, left: seq<Input>, x: Input)
    requires p < |lists| && node < |chunks| && chunks[node] == []
    requires Reverse(lists[p]) == chunk + Reverse(left)
    ensures Stored(chunks[node := chunk], x) + Stored(lists[p := left], x) == Stored(chunks, x) + Stored(lists, x)
  {
    ReverseCopies(lists[p], x);
    ReverseCopies(left, x);
    CopiesConcat(chunk, Reverse(left), x);
    StoredUpdate(lists, p, left, x);
    StoredUpdate(chunks, node, chunk, x);
  }

  // ---------------------------------------------------------------- the upload

  class ClientUpload {
    ghost const given: seq<Input>          // the caller's inputs
    var nodeLists: seq<InputList>          // node -> the list its task pops; may be shared
    var inputLists: seq<InputList>         // the different lists
    var chunks: seq<seq<Input>>            // node -> inputs popped and not uploaded yet
    var uploaded: seq<Input>

    function Contents(): (contents: seq<seq<Input>>)
      reads this`inputLists, inputLists
      ensures |contents| == |inputLists|
    {
      var lists := inputLists;
      seq(|lists|, i requires 0 <= i < |lists| reads lists => lists[i].items)
    }

    ghost function Total(x: Input): nat
      reads this, inputLists
    {
      Copies(uploaded, x) + Stored(chunks, x) + Stored(Contents(), x)
    }

    predicate Shape()
      reads this
    {
      && |chunks| == |nodeLists|
      && (forall i :: 0 <= i < |nodeLists| ==> nodeLists[i] in inputLists)
      && (forall i, j :: 0 <= i < j < |inputLists| ==> inputLists[i] != inputLists[j])
    }

    /** Every input the caller gave is in one place, as often as it was given. */
    ghost predicate Valid()
      reads this, inputLists
    {
      Shape() && forall x :: Total(x) == Copies(given, x)
    }

    constructor (inputs: seq<Input>, ready: seq<nat>, booting: nat)
      requires ready != [] ==> Destinations(ready) != []
      ensures Valid() && given == inputs && Contents() == FirstLists(inputs, ready, booting)
      ensures |nodeLists| == |ready| + booting && fresh(inputLists)
      ensures |inputLists| == if ready == [] then 1 else |nodeLists|
      ensures forall i :: 0 <= i < |nodeLists| ==> nodeLists[i] == inputLists[if ready == [] then 0 else i]
    {
      given, uploaded := inputs, [];
      chunks := seq(|ready| + booting, _ => []);
      inputLists, nodeLists := [], [];
      new;
      var contents := SplitInputs(inputs, ready, booting);
      inputLists := MakeLists(contents);
      var shared := inputLists;
      nodeLists := if ready == [] then seq(booting, _ => shared[0]) else inputLists;
      assert Contents() == FirstLists(inputs, ready, booting);
      forall x ensures Total(x) == Copies(given, x) {
        FirstListsKeepInputs(inputs, ready, booting, x);
        StoredNothing(chunks, x);
      }
    }

    ghost function Place(list: InputList): (p: nat)
      requires list in inputLists
      reads this
      ensures p < |inputLists| && inputLists[p] == list
    {
      var p :| 0 <= p < |inputLists| && inputLists[p] == list;
      p
    }

    /** A node's task pops its next chunk. An input that is too big ends the job. */
    method PopChunk(node: nat, size: nat) returns (tooBig: Option<nat>)
      requires Valid() && node < |nodeLists| && chunks[node] == []
      modifies this`chunks, nodeLists[node]
      ensures tooBig.None? ==> Valid() && uploaded == old(uploaded)
      ensures |chunks| == |old(chunks)| && forall i :: 0 <= i < |chunks| && i != node ==> chunks[i] == old(chunks)[i]
      ensures ChunkAnswer(Reverse(old(nodeLists[node].items)), size, chunks[node], Reverse(nodeLists[node].items), tooBig)
      ensures forall list :: list in inputLists && list != nodeLists[node] ==> list.items == old(list.items)
    {
      ghost var before, was, p := Contents(), chunks, Place(nodeLists[node]);
      var chunk;
      chunk, tooBig := NextChunk(nodeLists[node], size);
      if tooBig.None? {
        chunks := chunks[node := chunk];
        assert Contents() == before[p := nodeLists[node].items];
        assert Reverse(before[p]) == chunk + Reverse(nodeLists[node].items);
        forall x ensures Total(x) == Copies(given, x) {
          assert old(Total(x)) == Copies(given, x);
          ChunkMovesInputs(before, was, p, node, chunk, nodeLists[node].items, x);
        }
      }
    }

    /** The node has answered the POST that carried the chunk. */
    method FinishChunk(node: nat)
      requires Valid() && node < |nodeLists|
      modifies this`chunks, this`uploaded
      ensures Valid() && uploaded == old(uploaded) + old(chunks[node]) && chunks == old(chunks)[node := []]
    {
      ghost var was, sent := chunks, uploaded;
      uploaded := uploaded + chunks[node];
      chunks := chunks[node := []];
      forall x ensures Total(x) == Copies(given, x) {
        assert old(Total(x)) == Copies(given, x);
        CopiesConcat(sent, was[node], x);
        StoredUpdate(was, node, [], x);
      }
    }

    /** The first of `running` with another list than the removed node is at place `k`. */
    predicate IsRecipient(removed: nat, running: seq<nat>, k: nat)
      requires removed < |nodeLists| && k < |running| && forall j :: 0 <= j < |running| ==> running[j] < |nodeLists|
      reads this`nodeLists
    {
      && nodeLists[running[k]] != nodeLists[removed]
      && (forall j :: 0 <= j < k ==> nodeLists[running[j]] == nodeLists[removed])
    }

    /** The first node in `running` whose list is a different one takes over what a removed node
        has left; with one list for all there is nothing to hand over. */
    method HandOver(removed: nat, running: seq<nat>) returns (moved: bool)
      requires Valid() && removed < |nodeLists| && forall k :: 0 <= k < |running| ==> running[k] < |nodeLists|
      modifies inputLists
      ensures Valid()
      ensures moved <==> old(nodeLists[removed].items) != []
                         && exists k :: 0 <= k < |running| && nodeLists[running[k]] != nodeLists[removed]
      ensures moved ==> nodeLists[removed].items == []
      ensures moved ==>
                exists k :: 0 <= k < |running| && IsRecipient(removed, running, k)
                  && nodeLists[running[k]].items == old(nodeLists[running[k]].items) + old(nodeLists[removed].items)
                  && forall list :: list in inputLists && list != nodeLists[removed] && list != nodeLists[running[k]] ==>
                       list.items == old(list.items)
      ensures !moved ==> Contents() == old(Contents())
    {
      moved := false;
      var leftover := nodeLists[removed];
      var k := 0;
      while k < |running| && nodeLists[running[k]] == leftover
        invariant 0 <= k <= |running|
        invariant forall j :: 0 <= j < k ==> nodeLists[running[j]] == leftover
      {
        k := k + 1;
      }
      if leftover.items == [] || k == |running| {
        return;
      }
      moved := true;
      assert IsRecipient(removed, running, k);
      var recipient := nodeLists[running[k]];
      ghost var before, p, q := Contents(), Place(recipient), Place(leftover);
      recipient.items := recipient.items + leftover.items;
      leftover.items := [];
      assert Contents() == before[p := before[p] + before[q]][q := []];
      forall x ensures Total(x) == Copies(given, x) {
        assert old(Total(x)) == Copies(given, x);
        CopiesConcat(before[p], before[q], x);
        StoredUpdate(before, p, before[p] + before[q], x);
        StoredUpdate(before[p := before[p] + before[q]], q, [], x);
      }
    }

    /** A node that joins later starts with an empty list of its own. */
    method JoinLate()
      requires Valid()
      modifies this`nodeLists, this`inputLists, this`chunks
      ensures Valid() && |nodeLists| == |old(nodeLists)| + 1 && fresh(nodeLists[|old(nodeLists)|])
      ensures nodeLists[|old(nodeLists)|].items == []
      ensures nodeLists[..|old(nodeLists)|] == old(nodeLists)
    {
      ghost var before, was := Contents(), chunks;
      var list := new InputList([]);
      nodeLists, inputLists, chunks := nodeLists + [list], inputLists + [list], chunks + [[]];
      assert Contents() == before + [[]];
      forall x ensures Total(x) == Copies(given, x) {
        assert old(Total(x)) == Copies(given, x);
        StoredAppend(before, [], x);
        StoredAppend(was, [], x);
      }
    }

    /** The client's test for "all inputs uploaded". It looks at the lists only: the last chunks
        may still be on their way. */
    method AllListsEmpty() returns (empty: bool)
      requires Valid()
      ensures empty <==> forall i :: 0 <= i < |inputLists| ==> inputLists[i].items == []
      ensures empty ==> forall x :: Copies(uploaded, x) + Stored(chunks, x) == Copies(given, x)
      ensures empty && (forall i :: 0 <= i < |chunks| ==> chunks[i] == []) ==>
                forall x :: Copies(uploaded, x) == Copies(given, x)
    {
      empty := true;
      for i := 0 to |inputLists|
        invariant empty <==> forall j :: 0 <= j < i ==> inputLists[j].items == []
      {
        if inputLists[i].items != [] {
          empty := false;
        }
      }
      if empty {
        forall x ensures Copies(uploaded, x) + Stored(chunks, x) == Copies(given, x) {
          assert Total(x) == Copies(given, x);
          StoredNothing(Contents(), x);
        }
        if forall i :: 0 <= i < |chunks| ==> chunks[i] == [] {
          forall x ensures Copies(uploaded, x) == Copies(given, x) {
            StoredNothing(chunks, x);
          }
        }
      }
    }
  }
}
