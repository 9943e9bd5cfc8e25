/** Bookkeeping of the nested calls of one run: every call gets an index when it starts and a depth
    one past the deepest call that had returned by then. */
module NestedCalls {

  /** For every call, the calls that had returned when it started. */
  type Past = map<nat, set<nat>>

  predicate Precedes(past: Past, a: nat, b: nat) {
    b in past && a in past[b]
  }

  /** Each call of the chain had returned when the next one started. */
  predicate IsChain(past: Past, calls: seq<nat>) {
    && (forall k :: 0 <= k < |calls| ==> calls[k] in past)
    && forall k :: 0 < k < |calls| ==> Precedes(past, calls[k - 1], calls[k])
  }

  predicate ChainTo(past: Past, calls: seq<nat>, last: nat) {
    IsChain(past, calls) && calls != [] && calls[|calls| - 1] == last
  }

  /** What the code computes for each call: one past the deepest call before it, or 0. */
  ghost predicate DepthsOk(past: Past, depths: map<nat, nat>) {
    && (forall b: nat :: b in past <==> b in depths)
    && (forall b: nat :: b in past ==> DepthOk(past, depths, b))
  }

  predicate DepthOk(past: Past, depths: map<nat, nat>, b: nat)
    requires b in past && b in depths
  {
    && (forall a: nat :: a in past[b] ==> a < b && a in depths && depths[a] < depths[b])
    && (depths[b] > 0 ==> exists a: nat :: a in past[b] && a in depths && depths[a] + 1 == depths[b])
  }

  lemma NewCallDepth(past: Past, depths: map<nat, nat>, call: nat, returned: set<nat>, depth: nat)
    requires forall c: nat :: c in returned ==> c < call && c in depths && depths[c] < depth
    requires depth > 0 ==> exists c: nat :: c in returned && c in depths && depths[c] + 1 == depth
    ensures DepthOk(past[call := returned], depths[call := depth], call)
  {
    var past', depths' := past[call := returned], depths[call := depth];
    forall a: nat | a in past'[call] ensures a < call && a in depths' && depths'[a] < depths'[call] {
      assert a in returned && a != call;
    }
    if depth > 0 {
      var c: nat :| c in returned && c in depths && depths[c] + 1 == depth;
      assert c in past'[call] && c in depths' && depths'[c] + 1 == depths'[call];
    }
  }

  lemma OldCallDepth(past: Past, depths: map<nat, nat>, call: nat, returned: set<nat>, depth: nat, b: nat)
    requires b in past && b in depths && b < call && DepthOk(past, depths, b)
    ensures DepthOk(past[call := returned], depths[call := depth], b)
  {
    var past', depths' := past[call := returned], depths[call := depth];
    assert past'[b] == past[b] && depths'[b] == depths[b];
    forall a: nat | a in past'[b] ensures a < b && a in depths' && depths'[a] < depths'[b] {
      assert a in past[b] && a != call;
    }
    if depths[b] > 0 {
      var a: nat :| a in past[b] && a in depths && depths[a] + 1 == depths[b];
      assert a in past'[b] && a in depths' && depths'[a] + 1 == depths'[b];
    }
  }

  lemma NewCallKeepsDepths(past: Past, depths: map<nat, nat>, call: nat, returned: set<nat>, depth: nat)
    requires DepthsOk(past, depths) && call !in past
    requires forall c: nat :: c in past ==> c < call
    requires forall c: nat :: c in returned ==> c < call && c in depths && depths[c] < depth
    requires depth > 0 ==> exists c: nat :: c in returned && c in depths && depths[c] + 1 == depth
    ensures DepthsOk(past[call := returned], depths[call := depth])
  {
    forall b: nat | b in past ensures DepthOk(past[call := returned], depths[call := depth], b) {
      OldCallDepth(past, depths, call, returned, depth, b);
    }
    NewCallDepth(past, depths, call, returned, depth);
  }

  class NestedRun {
    var nextIndex: nat
    var depths: map<nat, nat>
    var returned: set<nat>
    ghost var past: Past

    ghost predicate Valid()
      reads this
    {
      && (forall call: nat :: call in past <==> call < nextIndex)
      && (forall call: nat :: call in returned ==> call < nextIndex)
      && DepthsOk(past, depths)
    }

    constructor ()
      ensures Valid() && past == map[] && returned == {}
    {
      nextIndex, depths, returned, past := 0, map[], {}, map[];
    }

    /** `_nested_call_context` */
    method StartCall() returns (call: nat, depth: nat)
      requires Valid()
      modifies this`nextIndex, this`depths, this`past
      ensures Valid() && call == old(nextIndex) && nextIndex == call + 1
      ensures past == old(past)[call := returned] && depths == old(depths)[call := depth]
    {
      call := nextIndex;
      nextIndex := nextIndex + 1;
      depth := MaxDepthOfReturned();
      NewCallKeepsDepths(past, depths, call, returned, depth);
      depths := depths[call := depth];
      past := past[call := returned];
    }

    /** One past the largest depth among the calls that have returned; 0 when none has. */
    method MaxDepthOfReturned() returns (depth: nat)
      requires forall c :: c in returned ==> c in depths
      ensures forall c :: c in returned ==> depths[c] < depth
      ensures depth > 0 ==> exists c :: c in returned && depths[c] + 1 == depth
    {
      depth := 0;
      var left := returned;
      while |left| > 0
        invariant left <= returned
        invariant forall c :: c in returned && c !in left ==> depths[c] < depth
        invariant depth > 0 ==> exists c :: c in returned && depths[c] + 1 == depth
        decreases |left|
      {
        var c :| c in left;
        if depths[c] + 1 > depth {
          depth := depths[c] + 1;
        }
        left := left - {c};
      }
    }

    /** `_mark_nested_call_returned` */
    method MarkReturned(call: nat)
      requires Valid() && call < nextIndex
      modifies this`returned
      ensures Valid() && returned == old(returned) + {call}
    {
      returned := returned + {call};
    }
  }

  // ---------------------------------------------------------------- what depths mean

  lemma ChainExtends(past: Past, calls: seq<nat>, last: nat, call: nat)
    requires ChainTo(past, calls, last) && Precedes(past, last, call)
    ensures ChainTo(past, calls + [call], call)
  {
    var longer := calls + [call];
    forall k | 0 < k < |longer| ensures Precedes(past, longer[k - 1], longer[k]) {
      assert k < |calls| ==> Precedes(past, calls[k - 1], calls[k]);
    }
  }

  lemma {:induction false} DepthHasChain(past: Past, depths: map<nat, nat>, call: nat) returns (calls: seq<nat>)
    requires DepthsOk(past, depths) && call in past
    ensures ChainTo(past, calls, call) && |calls| == depths[call] + 1
    decreases call
  {
    assert DepthOk(past, depths, call);
    if depths[call] == 0 {
      calls := [call];
    } else {
      var before :| before in past[call] && before in depths && depths[before] + 1 == depths[call];
      var prefix := DepthHasChain(past, depths, before);
      ChainExtends(past, prefix, before, call);
      calls := prefix + [call];
    }
  }

  lemma LastLink(past: Past, depths: map<nat, nat>, calls: seq<nat>, call: nat)
    requires DepthsOk(past, depths) && ChainTo(past, calls, call) && |calls| > 1
    ensures ChainTo(past, calls[..|calls| - 1], calls[|calls| - 2])
    ensures call in depths && calls[|calls| - 2] in depths && depths[calls[|calls| - 2]] < depths[call]
  {
  }

  lemma {:induction false} ChainsAreNoLonger(past: Past, depths: map<nat, nat>, calls: seq<nat>, call: nat)
    requires DepthsOk(past, depths) && ChainTo(past, calls, call)
    ensures |calls| <= depths[call] + 1
  {
    var n := |calls|;
    if n > 1 {
      LastLink(past, depths, calls, call);
      ChainsAreNoLonger(past, depths, calls[..n - 1], calls[n - 2]);
    }
  }

  /** The recorded depth is the length of the longest chain of calls, each returned before the next
      started, that ends at the call (not counting the call itself). */
  lemma DepthIsLongestChain(past: Past, depths: map<nat, nat>, call: nat, length: nat)
    requires DepthsOk(past, depths) && call in past
    ensures depths[call] == length
            <==> (exists calls :: ChainTo(past, calls, call) && |calls| == length + 1)
                 && (forall calls :: ChainTo(past, calls, call) ==> |calls| <= length + 1)
  {
    var longest := DepthHasChain(past, depths, call);
    forall calls | ChainTo(past, calls, call) ensures |calls| <= depths[call] + 1 {
      ChainsAreNoLonger(past, depths, calls, call);
    }
  }

  /** A call that follows another through any chain is deeper than it, so calls at the same depth
      always overlap: neither had returned when the other started. */
  lemma {:induction false} LaterIsDeeper(past: Past, depths: map<nat, nat>, calls: seq<nat>, call: nat)
    requires DepthsOk(past, depths) && ChainTo(past, calls, call)
    ensures calls[0] in depths && depths[calls[0]] + |calls| <= depths[call] + 1
  {
    var n := |calls|;
    if n > 1 {
      LastLink(past, depths, calls, call);
      LaterIsDeeper(past, depths, calls[..n - 1], calls[n - 2]);
    }
  }

  lemma SameDepthOverlaps(past: Past, depths: map<nat, nat>, a: nat, b: nat)
    requires DepthsOk(past, depths) && a in past && b in past && depths[a] == depths[b]
    ensures !Precedes(past, a, b) && !Precedes(past, b, a)
    ensures a != b ==> !exists calls :: ChainTo(past, calls, b) && calls[0] == a
  {
    assert DepthOk(past, depths, a) && DepthOk(past, depths, b);
    forall calls | ChainTo(past, calls, b) && calls[0] == a ensures a == b {
      LaterIsDeeper(past, depths, calls, b);
    }
  }
}
