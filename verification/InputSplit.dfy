/** How the client splits a job's inputs over the nodes that are ready: one destination per slot,
    round by round, and inputs dealt to the destinations in turn. */
module InputSplit {
  import opened Arithmetic
  import opened JobTypes

  /** How often a node is among the destinations. */
  function Count(s: seq<nat>, node: nat): nat {
    if s == [] then 0 else (if s[0] == node then 1 else 0) + Count(s[1..], node)
  }

  lemma {:induction false} CountConcat(a: seq<nat>, b: seq<nat>, node: nat)
    ensures Count(a + b, node) == Count(a, node) + Count(b, node)
  {
    if a == [] {
      assert a + b == b;
    } else {
      assert (a + b)[1..] == a[1..] + b;
      CountConcat(a[1..], b, node);
    }
  }

  // ---------------------------------------------------------------- destinations

  /** The nodes that still have a slot in round `slot`, in node order, from node `node` on. */
  function Round(targets: seq<nat>, slot: nat, node: nat): seq<nat>
    requires node <= |targets|
    decreases |targets| - node
  {
    if node == |targets| then []
    else (if slot < targets[node] then [node] else []) + Round(targets, slot, node + 1)
  }

  function Rounds(targets: seq<nat>, slots: nat): seq<nat> {
    if slots == 0 then [] else Rounds(targets, slots - 1) + Round(targets, slots - 1, 0)
  }

  function MaxOf(targets: seq<nat>): nat {
    if targets == [] then 0
    else
      var rest := MaxOf(targets[1..]);
      if targets[0] < rest then rest else targets[0]
  }

  lemma {:induction false} MaxIsBound(targets: seq<nat>, node: nat)
    requires node < |targets|
    ensures targets[node] <= MaxOf(targets)
  {
    if node > 0 {
      MaxIsBound(targets[1..], node - 1);
    }
  }

  function Destinations(targets: seq<nat>): seq<nat> {
    Rounds(targets, MaxOf(targets))
  }

  method BuildDestinations(targets: seq<nat>) returns (destinations: seq<nat>)
    ensures destinations == Destinations(targets)
  {
    destinations := [];
    for slot := 0 to MaxOf(targets)
      invariant destinations == Rounds(targets, slot)
    {
      ghost var before := destinations;
      for node := 0 to |targets|
        invariant destinations + Round(targets, slot, node) == before + Round(targets, slot, 0)
      {
        ghost var rest := Round(targets, slot, node + 1);
        if slot < targets[node] {
          assert destinations + ([node] + rest) == (destinations + [node]) + rest;
          destinations := destinations + [node];
        } else {
          assert [] + rest == rest;
        }
      }
      assert destinations + [] == destinations;
    }
  }

  lemma {:induction false} RoundHas(targets: seq<nat>, slot: nat, from: nat, node: nat)
    requires from <= |targets| && node < |targets|
    ensures Count(Round(targets, slot, from), node) == if from <= node && slot < targets[node] then 1 else 0
    decreases |targets| - from
  {
    if from < |targets| {
      RoundHas(targets, slot, from + 1, node);
      if slot < targets[from] {
        CountConcat([from], Round(targets, slot, from + 1), node);
      } else {
        assert Round(targets, slot, from) == Round(targets, slot, from + 1);
      }
    }
  }

  lemma OneMoreRound(targets: seq<nat>, slots: nat, node: nat)
    requires slots > 0
    ensures Count(Rounds(targets, slots), node)
            == Count(Rounds(targets, slots - 1), node) + Count(Round(targets, slots - 1, 0), node)
  {
    CountConcat(Rounds(targets, slots - 1), Round(targets, slots - 1, 0), node);
  }

  /** A node is among the destinations once for each of its slots. */
  lemma {:induction false} RoundsHave(targets: seq<nat>, slots: nat, node: nat)
    requires node < |targets|
    ensures Count(Rounds(targets, slots), node) == if slots < targets[node] then slots else targets[node]
  {
    if slots > 0 {
      RoundsHave(targets, slots - 1, node);
      RoundHas(targets, slots - 1, 0, node);
      OneMoreRound(targets, slots, node);
    }
  }

  /** A prefix of the destinations is some full rounds and the beginning of another. */
  lemma {:induction false} PrefixIsRounds(targets: seq<nat>, slots: nat, n: nat) returns (full: nat, begun: nat)
    requires n <= |Rounds(targets, slots)|
    ensures begun <= |Round(targets, full, 0)|
    ensures Rounds(targets, slots)[..n] == Rounds(targets, full) + Round(targets, full, 0)[..begun]
  {
    if slots == 0 {
      full, begun := 0, 0;
    } else if n <= |Rounds(targets, slots - 1)| {
      full, begun := PrefixIsRounds(targets, slots - 1, n);
    } else {
      full, begun := slots - 1, n - |Rounds(targets, slots - 1)|;
    }
  }

  /** A round goes through the nodes in order, and through each once. */
  lemma {:induction false} BegunRoundHas(targets: seq<nat>, slot: nat, from: nat, begun: nat, a: nat, b: nat)
    requires from <= |targets| && begun <= |Round(targets, slot, from)| && a < |targets| && b < |targets|
    ensures Count(Round(targets, slot, from)[..begun], b) <= if from <= b && slot < targets[b] then 1 else 0
    ensures from <= a < b && slot < targets[a] && Count(Round(targets, slot, from)[..begun], b) == 1 ==>
              Count(Round(targets, slot, from)[..begun], a) == 1
    decreases |targets| - from
  {
    if from < |targets| && begun > 0 {
      var rest := Round(targets, slot, from + 1);
      if slot < targets[from] {
        assert Round(targets, slot, from)[..begun] == [from] + rest[..begun - 1];
        assert ([from] + rest[..begun - 1])[1..] == rest[..begun - 1];
        BegunRoundHas(targets, slot, from + 1, begun - 1, a, b);
        BegunRoundHas(targets, slot, from + 1, begun - 1, b, a);
      } else {
        assert Round(targets, slot, from) == rest;
        BegunRoundHas(targets, slot, from + 1, begun, a, b);
      }
    }
  }

  /** The nodes take turns: as long as a node has a slot left, no other is more than one ahead of it, and no
      later one is ahead at all. */
  predicate TakesTurns(given: nat, all: nat, other: nat, isLater: bool) {
    given == all || other <= given + (if isLater then 0 else 1)
  }

  lemma NodesTakeTurns(targets: seq<nat>, n: nat, a: nat, b: nat)
    requires n <= |Destinations(targets)| && a < |targets| && b < |targets|
    ensures var given := Destinations(targets)[..n];
            TakesTurns(Count(given, a), targets[a], Count(given, b), a < b)
  {
    var full, begun := PrefixIsRounds(targets, MaxOf(targets), n);
    var round := Round(targets, full, 0)[..begun];
    CountConcat(Rounds(targets, full), round, a);
    CountConcat(Rounds(targets, full), round, b);
    RoundsHave(targets, full, a);
    RoundsHave(targets, full, b);
    BegunRoundHas(targets, full, 0, begun, a, b);
    BegunRoundHas(targets, full, 0, begun, b, a);
  }

  lemma DestinationsPerNode(targets: seq<nat>, node: nat)
    requires node < |targets|
    ensures Count(Destinations(targets), node) == targets[node]
  {
    MaxIsBound(targets, node);
    RoundsHave(targets, MaxOf(targets), node);
  }

  lemma {:induction false} RoundNodes(targets: seq<nat>, slot: nat, from: nat)
    requires from <= |targets|
    ensures forall k :: 0 <= k < |Round(targets, slot, from)| ==> Round(targets, slot, from)[k] < |targets|
    decreases |targets| - from
  {
    if from < |targets| {
      RoundNodes(targets, slot, from + 1);
    }
  }

  lemma {:induction false} RoundsNodes(targets: seq<nat>, slots: nat)
    ensures forall k :: 0 <= k < |Rounds(targets, slots)| ==> Rounds(targets, slots)[k] < |targets|
  {
    if slots > 0 {
      RoundsNodes(targets, slots - 1);
      RoundNodes(targets, slots - 1, 0);
    }
  }

  // ---------------------------------------------------------------- dealing

  /** Input `k` goes to `node`. */
  predicate Goes(destinations: seq<nat>, k: nat, node: nat)
    requires destinations != []
  {
    destinations[k % |destinations|] == node
  }

  /** The inputs among the first `n` that go to `node`, in order. */
  function DealtTo(destinations: seq<nat>, inputs: seq<Input>, node: nat, n: nat): seq<Input>
    requires n <= |inputs| && destinations != []
  {
    if n == 0 then []
    else DealtTo(destinations, inputs, node, n - 1)
         + if Goes(destinations, n - 1, node) then [inputs[n - 1]] else []
  }

  /** How many of the first `n` inputs go to `node`. */
  function Share(destinations: seq<nat>, node: nat, n: nat): nat
    requires destinations != []
  {
    if n == 0 then 0
    else Share(destinations, node, n - 1) + if Goes(destinations, n - 1, node) then 1 else 0
  }

  lemma {:induction false} DealtShare(destinations: seq<nat>, inputs: seq<Input>, node: nat, n: nat)
    requires n <= |inputs| && destinations != []
    ensures |DealtTo(destinations, inputs, node, n)| == Share(destinations, node, n)
  {
    if n > 0 {
      DealtShare(destinations, inputs, node, n - 1);
    }
  }

  lemma {:induction false} ShareWithinPeriod(destinations: seq<nat>, node: nat, periods: nat, n: nat)
    requires destinations != [] && n <= |destinations|
    ensures Share(destinations, node, periods * |destinations| + n)
            == Share(destinations, node, periods * |destinations|) + Count(destinations[..n], node)
    decreases n
  {
    if n > 0 {
      ShareWithinPeriod(destinations, node, periods, n - 1);
      DivideIs(periods * |destinations| + (n - 1), |destinations|, periods, n - 1);
      assert destinations[..n] == destinations[..n - 1] + [destinations[n - 1]];
      CountConcat(destinations[..n - 1], [destinations[n - 1]], node);
    }
  }

  /** Every full turn over the destinations gives a node as many inputs as it has slots. */
  lemma {:induction false} SharePerPeriod(destinations: seq<nat>, node: nat, periods: nat)
    requires destinations != []
    ensures Share(destinations, node, periods * |destinations|) == periods * Count(destinations, node)
  {
    if periods > 0 {
      SharePerPeriod(destinations, node, periods - 1);
      ShareWithinPeriod(destinations, node, periods - 1, |destinations|);
      assert destinations[..|destinations|] == destinations;
      Distribute(periods, |destinations|);
      Distribute(periods, Count(destinations, node));
    }
  }

  lemma {:induction false} ShareGrows(destinations: seq<nat>, node: nat, n: nat, m: nat)
    requires destinations != [] && n <= m
    ensures Share(destinations, node, n) <= Share(destinations, node, m)
    decreases m
  {
    if n < m {
      ShareGrows(destinations, node, n, m - 1);
    }
  }

  lemma Turns(n: nat, p: nat) returns (full: nat, started: nat)
    requires p > 0
    ensures full == n / p && started == (n + p - 1) / p
    ensures full * p <= n <= started * p
  {
    full, started := n / p, (n + p - 1) / p;
    DivideParts(n, p);
    DivideParts(n + p - 1, p);
  }

  /** A node with t of all P slots gets at least t * floor(N / P) and at most t * ceil(N / P) of N inputs. */
  lemma ShareIsProportional(targets: seq<nat>, inputs: seq<Input>, node: nat)
    requires node < |targets| && Destinations(targets) != []
    ensures var p, n := |Destinations(targets)|, |inputs|;
            (n / p) * targets[node] <= |DealtTo(Destinations(targets), inputs, node, n)| <= ((n + p - 1) / p) * targets[node]
  {
    var destinations, n := Destinations(targets), |inputs|;
    DestinationsPerNode(targets, node);
    DealtShare(destinations, inputs, node, n);
    var full, started := Turns(n, |destinations|);
    ShareBetween(destinations, node, full, started, n);
  }

  lemma ShareBetween(destinations: seq<nat>, node: nat, full: nat, started: nat, n: nat)
    requires destinations != [] && full * |destinations| <= n <= started * |destinations|
    ensures full * Count(destinations, node) <= Share(destinations, node, n) <= started * Count(destinations, node)
  {
    SharePerPeriod(destinations, node, full);
    SharePerPeriod(destinations, node, started);
    ShareGrows(destinations, node, full * |destinations|, n);
    ShareGrows(destinations, node, n, started * |destinations|);
  }

  /** A node's inputs are those of the full turns and those of the turn begun. */
  lemma ShareInTurns(destinations: seq<nat>, node: nat, full: nat, begun: nat)
    requires destinations != [] && begun <= |destinations|
    ensures Share(destinations, node, full * |destinations| + begun)
            == full * Count(destinations, node) + Count(destinations[..begun], node)
  {
    SharePerPeriod(destinations, node, full);
    ShareWithinPeriod(destinations, node, full, begun);
  }

  /** What a node gets beyond its slots' worth of the `full` turns. */
  function Leftover(targets: seq<nat>, inputs: seq<Input>, full: nat, node: nat): int
    requires node < |targets| && Destinations(targets) != []
  {
    |DealtTo(Destinations(targets), inputs, node, |inputs|)| - full * targets[node]
  }

  lemma LeftoverIsTurnBegun(targets: seq<nat>, inputs: seq<Input>, full: nat, begun: nat, node: nat)
    requires node < |targets| && Destinations(targets) != [] && begun <= |Destinations(targets)|
    requires |inputs| == full * |Destinations(targets)| + begun
    ensures Leftover(targets, inputs, full, node) == Count(Destinations(targets)[..begun], node)
  {
    DestinationsPerNode(targets, node);
    DealtShare(Destinations(targets), inputs, node, |inputs|);
    ShareInTurns(Destinations(targets), node, full, begun);
  }

  /** Of the inputs left over after the full turns, the nodes with a slot left each have one before any has a
      second, earlier nodes first. */
  lemma LeftoversAreSpread(targets: seq<nat>, inputs: seq<Input>, a: nat, b: nat)
    requires a < |targets| && b < |targets| && Destinations(targets) != []
    ensures var full := |inputs| / |Destinations(targets)|;
            && Leftover(targets, inputs, full, a) >= 0 && Leftover(targets, inputs, full, b) >= 0
            && TakesTurns(Leftover(targets, inputs, full, a), targets[a], Leftover(targets, inputs, full, b), a < b)
  {
    var p := |Destinations(targets)|;
    var full, begun := |inputs| / p, |inputs| % p;
    DivideParts(|inputs|, p);
    NodesTakeTurns(targets, begun, a, b);
    LeftoverIsTurnBegun(targets, inputs, full, begun, a);
    LeftoverIsTurnBegun(targets, inputs, full, begun, b);
  }

  /** The inputs are a client's list: each at its own position. */
  predicate Enumerated(inputs: seq<Input>) {
    forall k :: 0 <= k < |inputs| ==> inputs[k].index == k
  }

  /** Every list holds inputs of the client's list, in increasing order of position. */
  lemma {:induction false} DealtInOrder(destinations: seq<nat>, inputs: seq<Input>, node: nat, n: nat)
    requires n <= |inputs| && destinations != [] && Enumerated(inputs)
    ensures var list := DealtTo(destinations, inputs, node, n);
            && Increasing(list)
            && (forall i :: 0 <= i < |list| ==> list[i].index < n && list[i] == inputs[list[i].index])
  {
    if n > 0 {
      var before := DealtTo(destinations, inputs, node, n - 1);
      DealtInOrder(destinations, inputs, node, n - 1);
      if Goes(destinations, n - 1, node) {
        IncreasingAppend(before, inputs[n - 1]);
      }
    }
  }

  predicate Increasing(list: seq<Input>) {
    forall i, j :: 0 <= i < j < |list| ==> list[i].index < list[j].index
  }

  lemma IncreasingAppend(list: seq<Input>, next: Input)
    requires Increasing(list) && forall i :: 0 <= i < |list| ==> list[i].index < next.index
    ensures Increasing(list + [next])
  {
  }

  /** Input `k` is in the list of the node it goes to and in no other; the lists being increasing,
      it is there once. */
  lemma {:induction false} DealtToOneList(destinations: seq<nat>, inputs: seq<Input>, node: nat, n: nat, k: nat)
    requires k < |inputs| && n <= |inputs| && destinations != [] && Enumerated(inputs)
    ensures inputs[k] in DealtTo(destinations, inputs, node, n) <==> k < n && destinations[k % |destinations|] == node
  {
    if n > 0 {
      DealtToOneList(destinations, inputs, node, n - 1, k);
    }
  }

  /** The loop that deals the inputs out to the nodes' lists. */
  method Deal(inputs: seq<Input>, destinations: seq<nat>, nodes: nat) returns (lists: seq<seq<Input>>)
    requires destinations != [] && forall k :: 0 <= k < |destinations| ==> destinations[k] < nodes
    ensures |lists| == nodes
    ensures forall i :: 0 <= i < nodes ==> lists[i] == DealtTo(destinations, inputs, i, |inputs|)
  {
    lists := seq(nodes, _ => []);
    for k := 0 to |inputs|
      invariant |lists| == nodes
      invariant forall i :: 0 <= i < nodes ==> lists[i] == DealtTo(destinations, inputs, i, k)
    {
      var destination := destinations[k % |destinations|];
      lists := lists[destination := lists[destination] + [inputs[k]]];
    }
  }
}
