/** Stealing spreads the queued inputs over the ring of a job's nodes: every steal that moves
    something makes the queues more equal, and once none can, no node is far behind another. */
module QueueBalance {
  import opened Arithmetic
  import opened JobTypes
  import opened NodeInputs

  /** The ring of nodes sorted by name: each steals from the next one, the last from the first. */
  function Neighbor(i: nat, n: nat): (d: nat)
    requires i < n
    ensures d < n
  {
    if i + 1 == n then 0 else i + 1
  }

  /** Node `i` steals from its neighbor, reporting its queue as it is. */
  function Steal(queues: seq<seq<Input>>, i: nat): (queues': seq<seq<Input>>)
    requires i < |queues|
    ensures |queues'| == |queues|
  {
    var d := Neighbor(i, |queues|);
    var target := StealTarget(|queues[d]|, |queues[i]|);
    var left := queues[d := BeforeTail(queues[d], target)];
    left[i := left[i] + TailOf(queues[d], target)]
  }

  function Moved(queues: seq<seq<Input>>, i: nat): nat
    requires i < |queues|
  {
    var d := Neighbor(i, |queues|);
    StealCount(queues[d], StealTarget(|queues[d]|, |queues[i]|))
  }

  /** A steal moves at most half the difference, and nothing exactly when the donor is at most one
      input ahead. */
  lemma StealMovesExactlyWhen(queues: seq<seq<Input>>, i: nat)
    requires i < |queues|
    ensures var d := Neighbor(i, |queues|);
            && (Moved(queues, i) > 0 ==> 2 * Moved(queues, i) <= |queues[d]| - |queues[i]|)
            && (Moved(queues, i) == 0 <==> |queues[d]| <= |queues[i]| + 1)
  {
  }

  /** After a steal the donor is not behind the requester, unless it was before, and at most one input
      ahead, unless the next input of its tail would not have fitted beside those taken. */
  lemma StealEvensOut(queues: seq<seq<Input>>, i: nat)
    requires i < |queues| && |queues| > 1
    ensures var d, after := Neighbor(i, |queues|), Steal(queues, i);
            && |after[d]| <= |queues[d]| && queues[d][..|after[d]|] == after[d]
            && after[i] == queues[i] + queues[d][|after[d]|..]
            && (forall j :: 0 <= j < |queues| && j != i && j != d ==> after[j] == queues[j])
            && (after[d] != queues[d] ==> |after[i]| <= |after[d]|)
            && (|after[d]| > |after[i]| + 1 ==>
                  after[d] != queues[d] && TotalBytes(queues[d][|after[d]| - 1..]) > 3_000_000)
  {
    var d := Neighbor(i, |queues|);
    var n := EMPTY_INBOX.(queue := queues[d]);
    TakingIsFair(n, |queues[i]|);
    var left, given := LeftInQueue(n, |queues[i]|), TakenFromQueue(n, |queues[i]|);
    assert Steal(queues, i)[d] == left && Steal(queues, i)[i] == queues[i] + given;
    if |left| > 0 {
      assert queues[d][|left| - 1..] == [left[|left| - 1]] + given;
      assert queues[d][|left| - 1..][1..] == given;
    }
  }

  // ---------------------------------------------------------------- the queues grow more equal

  function Squares(queues: seq<seq<Input>>): (squares: seq<nat>)
    ensures |squares| == |queues|
    ensures forall i :: 0 <= i < |queues| ==> squares[i] == |queues[i]| * |queues[i]|
  {
    seq(|queues|, i requires 0 <= i < |queues| => |queues[i]| * |queues[i]|)
  }

  function Imbalance(queues: seq<seq<Input>>): nat {
    Sum(Squares(queues))
  }

  lemma SquaresFall(a: nat, b: nat, m: nat)
    requires 0 < m && 2 * m <= a - b
    ensures (a - m) * (a - m) + (b + m) * (b + m) + 2 * (m * m) <= a * a + b * b
  {
  }

  lemma ImbalanceUpdate(queues: seq<seq<Input>>, i: nat, queue: seq<Input>)
    requires i < |queues|
    ensures Imbalance(queues[i := queue]) + |queues[i]| * |queues[i]| == Imbalance(queues) + |queue| * |queue|
  {
    assert Squares(queues[i := queue]) == Squares(queues)[i := |queue| * |queue|];
    SumUpdate(Squares(queues), i, |queue| * |queue|);
  }

  /** A steal that moves `m` inputs lowers the sum of squared queue lengths by at least 2 m^2. */
  lemma StealBalances(queues: seq<seq<Input>>, i: nat)
    requires i < |queues|
    ensures var m := Moved(queues, i); Imbalance(Steal(queues, i)) + 2 * (m * m) <= Imbalance(queues)
    ensures Moved(queues, i) == 0 ==> Steal(queues, i) == queues
  {
    var d, m := Neighbor(i, |queues|), Moved(queues, i);
    StealMovesExactlyWhen(queues, i);
    var target := StealTarget(|queues[d]|, |queues[i]|);
    if m > 0 {
      assert d != i;
      var left := queues[d := BeforeTail(queues[d], target)];
      ImbalanceUpdate(queues, d, BeforeTail(queues[d], target));
      ImbalanceUpdate(left, i, left[i] + TailOf(queues[d], target));
      SquaresFall(|queues[d]|, |queues[i]|, m);
    } else {
      assert BeforeTail(queues[d], target) == queues[d] && TailOf(queues[d], target) == [];
      assert queues[i] + [] == queues[i];
      assert Steal(queues, i) == queues && m * m == 0;
    }
  }

  /** A run of steals while nothing is run or uploaded. */
  function AfterSteals(queues: seq<seq<Input>>, steals: seq<nat>): (queues': seq<seq<Input>>)
    requires forall k :: 0 <= k < |steals| ==> steals[k] < |queues|
    ensures |queues'| == |queues|
    decreases |steals|
  {
    if steals == [] then queues else AfterSteals(Steal(queues, steals[0]), steals[1..])
  }

  function NonEmptySteals(queues: seq<seq<Input>>, steals: seq<nat>): nat
    requires forall k :: 0 <= k < |steals| ==> steals[k] < |queues|
    decreases |steals|
  {
    if steals == [] then 0
    else (if Moved(queues, steals[0]) > 0 then 1 else 0) + NonEmptySteals(Steal(queues, steals[0]), steals[1..])
  }

  /** So stealing settles: a ring can make only so many steals that move anything. */
  lemma {:induction false} StealingSettles(queues: seq<seq<Input>>, steals: seq<nat>)
    requires forall k :: 0 <= k < |steals| ==> steals[k] < |queues|
    ensures Imbalance(AfterSteals(queues, steals)) + 2 * NonEmptySteals(queues, steals) <= Imbalance(queues)
    decreases |steals|
  {
    if steals != [] {
      var m := Moved(queues, steals[0]);
      StealBalances(queues, steals[0]);
      if m > 0 {
        AtLeastOnce(m, m);
      }
      StealingSettles(Steal(queues, steals[0]), steals[1..]);
    }
  }

  // ---------------------------------------------------------------- the settled ring

  predicate Settled(queues: seq<seq<Input>>) {
    forall i :: 0 <= i < |queues| ==> Moved(queues, i) == 0
  }

  /** Following the ring `steps` nodes from `i`. */
  function Ahead(i: nat, steps: nat, n: nat): (j: nat)
    requires i < n
    ensures j < n
  {
    if steps == 0 then i else Neighbor(Ahead(i, steps - 1, n), n)
  }

  lemma {:induction false} SettledGrowsSlowly(queues: seq<seq<Input>>, i: nat, steps: nat)
    requires Settled(queues) && i < |queues|
    ensures |queues[Ahead(i, steps, |queues|)]| <= |queues[i]| + steps
  {
    if steps > 0 {
      SettledGrowsSlowly(queues, i, steps - 1);
      StealMovesExactlyWhen(queues, Ahead(i, steps - 1, |queues|));
    }
  }

  lemma {:induction false} AheadReaches(i: nat, n: nat, steps: nat)
    requires i < n && steps < n
    ensures Ahead(i, steps, n) == if i + steps < n then i + steps else i + steps - n
  {
    if steps > 0 {
      AheadReaches(i, n, steps - 1);
    }
  }

  /** When no steal can move anything, no queue is longer than another by more than n - 1; so while
      a node of the ring is empty, none has more than n - 1 inputs. */
  lemma SettledRingIsLevel(queues: seq<seq<Input>>, i: nat, j: nat)
    requires Settled(queues) && i < |queues| && j < |queues|
    ensures |queues[j]| <= |queues[i]| + |queues| - 1
  {
    var n := |queues|;
    var steps := if i <= j then j - i else j + n - i;
    SettledGrowsSlowly(queues, i, steps);
    AheadReaches(i, n, steps);
  }
}
