/** The order in which a node runs its inputs: as they came to it, whichever way they came. */
module InputOrder {
  import opened JobTypes
  import opened NodeInputs
  import opened InputTransfer
  import O = InputOwnership

  /** What a step brings to node `i`: an upload, a batch taken from a donor, a refused batch back, or the input
      of a worker that gives it back. */
  function Arrives(w: World, step: Step, i: nat): seq<Input>
    requires Enabled(w, step)
  {
    match step
    case HandlePost(c) => if w.chunks[c].node == i then w.chunks[c].items else []
    case ReceiveItems(n, items, hasSlots) => if n == i && hasSlots then items else []
    case HandleAck(id, received) =>
      if w.transfers[id].donor == i && !received && id in w.nodes[i].parked then w.nodes[i].parked[id] else []
    case Requeue(n, k) => if n == i then [w.nodes[i].workers[k].input] else []
    case _ => []
  }

  predicate IsRunning(w: World, i: nat, k: nat) {
    i < |w.nodes| && k < |w.nodes[i].workers| && w.nodes[i].workers[k].Running?
  }

  /** The input that a worker of node `i` is running after it has taken one. */
  function Begins(w: World, step: Step, i: nat): seq<Input>
    requires Enabled(w, step)
  {
    if step.TakeInput? && step.node == i && IsRunning(Apply(w, step), i, step.worker)
    then [Apply(w, step).nodes[i].workers[step.worker].input] else []
  }

  /** Nothing is donated by the node, and it stays on the job. */
  predicate KeepsItsInputs(w: World, step: Step, i: nat)
    requires Enabled(w, step)
  {
    && (step.HandleGet? ==> w.transfers[step.id].donor != i)
    && (step.Leave? || step.Reset? ==> step.node != i)
  }

  lemma OtherStepsKeepQueue(w: World, step: Step, i: nat)
    requires i < |w.nodes| && Enabled(w, step) && KeepsItsInputs(w, step, i)
    requires !step.HandlePost? && !step.ReceiveItems? && !step.HandleAck? && !step.Requeue? && !step.TakeInput?
    ensures i < |Apply(w, step).nodes| && Apply(w, step).nodes[i].queue == w.nodes[i].queue
  {
  }

  lemma TakingKeepsOrder(w: World, step: Step, i: nat)
    requires i < |w.nodes| && Enabled(w, step) && step.TakeInput?
    ensures i < |Apply(w, step).nodes|
    ensures w.nodes[i].queue == Begins(w, step, i) + Apply(w, step).nodes[i].queue
  {
    if step.node == i {
      assert Begins(w, step, i) == [w.nodes[i].queue[0]];
    } else {
      assert Begins(w, step, i) == [];
    }
  }

  lemma ArrivingKeepsOrder(w: World, step: Step, i: nat)
    requires i < |w.nodes| && Enabled(w, step) && (step.HandlePost? || step.ReceiveItems? || step.HandleAck? || step.Requeue?)
    ensures i < |Apply(w, step).nodes|
    ensures w.nodes[i].queue + Arrives(w, step, i) == Apply(w, step).nodes[i].queue
  {
    assert w.nodes[i].queue + [] == w.nodes[i].queue;
  }

  lemma StepKeepsOrder(w: World, step: Step, i: nat)
    requires i < |w.nodes| && Enabled(w, step) && KeepsItsInputs(w, step, i)
    ensures i < |Apply(w, step).nodes|
    ensures w.nodes[i].queue + Arrives(w, step, i) == Begins(w, step, i) + Apply(w, step).nodes[i].queue
  {
    if step.TakeInput? {
      TakingKeepsOrder(w, step, i);
    } else if step.HandlePost? || step.ReceiveItems? || step.HandleAck? || step.Requeue? {
      ArrivingKeepsOrder(w, step, i);
    } else {
      OtherStepsKeepQueue(w, step, i);
    }
  }

  /** `part` is `whole` with some elements left out: the order is the same. */
  predicate IsWithin<T(==)>(part: seq<T>, whole: seq<T>) {
    if part == [] then true
    else whole != [] && ((part[0] == whole[0] && IsWithin(part[1..], whole[1..])) || IsWithin(part, whole[1..]))
  }

  lemma {:induction false} IsWithinItself<T>(s: seq<T>, rest: seq<T>)
    ensures IsWithin(s, s + rest)
  {
    if s != [] {
      assert (s + rest)[1..] == s[1..] + rest;
      IsWithinItself(s[1..], rest);
    }
  }

  lemma {:induction false} WithinLonger<T>(part: seq<T>, whole: seq<T>, more: seq<T>)
    requires IsWithin(part, whole)
    ensures IsWithin(part + more, whole + more)
  {
    if whole == [] {
      assert part + more == more && whole + more == more && more + [] == more;
      IsWithinItself(more, []);
    } else {
      assert (whole + more)[1..] == whole[1..] + more;
      if part == [] {
        assert [] + more == more;
        WithinLonger([], whole[1..], more);
        if more != [] {
          assert IsWithin(more, (whole + more)[1..]);
        }
      } else if part[0] == whole[0] && IsWithin(part[1..], whole[1..]) {
        assert (part + more)[1..] == part[1..] + more;
        WithinLonger(part[1..], whole[1..], more);
      } else {
        WithinLonger(part, whole[1..], more);
      }
    }
  }

  lemma {:induction false} WithinAfter<T>(first: seq<T>, part: seq<T>, whole: seq<T>)
    requires IsWithin(part, whole)
    ensures IsWithin(first + part, first + whole)
  {
    if first == [] {
      assert first + part == part && first + whole == whole;
    } else {
      assert (first + part)[1..] == first[1..] + part && (first + whole)[1..] == first[1..] + whole;
      WithinAfter(first[1..], part, whole);
    }
  }

  lemma {:induction false} WithinWithin<T>(a: seq<T>, b: seq<T>, c: seq<T>)
    requires IsWithin(a, b) && IsWithin(b, c)
    ensures IsWithin(a, c)
    decreases |c|
  {
    if a != [] {
      if b[0] == c[0] && IsWithin(b[1..], c[1..]) {
        if a[0] == b[0] && IsWithin(a[1..], b[1..]) {
          WithinWithin(a[1..], b[1..], c[1..]);
        } else {
          WithinWithin(a, b[1..], c[1..]);
        }
      } else {
        WithinWithin(a, b, c[1..]);
      }
    }
  }

  lemma PrefixIsWithin<T>(part: seq<T>, whole: seq<T>)
    requires part <= whole
    ensures IsWithin([] + part, whole + [])
  {
    IsWithinItself(part, whole[|part|..]);
    assert part + whole[|part|..] == whole && whole + [] == whole && [] + part == part;
  }

  lemma OthersTakeFromTheEnd(w: World, step: Step, i: nat)
    requires i < |w.nodes| && Enabled(w, step) && !KeepsItsInputs(w, step, i)
    ensures Arrives(w, step, i) == [] && Begins(w, step, i) == []
    ensures i < |Apply(w, step).nodes| && Apply(w, step).nodes[i].queue <= w.nodes[i].queue
  {
  }

  /** A step that donates or ends the node's part takes inputs away, and leaves the others in order. */
  lemma StepLeavesOrder(w: World, step: Step, i: nat)
    requires i < |w.nodes| && Enabled(w, step)
    ensures i < |Apply(w, step).nodes|
    ensures IsWithin(Begins(w, step, i) + Apply(w, step).nodes[i].queue, w.nodes[i].queue + Arrives(w, step, i))
  {
    if KeepsItsInputs(w, step, i) {
      StepKeepsOrder(w, step, i);
      var all := w.nodes[i].queue + Arrives(w, step, i);
      assert all + [] == all;
      IsWithinItself(all, []);
    } else {
      OthersTakeFromTheEnd(w, step, i);
      PrefixIsWithin(Apply(w, step).nodes[i].queue, w.nodes[i].queue);
    }
  }

  ghost function Arrived(w: World, steps: seq<Step>, i: nat): seq<Input>
    requires O.IsRun(w, steps)
    decreases |steps|
  {
    if steps == [] then [] else Arrives(w, steps[0], i) + Arrived(Apply(w, steps[0]), steps[1..], i)
  }

  ghost function Begun(w: World, steps: seq<Step>, i: nat): seq<Input>
    requires O.IsRun(w, steps)
    decreases |steps|
  {
    if steps == [] then [] else Begins(w, steps[0], i) + Begun(Apply(w, steps[0]), steps[1..], i)
  }

  lemma MiddleComesFirst<T>(queue: seq<T>, arrives: seq<T>, arrived: seq<T>, begins: seq<T>, next: seq<T>, begun: seq<T>, left: seq<T>)
    requires IsWithin(begins + next, queue + arrives) && IsWithin(begun + left, next + arrived)
    ensures IsWithin((begins + begun) + left, queue + (arrives + arrived))
  {
    WithinAfter(begins, begun + left, next + arrived);
    WithinLonger(begins + next, queue + arrives, arrived);
    Regroup(begins, begun, left);
    Regroup(begins, next, arrived);
    Regroup(queue, arrives, arrived);
    WithinWithin(begins + begun + left, begins + next + arrived, queue + (arrives + arrived));
  }

  lemma Regroup<T>(a: seq<T>, b: seq<T>, c: seq<T>)
    ensures a + (b + c) == a + b + c
  {
  }

  /** Over any run a node begins its inputs in the order in which they came to it, and what is still queued
      comes after those. Others take from the end alone. */
  lemma {:induction false} NodeRunsInOrder(w: World, steps: seq<Step>, i: nat)
    requires i < |w.nodes| && O.IsRun(w, steps)
    ensures i < |O.After(w, steps).nodes|
    ensures IsWithin(Begun(w, steps, i) + O.After(w, steps).nodes[i].queue, w.nodes[i].queue + Arrived(w, steps, i))
    decreases |steps|
  {
    var queue := w.nodes[i].queue;
    if steps == [] {
      assert [] + queue == queue && queue + [] == queue;
      IsWithinItself(queue, []);
    } else {
      StepLeavesOrder(w, steps[0], i);
      var w1 := Apply(w, steps[0]);
      NodeRunsInOrder(w1, steps[1..], i);
      MiddleComesFirst(queue, Arrives(w, steps[0], i), Arrived(w1, steps[1..], i), Begins(w, steps[0], i),
                       w1.nodes[i].queue, Begun(w1, steps[1..], i), O.After(w, steps).nodes[i].queue);
    }
  }
}
