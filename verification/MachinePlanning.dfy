/** How the head turns "so many more slots" into machines to boot, each with a target number of
    slots. Machine types are represented by what the plan needs of them: CPUs and capacity. */
module MachinePlanning {
  import opened Arithmetic
  import opened JobTypes

  lemma CeilDivBounds(a: nat, b: nat)
    requires b > 0
    ensures var q := CeilDiv(a, b);
            b * q >= a && (q > 0 ==> b * (q - 1) < a)
  {
    DivideParts(a + b - 1, b);
  }

  // ---------------------------------------------------------------- CPUs per call

  datatype Amount = Dynamic | Fixed(amount: nat)

  function RequiredCpusPerCall(cpu: Amount, ram: Amount): nat {
    Max(if cpu.Dynamic? then 1 else cpu.amount, ((if ram.Dynamic? then 4 else ram.amount) + 3) / 4)
  }

  /** The fewest CPUs that give the call its CPUs and its memory, at 4 GB a CPU. */
  lemma RequiredCpusAreLeast(cpu: Amount, ram: Amount, cpus: nat)
    ensures cpus >= RequiredCpusPerCall(cpu, ram)
            <==> (cpu.Fixed? ==> cpus >= cpu.amount) && (cpu.Dynamic? ==> cpus >= 1)
                 && (ram.Fixed? ==> 4 * cpus >= ram.amount) && (ram.Dynamic? ==> 4 * cpus >= 4)
  {
  }

  // ---------------------------------------------------------------- by measured capacity

  /** Slots spread over `n` machines, each getting an equal share of what is left, rounded up. */
  function EvenSplit(slots: nat, n: nat): (targets: seq<nat>)
    ensures |targets| == n
  {
    if n == 0 then []
    else
      ShareFits(slots, n);
      [CeilDiv(slots, n)] + EvenSplit(slots - CeilDiv(slots, n), n - 1)
  }

  lemma ShareFits(slots: nat, n: nat)
    requires n > 0
    ensures CeilDiv(slots, n) <= slots
  {
    CeilDivBounds(slots, n);
    var q := CeilDiv(slots, n);
    if q > 0 {
      ProductOrder(q, 1, n);
      assert n * (q - 1) == n * q - n;
      assert q * n == n * q;
      AtLeastOnce(n, q - 1);
    }
  }

  lemma {:induction false} EvenSplitCovers(slots: nat, n: nat)
    requires n > 0
    ensures Sum(EvenSplit(slots, n)) == slots
  {
    ShareFits(slots, n);
    var share := CeilDiv(slots, n);
    assert EvenSplit(slots, n)[1..] == EvenSplit(slots - share, n - 1);
    if n > 1 {
      EvenSplitCovers(slots - share, n - 1);
    }
  }

  /** What is left after a fair share is still between `low` and `low + 1` per machine. */
  lemma {:induction false} EvenSplitWithin(slots: nat, n: nat, low: nat)
    requires n * low <= slots <= n * (low + 1)
    ensures forall k :: 0 <= k < n ==> low <= EvenSplit(slots, n)[k] <= low + 1
    decreases n
  {
    if n > 0 {
      ShareFits(slots, n);
      var share := CeilDiv(slots, n);
      ShareIsFair(slots, n, low);
      EvenSplitWithin(slots - share, n - 1, low);
      forall k | 0 <= k < n ensures low <= EvenSplit(slots, n)[k] <= low + 1 {
        if k > 0 {
          assert EvenSplit(slots, n)[k] == EvenSplit(slots - share, n - 1)[k - 1];
        }
      }
    }
  }

  lemma FairShare(slots: nat, n: nat) returns (low: nat)
    requires n > 0
    ensures n * low <= slots <= n * (low + 1)
  {
    low := slots / n;
    assert n * (low + 1) == n * low + n;
  }

  lemma ShareIsFair(slots: nat, n: nat, low: nat)
    requires n > 0 && n * low <= slots <= n * (low + 1)
    ensures var share := CeilDiv(slots, n);
            low <= share <= low + 1 && (n - 1) * low <= slots - share <= (n - 1) * (low + 1)
  {
    CeilDivBounds(slots, n);
    var share := CeilDiv(slots, n);
    assert n * (share + 1) == n * share + n;
    ProductCancel(n, low, share + 1);
    if share > 0 {
      ProductCancel(n, share - 1, low + 1);
    }
    Distribute(n, low);
    Distribute(n, low + 1);
    if share == low {
      assert n * low == slots;
      assert (n - 1) * (low + 1) == (n - 1) * low + (n - 1);
    }
  }

  /** Machines of the measured size to boot, under a CPU budget when there is one. */
  function MeasuredMachines(missing: nat, slotsPerNode: nat, cpusPerMachine: nat, maxCpus: Option<int>): nat
    requires slotsPerNode > 0 && cpusPerMachine > 0
  {
    var wanted := CeilDiv(missing, slotsPerNode);
    if maxCpus.None? then wanted else Min(wanted, Max(0, maxCpus.value) / cpusPerMachine)
  }

  lemma EvenSplitFirst(targets: seq<nat>, rest: seq<nat>, slots: nat, n: nat)
    requires n > 0 && rest == EvenSplit(slots, n)
    ensures CeilDiv(slots, n) <= slots
    ensures rest[1..] == EvenSplit(slots - CeilDiv(slots, n), n - 1)
    ensures targets + rest == (targets + [CeilDiv(slots, n)]) + rest[1..]
  {
    ShareFits(slots, n);
  }

  method PlanMeasured(missing: nat, slotsPerNode: nat, cpusPerMachine: nat, maxCpus: Option<int>) returns (targets: seq<nat>)
    requires slotsPerNode > 0 && cpusPerMachine > 0
    ensures targets == EvenSplit(missing, MeasuredMachines(missing, slotsPerNode, cpusPerMachine, maxCpus))
  {
    var n := CeilDiv(missing, slotsPerNode);
    if maxCpus.Some? {
      n := Min(n, Max(0, maxCpus.value) / cpusPerMachine);
    }
    assert n == MeasuredMachines(missing, slotsPerNode, cpusPerMachine, maxCpus);
    targets := Split(missing, n);
  }

  /** 49 slots on 4 machines are 13, 12, 12 and 12. */
  method Split(missing: nat, n: nat) returns (targets: seq<nat>)
    ensures targets == EvenSplit(missing, n)
  {
    targets := [];
    var remaining: nat := missing;
    var left := n;
    ghost var rest := EvenSplit(missing, n);
    while left > 0
      invariant rest == EvenSplit(remaining, left) && targets + rest == EvenSplit(missing, n)
    {
      EvenSplitFirst(targets, rest, remaining, left);
      var target := CeilDiv(remaining, left);
      targets := targets + [target];
      remaining := remaining - target;
      left := left - 1;
      rest := rest[1..];
    }
  }

  /** A measured plan covers the missing slots exactly as soon as it boots any machine, and no two
      of its machines differ by more than one slot. */
  lemma MeasuredPlanCovers(missing: nat, n: nat, i: nat, j: nat)
    requires i < n && j < n
    ensures Sum(EvenSplit(missing, n)) == missing
    ensures EvenSplit(missing, n)[i] <= EvenSplit(missing, n)[j] + 1
    ensures i <= j ==> EvenSplit(missing, n)[i] >= EvenSplit(missing, n)[j]
  {
    if i <= j {
      EarlierGetMore(missing, n, i, j);
    }
    EvenSplitCovers(missing, n);
    var low := FairShare(missing, n);
    EvenSplitWithin(missing, n, low);
  }

  /** Earlier machines get no fewer slots than later ones. */
  lemma {:induction false} EarlierGetMore(slots: nat, n: nat, i: nat, j: nat)
    requires i <= j < n
    ensures EvenSplit(slots, n)[i] >= EvenSplit(slots, n)[j]
    decreases n
  {
    ShareFits(slots, n);
    var share := CeilDiv(slots, n);
    if i > 0 {
      EarlierGetMore(slots - share, n - 1, i - 1, j - 1);
    } else if j > 0 {
      CeilDivBounds(slots, n);
      Distribute(n, share);
      AtMostPerMachine(slots - share, n - 1, share);
      assert EvenSplit(slots, n)[j] == EvenSplit(slots - share, n - 1)[j - 1];
    }
  }

  /** As many machines as are needed, one less being too few, and no more than the budget pays for. */
  lemma MeasuredMachinesAreNeeded(missing: nat, slotsPerNode: nat, cpusPerMachine: nat, maxCpus: Option<int>, n: nat)
    requires slotsPerNode > 0 && cpusPerMachine > 0 && n > 0
    ensures n <= MeasuredMachines(missing, slotsPerNode, cpusPerMachine, maxCpus)
            <==> (n - 1) * slotsPerNode < missing && (maxCpus.Some? ==> n * cpusPerMachine <= maxCpus.value)
  {
    NeededExactlyWhen(missing, slotsPerNode, n);
    if maxCpus.Some? {
      PaidForExactlyWhen(Max(0, maxCpus.value), cpusPerMachine, n);
      AtLeastOnce(n, cpusPerMachine);
    }
  }

  lemma NeededExactlyWhen(missing: nat, perMachine: nat, n: nat)
    requires perMachine > 0 && n > 0
    ensures n <= CeilDiv(missing, perMachine) <==> (n - 1) * perMachine < missing
  {
    CeilDivBounds(missing, perMachine);
    var q := CeilDiv(missing, perMachine);
    if n <= q {
      ProductOrder(perMachine, n - 1, q - 1);
    } else {
      ProductOrder(perMachine, q, n - 1);
    }
  }

  lemma PaidForExactlyWhen(budget: nat, perMachine: nat, n: nat)
    requires perMachine > 0
    ensures n <= budget / perMachine <==> n * perMachine <= budget
  {
    DivideParts(budget, perMachine);
    var q := budget / perMachine;
    if n <= q {
      ProductOrder(perMachine, n, q);
    } else {
      ProductOrder(perMachine, q + 1, n);
      assert perMachine * (q + 1) == perMachine * q + perMachine;
    }
  }

  lemma MeasuredPlanWithinBudget(missing: nat, slotsPerNode: nat, cpusPerMachine: nat, maxCpus: int)
    requires slotsPerNode > 0 && cpusPerMachine > 0
    ensures MeasuredMachines(missing, slotsPerNode, cpusPerMachine, Some(maxCpus)) * cpusPerMachine <= Max(0, maxCpus)
  {
  }

  lemma {:induction false} SomePartExceeds(parts: seq<nat>, bound: nat) returns (k: nat)
    requires Sum(parts) > |parts| * bound
    ensures k < |parts| && parts[k] > bound
  {
    if parts[0] > bound {
      k := 0;
    } else {
      Distribute(|parts|, bound);
      k := SomePartExceeds(parts[1..], bound);
      k := k + 1;
    }
  }

  /** The plan keeps to the measured capacity exactly when the CPU budget does not cut it short. */
  lemma MeasuredPlanFitsExactlyWhen(missing: nat, slotsPerNode: nat, cpusPerMachine: nat, maxCpus: Option<int>)
    requires slotsPerNode > 0 && cpusPerMachine > 0
    requires MeasuredMachines(missing, slotsPerNode, cpusPerMachine, maxCpus) > 0
    ensures var targets := EvenSplit(missing, MeasuredMachines(missing, slotsPerNode, cpusPerMachine, maxCpus));
            (forall k :: 0 <= k < |targets| ==> targets[k] <= slotsPerNode)
            <==> (maxCpus.Some? ==> Max(0, maxCpus.value) / cpusPerMachine >= CeilDiv(missing, slotsPerNode))
  {
    CeilDivBounds(missing, slotsPerNode);
    var wanted := CeilDiv(missing, slotsPerNode);
    var n := MeasuredMachines(missing, slotsPerNode, cpusPerMachine, maxCpus);
    var targets := EvenSplit(missing, n);
    if n == wanted {
      AtMostPerMachine(missing, n, slotsPerNode);
    } else {
      EvenSplitCovers(missing, n);
      ProductOrder(slotsPerNode, n, wanted - 1);
      var k := SomePartExceeds(targets, slotsPerNode);
    }
  }

  lemma AtMostPerMachine(slots: nat, n: nat, bound: nat)
    requires n > 0 && slots <= n * bound
    ensures forall k :: 0 <= k < n ==> EvenSplit(slots, n)[k] <= bound
  {
    var low := FairShare(slots, n);
    EvenSplitWithin(slots, n, low);
    if low >= bound {
      ProductOrder(n, bound, low);
      assert slots == n * bound;
      if bound > 0 {
        EvenSplitWithin(slots, n, bound - 1);
      } else {
        SumOfParts(EvenSplit(slots, n));
        EvenSplitCovers(slots, n);
      }
    }
  }

  lemma SumOfParts(parts: seq<nat>)
    ensures forall k :: 0 <= k < |parts| ==> parts[k] <= Sum(parts)
  {
  }

  // ---------------------------------------------------------------- by machine capacity

  /** Machines filled in order, each up to its capacity. */
  function Fill(slots: nat, capacities: seq<nat>): (targets: seq<nat>)
    ensures |targets| == |capacities|
  {
    if capacities == [] then []
    else
      var target := Min(slots, capacities[0]);
      [target] + Fill(slots - target, capacities[1..])
  }

  method FillMachines(slots: nat, capacities: seq<nat>) returns (targets: seq<nat>)
    ensures targets == Fill(slots, capacities)
  {
    targets := [];
    var remaining: nat := slots;
    for i := 0 to |capacities|
      invariant remaining <= slots
      invariant targets + Fill(remaining, capacities[i..]) == Fill(slots, capacities)
    {
      var target := Min(remaining, capacities[i]);
      assert capacities[i..][1..] == capacities[i + 1..];
      assert targets + Fill(remaining, capacities[i..])
          == (targets + [target]) + Fill(remaining - target, capacities[i + 1..]);
      targets := targets + [target];
      remaining := remaining - target;
    }
  }

  /** A plan never holds more than is missing nor more than fits, and it stops short of neither. */
  lemma {:induction false} FillCovers(slots: nat, capacities: seq<nat>)
    ensures Sum(Fill(slots, capacities)) == Min(slots, Sum(capacities))
    ensures forall k :: 0 <= k < |capacities| ==> Fill(slots, capacities)[k] <= capacities[k]
  {
    if capacities != [] {
      var target := Min(slots, capacities[0]);
      FillCovers(slots - target, capacities[1..]);
      var targets := Fill(slots, capacities);
      assert targets[1..] == Fill(slots - target, capacities[1..]);
      forall k | 0 <= k < |capacities| ensures targets[k] <= capacities[k] {
        if k > 0 {
          assert targets[k] == targets[1..][k - 1] && capacities[k] == capacities[1..][k - 1];
        }
      }
    }
  }

  /** A machine gets a slot only once those before it are full. */
  lemma {:induction false} FillsInOrder(slots: nat, capacities: seq<nat>, i: nat, j: nat)
    requires i < j < |capacities| && Fill(slots, capacities)[j] > 0
    ensures Fill(slots, capacities)[i] == capacities[i]
  {
    var target := Min(slots, capacities[0]);
    if i > 0 {
      FillsInOrder(slots - target, capacities[1..], i - 1, j - 1);
    } else if target < capacities[0] {
      NothingToFill(capacities[1..], j - 1);
    }
  }

  lemma {:induction false} NothingToFill(capacities: seq<nat>, k: nat)
    requires k < |capacities|
    ensures Fill(0, capacities)[k] == 0
  {
    if k > 0 {
      NothingToFill(capacities[1..], k - 1);
    }
  }

  predicate AllWork(targets: seq<nat>) {
    forall k :: 0 <= k < |targets| ==> targets[k] > 0
  }

  function Same(capacity: nat, n: nat): (capacities: seq<nat>)
    ensures |capacities| == n && forall k :: 0 <= k < n ==> capacities[k] == capacity
  {
    seq(n, _ => capacity)
  }

  lemma AllWorkFirst(target: nat, rest: seq<nat>)
    ensures AllWork([target] + rest) <==> target > 0 && AllWork(rest)
  {
    var targets := [target] + rest;
    assert targets[0] == target;
    assert forall k :: 0 <= k < |rest| ==> rest[k] == targets[k + 1];
  }

  lemma OneMachineLess(slots: nat, capacity: nat, n: nat, m: nat)
    requires capacity > 0 && n == m + 1 && m > 0
    ensures var target := Min(slots, capacity);
            slots > (n - 1) * capacity <==> target > 0 && slots - target > (m - 1) * capacity
  {
    Distribute(m, capacity);
    AtLeastOnce(m, capacity);
  }

  /** Of equal machines, every one gets a slot exactly when there are more slots than all but the
      last of them hold. */
  lemma {:induction false} FillReachesLast(slots: nat, capacity: nat, n: nat)
    requires capacity > 0 && n > 0
    ensures AllWork(Fill(slots, Same(capacity, n))) <==> slots > (n - 1) * capacity
    decreases n
  {
    var target := Min(slots, capacity);
    assert Same(capacity, n)[1..] == Same(capacity, n - 1);
    var rest := Fill(slots - target, Same(capacity, n - 1));
    AllWorkFirst(target, rest);
    if n == 1 {
      assert rest == [] && AllWork(rest);
    } else {
      FillReachesLast(slots - target, capacity, n - 1);
      OneMachineLess(slots, capacity, n, n - 1);
    }
  }

  /** CPUs a plan for equal machines asks for: what the slots need, within the budget. */
  function CpusToAdd(missing: nat, cpusPerCall: nat, maxCpus: Option<int>): nat {
    if maxCpus.None? then missing * cpusPerCall else Min(missing * cpusPerCall, Max(0, maxCpus.value))
  }

  /** Too few CPUs for a single call plan nothing. */
  function EqualMachinesPlan(cpus: nat, cpusPerCall: nat, cpusPerMachine: nat): seq<nat>
    requires 0 < cpusPerCall <= cpusPerMachine
  {
    if cpus / cpusPerCall == 0 then []
    else Fill(cpus / cpusPerCall, Same(cpusPerMachine / cpusPerCall, CeilDiv(cpus, cpusPerMachine)))
  }

  /** The CPUs to add are those the missing slots need, or the budget's if there are fewer; as long as they are
      enough for a call, equal machines are as many as hold them, one less being too few. */
  lemma EqualMachinesAreNeeded(missing: nat, perCall: nat, perMachine: nat, maxCpus: Option<int>, n: nat)
    requires 0 < perCall <= perMachine && n > 0
    ensures n <= |EqualMachinesPlan(CpusToAdd(missing, perCall, maxCpus), perCall, perMachine)|
            <==> missing > 0 && (maxCpus.Some? ==> perCall <= maxCpus.value)
                 && (n - 1) * perMachine < missing * perCall && (maxCpus.Some? ==> (n - 1) * perMachine < maxCpus.value)
  {
    var cpus := CpusToAdd(missing, perCall, maxCpus);
    NeededExactlyWhen(cpus, perMachine, n);
    NotNegative(n - 1, perMachine);
    PaidForExactlyWhen(cpus, perCall, 1);
    if missing > 0 {
      AtLeastOnce(missing, perCall);
    }
  }

  lemma NotNegative(n: nat, x: nat)
    ensures n * x >= 0
  {
  }

  /** Each of them takes no more calls than its CPUs are enough for, and together they take what the CPUs are
      enough for or all they hold. */
  lemma EqualMachinesHold(cpus: nat, perCall: nat, perMachine: nat, k: nat)
    requires 0 < perCall <= perMachine
    requires k < |EqualMachinesPlan(cpus, perCall, perMachine)|
    ensures var plan := EqualMachinesPlan(cpus, perCall, perMachine);
            plan[k] * perCall <= perMachine && Sum(plan) == Min(cpus / perCall, |plan| * (perMachine / perCall))
  {
    var n := CeilDiv(cpus, perMachine);
    FillCovers(cpus / perCall, Same(perMachine / perCall, n));
    SumOfSame(perMachine / perCall, n);
    PaidForExactlyWhen(perMachine, perCall, EqualMachinesPlan(cpus, perCall, perMachine)[k]);
  }

  lemma WholeCalls(cpus: nat, perCall: nat, calls: nat)
    requires perCall > 0 && calls * perCall <= cpus
    ensures calls <= cpus / perCall
  {
    assert perCall * (cpus / perCall + 1) == perCall * (cpus / perCall) + perCall;
    ProductCancel(perCall, calls, cpus / perCall + 1);
  }

  /** The planned machines always hold at least all but one machine's worth of the slots. */
  lemma MachinesBarelyExceed(cpus: nat, perCall: nat, perMachine: nat)
    requires 0 < perCall <= perMachine && cpus / perCall > 0
    ensures var n, k := CeilDiv(cpus, perMachine), perMachine / perCall;
            n > 0 && k > 0 && (n - 1) * k <= cpus / perCall
  {
    CeilDivBounds(cpus, perMachine);
    var n, k := CeilDiv(cpus, perMachine), perMachine / perCall;
    WholeCalls(perMachine, perCall, 1);
    if n > 1 {
      CallsOnMachines(cpus, perCall, perMachine, n - 1);
    }
  }

  lemma CallsOnMachines(cpus: nat, perCall: nat, perMachine: nat, machines: nat)
    requires 0 < perCall && perMachine * machines <= cpus
    ensures machines * (perMachine / perCall) <= cpus / perCall
  {
    var k := perMachine / perCall;
    assert k * perCall <= perMachine;
    ProductOrder(machines, k * perCall, perMachine);
    assert (machines * k) * perCall == machines * (k * perCall);
    WholeCalls(cpus, perCall, machines * k);
  }

  /** In the plan for equal machines some machine would boot with no slot to run exactly when the
      slots fill whole machines and the budget leaves CPUs over beyond those machines. */
  lemma EveryMachineWorksExactlyWhen(cpus: nat, perCall: nat, perMachine: nat)
    requires 0 < perCall <= perMachine && cpus / perCall > 0
    ensures var slots, k := cpus / perCall, perMachine / perCall;
            && k > 0
            && (AllWork(EqualMachinesPlan(cpus, perCall, perMachine))
                <==> !(slots % k == 0 && cpus > (slots / k) * perMachine))
  {
    MachinesBarelyExceed(cpus, perCall, perMachine);
    FillsLastExactlyWhen(cpus, perMachine, cpus / perCall, perMachine / perCall, CeilDiv(cpus, perMachine));
  }

  lemma FillsLastExactlyWhen(cpus: nat, perMachine: nat, slots: nat, k: nat, n: nat)
    requires perMachine > 0 && k > 0 && n > 0 && n == CeilDiv(cpus, perMachine) && (n - 1) * k <= slots
    ensures AllWork(Fill(slots, Same(k, n))) <==> !(slots % k == 0 && cpus > (slots / k) * perMachine)
  {
    FillReachesLast(slots, k, n);
    LastIsReachedExactlyWhen(cpus, perMachine, slots, k, n);
  }

  lemma LastIsReachedExactlyWhen(cpus: nat, perMachine: nat, slots: nat, k: nat, n: nat)
    requires perMachine > 0 && k > 0 && n > 0 && n == CeilDiv(cpus, perMachine) && (n - 1) * k <= slots
    ensures slots > (n - 1) * k <==> !(slots % k == 0 && cpus > (slots / k) * perMachine)
  {
    CeilDivBounds(cpus, perMachine);
    if slots == (n - 1) * k {
      DivideIs(slots, k, n - 1, 0);
      assert (n - 1) * perMachine == perMachine * (n - 1);
    } else if slots % k == 0 && cpus > (slots / k) * perMachine {
      WholeMachinesLeaveOneOver(cpus, perMachine, slots, k, n);
    }
  }

  lemma WholeMachinesLeaveOneOver(cpus: nat, perMachine: nat, slots: nat, k: nat, n: nat)
    requires perMachine > 0 && k > 0 && n == CeilDiv(cpus, perMachine) && slots % k == 0
    requires cpus > (slots / k) * perMachine
    ensures slots <= (n - 1) * k
  {
    CeilDivBounds(cpus, perMachine);
    var q := slots / k;
    assert slots == k * q;
    ProductCancel(perMachine, q, n);
    ProductOrder(k, q, n - 1);
  }

  /** Without a CPU budget that never happens. */
  lemma UncappedPlanHasNoIdleMachine(missing: nat, perCall: nat, perMachine: nat)
    requires 0 < perCall <= perMachine && missing > 0
    ensures AllWork(EqualMachinesPlan(CpusToAdd(missing, perCall, None), perCall, perMachine))
  {
    DivideIs(missing * perCall, perCall, missing, 0);
    EveryMachineWorksExactlyWhen(missing * perCall, perCall, perMachine);
    WholeMachinesSuffice(missing, perCall, perMachine, perMachine / perCall);
  }

  lemma WholeMachinesSuffice(missing: nat, perCall: nat, perMachine: nat, k: nat)
    requires perCall > 0 && k > 0 && k == perMachine / perCall
    ensures missing % k == 0 ==> missing * perCall <= (missing / k) * perMachine
  {
    var machines := missing / k;
    assert k * perCall <= perMachine;
    ProductOrder(machines, k * perCall, perMachine);
    if missing % k == 0 {
      assert missing == k * machines;
      assert missing * perCall == machines * (k * perCall);
    }
  }

  lemma IdleMachineExample()
    ensures CpusToAdd(3, 2, Some(5)) == 5 && EqualMachinesPlan(5, 2, 4) == [2, 0]
  {
  }

  /** No plan holds more slots than are missing, whatever machines and budget it works with. */
  lemma PlansNoMoreThanMissing(missing: nat, perCall: nat, maxCpus: Option<int>, capacities: seq<nat>)
    requires perCall > 0
    ensures Sum(Fill(CpusToAdd(missing, perCall, maxCpus) / perCall, capacities)) <= missing
  {
    var cpus := CpusToAdd(missing, perCall, maxCpus);
    FillCovers(cpus / perCall, capacities);
    QuotientAtMost(cpus, perCall, missing);
  }

  // ---------------------------------------------------------------- GPU machines

  function GpuMachines(missing: nat, gpusPerMachine: nat, maxGpus: Option<int>): nat
    requires gpusPerMachine > 0
  {
    var wanted := CeilDiv(missing, gpusPerMachine);
    if maxGpus.None? then wanted else Min(wanted, Max(0, maxGpus.value) / gpusPerMachine)
  }

  /** One call a GPU: every machine works, and together they take what is missing or all they hold. */
  lemma GpuPlanCovers(missing: nat, perMachine: nat, n: nat)
    requires perMachine > 0 && 0 < n <= CeilDiv(missing, perMachine)
    ensures var targets := Fill(Min(missing, n * perMachine), Same(perMachine, n));
            AllWork(targets) && Sum(targets) == Min(missing, n * perMachine)
  {
    GpuSlotsReachLast(missing, perMachine, n);
    FillReachesLast(Min(missing, n * perMachine), perMachine, n);
    FillCovers(Min(missing, n * perMachine), Same(perMachine, n));
    SumOfSame(perMachine, n);
  }

  lemma GpuPlanWithinBudget(missing: nat, perMachine: nat, maxGpus: int)
    requires perMachine > 0
    ensures GpuMachines(missing, perMachine, Some(maxGpus)) * perMachine <= Max(0, maxGpus)
    ensures GpuMachines(missing, perMachine, Some(maxGpus)) <= CeilDiv(missing, perMachine)
  {
  }

  lemma GpuMachinesAreNeeded(missing: nat, perMachine: nat, maxGpus: Option<int>, n: nat)
    requires perMachine > 0 && n > 0
    ensures n <= GpuMachines(missing, perMachine, maxGpus)
            <==> (n - 1) * perMachine < missing && (maxGpus.Some? ==> n * perMachine <= maxGpus.value)
  {
    MeasuredMachinesAreNeeded(missing, perMachine, perMachine, maxGpus, n);
  }

  lemma GpuSlotsReachLast(missing: nat, perMachine: nat, n: nat)
    requires perMachine > 0 && 0 < n <= CeilDiv(missing, perMachine)
    ensures Min(missing, n * perMachine) > (n - 1) * perMachine
  {
    CeilDivBounds(missing, perMachine);
    Distribute(n, perMachine);
    ProductOrder(perMachine, n - 1, CeilDiv(missing, perMachine) - 1);
  }

  lemma {:induction false} SumOfSame(capacity: nat, n: nat)
    ensures Sum(Same(capacity, n)) == n * capacity
  {
    if n > 0 {
      assert Same(capacity, n)[1..] == Same(capacity, n - 1);
      SumOfSame(capacity, n - 1);
      Distribute(n, capacity);
    }
  }
}
