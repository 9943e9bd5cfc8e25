/** One node's share of a job's inputs, and what each request or worker step does to it.
    These functions specify the methods of class JobNode; the cluster-wide theorems are
    about them. */
module NodeInputs {
  import opened JobTypes

  /** A worker of this node. A retired worker keeps its place in the list until it is
      replaced; whatever it still computes is dropped. */
  datatype Worker = Idle | Running(input: Input) | Retired

  /** Assigning: the job is set but its watcher is not live. Stopped: the watcher has
      claimed the drained part. Gone: the node was reset and answers 404. */
  datatype Phase = Assigning | Active | Stopped | Gone

  /** The node's own GET/ACK transaction with a donor; anything but NoSteal is a set
      `active_input_steal_id`. */
  datatype Steal =
    | NoSteal
    | Asking(id: TransferId, donor: nat)
    | Acking(id: TransferId, donor: nat, received: bool)

  datatype Inbox = Inbox(
    phase: Phase,
    queue: seq<Input>,
    parked: map<TransferId, seq<Input>>,
    workers: seq<Worker>,
    steal: Steal,
    allUploaded: bool)

  const EMPTY_INBOX: Inbox := Inbox(Assigning, [], map[], [], NoSteal, false)

  // ---------------------------------------------------------------- holdings

  function WorkerHolds(worker: Worker, x: Input): nat {
    if worker.Running? && worker.input == x then 1 else 0
  }

  function WorkerParts(workers: seq<Worker>, x: Input): (parts: seq<nat>)
    ensures |parts| == |workers|
    ensures forall i :: 0 <= i < |workers| ==> parts[i] == WorkerHolds(workers[i], x)
  {
    seq(|workers|, i requires 0 <= i < |workers| => WorkerHolds(workers[i], x))
  }

  /** How many of the node's live workers are running `x`. */
  function RunningCopies(workers: seq<Worker>, x: Input): nat {
    Sum(WorkerParts(workers, x))
  }

  lemma RunningUpdate(workers: seq<Worker>, i: nat, worker: Worker, x: Input)
    requires i < |workers|
    ensures RunningCopies(workers[i := worker], x) + WorkerHolds(workers[i], x)
            == RunningCopies(workers, x) + WorkerHolds(worker, x)
  {
    assert WorkerParts(workers[i := worker], x) == WorkerParts(workers, x)[i := WorkerHolds(worker, x)];
    SumUpdate(WorkerParts(workers, x), i, WorkerHolds(worker, x));
  }

  lemma RunningConcat(a: seq<Worker>, b: seq<Worker>, x: Input)
    ensures RunningCopies(a + b, x) == RunningCopies(a, x) + RunningCopies(b, x)
  {
    assert WorkerParts(a + b, x) == WorkerParts(a, x) + WorkerParts(b, x);
    SumConcat(WorkerParts(a, x), WorkerParts(b, x));
  }

  lemma RunningOne(worker: Worker, x: Input)
    ensures RunningCopies([worker], x) == WorkerHolds(worker, x)
  {
    assert WorkerParts([worker], x)[1..] == [];
    assert Sum(WorkerParts([worker], x)) == WorkerHolds(worker, x) + Sum([]);
  }

  predicate AllResting(workers: seq<Worker>) {
    forall i :: 0 <= i < |workers| ==> !workers[i].Running?
  }

  lemma RestingHoldNothing(workers: seq<Worker>, x: Input)
    requires AllResting(workers)
    ensures RunningCopies(workers, x) == 0
  {
    SumOfNothing(WorkerParts(workers, x));
  }

  // ---------------------------------------------------------------- donating

  const STEAL_BATCH_LIMIT: nat := 3_000_000

  /** Half the queue difference the requester reported, rounded down. */
  function StealTarget(queueSize: nat, requesterQueueSize: nat): nat {
    (if queueSize - requesterQueueSize > 1 then queueSize - requesterQueueSize else 1) / 2
  }

  /** Pickled size of the `k` newest items of a queue. */
  function TailBytes(queue: seq<Input>, k: nat): nat
    requires k <= |queue|
  {
    if k == 0 then 0 else TailBytes(queue, k - 1) + |queue[|queue| - k].pkl|
  }

  /** The donor's loop goes no further than `k` items: nothing is left, or the next one would
      not fit beside those taken. */
  predicate StopsAt(queue: seq<Input>, k: nat)
    requires k <= |queue|
  {
    k == |queue| || (0 < k && TailBytes(queue, k + 1) > STEAL_BATCH_LIMIT)
  }

  /** How many items the donor takes from the tail of its queue when it may take at most
      `target`: as many as fit in the byte limit, and one even when it does not. */
  function StealCount(queue: seq<Input>, target: nat): (k: nat)
    ensures k <= target && k <= |queue|
    ensures k <= 1 || TailBytes(queue, k) <= STEAL_BATCH_LIMIT
    ensures k < target ==> StopsAt(queue, k)
  {
    if target == 0 then 0
    else
      var k := StealCount(queue, target - 1);
      if k < target - 1 || StopsAt(queue, k) then k else k + 1
  }

  function TailOf(queue: seq<Input>, target: nat): seq<Input> {
    queue[|queue| - StealCount(queue, target)..]
  }

  function BeforeTail(queue: seq<Input>, target: nat): seq<Input> {
    queue[..|queue| - StealCount(queue, target)]
  }

  /** Once the donor's loop has stopped short it would not have gone further. */
  lemma {:induction false} StealCountStops(queue: seq<Input>, k: nat, target: nat)
    requires k <= target && k <= |queue| && StealCount(queue, k) == k && StopsAt(queue, k)
    ensures StealCount(queue, target) == k
    decreases target
  {
    if k < target {
      StealCountStops(queue, k, target - 1);
    }
  }

  /** Workers whose inputs may be revoked for an idle peer: distinct and running. Which
      running workers qualify is decided by CPU readings outside the model. */
  predicate ValidVictims(workers: seq<Worker>, victims: seq<nat>) {
    && (forall k :: 0 <= k < |victims| ==> victims[k] < |workers| && workers[victims[k]].Running?)
    && (forall j, k :: 0 <= j < k < |victims| ==> victims[j] != victims[k])
  }

  /** `items` are what the victims were running, in their order; the victims are retired and nobody else. */
  predicate AreRevoked(before: seq<Worker>, after: seq<Worker>, victims: seq<nat>, items: seq<Input>)
    requires ValidVictims(before, victims)
  {
    && |items| == |victims| && |after| == |before|
    && (forall k :: 0 <= k < |victims| ==> items[k] == before[victims[k]].input && after[victims[k]].Retired?)
    && (forall i: nat :: i < |before| && i !in victims ==> after[i] == before[i])
  }

  function RevokedInputs(workers: seq<Worker>, victims: seq<nat>): (items: seq<Input>)
    requires ValidVictims(workers, victims)
    ensures |items| == |victims|
  {
    seq(|victims|, k requires 0 <= k < |victims| => workers[victims[k]].input)
  }

  function RetireVictims(workers: seq<Worker>, victims: seq<nat>): (workers': seq<Worker>)
    requires ValidVictims(workers, victims)
    ensures |workers'| == |workers|
    ensures forall i :: 0 <= i < |workers| ==>
                          workers'[i] == if i in victims then Retired else workers[i]
  {
    seq(|workers|, i requires 0 <= i < |workers| => if i in victims then Retired else workers[i])
  }

  /** Revoking moves inputs out of the workers' hands: none is copied, none is dropped. */
  lemma {:induction false} RevokeMovesInputs(workers: seq<Worker>, victims: seq<nat>, x: Input)
    requires ValidVictims(workers, victims)
    ensures RunningCopies(workers, x)
            == RunningCopies(RetireVictims(workers, victims), x) + Copies(RevokedInputs(workers, victims), x)
  {
    var n := |victims|;
    if n == 0 {
      assert RetireVictims(workers, victims) == workers;
    } else {
      var last, others := victims[n - 1], victims[..n - 1];
      assert victims == others + [last];
      RevokeMovesInputs(workers, others, x);
      var before := RetireVictims(workers, others);
      assert last !in others;
      assert RetireVictims(workers, victims) == before[last := Retired];
      RunningUpdate(before, last, Retired, x);
      assert RevokedInputs(workers, victims) == RevokedInputs(workers, others) + [workers[last].input];
      CopiesConcat(RevokedInputs(workers, others), [workers[last].input], x);
    }
  }

  // ---------------------------------------------------------------- a fair share

  lemma {:induction false} TailBytesAreTotal(queue: seq<Input>, k: nat)
    requires k <= |queue|
    ensures TailBytes(queue, k) == TotalBytes(queue[|queue| - k..])
  {
    if k > 0 {
      TailBytesAreTotal(queue, k - 1);
      assert queue[|queue| - k..][1..] == queue[|queue| - (k - 1)..];
    }
  }

  /** What a donor with `queue` may give to a requester that reports `reported` queued inputs: the end
      of its queue, leaving itself no shorter than the requester becomes; no more than 3 MB unless it
      is a single input; and so much that it stays at most one input longer, unless the next input
      would not fit beside those given. */
  predicate IsFairShare(queue: seq<Input>, left: seq<Input>, given: seq<Input>, reported: nat) {
    && queue == left + given
    && (given != [] ==> |left| >= reported + |given|)
    && (|given| <= 1 || TotalBytes(given) <= 3_000_000)
    && (|left| > reported + |given| + 1 ==> given != [] && TotalBytes(given) + |left[|left| - 1].pkl| > 3_000_000)
  }

  lemma {:induction false} TotalBytesGrow(items: seq<Input>, k: nat)
    requires k <= |items|
    ensures TotalBytes(items[k..]) <= TotalBytes(items)
  {
    if k > 0 {
      assert items[1..][k - 1..] == items[k..];
      TotalBytesGrow(items[1..], k - 1);
    }
  }

  /** There is only one fair share. */
  lemma OnlyOneFairShare(queue: seq<Input>, left: seq<Input>, given: seq<Input>, less: seq<Input>, more: seq<Input>, reported: nat)
    requires IsFairShare(queue, left, given, reported) && IsFairShare(queue, less, more, reported)
    ensures given == more && left == less
  {
    if |given| < |more| {
      FairShareIsLongest(queue, left, given, less, more, reported);
    } else if |more| < |given| {
      FairShareIsLongest(queue, less, more, left, given, reported);
    } else {
      assert left == queue[..|left|] && less == queue[..|left|];
      assert given == queue[|left|..] && more == queue[|left|..];
    }
  }

  lemma FairShareIsLongest(queue: seq<Input>, left: seq<Input>, given: seq<Input>, less: seq<Input>, more: seq<Input>, reported: nat)
    requires IsFairShare(queue, left, given, reported) && IsFairShare(queue, less, more, reported)
    ensures |more| <= |given|
  {
    if |given| < |more| {
      var k := |more| - |given| - 1;
      assert more == queue[|less|..] && given == queue[|left|..];
      assert more[k..] == [left[|left| - 1]] + given && more[k..][1..] == given;
      TotalBytesGrow(more, k);
    }
  }

  /** What `get_inputs` takes from this node when it has parked nothing for the id yet. */
  function TakenFromQueue(n: Inbox, requesterQueueSize: nat): seq<Input> {
    TailOf(n.queue, StealTarget(|n.queue|, requesterQueueSize))
  }

  function LeftInQueue(n: Inbox, requesterQueueSize: nat): seq<Input> {
    BeforeTail(n.queue, StealTarget(|n.queue|, requesterQueueSize))
  }

  lemma TakingIsFair(n: Inbox, requesterQueueSize: nat)
    ensures IsFairShare(n.queue, LeftInQueue(n, requesterQueueSize), TakenFromQueue(n, requesterQueueSize), requesterQueueSize)
  {
    var target := StealTarget(|n.queue|, requesterQueueSize);
    var k := StealCount(n.queue, target);
    TailBytesAreTotal(n.queue, k);
    if k < |n.queue| {
      TailBytesAreTotal(n.queue, k + 1);
      assert n.queue[|n.queue| - k - 1..][1..] == n.queue[|n.queue| - k..];
    }
  }

  predicate RevokesWorkers(n: Inbox, requesterQueueSize: nat, requesterIdle: nat) {
    && TakenFromQueue(n, requesterQueueSize) == []
    && LeftInQueue(n, requesterQueueSize) == []
    && requesterQueueSize == 0 && requesterIdle > 0
  }

  /** The node after answering a GET: the answer is the batch parked under `id`. */
  function DonateInputs(n: Inbox, id: TransferId, requesterQueueSize: nat, requesterIdle: nat, victims: seq<nat>): (n': Inbox)
    requires n.phase.Active? && ValidVictims(n.workers, victims)
    ensures id in n'.parked
  {
    if id in n.parked then n
    else if RevokesWorkers(n, requesterQueueSize, requesterIdle) then
      n.(parked := n.parked[id := RevokedInputs(n.workers, victims)],
         workers := RetireVictims(n.workers, victims))
    else
      n.(parked := n.parked[id := TakenFromQueue(n, requesterQueueSize)],
         queue := LeftInQueue(n, requesterQueueSize))
  }

  /** What a GET moves out of the queue or the workers: nothing when it is a replay. */
  function Donated(n: Inbox, id: TransferId, requesterQueueSize: nat, requesterIdle: nat, victims: seq<nat>): seq<Input>
    requires ValidVictims(n.workers, victims)
  {
    if id in n.parked then []
    else if RevokesWorkers(n, requesterQueueSize, requesterIdle) then RevokedInputs(n.workers, victims)
    else TakenFromQueue(n, requesterQueueSize)
  }

  lemma TakingSplitsQueue(n: Inbox, requesterQueueSize: nat, x: Input)
    ensures n.queue == LeftInQueue(n, requesterQueueSize) + TakenFromQueue(n, requesterQueueSize)
    ensures Copies(n.queue, x)
            == Copies(LeftInQueue(n, requesterQueueSize), x) + Copies(TakenFromQueue(n, requesterQueueSize), x)
  {
  }

  /** The queue and the workers lose exactly what is parked. */
  lemma DonationMovesInputs(n: Inbox, id: TransferId, requesterQueueSize: nat, requesterIdle: nat, victims: seq<nat>, x: Input)
    requires n.phase.Active? && ValidVictims(n.workers, victims)
    ensures Held(n, x)
            == Held(DonateInputs(n, id, requesterQueueSize, requesterIdle, victims), x)
               + Copies(Donated(n, id, requesterQueueSize, requesterIdle, victims), x)
  {
    if id !in n.parked {
      if RevokesWorkers(n, requesterQueueSize, requesterIdle) {
        RevokeMovesInputs(n.workers, victims, x);
      } else {
        TakingSplitsQueue(n, requesterQueueSize, x);
      }
    }
  }

  /** The node after an ACK: an unknown id changes nothing, a refused batch goes back to
      the end of the queue. */
  function SettleTransfer(n: Inbox, id: TransferId, received: bool): Inbox {
    if id !in n.parked then n
    else if received then n.(parked := n.parked - {id})
    else n.(parked := n.parked - {id}, queue := n.queue + n.parked[id])
  }

  // ---------------------------------------------------------------- retiring

  function CountAlive(workers: seq<Worker>): nat {
    if workers == [] then 0 else (if workers[0].Retired? then 0 else 1) + CountAlive(workers[1..])
  }

  function CountIdle(workers: seq<Worker>): nat {
    if workers == [] then 0 else (if workers[0].Idle? then 1 else 0) + CountIdle(workers[1..])
  }

  /** Every worker that is not retired counts as alive, and the idle ones among them as idle. */
  lemma {:induction false} CountsAddUp(workers: seq<Worker>, last: Worker)
    ensures CountAlive(workers + [last]) == CountAlive(workers) + if last.Retired? then 0 else 1
    ensures CountIdle(workers + [last]) == CountIdle(workers) + if last.Idle? then 1 else 0
    ensures CountIdle(workers) <= CountAlive(workers) <= |workers|
    ensures CountAlive([]) == CountIdle([]) == 0
  {
    if workers != [] {
      CountsAddUp(workers[1..], last);
      assert (workers + [last])[1..] == workers[1..] + [last];
    }
  }

  /** The first `k` idle workers retire. */
  function RetireIdle(workers: seq<Worker>, k: nat): (workers': seq<Worker>)
    ensures |workers'| == |workers|
  {
    if workers == [] || k == 0 then workers
    else if workers[0].Idle? then [Retired] + RetireIdle(workers[1..], k - 1)
    else [workers[0]] + RetireIdle(workers[1..], k)
  }

  /** Retiring idle workers strands no input and takes exactly as many workers as asked, or
      all the idle ones. */
  lemma {:induction false} RetiringIdleStrandsNothing(workers: seq<Worker>, k: nat, x: Input)
    ensures RunningCopies(RetireIdle(workers, k), x) == RunningCopies(workers, x)
    ensures CountIdle(RetireIdle(workers, k)) == if k < CountIdle(workers) then CountIdle(workers) - k else 0
    ensures CountAlive(RetireIdle(workers, k)) - CountIdle(RetireIdle(workers, k))
            == CountAlive(workers) - CountIdle(workers)
  {
    if workers != [] && k > 0 {
      var first, rest := workers[0], workers[1..];
      var k' := if first.Idle? then k - 1 else k;
      var first' := if first.Idle? then Retired else first;
      RetiringIdleStrandsNothing(rest, k', x);
      assert workers == [first] + rest;
      RunningConcat([first], rest, x);
      RunningConcat([first'], RetireIdle(rest, k'), x);
      RunningOne(first, x);
      RunningOne(first', x);
      assert ([first'] + RetireIdle(rest, k'))[1..] == RetireIdle(rest, k');
    }
  }

  /** Those that retire are idle ones, and no idle one before them stays. */
  lemma {:induction false} TheFirstIdleRetire(workers: seq<Worker>, k: nat, i: nat)
    requires i < |workers|
    ensures RetireIdle(workers, k)[i] == if workers[i].Idle? && CountIdle(workers[..i]) < k then Retired else workers[i]
  {
    if k > 0 {
      if i > 0 {
        var first, rest := workers[0], workers[1..];
        TheFirstIdleRetire(rest, if first.Idle? then k - 1 else k, i - 1);
        assert workers[..i][1..] == rest[..i - 1];
      }
    }
  }

  lemma {:induction false} RetiringNone(workers: seq<Worker>, k: nat)
    requires CountIdle(workers) == 0
    ensures RetireIdle(workers, k) == workers
  {
    if workers != [] && k > 0 {
      RetiringNone(workers[1..], k);
    }
  }

  /** Asking for more workers than are idle retires the idle ones. */
  lemma {:induction false} RetiringBeyondIdle(workers: seq<Worker>, k: nat)
    requires CountIdle(workers) <= k
    ensures RetireIdle(workers, CountIdle(workers)) == RetireIdle(workers, k)
  {
    if CountIdle(workers) == 0 {
      RetiringNone(workers, k);
    } else {
      RetiringBeyondIdle(workers[1..], if workers[0].Idle? then k - 1 else k);
    }
  }

  // ---------------------------------------------------------------- leaving

  /** How many copies of `x` the queue and the live workers hold; parked batches are counted
      apart, because whether they still belong to the donor depends on the requester. */
  function Held(n: Inbox, x: Input): nat {
    Copies(n.queue, x) + RunningCopies(n.workers, x)
  }

  predicate Drained(n: Inbox) {
    n.queue == [] && n.parked == map[] && n.steal.NoSteal? && AllResting(n.workers)
  }

  /** `_claim_drained_job_part`: the node stops exactly when it holds no input and owes no
      result. */
  function ClaimDrained(n: Inbox, outboxEmpty: bool): Inbox {
    if Drained(n) && outboxEmpty then n.(phase := Stopped) else n
  }
}
