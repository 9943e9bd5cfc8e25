/** Slots across all nodes: neighbour trades with replayed ids and changing neighbours, slots
    minted, shed, handed to replacements and reclaimed. */
module SlotLedger {
  import opened Arithmetic
  import opened JobTypes
  import opened NodeSlots

  datatype Stage = NotStarted | Working | Left

  /** What a donor took off its own target. `credited` says a requester has added it. */
  datatype Debit = Debit(donor: nat, requester: nat, tradeId: TradeId, slots: nat, credited: bool)

  /** Who opened a trade and which neighbour it was last sent to. */
  datatype Trade = Trade(requester: nat, donor: nat)

  /** One POST of a trade to a neighbour; only this attempt's response can answer it. */
  datatype Attempt = Attempt(tradeId: TradeId, donor: nat)

  datatype Message =
    | Ask(attempt: nat, wanted: nat)
    | Answer(attempt: nat, slots: nat, entry: Option<nat>)
    | NotFound(attempt: nat)

  /** Everything that moves the total other than a trade. */
  datatype Flows = Flows(started: int, minted: int, reclaimed: int, shed: int, replaced: int, released: int)

  datatype World = World(
    nodes: seq<Slots>,
    stages: seq<Stage>,
    trades: seq<Trade>,
    attempts: seq<Attempt>,
    waiting: seq<Option<nat>>,       // per node, the attempt whose response it awaits
    debits: seq<Debit>,
    latest: map<(nat, nat), nat>,    // (donor, requester) -> its last debit
    net: set<Message>,
    flows: Flows)

  datatype Step =
    | Join
    | Start(node: nat, slots: nat)
    | AskNeighbour(node: nat, donor: nat, wanted: nat)
    | GrantTrade(attempt: nat, donor: nat, wanted: nat, seen: int, alive: nat, idle: nat, pressured: bool, drained: bool)
    | ReplayTrade(attempt: nat, wanted: nat)
    | RefuseTrade(attempt: nat, wanted: nat)
    | AnswerNotFound(attempt: nat, wanted: nat)
    | ReceiveAnswer(node: nat, slots: nat, entry: Option<nat>)
    | ReceiveNotFound(node: nat)
    | LoseAnswer(node: nat)
    | Mint(node: nat, slots: nat)
    | Shed(node: nat, slots: nat)
    | RetireShedWorker(node: nat)
    | AskReplacement(node: nat)
    | Replaced(node: nat, slots: nat)
    | ReplacementRefused(node: nat)
    | ReclaimStranded(node: nat, queued: nat, cpus: nat)
    | StopWorking(node: nat)
    | Reset(node: nat)

  predicate IsNode(w: World, i: nat) {
    i < |w.nodes| && i < |w.stages| && i < |w.waiting|
  }

  /** The neighbour has the request of this attempt before it. */
  predicate IsAsked(w: World, attempt: nat, wanted: nat) {
    && Ask(attempt, wanted) in w.net && attempt < |w.attempts|
    && w.attempts[attempt].tradeId < |w.trades| && IsNode(w, w.attempts[attempt].donor)
  }

  function Requester(w: World, attempt: nat): nat
    requires attempt < |w.attempts| && w.attempts[attempt].tradeId < |w.trades|
  {
    w.trades[w.attempts[attempt].tradeId].requester
  }

  /** Between the replay check and the lock other handlers run, so a request may be granted
      even though the same id has been granted already: GrantTrade does not look. While workers
      are being retired under the lock the target may move, so the amount is worked out from
      the target `seen` earlier. */
  predicate Enabled(w: World, step: Step) {
    match step
    case Join => true
    case Start(i, _) => IsNode(w, i) && w.stages[i].NotStarted?
    case AskNeighbour(i, donor, wanted) =>
      IsNode(w, i) && IsNode(w, donor) && i != donor && w.stages[i].Working? && w.nodes[i].target > 0 && wanted > 0
      && w.waiting[i].None? && (w.nodes[i].tradeId.Some? ==> w.nodes[i].tradeId.value < |w.trades|)
    case GrantTrade(a, donor, wanted, _, alive, idle, _, _) =>
      IsAsked(w, a, wanted) && donor == w.attempts[a].donor && !w.stages[donor].NotStarted? && idle <= alive
    case ReplayTrade(a, wanted) =>
      IsAsked(w, a, wanted)
      && var donor, r := w.attempts[a].donor, Requester(w, a);
      && w.stages[donor].Working? && r in w.nodes[donor].granted
      && w.nodes[donor].granted[r].tradeId == w.attempts[a].tradeId && (donor, r) in w.latest
    case RefuseTrade(a, wanted) => IsAsked(w, a, wanted) && !w.stages[w.attempts[a].donor].Working?
    case AnswerNotFound(a, wanted) => IsAsked(w, a, wanted) && w.stages[w.attempts[a].donor].Left?
    case ReceiveAnswer(i, slots, entry) =>
      IsNode(w, i) && w.waiting[i].Some? && Answer(w.waiting[i].value, slots, entry) in w.net
      && (entry.Some? ==> entry.value < |w.debits|)
    case ReceiveNotFound(i) => IsNode(w, i) && w.waiting[i].Some? && NotFound(w.waiting[i].value) in w.net
    case LoseAnswer(i) => IsNode(w, i) && w.waiting[i].Some?
    case Mint(i, slots) => IsNode(w, i) && w.stages[i].Working? && slots > 0
    case Shed(i, slots) => IsNode(w, i) && !w.stages[i].NotStarted? && slots > 0
    case RetireShedWorker(i) => IsNode(w, i) && w.nodes[i].shedPending > 0
    case AskReplacement(i) => IsNode(w, i) && w.stages[i].Working?
    case Replaced(i, slots) => IsNode(w, i) && w.nodes[i].replacing
    case ReplacementRefused(i) => IsNode(w, i) && w.nodes[i].replacing
    case ReclaimStranded(i, queued, _) => IsNode(w, i) && w.stages[i].Working? && queued > 0 && w.nodes[i].target == 0
    case StopWorking(i) => IsNode(w, i) && w.stages[i].Working?
    case Reset(i) => IsNode(w, i) && !w.stages[i].NotStarted?
  }

  function SetNode(w: World, i: nat, s: Slots): World
    requires i < |w.nodes|
  {
    w.(nodes := w.nodes[i := s])
  }

  /** The id is reused while no response was seen, whichever neighbour is asked. */
  function OpenTrade(w: World, i: nat, donor: nat): (r: (World, TradeId))
    requires IsNode(w, i) && (w.nodes[i].tradeId.Some? ==> w.nodes[i].tradeId.value < |w.trades|)
  {
    match w.nodes[i].tradeId
    case Some(id) => (w.(trades := w.trades[id := Trade(i, donor)]), id)
    case None =>
      var id := |w.trades|;
      (SetNode(w, i, w.nodes[i].(tradeId := Some(id))).(trades := w.trades + [Trade(i, donor)]), id)
  }

  function GrantAmount(w: World, step: Step): nat
    requires step.GrantTrade? && step.donor < |w.nodes|
  {
    TradeGrant(w.nodes[step.donor].(target := step.seen), step.alive, step.idle, step.wanted, step.pressured, step.drained)
  }

  function Apply(w: World, step: Step): World
    requires Enabled(w, step)
  {
    match step
    case Join => w.(nodes := w.nodes + [NO_SLOTS], stages := w.stages + [NotStarted], waiting := w.waiting + [None])
    case Start(i, slots) =>
      SetNode(w, i, w.nodes[i].(target := slots))
      .(stages := w.stages[i := Working], flows := w.flows.(started := w.flows.started + slots - w.nodes[i].target))
    case AskNeighbour(i, donor, wanted) =>
      var (w1, id) := OpenTrade(w, i, donor);
      w1.(attempts := w.attempts + [Attempt(id, donor)], waiting := w.waiting[i := Some(|w.attempts|)],
          net := w.net + {Ask(|w.attempts|, wanted)})
    case GrantTrade(a, donor, _, _, _, _, _, _) =>
      var r, id, slots := Requester(w, a), w.attempts[a].tradeId, GrantAmount(w, step);
      SetNode(w, donor, CommitTrade(w.nodes[donor], r, id, slots))
      .(debits := w.debits + [Debit(donor, r, id, slots, false)],
        latest := w.latest[(donor, r) := |w.debits|],
        net := w.net + {Answer(a, slots, Some(|w.debits|))})
    case ReplayTrade(a, _) =>
      var donor, r := w.attempts[a].donor, Requester(w, a);
      w.(net := w.net + {Answer(a, w.nodes[donor].granted[r].slots, Some(w.latest[(donor, r)]))})
    case RefuseTrade(a, _) => w.(net := w.net + {Answer(a, 0, None)})
    case AnswerNotFound(a, _) => w.(net := w.net + {NotFound(a)})
    case ReceiveAnswer(i, slots, entry) =>
      SetNode(w, i, w.nodes[i].(target := w.nodes[i].target + slots, tradeId := None))
      .(waiting := w.waiting[i := None],
        debits := if entry.Some? then w.debits[entry.value := w.debits[entry.value].(credited := true)] else w.debits)
    case ReceiveNotFound(i) =>
      SetNode(w, i, w.nodes[i].(tradeId := None)).(waiting := w.waiting[i := None])
    case LoseAnswer(i) => w.(waiting := w.waiting[i := None])
    case Mint(i, slots) =>
      SetNode(w, i, w.nodes[i].(target := w.nodes[i].target + slots))
      .(flows := w.flows.(minted := w.flows.minted + slots))
    case Shed(i, slots) =>
      SetNode(w, i, ApplyShed(w.nodes[i], slots))
      .(flows := w.flows.(shed := w.flows.shed + ShedApplied(w.nodes[i], slots)))
    case RetireShedWorker(i) => SetNode(w, i, w.nodes[i].(shedPending := w.nodes[i].shedPending - 1))
    case AskReplacement(i) => SetNode(w, i, w.nodes[i].(replacing := true))
    case Replaced(i, slots) =>
      SetNode(w, i, w.nodes[i].(target := w.nodes[i].target - slots, replacing := false))
      .(flows := w.flows.(replaced := w.flows.replaced + slots))
    case ReplacementRefused(i) => SetNode(w, i, w.nodes[i].(replacing := false))
    case ReclaimStranded(i, queued, cpus) =>
      SetNode(w, i, w.nodes[i].(target := Reclaimed(queued, cpus)))
      .(flows := w.flows.(reclaimed := w.flows.reclaimed + Reclaimed(queued, cpus)))
    case StopWorking(i) => w.(stages := w.stages[i := Left])
    case Reset(i) =>
      SetNode(w, i, NO_SLOTS)
      .(stages := w.stages[i := Left], waiting := w.waiting[i := None], flows := w.flows.(released := w.flows.released + w.nodes[i].target))
  }

  /** What a step adds to the target of node `i`. */
  function TargetChange(w: World, step: Step, i: nat): int
    requires Enabled(w, step) && i < |w.nodes|
  {
    var target := w.nodes[i].target;
    match step
    case Start(n, slots) => if n == i then slots - target else 0
    case GrantTrade(_, donor, _, _, _, _, _, _) => if donor == i then 0 - GrantAmount(w, step) as int else 0
    case ReceiveAnswer(n, slots, _) => if n == i then slots else 0
    case Mint(n, slots) => if n == i then slots else 0
    case Shed(n, slots) => if n == i then 0 - (if slots < target then slots as int else target) else 0
    case Replaced(n, slots) => if n == i then 0 - slots as int else 0
    case ReclaimStranded(n, queued, cpus) => if n == i then (if queued < cpus then queued else cpus) else 0
    case Reset(n) => if n == i then -target else 0
    case _ => 0
  }

  /** A target moves only by what a node is assigned, gives, receives, is minted, sheds, replaces or takes back, and
      goes to 0 with the reset. */
  lemma TargetsChangeAsNamed(w: World, step: Step, i: nat)
    requires Enabled(w, step) && i < |w.nodes|
    ensures i < |Apply(w, step).nodes| && Apply(w, step).nodes[i].target == w.nodes[i].target + TargetChange(w, step, i)
  {
  }

  // ---------------------------------------------------------------- totals

  function SumInts(parts: seq<int>): int {
    if parts == [] then 0 else parts[0] + SumInts(parts[1..])
  }

  lemma {:induction false} SumIntsUpdate(parts: seq<int>, i: nat, part: int)
    requires i < |parts|
    ensures SumInts(parts[i := part]) == SumInts(parts) - parts[i] + part
  {
    if i == 0 {
      assert parts[0 := part][1..] == parts[1..];
    } else {
      assert parts[i := part][1..] == parts[1..][i - 1 := part];
      SumIntsUpdate(parts[1..], i - 1, part);
    }
  }

  lemma {:induction false} SumIntsAppend(parts: seq<int>, part: int)
    ensures SumInts(parts + [part]) == SumInts(parts) + part
  {
    if parts != [] {
      assert (parts + [part])[1..] == parts[1..] + [part];
      SumIntsAppend(parts[1..], part);
    }
  }

  function Targets(nodes: seq<Slots>): (parts: seq<int>)
    ensures |parts| == |nodes|
    ensures forall i :: 0 <= i < |nodes| ==> parts[i] == nodes[i].target
  {
    seq(|nodes|, i requires 0 <= i < |nodes| => nodes[i].target)
  }

  function Owed(debits: seq<Debit>): (parts: seq<int>)
    ensures |parts| == |debits|
    ensures forall e :: 0 <= e < |debits| ==> parts[e] == if debits[e].credited then 0 else debits[e].slots
  {
    seq(|debits|, e requires 0 <= e < |debits| => if debits[e].credited then 0 else debits[e].slots)
  }

  function TotalTarget(w: World): int { SumInts(Targets(w.nodes)) }

  /** Slots debited by a donor and not yet added by any requester. */
  function Outstanding(w: World): int { SumInts(Owed(w.debits)) }

  function Net(f: Flows): int {
    f.started + f.minted + f.reclaimed - f.shed - f.replaced - f.released
  }

  lemma {:induction false} OutstandingNotNegative(debits: seq<Debit>)
    ensures SumInts(Owed(debits)) >= 0
  {
    if debits != [] {
      assert Owed(debits)[1..] == Owed(debits[1..]);
      OutstandingNotNegative(debits[1..]);
    }
  }

  // ---------------------------------------------------------------- invariant

  predicate Matches(w: World, e: nat, donor: nat, id: TradeId, slots: nat) {
    e < |w.debits| && id < |w.trades|
    && w.debits[e].donor == donor && w.debits[e].tradeId == id && w.debits[e].slots == slots
  }

  predicate MessageOk(w: World, m: Message) {
    && m.attempt < |w.attempts|
    && (m.Answer? ==>
          if m.entry.Some?
          then Matches(w, m.entry.value, w.attempts[m.attempt].donor, w.attempts[m.attempt].tradeId, m.slots)
          else m.slots == 0)
  }

  /** A credited debit's trade is closed: it can never be credited again. */
  predicate DebitOk(w: World, e: nat)
    requires e < |w.debits|
  {
    var d := w.debits[e];
    && d.tradeId < |w.trades| && w.trades[d.tradeId].requester == d.requester
    && (d.credited ==> forall i :: 0 <= i < |w.nodes| ==> w.nodes[i].tradeId != Some(d.tradeId))
  }

  predicate NodeOk(w: World, i: nat)
    requires i < |w.nodes| && |w.waiting| == |w.nodes|
  {
    && (w.nodes[i].tradeId.Some? ==>
          w.nodes[i].tradeId.value < |w.trades| && w.trades[w.nodes[i].tradeId.value].requester == i)
    && (w.waiting[i].Some? ==>
          var a := w.waiting[i].value;
          && a < |w.attempts| && w.nodes[i].tradeId == Some(w.attempts[a].tradeId)
          && w.trades[w.attempts[a].tradeId].donor == w.attempts[a].donor)
    && (forall r :: r in w.nodes[i].granted ==>
          (i, r) in w.latest
          && Matches(w, w.latest[(i, r)], i, w.nodes[i].granted[r].tradeId, w.nodes[i].granted[r].slots))
  }

  ghost predicate TradesOk(w: World) {
    && |w.stages| == |w.waiting| == |w.nodes|
    && (forall id :: 0 <= id < |w.trades| ==> w.trades[id].requester < |w.nodes|)
    && (forall a :: 0 <= a < |w.attempts| ==> w.attempts[a].tradeId < |w.trades|)
    && (forall m :: m in w.net ==> MessageOk(w, m))
    && (forall e :: 0 <= e < |w.debits| ==> DebitOk(w, e))
    && (forall i :: 0 <= i < |w.nodes| ==> NodeOk(w, i))
  }

  /** The targets and the outstanding grants add up to what flowed in and out. */
  predicate Balanced(w: World) {
    TotalTarget(w) + Outstanding(w) == Net(w.flows)
  }

  ghost predicate Init(w: World) {
    && |w.nodes| == |w.stages| == |w.trades| == |w.debits| == |w.attempts| == |w.waiting| == 0
    && (forall dr :: dr !in w.latest) && (forall m :: m !in w.net)
    && Net(w.flows) == 0
  }

  // ---------------------------------------------------------------- trades stay matched

  /** Steps that neither send, nor open, nor close a trade. */
  predicate IsQuiet(step: Step) {
    step.Join? || step.Start? || step.Mint? || step.Shed? || step.RetireShedWorker? || step.AskReplacement?
    || step.Replaced? || step.ReplacementRefused? || step.ReclaimStranded? || step.StopWorking? || step.Reset?
    || step.LoseAnswer?
  }

  lemma QuietKeepsTrades(w: World, step: Step)
    requires TradesOk(w) && Enabled(w, step) && IsQuiet(step)
    ensures TradesOk(Apply(w, step))
  {
    var w' := Apply(w, step);
    forall m | m in w'.net ensures MessageOk(w', m) {
      assert MessageOk(w, m);
    }
    forall e | 0 <= e < |w'.debits| ensures DebitOk(w', e) {
      assert DebitOk(w, e);
    }
    forall i | 0 <= i < |w'.nodes| ensures NodeOk(w', i) {
      if i < |w.nodes| {
        assert NodeOk(w, i);
      }
    }
  }

  lemma AskKeepsNode(w: World, step: Step, i: nat)
    requires TradesOk(w) && Enabled(w, step) && step.AskNeighbour? && i < |w.nodes|
    ensures |Apply(w, step).waiting| == |Apply(w, step).nodes| == |w.nodes| && NodeOk(Apply(w, step), i)
  {
    assert NodeOk(w, i) && NodeOk(w, step.node);
  }

  lemma AskKeepsDebit(w: World, step: Step, e: nat)
    requires TradesOk(w) && Enabled(w, step) && step.AskNeighbour? && e < |w.debits|
    ensures |Apply(w, step).debits| == |w.debits| && DebitOk(Apply(w, step), e)
  {
    assert NodeOk(w, step.node) && DebitOk(w, e);
  }

  lemma AskKeepsTrades(w: World, step: Step)
    requires TradesOk(w) && Enabled(w, step) && step.AskNeighbour?
    ensures TradesOk(Apply(w, step))
  {
    var w' := Apply(w, step);
    assert NodeOk(w, step.node);
    forall m | m in w'.net ensures MessageOk(w', m) {
      assert m in w.net ==> MessageOk(w, m);
    }
    forall e | 0 <= e < |w'.debits| ensures DebitOk(w', e) {
      AskKeepsDebit(w, step, e);
    }
    forall i | 0 <= i < |w'.nodes| ensures NodeOk(w', i) {
      AskKeepsNode(w, step, i);
    }
  }

  lemma GrantKeepsTrades(w: World, step: Step)
    requires TradesOk(w) && Enabled(w, step) && step.GrantTrade?
    ensures TradesOk(Apply(w, step))
  {
    var w' := Apply(w, step);
    forall m | m in w'.net ensures MessageOk(w', m) {
      assert m in w.net ==> MessageOk(w, m);
    }
    forall e | 0 <= e < |w'.debits| ensures DebitOk(w', e) {
      assert e < |w.debits| ==> DebitOk(w, e);
    }
    forall i | 0 <= i < |w'.nodes| ensures NodeOk(w', i) {
      assert NodeOk(w, i);
    }
  }

  lemma SendKeepsTrades(w: World, m: Message)
    requires TradesOk(w) && MessageOk(w, m)
    ensures TradesOk(w.(net := w.net + {m}))
  {
    var w' := w.(net := w.net + {m});
    forall m' | m' in w'.net ensures MessageOk(w', m') {
      assert MessageOk(w, m');
    }
    forall e | 0 <= e < |w'.debits| ensures DebitOk(w', e) {
      assert DebitOk(w, e);
    }
    forall i | 0 <= i < |w'.nodes| ensures NodeOk(w', i) {
      assert NodeOk(w, i);
    }
  }

  lemma ClosingKeepsTrades(w: World, step: Step)
    requires TradesOk(w) && Enabled(w, step) && (step.ReceiveAnswer? || step.ReceiveNotFound?)
    ensures TradesOk(Apply(w, step))
  {
    var w' := Apply(w, step);
    assert NodeOk(w, step.node);
    var id := w.nodes[step.node].tradeId.value;
    if step.ReceiveAnswer? {
      assert MessageOk(w, Answer(w.waiting[step.node].value, step.slots, step.entry));
    }
    forall m | m in w'.net ensures MessageOk(w', m) {
      assert MessageOk(w, m);
    }
    forall i | 0 <= i < |w'.nodes| ensures NodeOk(w', i) && w'.nodes[i].tradeId != Some(id) {
      assert NodeOk(w, i);
    }
    forall e | 0 <= e < |w'.debits| ensures DebitOk(w', e) {
      assert DebitOk(w, e);
    }
  }

  lemma StepKeepsTrades(w: World, step: Step)
    requires TradesOk(w) && Enabled(w, step)
    ensures TradesOk(Apply(w, step))
  {
    match step
    case AskNeighbour(_, _, _) => AskKeepsTrades(w, step);
    case GrantTrade(_, _, _, _, _, _, _, _) => GrantKeepsTrades(w, step);
    case ReplayTrade(a, _) =>
      var donor, r := w.attempts[a].donor, Requester(w, a);
      assert NodeOk(w, donor);
      SendKeepsTrades(w, Answer(a, w.nodes[donor].granted[r].slots, Some(w.latest[(donor, r)])));
    case RefuseTrade(a, _) => SendKeepsTrades(w, Answer(a, 0, None));
    case AnswerNotFound(a, _) => SendKeepsTrades(w, NotFound(a));
    case ReceiveAnswer(_, _, _) => ClosingKeepsTrades(w, step);
    case ReceiveNotFound(_) => ClosingKeepsTrades(w, step);
    case _ => QuietKeepsTrades(w, step);
  }

  // ---------------------------------------------------------------- the ledger balances

  lemma TargetUpdate(w: World, i: nat, s: Slots)
    requires i < |w.nodes|
    ensures TotalTarget(SetNode(w, i, s)) == TotalTarget(w) - w.nodes[i].target + s.target
  {
    assert Targets(w.nodes[i := s]) == Targets(w.nodes)[i := s.target];
    SumIntsUpdate(Targets(w.nodes), i, s.target);
  }

  /** A slot a requester adds was debited by the donor it asked, for this trade and this amount,
      and was credited to nobody. */
  lemma CreditMatchesADebit(w: World, i: nat, slots: nat, entry: Option<nat>)
    requires TradesOk(w) && Enabled(w, ReceiveAnswer(i, slots, entry)) && slots > 0
    ensures w.waiting[i].value < |w.attempts|
    ensures var attempt := w.attempts[w.waiting[i].value];
            && w.nodes[i].tradeId == Some(attempt.tradeId)
            && entry.Some? && w.debits[entry.value] == Debit(attempt.donor, i, attempt.tradeId, slots, false)
    ensures Outstanding(Apply(w, ReceiveAnswer(i, slots, entry))) == Outstanding(w) - slots
  {
    assert MessageOk(w, Answer(w.waiting[i].value, slots, entry));
    assert NodeOk(w, i);
    var e := entry.value;
    assert DebitOk(w, e);
    var debits' := w.debits[e := w.debits[e].(credited := true)];
    assert Owed(debits') == Owed(w.debits)[e := 0];
    SumIntsUpdate(Owed(w.debits), e, 0);
  }

  lemma AnswerKeepsBalance(w: World, step: Step)
    requires TradesOk(w) && Balanced(w) && Enabled(w, step) && step.ReceiveAnswer?
    ensures Balanced(Apply(w, step))
  {
    var i := step.node;
    TargetUpdate(w, i, w.nodes[i].(target := w.nodes[i].target + step.slots, tradeId := None));
    if step.slots > 0 {
      CreditMatchesADebit(w, i, step.slots, step.entry);
    } else if step.entry.Some? {
      assert MessageOk(w, Answer(w.waiting[i].value, step.slots, step.entry));
      var e := step.entry.value;
      assert Owed(w.debits[e := w.debits[e].(credited := true)]) == Owed(w.debits);
    }
  }

  lemma GrantKeepsBalance(w: World, step: Step)
    requires Balanced(w) && Enabled(w, step) && step.GrantTrade?
    ensures Balanced(Apply(w, step))
  {
    var w' := Apply(w, step);
    TargetUpdate(w, step.donor, w'.nodes[step.donor]);
    assert Owed(w'.debits) == Owed(w.debits) + [w'.debits[|w.debits|].slots];
    SumIntsAppend(Owed(w.debits), w'.debits[|w.debits|].slots);
  }

  /** A flow is booked for exactly what it does to the node's target. */
  lemma FlowKeepsBalance(w: World, step: Step)
    requires Balanced(w) && Enabled(w, step)
    requires step.Start? || step.Mint? || step.Shed? || step.Replaced? || step.ReclaimStranded? || step.Reset?
    ensures Balanced(Apply(w, step))
  {
    var s' := Apply(w, step).nodes[step.node];
    TargetUpdate(w, step.node, s');
    assert TotalTarget(Apply(w, step)) == TotalTarget(SetNode(w, step.node, s'));
  }

  lemma IdleStepKeepsBalance(w: World, step: Step)
    requires Balanced(w) && Enabled(w, step)
    requires step.Join? || step.StopWorking? || step.AskReplacement? || step.ReplacementRefused? || step.RetireShedWorker?
             || step.LoseAnswer?
    ensures Balanced(Apply(w, step))
  {
    if step.Join? {
      SumIntsAppend(Targets(w.nodes), 0);
      assert Targets(w.nodes + [NO_SLOTS]) == Targets(w.nodes) + [0];
    } else if !step.StopWorking? && !step.LoseAnswer? {
      TargetUpdate(w, step.node, Apply(w, step).nodes[step.node]);
    }
  }

  lemma StepKeepsBalance(w: World, step: Step)
    requires TradesOk(w) && Balanced(w) && Enabled(w, step)
    ensures Balanced(Apply(w, step))
  {
    if step.Start? || step.Mint? || step.Shed? || step.Replaced? || step.ReclaimStranded? || step.Reset? {
      FlowKeepsBalance(w, step);
    } else if IsQuiet(step) {
      IdleStepKeepsBalance(w, step);
    } else if step.ReceiveAnswer? {
      AnswerKeepsBalance(w, step);
    } else if step.GrantTrade? {
      GrantKeepsBalance(w, step);
    } else if step.AskNeighbour? || step.ReceiveNotFound? {
      TargetUpdate(w, step.node, Apply(w, step).nodes[step.node]);
    }
  }

  // ---------------------------------------------------------------- runs

  predicate IsRun(w: World, steps: seq<Step>)
    decreases |steps|
  {
    steps == [] || (Enabled(w, steps[0]) && IsRun(Apply(w, steps[0]), steps[1..]))
  }

  function After(w: World, steps: seq<Step>): World
    requires IsRun(w, steps)
    decreases |steps|
  {
    if steps == [] then w else After(Apply(w, steps[0]), steps[1..])
  }

  lemma {:induction false} RunKeepsLedger(w: World, steps: seq<Step>)
    requires TradesOk(w) && Balanced(w) && IsRun(w, steps)
    ensures TradesOk(After(w, steps)) && Balanced(After(w, steps))
    decreases |steps|
  {
    if steps != [] {
      StepKeepsTrades(w, steps[0]);
      StepKeepsBalance(w, steps[0]);
      RunKeepsLedger(Apply(w, steps[0]), steps[1..]);
    }
  }

  lemma {:induction false} InitBalanced(w: World)
    requires Init(w)
    ensures TradesOk(w) && Balanced(w)
  {
  }

  /** Over every run, with lost answers, repeated requests and changing neighbours, trading
      creates no slot: the targets never add up to more than what flowed in, and fall short
      by exactly the grants no requester has added. */
  lemma {:induction false} TradingNeverCreatesSlots(w: World, steps: seq<Step>)
    requires Init(w) && IsRun(w, steps)
    ensures var w' := After(w, steps);
            TotalTarget(w') == Net(w'.flows) - Outstanding(w') && TotalTarget(w') <= Net(w'.flows)
  {
    InitBalanced(w);
    RunKeepsLedger(w, steps);
    OutstandingNotNegative(After(w, steps).debits);
  }
}
