/** When a granted slot gets out of reach of asking again, and exactly which steps put one there. While
    no such step is taken, a lost response is made up for by a retry, and slots are exactly conserved.
    What is lost for good is the subject of SlotLoss. */
module SlotRecovery {
  import opened JobTypes
  import opened NodeSlots
  import opened SlotLedger

  predicate HasLeft(w: World, i: nat) {
    i < |w.stages| && w.stages[i].Left?
  }

  /** A grant of at least one slot that nobody has added yet, between two nodes still on the job. */
  predicate IsOwed(w: World, e: nat) {
    && e < |w.debits| && !w.debits[e].credited && w.debits[e].slots > 0
    && !HasLeft(w, w.debits[e].donor) && !HasLeft(w, w.debits[e].requester)
  }

  /** No response to the attempt the requester awaits could close its trade without this grant. */
  predicate AnswersCarry(w: World, i: nat, e: nat) {
    i < |w.waiting| && w.waiting[i].Some? ==>
      forall m :: m in w.net && !m.Ask? && m.attempt == w.waiting[i].value ==> m.Answer? && m.entry == Some(e)
  }

  /** The donor will replay this grant to its requester, whose trade is still open with it. */
  predicate IsReplayable(w: World, e: nat)
    requires e < |w.debits|
  {
    var d := w.debits[e];
    && d.donor < |w.nodes| && d.requester < |w.nodes| && d.tradeId < |w.trades|
    && w.nodes[d.requester].tradeId == Some(d.tradeId)
    && w.trades[d.tradeId] == Trade(d.requester, d.donor)
    && d.requester in w.nodes[d.donor].granted
    && w.nodes[d.donor].granted[d.requester] == Grant(d.tradeId, d.slots)
    && (d.donor, d.requester) in w.latest && w.latest[(d.donor, d.requester)] == e
    && AnswersCarry(w, d.requester, e)
  }

  /** Slots that left their donor and that the next retry does not bring to the requester. They may come
      within reach again, when the donor is asked again after another neighbour. */
  predicate IsStranded(w: World, e: nat) {
    IsOwed(w, e) && !IsReplayable(w, e)
  }

  // ---------------------------------------------------------------- the steps that strand a grant

  /** The requester's trade is open and was last sent to this neighbour, and no response to the
      attempt it awaits exists yet. */
  predicate IsExpected(w: World, id: TradeId, donor: nat, r: nat) {
    && r < |w.nodes| && w.nodes[r].tradeId == Some(id) && id < |w.trades| && w.trades[id].donor == donor
    && (r < |w.waiting| && w.waiting[r].Some? ==>
          forall m :: m in w.net && !m.Ask? ==> m.attempt != w.waiting[r].value)
  }

  /** A step keeps every grant within reach unless it sends an open trade to another neighbour while
      the last one's grant is owed, grants over a grant that is still owed, or gives slots to a
      request that is no longer expected: its trade is closed, has moved on to another neighbour,
      or has been answered. */
  ghost predicate Steady(w: World, step: Step)
    requires Enabled(w, step)
  {
    match step
    case AskNeighbour(i, donor, _) =>
      forall e: nat :: IsOwed(w, e) && w.debits[e].requester == i ==> w.debits[e].donor == donor
    case GrantTrade(a, donor, _, _, _, _, _, _) =>
      var r := Requester(w, a);
      || HasLeft(w, donor) || HasLeft(w, r)
      || ((forall e: nat :: IsOwed(w, e) && w.debits[e].requester == r ==> w.debits[e].donor != donor)
          && (GrantAmount(w, step) == 0 || IsExpected(w, w.attempts[a].tradeId, donor, r)))
    case _ => true
  }

  ghost predicate SteadyOk(w: World) {
    && TradesOk(w)
    && (forall i :: 0 <= i < |w.nodes| && w.stages[i].NotStarted? ==> w.nodes[i] == NO_SLOTS)
    && (forall e :: 0 <= e < |w.debits| ==> !IsStranded(w, e))
  }

  // ---------------------------------------------------------------- steady steps strand nothing

  lemma AskStrandsNothing(w: World, step: Step, e: nat)
    requires SteadyOk(w) && Enabled(w, step) && Steady(w, step) && step.AskNeighbour? && e < |w.debits|
    ensures !IsStranded(Apply(w, step), e)
  {
    assert !IsStranded(w, e) && NodeOk(w, step.node) && DebitOk(w, e);
    forall m | m in w.net ensures m.attempt < |w.attempts| {
      assert MessageOk(w, m);
    }
  }

  lemma GrantStrandsNoOther(w: World, step: Step, e: nat)
    requires SteadyOk(w) && Enabled(w, step) && Steady(w, step) && step.GrantTrade? && e < |w.debits|
    ensures !IsStranded(Apply(w, step), e)
  {
    var w' := Apply(w, step);
    assert !IsStranded(w, e) && DebitOk(w, e);
    if IsOwed(w', e) {
      var d := w.debits[e];
      assert IsOwed(w, e) && IsReplayable(w, e) && NodeOk(w, d.requester);
    }
  }

  lemma GrantIsNotStranded(w: World, step: Step)
    requires SteadyOk(w) && Enabled(w, step) && Steady(w, step) && step.GrantTrade?
    ensures !IsStranded(Apply(w, step), |w.debits|)
  {
    var r := Requester(w, step.attempt);
    if IsOwed(Apply(w, step), |w.debits|) && w.waiting[r].Some? {
      assert NodeOk(w, r);
    }
  }

  lemma AnswerStrandsNothing(w: World, step: Step, e: nat)
    requires SteadyOk(w) && Enabled(w, step) && e < |w.debits|
    requires step.ReplayTrade? || step.RefuseTrade? || step.AnswerNotFound?
    ensures !IsStranded(Apply(w, step), e)
  {
    assert !IsStranded(w, e) && DebitOk(w, e);
    if IsOwed(w, e) {
      var d := w.debits[e];
      assert NodeOk(w, d.requester) && NodeOk(w, d.donor);
    }
  }

  lemma ReceiveStrandsNothing(w: World, step: Step, e: nat)
    requires SteadyOk(w) && Enabled(w, step) && e < |w.debits|
    requires step.ReceiveAnswer? || step.ReceiveNotFound?
    ensures !IsStranded(Apply(w, step), e)
  {
    assert !IsStranded(w, e) && DebitOk(w, e) && NodeOk(w, step.node);
    if step.ReceiveAnswer? {
      assert MessageOk(w, Answer(w.waiting[step.node].value, step.slots, step.entry));
    } else {
      assert NotFound(w.waiting[step.node].value) in w.net;
    }
  }

  lemma QuietStrandsNothing(w: World, step: Step, e: nat)
    requires SteadyOk(w) && Enabled(w, step) && e < |w.debits| && IsQuiet(step)
    ensures !IsStranded(Apply(w, step), e)
  {
    assert !IsStranded(w, e) && DebitOk(w, e);
  }

  lemma SteadyStepStrandsNothing(w: World, step: Step, e: nat)
    requires SteadyOk(w) && Enabled(w, step) && Steady(w, step) && e < |Apply(w, step).debits|
    ensures !IsStranded(Apply(w, step), e)
  {
    if step.GrantTrade? {
      if e == |w.debits| {
        GrantIsNotStranded(w, step);
      } else {
        GrantStrandsNoOther(w, step, e);
      }
    } else if step.AskNeighbour? {
      AskStrandsNothing(w, step, e);
    } else if step.ReceiveAnswer? || step.ReceiveNotFound? {
      ReceiveStrandsNothing(w, step, e);
    } else if IsQuiet(step) {
      QuietStrandsNothing(w, step, e);
    } else {
      AnswerStrandsNothing(w, step, e);
    }
  }

  lemma UnstartedHaveNothing(w: World, step: Step, i: nat)
    requires SteadyOk(w) && Enabled(w, step)
    requires i < |Apply(w, step).nodes| && i < |Apply(w, step).stages| && Apply(w, step).stages[i].NotStarted?
    ensures Apply(w, step).nodes[i] == NO_SLOTS
  {
    if i < |w.nodes| {
      assert NodeOk(w, i);
    }
  }

  lemma SteadyStepKeepsOk(w: World, step: Step)
    requires SteadyOk(w) && Enabled(w, step) && Steady(w, step)
    ensures SteadyOk(Apply(w, step))
  {
    var w' := Apply(w, step);
    StepKeepsTrades(w, step);
    forall i | 0 <= i < |w'.nodes| && w'.stages[i].NotStarted? ensures w'.nodes[i] == NO_SLOTS {
      UnstartedHaveNothing(w, step, i);
    }
    forall e | 0 <= e < |w'.debits| ensures !IsStranded(w', e) {
      SteadyStepStrandsNothing(w, step, e);
    }
  }

  // ---------------------------------------------------------------- and only steady steps

  lemma SwitchingStrands(w: World, step: Step, e: nat)
    requires SteadyOk(w) && Enabled(w, step) && step.AskNeighbour?
    requires IsOwed(w, e) && w.debits[e].requester == step.node && w.debits[e].donor != step.donor
    ensures IsStranded(Apply(w, step), e)
  {
    assert !IsStranded(w, e);
  }

  lemma GrantingOverStrands(w: World, step: Step, e: nat)
    requires SteadyOk(w) && Enabled(w, step) && step.GrantTrade?
    requires IsOwed(w, e) && w.debits[e].requester == Requester(w, step.attempt) && w.debits[e].donor == step.donor
    ensures IsStranded(Apply(w, step), e)
  {
  }

  lemma UnexpectedGrantIsStranded(w: World, step: Step)
    requires SteadyOk(w) && Enabled(w, step) && step.GrantTrade? && GrantAmount(w, step) > 0
    requires !HasLeft(w, step.donor) && !HasLeft(w, Requester(w, step.attempt))
    requires !IsExpected(w, w.attempts[step.attempt].tradeId, step.donor, Requester(w, step.attempt))
    ensures IsStranded(Apply(w, step), |w.debits|)
  {
    var w', r, id := Apply(w, step), Requester(w, step.attempt), w.attempts[step.attempt].tradeId;
    if w.nodes[r].tradeId == Some(id) && w.trades[id].donor == step.donor {
      var m :| m in w.net && !m.Ask? && m.attempt == w.waiting[r].value;
      assert m in w'.net && MessageOk(w, m);
    }
  }

  /** While every owed grant is within reach, a step strands one exactly when it is not steady:
      when it asks another neighbour while a grant is owed, grants over a grant still owed, or gives
      slots to a request whose trade is closed, has moved on or has been answered. */
  lemma StrandsExactlyWhen(w: World, step: Step)
    requires SteadyOk(w) && Enabled(w, step)
    ensures (exists e: nat :: IsStranded(Apply(w, step), e)) <==> !Steady(w, step)
  {
    var w' := Apply(w, step);
    if Steady(w, step) {
      forall e: nat ensures !IsStranded(w', e) {
        if e < |w'.debits| {
          SteadyStepStrandsNothing(w, step, e);
        }
      }
    } else if step.AskNeighbour? {
      var e: nat :| IsOwed(w, e) && w.debits[e].requester == step.node && w.debits[e].donor != step.donor;
      SwitchingStrands(w, step, e);
    } else {
      var r := Requester(w, step.attempt);
      if e: nat :| IsOwed(w, e) && w.debits[e].requester == r && w.debits[e].donor == step.donor {
        GrantingOverStrands(w, step, e);
      } else {
        UnexpectedGrantIsStranded(w, step);
      }
    }
  }

  // ---------------------------------------------------------------- runs

  ghost predicate IsSteadyRun(w: World, steps: seq<Step>)
    decreases |steps|
  {
    steps == []
    || (Enabled(w, steps[0]) && Steady(w, steps[0]) && IsSteadyRun(Apply(w, steps[0]), steps[1..]))
  }

  lemma {:induction false} SteadyRunKeepsOk(w: World, steps: seq<Step>)
    requires SteadyOk(w) && Balanced(w) && IsSteadyRun(w, steps)
    ensures IsRun(w, steps) && SteadyOk(After(w, steps)) && Balanced(After(w, steps))
    decreases |steps|
  {
    if steps != [] {
      SteadyStepKeepsOk(w, steps[0]);
      StepKeepsBalance(w, steps[0]);
      SteadyRunKeepsOk(Apply(w, steps[0]), steps[1..]);
    }
  }

  lemma {:induction false} InitSteady(w: World)
    requires Init(w)
    ensures SteadyOk(w) && Balanced(w)
  {
  }

  /** A grant whose response was lost is not lost: asking again, which reaches the same neighbour,
      is answered with this very grant, and the requester then adds it. */
  lemma LostAnswerIsReplayed(w: World, e: nat, wanted: nat)
    requires SteadyOk(w) && IsOwed(w, e)
    requires var d := w.debits[e]; Enabled(w, AskNeighbour(d.requester, d.donor, wanted))
    ensures var d := w.debits[e];
            var a, w1 := |w.attempts|, Apply(w, AskNeighbour(d.requester, d.donor, wanted));
            && Enabled(w1, ReplayTrade(a, wanted))
            && var w2 := Apply(w1, ReplayTrade(a, wanted));
            && Enabled(w2, ReceiveAnswer(d.requester, d.slots, Some(e)))
            && var w3 := Apply(w2, ReceiveAnswer(d.requester, d.slots, Some(e)));
            && w3.debits[e].credited && w3.nodes[d.requester].target == w.nodes[d.requester].target + d.slots
  {
    assert !IsStranded(w, e);
  }

  /** What was debited and not credited between nodes of which one has left. */
  function Departed(w: World): (parts: seq<int>)
    ensures |parts| == |w.debits|
  {
    seq(|w.debits|, e requires 0 <= e < |w.debits| =>
      if !w.debits[e].credited && (HasLeft(w, w.debits[e].donor) || HasLeft(w, w.debits[e].requester))
      then w.debits[e].slots else 0)
  }

  lemma {:induction false} ZerosSumToZero(parts: seq<int>)
    requires forall k :: 0 <= k < |parts| ==> parts[k] == 0
    ensures SumInts(parts) == 0
  {
    if parts != [] {
      ZerosSumToZero(parts[1..]);
    }
  }

  lemma {:induction false} NothingDeparted(w: World)
    requires forall i :: 0 <= i < |w.stages| ==> !w.stages[i].Left?
    ensures SumInts(Departed(w)) == 0
  {
    ZerosSumToZero(Departed(w));
  }

  /** Over every run without a step that strands a grant: whenever no trade is open, the targets are
      exactly what flowed in less the grants that nodes took with them when they left, and so
      exactly what flowed in while none has. */
  lemma {:induction false} SlotsExactlyConserved(w: World, steps: seq<Step>)
    requires Init(w) && IsSteadyRun(w, steps)
    ensures IsRun(w, steps)
    ensures var w' := After(w, steps);
            (forall i :: 0 <= i < |w'.nodes| ==> w'.nodes[i].tradeId.None?)
            ==> TotalTarget(w') + SumInts(Departed(w')) == Net(w'.flows)
                && ((forall i :: 0 <= i < |w'.stages| ==> !w'.stages[i].Left?) ==> TotalTarget(w') == Net(w'.flows))
  {
    InitSteady(w);
    SteadyRunKeepsOk(w, steps);
    var w' := After(w, steps);
    if forall i :: 0 <= i < |w'.nodes| ==> w'.nodes[i].tradeId.None? {
      forall e | 0 <= e < |w'.debits| ensures Owed(w'.debits)[e] == Departed(w')[e] {
        assert !IsStranded(w', e);
      }
      assert Owed(w'.debits) == Departed(w');
      if forall i :: 0 <= i < |w'.stages| ==> !w'.stages[i].Left? {
        NothingDeparted(w');
      }
    }
  }

  // ---------------------------------------------------------------- a run that loses a slot

  const NO_FLOWS: Flows := Flows(0, 0, 0, 0, 0, 0)

  function Node(target: int, trade: Option<TradeId>): Slots {
    Slots(target, map[], trade, false, 0)
  }

  /** Two nodes start with one and two slots. The first asks the second, gives up on the response
      and asks again. */
  function Opening(k: nat): Step {
    if k < 2 then Join
    else if k < 4 then Start(k - 2, k - 1)
    else if k == 5 then LoseAnswer(0)
    else AskNeighbour(0, 1, 1)
  }

  function Pair(trade: Option<TradeId>, attempts: seq<Attempt>, waiting: Option<nat>, net: set<Message>): World {
    World([Node(1, trade), Node(2, None)], [Working, Working], if trade.Some? then [Trade(0, 1)] else [], attempts,
          [waiting, None], [], map[], net, NO_FLOWS.(started := 3))
  }

  function Scene(k: nat): World {
    var ask := Attempt(0, 1);
    if k == 0 then World([], [], [], [], [], [], map[], {}, NO_FLOWS)
    else if k == 1 then World([NO_SLOTS], [NotStarted], [], [], [None], [], map[], {}, NO_FLOWS)
    else if k == 2 then World([NO_SLOTS, NO_SLOTS], [NotStarted, NotStarted], [], [], [None, None], [], map[], {}, NO_FLOWS)
    else if k == 3 then
      World([Node(1, None), NO_SLOTS], [Working, NotStarted], [], [], [None, None], [], map[], {}, NO_FLOWS.(started := 1))
    else if k == 4 then Pair(None, [], None, {})
    else if k == 5 then Pair(Some(0), [ask], Some(0), {Ask(0, 1)})
    else if k == 6 then Pair(Some(0), [ask], None, {Ask(0, 1)})
    else Pair(Some(0), [ask, ask], Some(1), {Ask(0, 1), Ask(1, 1)})
  }

  lemma StartingScene(k: nat)
    requires k < 4
    ensures Enabled(Scene(k), Opening(k)) && Apply(Scene(k), Opening(k)) == Scene(k + 1)
  {
  }

  lemma AskingScene(k: nat)
    requires 4 <= k < 7
    ensures Enabled(Scene(k), Opening(k)) && Apply(Scene(k), Opening(k)) == Scene(k + 1)
  {
  }

  function OpeningFrom(k: nat): seq<Step>
    decreases 7 - k
  {
    if k >= 7 then [] else [Opening(k)] + OpeningFrom(k + 1)
  }

  lemma {:induction false} OpeningPlayed(k: nat, end: nat)
    requires k <= end == 7
    ensures IsRun(Scene(k), OpeningFrom(k)) && After(Scene(k), OpeningFrom(k)) == Scene(end)
    decreases 7 - k
  {
    if k < 7 {
      if k < 4 {
        StartingScene(k);
      } else {
        AskingScene(k);
      }
      OpeningPlayed(k + 1, end);
      assert OpeningFrom(k)[1..] == OpeningFrom(k + 1);
    }
  }

  /** Both requests are with the second node, which has granted `debits` so far. */
  predicate BothAsked(w: World, debits: seq<Debit>) {
    && w.stages == [Working, Working] && |w.nodes| == 2 && |w.waiting| == 2
    && w.nodes[0].target == 1 && w.nodes[0].tradeId == Some(0) && w.waiting[0] == Some(1)
    && w.nodes[1].target == 2 - |debits| && w.nodes[1].tradeId.None? && !w.nodes[1].replacing
    && w.trades == [Trade(0, 1)] && w.attempts == [Attempt(0, 1), Attempt(0, 1)]
    && Ask(0, 1) in w.net && Ask(1, 1) in w.net
    && w.debits == debits && Net(w.flows) == 3
  }

  const GRANTED: Debit := Debit(1, 0, 0, 1, false)

  /** Each handler, past the replay check before the other granted, grants a slot. */
  function Overlapping(attempt: nat): Step {
    GrantTrade(attempt, 1, 1, 2 - attempt, 0, 0, true, false)
  }

  lemma HandlerGrants(w: World, attempt: nat, debits: seq<Debit>)
    requires attempt < 2 && |debits| == attempt && BothAsked(w, debits)
    ensures Enabled(w, Overlapping(attempt))
    ensures var w' := Apply(w, Overlapping(attempt));
            BothAsked(w', debits + [GRANTED]) && Answer(attempt, 1, Some(attempt)) in w'.net
  {
    assert GrantAmount(w, Overlapping(attempt)) == 1;
  }

  lemma RequesterAddsOne(w: World)
    requires BothAsked(w, [GRANTED, GRANTED]) && Answer(1, 1, Some(1)) in w.net
    ensures var receive := ReceiveAnswer(0, 1, Some(1));
            && Enabled(w, receive)
            && var w' := Apply(w, receive);
            && w'.stages == [Working, Working] && |w'.nodes| == 2
            && w'.nodes[0].tradeId.None? && w'.nodes[1].tradeId.None?
            && TotalTarget(w') == Net(w'.flows) - 1 && IsStranded(w', 0)
  {
    var parts := Targets(Apply(w, ReceiveAnswer(0, 1, Some(1))).nodes);
    assert SumInts(parts) == parts[0] + SumInts(parts[1..]) && SumInts(parts[1..]) == parts[1] + SumInts(parts[1..][1..]);
  }

  lemma FirstAndLastScene(k: nat)
    ensures k == 0 ==> Init(Scene(k))
    ensures k == 7 ==> BothAsked(Scene(k), [])
  {
  }

  /** Every job can come to where a node has asked for its open trade twice. */
  lemma BothAskedIsReachable() returns (start: World, steps: seq<Step>, end: World)
    ensures Init(start) && IsRun(start, steps) && After(start, steps) == end && BothAsked(end, [])
  {
    var first: nat, last: nat :| first == 0 && last == 7;
    start, steps, end := Scene(first), OpeningFrom(first), Scene(last);
    OpeningPlayed(first, last);
    FirstAndLastScene(first);
    FirstAndLastScene(last);
  }

  /** From there, with overlapping handlers, a slot is lost although nobody has left and no trade is
      open: the conservation the donor's contract promises is false of this run. */
  lemma OverlappingHandlersLoseASlot(w: World)
    requires BothAsked(w, [])
    ensures Enabled(w, Overlapping(0))
    ensures var w1 := Apply(w, Overlapping(0));
            && Enabled(w1, Overlapping(1))
            && var w2, receive := Apply(w1, Overlapping(1)), ReceiveAnswer(0, 1, Some(1));
            && Enabled(w2, receive)
            && var w3 := Apply(w2, receive);
            && w3.stages == [Working, Working] && |w3.nodes| == 2
            && w3.nodes[0].tradeId.None? && w3.nodes[1].tradeId.None?
            && TotalTarget(w3) == Net(w3.flows) - 1 && IsStranded(w3, 0)
  {
    HandlerGrants(w, 0, []);
    var w1 := Apply(w, Overlapping(0));
    HandlerGrants(w1, 1, [GRANTED]);
    RequesterAddsOne(Apply(w1, Overlapping(1)));
  }
}
