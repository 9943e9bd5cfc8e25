/** Which slots are lost for good, and exactly which steps lose one. A grant can still reach its
    requester while the trade it was made for is open, whichever neighbour is asked in between; once
    nobody has that trade open, it never can. */
module SlotLoss {
  import opened JobTypes
  import opened NodeSlots
  import opened SlotLedger
  import opened SlotRecovery

  predicate IsOpen(w: World, id: TradeId) {
    exists i :: 0 <= i < |w.nodes| && w.nodes[i].tradeId == Some(id)
  }

  /** A grant of at least one slot that nobody has added yet. */
  predicate IsUnclaimed(w: World, e: nat) {
    e < |w.debits| && !w.debits[e].credited && w.debits[e].slots > 0
  }

  predicate IsLost(w: World, e: nat) {
    IsUnclaimed(w, e) && !IsOpen(w, w.debits[e].tradeId)
  }

  /** The node has the trade of this grant open. */
  predicate Awaits(w: World, i: nat, e: nat) {
    IsUnclaimed(w, e) && i < |w.nodes| && w.nodes[i].tradeId == Some(w.debits[e].tradeId)
  }

  /** Closing a trade that has another unclaimed grant than the one the answer brings, or granting
      slots to a trade that is closed. */
  ghost predicate LosesGrant(w: World, step: Step)
    requires Enabled(w, step)
  {
    match step
    case ReceiveAnswer(i, _, entry) => exists e: nat :: Awaits(w, i, e) && entry != Some(e)
    case ReceiveNotFound(i) => exists e: nat :: Awaits(w, i, e)
    case Reset(i) => exists e: nat :: Awaits(w, i, e)
    case GrantTrade(a, _, _, _, _, _, _, _) => GrantAmount(w, step) > 0 && !IsOpen(w, w.attempts[a].tradeId)
    case _ => false
  }

  // ---------------------------------------------------------------- lost is lost

  /** An answer credits a grant of the trade that its receiver has open. */
  lemma AnswerIsForOpenTrade(w: World, i: nat, slots: nat, entry: Option<nat>)
    requires TradesOk(w) && Enabled(w, ReceiveAnswer(i, slots, entry))
    ensures w.nodes[i].tradeId.Some?
    ensures entry.Some? ==> w.nodes[i].tradeId == Some(w.debits[entry.value].tradeId)
  {
    assert NodeOk(w, i) && MessageOk(w, Answer(w.waiting[i].value, slots, entry));
  }

  /** Only sending a trade opens one, and never one that has been granted before. */
  lemma NothingReopens(w: World, step: Step, e: nat)
    requires TradesOk(w) && Enabled(w, step) && e < |w.debits|
    ensures e < |Apply(w, step).debits| && Apply(w, step).debits[e].tradeId == w.debits[e].tradeId
    ensures IsOpen(Apply(w, step), w.debits[e].tradeId) ==> IsOpen(w, w.debits[e].tradeId)
  {
    assert DebitOk(w, e);
    var w', id := Apply(w, step), w.debits[e].tradeId;
    if IsOpen(w', id) {
      var i :| 0 <= i < |w'.nodes| && w'.nodes[i].tradeId == Some(id);
      assert i < |w.nodes| && w.nodes[i].tradeId == Some(id);
    }
  }

  /** A lost grant stays lost, whatever happens. */
  lemma LostForGood(w: World, step: Step, e: nat)
    requires TradesOk(w) && Enabled(w, step) && IsLost(w, e)
    ensures IsLost(Apply(w, step), e)
  {
    NothingReopens(w, step, e);
    if step.ReceiveAnswer? {
      AnswerIsForOpenTrade(w, step.node, step.slots, step.entry);
    }
  }

  // ---------------------------------------------------------------- the steps that lose one

  /** A node that closes its trade leaves nobody with it. */
  lemma ClosingClosesForAll(w: World, step: Step, id: TradeId)
    requires TradesOk(w) && Enabled(w, step) && (step.ReceiveAnswer? || step.ReceiveNotFound? || step.Reset?)
    requires w.nodes[step.node].tradeId == Some(id)
    ensures !IsOpen(Apply(w, step), id)
  {
    forall i | 0 <= i < |w.nodes| ensures Apply(w, step).nodes[i].tradeId != Some(id) {
      assert NodeOk(w, i) && NodeOk(w, step.node);
    }
  }

  /** Any other step leaves a grant within reach. */
  lemma StaysOpen(w: World, step: Step, e: nat)
    requires TradesOk(w) && Enabled(w, step) && IsUnclaimed(w, e) && IsOpen(w, w.debits[e].tradeId)
    requires step.ReceiveAnswer? || step.ReceiveNotFound? || step.Reset? ==> !Awaits(w, step.node, e)
    ensures IsOpen(Apply(w, step), w.debits[e].tradeId)
  {
    var w', id := Apply(w, step), w.debits[e].tradeId;
    var i :| 0 <= i < |w.nodes| && w.nodes[i].tradeId == Some(id);
    assert w'.nodes[i].tradeId == Some(id);
  }

  lemma LosingStepLosesOne(w: World, step: Step) returns (e: nat)
    requires TradesOk(w) && Enabled(w, step) && LosesGrant(w, step)
    ensures IsLost(Apply(w, step), e) && !IsLost(w, e)
  {
    var w' := Apply(w, step);
    match step
    case ReceiveAnswer(i, slots, entry) =>
      e :| Awaits(w, i, e) && entry != Some(e);
      ClosingClosesForAll(w, step, w.debits[e].tradeId);
    case ReceiveNotFound(i) =>
      e :| Awaits(w, i, e);
      ClosingClosesForAll(w, step, w.debits[e].tradeId);
    case Reset(i) =>
      e :| Awaits(w, i, e);
      ClosingClosesForAll(w, step, w.debits[e].tradeId);
    case GrantTrade(a, _, _, _, _, _, _, _) =>
      e := |w.debits|;
      forall i | 0 <= i < |w'.nodes| ensures w'.nodes[i].tradeId == w.nodes[i].tradeId {
      }
  }

  lemma OtherStepsLoseNone(w: World, step: Step, e: nat)
    requires TradesOk(w) && Enabled(w, step) && !LosesGrant(w, step) && !IsLost(w, e)
    ensures !IsLost(Apply(w, step), e)
  {
    var w' := Apply(w, step);
    if IsUnclaimed(w', e) {
      if e < |w.debits| {
        assert IsUnclaimed(w, e);
        StaysOpen(w, step, e);
      } else {
        assert step.GrantTrade?;
        var id := w.attempts[step.attempt].tradeId;
        var i :| 0 <= i < |w.nodes| && w.nodes[i].tradeId == Some(id);
        assert w'.nodes[i].tradeId == Some(id);
      }
    }
  }

  /** A step loses a grant exactly when it closes a trade that has another unclaimed grant, by an
      answer, a 404 or the node's reset, or gives slots to a trade that is closed. */
  lemma LosesExactlyWhen(w: World, step: Step)
    requires TradesOk(w) && Enabled(w, step)
    ensures (exists e: nat :: IsLost(Apply(w, step), e) && !IsLost(w, e)) <==> LosesGrant(w, step)
  {
    if LosesGrant(w, step) {
      var e := LosingStepLosesOne(w, step);
    } else {
      forall e: nat | !IsLost(w, e) ensures !IsLost(Apply(w, step), e) {
        OtherStepsLoseNone(w, step, e);
      }
    }
  }

  // ---------------------------------------------------------------- runs

  ghost predicate NothingLost(w: World) {
    forall e: nat :: !IsLost(w, e)
  }

  ghost predicate LosesNothing(w: World, steps: seq<Step>)
    requires IsRun(w, steps)
    decreases |steps|
  {
    steps != [] ==> !LosesGrant(w, steps[0]) && LosesNothing(Apply(w, steps[0]), steps[1..])
  }

  lemma {:induction false} LostThroughout(w: World, steps: seq<Step>, e: nat)
    requires TradesOk(w) && IsRun(w, steps) && IsLost(w, e)
    ensures IsLost(After(w, steps), e)
    decreases |steps|
  {
    if steps != [] {
      LostForGood(w, steps[0], e);
      StepKeepsTrades(w, steps[0]);
      LostThroughout(Apply(w, steps[0]), steps[1..], e);
    }
  }

  lemma {:induction false} NothingLostExactlyWhen(w: World, steps: seq<Step>)
    requires TradesOk(w) && IsRun(w, steps) && NothingLost(w)
    ensures NothingLost(After(w, steps)) <==> LosesNothing(w, steps)
    decreases |steps|
  {
    if steps != [] {
      var w1 := Apply(w, steps[0]);
      StepKeepsTrades(w, steps[0]);
      LosesExactlyWhen(w, steps[0]);
      if LosesGrant(w, steps[0]) {
        var e: nat :| IsLost(w1, e);
        LostThroughout(w1, steps[1..], e);
      } else {
        NothingLostExactlyWhen(w1, steps[1..]);
      }
    }
  }

  lemma {:induction false} NothingOwedExactlyWhen(debits: seq<Debit>)
    ensures SumInts(Owed(debits)) == 0 <==> forall e :: 0 <= e < |debits| ==> debits[e].credited || debits[e].slots == 0
  {
    if debits != [] {
      assert Owed(debits)[1..] == Owed(debits[1..]);
      OutstandingNotNegative(debits[1..]);
      NothingOwedExactlyWhen(debits[1..]);
      assert forall e :: 0 < e < |debits| ==> debits[e] == debits[1..][e - 1];
      assert forall e :: 0 <= e < |debits| - 1 ==> debits[1..][e] == debits[e + 1];
    }
  }

  lemma NothingLeftExactlyWhen(w: World)
    requires forall e: nat :: IsUnclaimed(w, e) <==> IsLost(w, e)
    ensures NothingLost(w) <==> Outstanding(w) == 0
  {
    NothingOwedExactlyWhen(w.debits);
    if Outstanding(w) != 0 {
      var e :| 0 <= e < |w.debits| && !w.debits[e].credited && w.debits[e].slots != 0;
      assert IsUnclaimed(w, e);
    }
  }

  /** Over every run: whenever no trade is open, the targets are what flowed in exactly when no step
      of the run has lost a grant; otherwise they fall short by the grants lost. */
  lemma {:induction false} ConservedExactlyWhenNothingLost(w: World, steps: seq<Step>)
    requires Init(w) && IsRun(w, steps)
    ensures var w' := After(w, steps);
            (forall i :: 0 <= i < |w'.nodes| ==> w'.nodes[i].tradeId.None?)
            ==> (TotalTarget(w') == Net(w'.flows) <==> LosesNothing(w, steps))
                && TotalTarget(w') == Net(w'.flows) - Outstanding(w')
                && forall e: nat :: IsUnclaimed(w', e) <==> IsLost(w', e)
  {
    InitBalanced(w);
    RunKeepsLedger(w, steps);
    NothingLostExactlyWhen(w, steps);
    var w' := After(w, steps);
    if forall i :: 0 <= i < |w'.nodes| ==> w'.nodes[i].tradeId.None? {
      forall e: nat ensures IsUnclaimed(w', e) <==> IsLost(w', e) {
      }
      NothingLeftExactlyWhen(w');
    }
  }

  // ---------------------------------------------------------------- out of reach is not lost

  /** The donor will replay this grant, and its requester has the trade open. */
  predicate IsAtDonor(w: World, e: nat) {
    && IsUnclaimed(w, e)
    && var d := w.debits[e];
    && d.requester != d.donor && IsNode(w, d.requester) && IsNode(w, d.donor)
    && w.nodes[d.requester].tradeId == Some(d.tradeId) && w.stages[d.donor].Working?
    && d.requester in w.nodes[d.donor].granted && w.nodes[d.donor].granted[d.requester] == Grant(d.tradeId, d.slots)
    && (d.donor, d.requester) in w.latest && w.latest[(d.donor, d.requester)] == e
  }

  lemma RetryRecovers(w: World, e: nat, wanted: nat)
    requires TradesOk(w) && IsAtDonor(w, e) && Enabled(w, AskNeighbour(w.debits[e].requester, w.debits[e].donor, wanted))
    ensures var d := w.debits[e];
            var a, w1 := |w.attempts|, Apply(w, AskNeighbour(d.requester, d.donor, wanted));
            && Enabled(w1, ReplayTrade(a, wanted))
            && var w2 := Apply(w1, ReplayTrade(a, wanted));
            && Enabled(w2, ReceiveAnswer(d.requester, d.slots, Some(e)))
            && var w3 := Apply(w2, ReceiveAnswer(d.requester, d.slots, Some(e)));
            && w3.debits[e].credited && w3.nodes[d.requester].target == w.nodes[d.requester].target + d.slots
  {
    assert NodeOk(w, w.debits[e].donor) && NodeOk(w, w.debits[e].requester) && DebitOk(w, e);
  }

  /** Asking another neighbour strands a grant without losing it: once that attempt is given up and
      the donor asked again, the slots are added in full. */
  lemma SwitchingBackRecovers(w: World, e: nat, other: nat, wanted: nat)
    requires SteadyOk(w) && IsOwed(w, e)
    requires w.debits[e].donor != w.debits[e].requester && w.debits[e].donor != other
    requires Enabled(w, AskNeighbour(w.debits[e].requester, other, wanted))
    ensures var d := w.debits[e];
            var w1 := Apply(w, AskNeighbour(d.requester, other, wanted));
            && IsStranded(w1, e) && !IsLost(w1, e)
            && Enabled(w1, LoseAnswer(d.requester))
            && var w2 := Apply(w1, LoseAnswer(d.requester));
            && TradesOk(w2) && IsAtDonor(w2, e) && w2.nodes == w.nodes
            && Enabled(w2, AskNeighbour(d.requester, d.donor, wanted))
  {
    assert !IsStranded(w, e);
    var d := w.debits[e];
    var ask := AskNeighbour(d.requester, other, wanted);
    assert !w.stages[d.donor].NotStarted?;
    StepKeepsTrades(w, ask);
    StepKeepsTrades(Apply(w, ask), LoseAnswer(d.requester));
    assert Apply(w, ask).nodes[d.requester].tradeId == Some(d.tradeId);
  }
}
