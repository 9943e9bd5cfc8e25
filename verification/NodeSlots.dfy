/** One node's slot count for the job and the trades it has granted. */
module NodeSlots {
  import opened Arithmetic
  import opened JobTypes

  datatype Grant = Grant(tradeId: TradeId, slots: nat)

  datatype Slots = Slots(
    target: int,                    // `target_parallelism`
    granted: map<nat, Grant>,       // `slot_trades_granted`: requester -> its last trade
    tradeId: Option<TradeId>,       // `slot_trade_id`: open until a response is seen
    replacing: bool,                // a replacement request may be in flight
    shedPending: int)

  const NO_SLOTS: Slots := Slots(0, map[], None, false, 0)

  /** What `trade_slots` gives up: slots with no live worker behind them while the node is
      pressured, then slots behind idle workers once its queue is drained. */
  function UnbackedGrant(s: Slots, alive: nat, wanted: nat, pressured: bool): nat {
    if pressured && !s.replacing then Min(wanted, Max(0, s.target - alive)) else 0
  }

  function IdleGrant(s: Slots, alive: nat, idle: nat, wanted: nat, pressured: bool, drained: bool): nat {
    if drained then Min(idle, Max(0, wanted - UnbackedGrant(s, alive, wanted, pressured))) else 0
  }

  function TradeGrant(s: Slots, alive: nat, idle: nat, wanted: nat, pressured: bool, drained: bool): (g: nat)
    ensures g <= wanted
  {
    UnbackedGrant(s, alive, wanted, pressured) + IdleGrant(s, alive, idle, wanted, pressured, drained)
  }

  function CommitTrade(s: Slots, requester: nat, id: TradeId, granted: nat): Slots {
    s.(target := s.target - granted, granted := s.granted[requester := Grant(id, granted)])
  }

  /** A drained node can trade its target below zero: idle workers whose slots were already
      shed still count as slots to give. It never does, whatever is asked, exactly when it
      has no more idle workers than slots. */
  lemma TradeOverdrawsExactlyWhen(s: Slots, alive: nat, idle: nat, pressured: bool)
    requires s.target >= 0 && idle <= alive
    ensures (forall wanted: nat :: CommitTrade(s, 0, 0, TradeGrant(s, alive, idle, wanted, pressured, true)).target >= 0)
            <==> idle <= s.target
  {
    if idle > s.target {
      assert TradeGrant(s, alive, idle, idle, pressured, true) == idle;
      assert CommitTrade(s, 0, 0, TradeGrant(s, alive, idle, idle, pressured, true)).target < 0;
    }
  }

  lemma TradeOverdrawsExample()
    ensures var s := Slots(2, map[], None, false, 3);
            CommitTrade(s, 1, 0, TradeGrant(s, 5, 5, 5, false, true)).target == -3
  {
  }

  /** A stranded node takes slots for what is queued, at most one per CPU. */
  function Reclaimed(queued: nat, cpus: nat): nat {
    Min(queued, cpus)
  }

  /** `push_state`: slots taken back by the head come off the target at once, at most as many
      as the target has. */
  function ShedApplied(s: Slots, shed: nat): int {
    Min(shed, s.target)
  }

  function ApplyShed(s: Slots, shed: nat): Slots {
    s.(target := s.target - ShedApplied(s, shed), shedPending := s.shedPending + ShedApplied(s, shed))
  }
}
