/** The controller of one job, as the head's event loop runs it: every method changes the fields
    the code changes and is proved to do what MintRules says. */
module MintController {
  import opened Arithmetic
  import opened JobTypes
  import opened MintRules

  /** The entries of `grants` outside `left` have been added to `sheds`. */
  ghost predicate Adding(sheds: Slots, grants: Slots, left: set<nat>, merged: Slots) {
    && left <= grants.Keys
    && (forall node :: node in merged <==> node in sheds || (node in grants && node !in left))
    && (forall node :: node in merged ==>
          merged[node] == Of(sheds, node) + if node in left then 0 else Of(grants, node))
  }

  lemma AddingNext(sheds: Slots, grants: Slots, left: set<nat>, merged: Slots, node: nat)
    requires Adding(sheds, grants, left, merged) && node in left
    ensures Adding(sheds, grants, left - {node}, merged[node := Of(merged, node) + grants[node]])
  {
  }

  lemma AddedAll(sheds: Slots, grants: Slots, merged: Slots)
    requires Adding(sheds, grants, {}, merged)
    ensures merged == Merge(sheds, grants)
  {
  }

  /** `sheds` with each node's grant added to what it already owes, one node at a time. */
  method AddEach(sheds: Slots, grants: Slots) returns (merged: Slots)
    ensures merged == Merge(sheds, grants)
  {
    merged := sheds;
    var left := grants.Keys;
    while |left| > 0
      invariant Adding(sheds, grants, left, merged)
      decreases |left|
    {
      var node :| node in left;
      AddingNext(sheds, grants, left, merged, node);
      merged := merged[node := Of(merged, node) + grants[node]];
      left := left - {node};
    }
    AddedAll(sheds, grants, merged);
  }

  predicate RefusesGrant(p: Policy, m: Meter, node: nat, now: real) {
    || p.frozen || p.allowance <= 0 || |m.blocks| < 8
    || (p.epoch.Some? && (now - p.epoch.value.openedAt > 30.0 || node in p.grants))
  }

  /** What there is to grant: opening an epoch lifts the allowance to a tenth of the live workers, but
      not a probe's. */
  function AllowanceToGrant(p: Policy, workers: nat): int {
    if p.epoch.Some? || p.probing then p.allowance else Max(p.allowance, BaseAllowance(workers))
  }

  class JobController {
    var frozen: bool
    var probing: bool
    var probeAt: Option<real>
    var probeInterval: real
    var allowance: int
    var epoch: Option<Epoch>
    var epochGrants: Slots
    var pendingSheds: Slots
    var goodput: real
    var workers: nat
    var lastTotal: Option<int>
    var lastTickAt: real
    var blocks: seq<real>
    var blockStartedAt: real
    var blockStartTotal: int
    var blockFullyBusy: bool

    function Decisions(): Policy
      reads this`frozen, this`probing, this`probeAt, this`probeInterval, this`allowance, this`epoch,
            this`epochGrants, this`pendingSheds
    {
      Policy(frozen, probing, probeAt, probeInterval, allowance, epoch, epochGrants, pendingSheds)
    }

    function Readings(): Meter
      reads this`goodput, this`workers, this`lastTotal, this`lastTickAt, this`blocks, this`blockStartedAt,
            this`blockStartTotal, this`blockFullyBusy
    {
      Meter(goodput, workers, lastTotal, lastTickAt, blocks, blockStartedAt, blockStartTotal, blockFullyBusy)
    }

    constructor (workerCount: nat)
      ensures !frozen && !probing && epoch.None? && probeAt.None? && probeInterval == 90.0 && allowance == BaseAllowance(workerCount)
      ensures epochGrants == map[] && pendingSheds == map[] && goodput == 0.0 && lastTotal.None? && blocks == []
      ensures Controller(Decisions(), Readings()) == NewController(workerCount)
    {
      frozen, probing, probeAt, probeInterval := false, false, None, PROBE_INTERVAL_SEC;
      allowance := BaseAllowance(workerCount);
      epoch, epochGrants, pendingSheds := None, map[], map[];
      goodput, workers, lastTotal, lastTickAt := 0.0, workerCount, None, 0.0;
      blocks, blockStartedAt, blockStartTotal, blockFullyBusy := [], 0.0, 0, false;
    }

    method Grant(node: nat, requested: nat, now: real, root: real) returns (granted: nat)
      modifies this`allowance, this`epoch, this`epochGrants
      // refused: frozen, nothing left, not enough readings, an epoch older than 30 s, or a second ask in it
      ensures RefusesGrant(old(Decisions()), Readings(), node, now) ==> granted == 0 && Decisions() == old(Decisions())
      // otherwise the node gets what it asks for as far as the allowance goes
      ensures !RefusesGrant(old(Decisions()), Readings(), node, now) ==>
                && (granted == requested || (granted < requested && allowance == 0))
                && allowance + granted == AllowanceToGrant(old(Decisions()), workers)
                && epochGrants == (if old(epoch).Some? then old(epochGrants) else map[])[node := granted]
                && epoch == if old(epoch).Some? then old(epoch)
                            else Some(Epoch(now, workers, goodput, Some(root), 0, now + 75.0))
      ensures granted == GrantSize(old(Decisions()), Readings(), node, requested, now, root)
      ensures Decisions() == AfterGrant(old(Decisions()), Readings(), node, requested, now, root)
    {
      if frozen || allowance <= 0 {
        return 0;
      }
      if |blocks| < SIGMA_BLOCKS {
        return 0;
      }
      if epoch.Some? && now - epoch.value.openedAt > EPOCH_GRANT_WINDOW_SEC {
        return 0;
      }
      if epoch.Some? && node in epochGrants {
        return 0;
      }
      if epoch.None? {
        if !probing {
          allowance := Max(allowance, BaseAllowance(workers));
        }
        epoch := Some(Epoch(now, workers, goodput, SigmaDg(Baseline(blocks), root), 0, now + EPOCH_VERDICT_AGE_SEC));
        epochGrants := map[];
      }
      granted := Min(requested, allowance);
      allowance := allowance - granted;
      epochGrants := epochGrants[node := Of(epochGrants, node) + granted];
    }

    method TakeShed(node: nat) returns (slots: nat)
      modifies this`pendingSheds
      ensures slots == Of(old(pendingSheds), node)
      ensures Decisions() == AfterTakeShed(old(Decisions()), node)
    {
      slots := Of(pendingSheds, node);
      pendingSheds := pendingSheds - {node};
    }

    method Tick(total: int, workerCount: nat, busy: nat, now: real, later: real, weight: real) returns (verdict: Verdict)
      requires epoch.Some? ==> epoch.value.sigma.Some?
      modifies this
      ensures workers == workerCount && lastTotal == Some(total) && lastTickAt == now
      ensures old(lastTotal).None? ==>
                && goodput == old(goodput) && blocks == old(blocks) && Decisions() == old(Decisions())
                && blockStartedAt == now && blockStartTotal == total && !blockFullyBusy
      ensures Readings() == Measure(old(Readings()), total, workerCount, busy, now, weight)
      ensures verdict == TickVerdict(old(Decisions()), old(Readings()), Readings(), now)
      ensures Decisions() == AfterTick(old(Decisions()), old(Readings()), Readings(), now, later)
    {
      var isFirst := lastTotal.None?;
      Read(total, workerCount, busy, now, weight);
      verdict := Quiet;
      if !isFirst {
        verdict := Advance(now, later);
      }
    }

    method Read(total: int, workerCount: nat, busy: nat, now: real, weight: real)
      modifies this`goodput, this`workers, this`lastTotal, this`lastTickAt, this`blocks, this`blockStartedAt,
               this`blockStartTotal, this`blockFullyBusy
      ensures Readings() == Measure(old(Readings()), total, workerCount, busy, now, weight)
    {
      if lastTotal.None? {
        workers, lastTotal, lastTickAt := workerCount, Some(total), now;
        blockStartedAt, blockStartTotal, blockFullyBusy := now, total, false;
        return;
      }
      UpdateGoodput(total, now, weight);
      workers, lastTotal, lastTickAt := workerCount, Some(total), now;
      RecordBlock(total, workerCount, busy, now);
    }

    method UpdateGoodput(total: int, now: real, weight: real)
      requires lastTotal.Some?
      modifies this`goodput
      ensures goodput == MeasureGoodput(old(Readings()), total, now, weight)
    {
      var dt := now - lastTickAt;
      if dt > 0.0 {
        var rate := (total - lastTotal.value) as real / dt;
        goodput := goodput + (rate - goodput) * weight;
      }
    }

    /** Closes the running 15 s block; it counts as noise only if the job was busy throughout. */
    method RecordBlock(total: int, workerCount: nat, busy: nat, now: real)
      modifies this`blocks, this`blockStartedAt, this`blockStartTotal, this`blockFullyBusy
      ensures Readings() == MeasureBlock(old(Readings()), total, workerCount, busy, now)
    {
      blockFullyBusy := blockFullyBusy && workerCount > 0 && busy as real >= 0.9 * workerCount as real;
      if now - blockStartedAt >= BLOCK_SEC {
        var rate := (total - blockStartTotal) as real / (now - blockStartedAt);
        if blockFullyBusy {
          blocks := LastBlocks(blocks + [rate]);
        }
        blockStartedAt, blockStartTotal, blockFullyBusy := now, total, true;
      }
    }

    method Advance(now: real, later: real) returns (verdict: Verdict)
      requires epoch.Some? ==> epoch.value.sigma.Some?
      modifies this`frozen, this`probing, this`probeAt, this`probeInterval, this`allowance, this`epoch, this`epochGrants, this`pendingSheds
      ensures verdict == VerdictOf(old(Decisions()), Readings(), now)
      ensures Decisions() == Decide(old(Decisions()), workers, verdict, now, later)
    {
      if frozen && probeAt.Some? && now >= probeAt.value {
        frozen, probing, probeAt := false, true, None;
        allowance := Max(ALLOWANCE_MIN_SLOTS, Round(PROBE_FRACTION * workers as real));
        return ProbeOpened;
      }
      if epoch.None? {
        return Quiet;
      }
      verdict := Judge(now, later);
    }

    method Judge(now: real, later: real) returns (verdict: Verdict)
      requires epoch.Some? && epoch.value.sigma.Some?
      modifies this`frozen, this`probing, this`probeAt, this`probeInterval, this`allowance, this`epoch, this`epochGrants, this`pendingSheds
      ensures verdict == JudgeEpoch(old(epoch).value, Readings(), old(epoch).value.sigma.value, now)
      ensures Decisions() == Decide(old(Decisions()), workers, verdict, now, later)
    {
      verdict := Weigh(now);
      if verdict.Verified? {
        CloseVerified(verdict.strong);
      } else if verdict.Extended? {
        epoch := Some(epoch.value.(extensions := epoch.value.extensions + 1,
                                   nextVerdictAt := now + EPOCH_EXTENSION_SEC));
      } else if Freezes(verdict) {
        CloseFrozen(TakesBack(verdict, probing), if verdict.NoEvidence? then now else later);
      }
    }

    /** Compares the measured gain with the bar and with the noise. */
    method Weigh(now: real) returns (verdict: Verdict)
      requires epoch.Some? && epoch.value.sigma.Some?
      ensures verdict == JudgeEpoch(epoch.value, Readings(), epoch.value.sigma.value, now)
    {
      var e, sigma := epoch.value, epoch.value.sigma.value;
      if now < e.nextVerdictAt {
        return Quiet;
      }
      if !GrewEnough(e, Readings()) {
        return if now - e.openedAt < EPOCH_NO_GROWTH_DEADLINE_SEC then Quiet else NoEvidence;
      }
      var gain, bar := Gain(e, Readings()), Bar(e, Readings(), KAPPA);
      if gain >= bar && gain > FREEZE_Z * sigma {
        return Verified(gain >= Bar(e, Readings(), VERIFIED_STRONG_FRACTION));
      }
      var ambiguous := gain >= bar - FREEZE_Z * sigma;
      if ambiguous && e.extensions < EPOCH_MAX_EXTENSIONS {
        return Extended;
      }
      var rollback := gain < -ROLLBACK_Z * sigma;
      verdict := if rollback then RolledBack else if ambiguous then Inconclusive else Shortfall;
    }

    /** Growth stops. `takeBack` schedules every node's grants of this epoch to be returned. */
    method CloseFrozen(takeBack: bool, at: real)
      modifies this`frozen, this`probing, this`probeAt, this`probeInterval, this`allowance, this`epoch,
               this`epochGrants, this`pendingSheds
      ensures frozen && !probing && allowance == 0 && epoch.None? && epochGrants == map[]
      ensures probeInterval == if old(probing) then MinReal(old(probeInterval) * 2.0, 600.0) else old(probeInterval)
      ensures probeAt == Some(at + probeInterval)
      ensures forall node: nat ::
                Of(pendingSheds, node) == Of(old(pendingSheds), node) + if takeBack then Of(old(epochGrants), node) else 0
      ensures Decisions() == Freeze(old(Decisions()), takeBack, at)
    {
      if takeBack {
        pendingSheds := AddEach(pendingSheds, epochGrants);
      }
      if probing {
        probeInterval := MinReal(probeInterval * 2.0, PROBE_INTERVAL_MAX_SEC);
      }
      frozen, probing, allowance := true, false, 0;
      probeAt := Some(at + probeInterval);
      epoch, epochGrants := None, map[];
    }

    method CloseVerified(strong: bool)
      modifies this`probing, this`probeInterval, this`allowance, this`epoch, this`epochGrants
      ensures epoch.None? && epochGrants == map[] && !probing && probeInterval == 90.0
      ensures Decisions() == Reward(old(Decisions()), workers, strong)
    {
      var granted := SumGrants();
      allowance := EarnedAllowance(workers, granted, strong);
      epoch, epochGrants, probing, probeInterval := None, map[], false, PROBE_INTERVAL_SEC;
    }

    method SumGrants() returns (sum: nat)
      ensures sum == Total(epochGrants)
    {
      sum := 0;
      var left := epochGrants;
      while |left| > 0
        invariant sum + Total(left) == Total(epochGrants)
        decreases |left|
      {
        assert left.Keys != {};
        var node :| node in left.Keys;
        TotalWithout(left, node);
        sum := sum + left[node];
        left := left - {node};
      }
    }
  }
}
