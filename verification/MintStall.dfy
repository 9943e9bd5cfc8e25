/** What a job that stops producing results can still grow by: no epoch opened afterwards verifies,
    and at most one of them is kept. */
module MintStall {
  import opened JobTypes
  import opened MintRules
  import opened MintRuns

  /** A tick finds `total` results at least as many as the last one; a stalled job's has no more. */
  predicate NoFewerResults(s: State, step: Step) {
    step.Tick? && s.meter.lastTotal.Some? ==> step.total >= s.meter.lastTotal.value
  }

  predicate NoNewResults(s: State, step: Step) {
    step.Tick? ==> s.meter.lastTotal.Some? && step.total == s.meter.lastTotal.value
  }

  ghost predicate ResultsNeverDrop(s: State, steps: seq<Step>)
    requires Inv(s)
    decreases |steps|
  {
    IsRun(s, steps)
    && (steps != [] ==>
          NoFewerResults(s, steps[0]) && (StepKeepsInv(s, steps[0]); ResultsNeverDrop(Apply(s, steps[0]), steps[1..])))
  }

  ghost predicate Stalled(s: State, steps: seq<Step>)
    requires Inv(s)
    decreases |steps|
  {
    IsRun(s, steps)
    && (steps != [] ==>
          NoNewResults(s, steps[0]) && (StepKeepsInv(s, steps[0]); Stalled(Apply(s, steps[0]), steps[1..])))
  }

  // ---------------------------------------------------------------- the goodput average

  lemma ProductOf(x: real, y: real)
    requires x >= 0.0 && y >= 0.0
    ensures x * y >= 0.0
  {
  }

  lemma Averaging(average: real, rate: real, weight: real)
    requires average >= 0.0 && rate >= 0.0 && 0.0 < weight <= 1.0
    ensures average + (rate - average) * weight >= 0.0
    ensures rate == 0.0 ==> average + (rate - average) * weight <= average
  {
    ProductOf(average, 1.0 - weight);
    ProductOf(average, weight);
    ProductOf(rate, weight);
    assert average + (rate - average) * weight == average * (1.0 - weight) + rate * weight;
    assert rate == 0.0 ==> (rate - average) * weight == -(average * weight);
  }

  lemma RateOf(results: int, dt: real)
    requires results >= 0 && dt > 0.0
    ensures results as real / dt >= 0.0
    ensures results == 0 ==> results as real / dt == 0.0
  {
  }

  /** The average stays between nothing and the larger of itself and the new rate. */
  lemma AverageStaysBetween(m: Meter, total: int, now: real, weight: real)
    requires m.lastTotal.Some? && total >= m.lastTotal.value && m.goodput >= 0.0 && 0.0 < weight <= 1.0
    ensures MeasureGoodput(m, total, now, weight) >= 0.0
    ensures total == m.lastTotal.value ==> MeasureGoodput(m, total, now, weight) <= m.goodput
  {
    var dt := now - m.lastTickAt;
    if dt > 0.0 {
      var rate := (total - m.lastTotal.value) as real / dt;
      RateOf(total - m.lastTotal.value, dt);
      Averaging(m.goodput, rate, weight);
    }
  }

  lemma {:induction false} GoodputNeverNegative(s: State, steps: seq<Step>)
    requires Inv(s) && s.meter.goodput >= 0.0 && ResultsNeverDrop(s, steps)
    ensures After(s, steps).meter.goodput >= 0.0
    decreases |steps|
  {
    if steps != [] {
      var step := steps[0];
      StepKeepsInv(s, step);
      if step.Tick? && s.meter.lastTotal.Some? {
        AverageStaysBetween(s.meter, step.total, step.now, step.weight);
      }
      GoodputNeverNegative(Apply(s, step), steps[1..]);
    }
  }

  // ---------------------------------------------------------------- after the stall

  /** Verification needs a gain strictly above the noise, so a job that gained nothing cannot pass. */
  lemma NoGainNoVerdict(e: Epoch, m: Meter, sigma: real, now: real)
    requires sigma >= 0.0 && m.goodput <= e.baseGoodput
    ensures !JudgeEpoch(e, m, sigma, now).Verified?
  {
  }

  /** Since `was`, which no epoch was open at, nothing was verified and at most one epoch was kept. */
  predicate Unrewarded(was: Ledger, p: Policy, l: Ledger, goodput: real) {
    && (p.epoch.Some? ==> goodput <= p.epoch.value.baseGoodput)
    && l.epochsVerified == was.epochsVerified && l.verified == was.verified
    && (if l.epochsKept == was.epochsKept
        then l.retained == was.retained && l.kept == was.kept
        else l.epochsKept == was.epochsKept + 1 && (p.frozen || p.probing)
             && l.retained <= was.retained + l.keptOpening)
  }

  lemma DecideStaysUnrewarded(was: Ledger, p: Policy, l: Ledger, m: Meter, now: real, later: real)
    requires PolicyOk(p) && EpochFunded(p, l) && Unrewarded(was, p, l, m.goodput)
    ensures var v := VerdictOf(p, m, now);
            Unrewarded(was, Decide(p, m.workers, v, now, later), Record(l, p, v, now, later), m.goodput)
  {
    VerdictNeedsEpoch(p, m, now);
    if p.epoch.Some? {
      NoGainNoVerdict(p.epoch.value, m, p.epoch.value.sigma.value, now);
    }
  }

  predicate StillUnrewarded(was: Ledger, s: State) {
    s.meter.goodput >= 0.0 && s.meter.lastTotal.Some? && Unrewarded(was, s.policy, s.ledger, s.meter.goodput)
  }

  lemma TickStaysUnrewarded(was: Ledger, s: State, step: Step)
    requires Inv(s) && Enabled(s, step) && step.Tick? && NoNewResults(s, step) && StillUnrewarded(was, s)
    ensures StillUnrewarded(was, Apply(s, step))
  {
    AverageStaysBetween(s.meter, step.total, step.now, step.weight);
    var read := Measure(s.meter, step.total, step.workers, step.busy, step.now, step.weight);
    DecideStaysUnrewarded(was, s.policy, s.ledger, read, step.now, step.later);
  }

  lemma {:induction false} RunStaysUnrewarded(was: Ledger, s: State, steps: seq<Step>)
    requires Inv(s) && Stalled(s, steps) && StillUnrewarded(was, s)
    ensures StillUnrewarded(was, After(s, steps))
    decreases |steps|
  {
    if steps != [] {
      StepKeepsInv(s, steps[0]);
      if steps[0].Tick? {
        TickStaysUnrewarded(was, s, steps[0]);
      }
      RunStaysUnrewarded(was, Apply(s, steps[0]), steps[1..]);
    }
  }

  /** A job that stops producing results while no epoch is open: nothing more is verified, and all
      it keeps of its later growth is at most one epoch, no larger than that epoch's allowance. */
  lemma StalledGrowth(s: State, steps: seq<Step>)
    requires Inv(s) && s.policy.epoch.None? && s.meter.lastTotal.Some? && s.meter.goodput >= 0.0
    requires Stalled(s, steps)
    ensures After(s, steps).ledger.epochsVerified == s.ledger.epochsVerified
    ensures GrewBy(s.ledger, After(s, steps).ledger, 1, 0)
  {
    RunStaysUnrewarded(s.ledger, s, steps);
  }

  /** What may have been added to the retained slots between two ledgers. */
  predicate GrewBy(was: Ledger, l: Ledger, epochs: nat, slots: nat) {
    && was.epochsKept <= l.epochsKept
    && l.epochsVerified + l.epochsKept <= was.epochsVerified + was.epochsKept + epochs
    && l.retained <= was.retained + slots + (if l.epochsKept > was.epochsKept then l.keptOpening else 0)
  }

  /** When an epoch is open as the results stop, its own slots may be retained too. */
  lemma {:induction false} StalledGrowthWithOpenEpoch(s: State, steps: seq<Step>)
    requires Inv(s) && s.policy.epoch.Some? && s.meter.lastTotal.Some? && s.meter.goodput >= 0.0
    requires Stalled(s, steps)
    ensures GrewBy(s.ledger, After(s, steps).ledger, 2, s.ledger.opening)
    decreases |steps|
  {
    if steps != [] {
      var s1, rest := Apply(s, steps[0]), steps[1..];
      StepKeepsInv(s, steps[0]);
      OpenEpochStep(s, steps[0]);
      assert After(s, steps) == After(s1, rest);
      if s1.policy.epoch.Some? {
        StalledGrowthWithOpenEpoch(s1, rest);
      } else {
        StalledGrowth(s1, rest);
      }
    }
  }

  /** The open epoch goes on with the allowance it was opened with, or ends and adds no more than it. */
  lemma OpenEpochStep(s: State, step: Step)
    requires Inv(s) && Enabled(s, step) && NoNewResults(s, step)
    requires s.policy.epoch.Some? && s.meter.lastTotal.Some? && s.meter.goodput >= 0.0
    ensures var s1 := Apply(s, step);
            && s1.meter.lastTotal.Some? && s1.meter.goodput >= 0.0
            && (if s1.policy.epoch.Some?
                then s1.ledger.opening == s.ledger.opening && s1.ledger.retained == s.ledger.retained
                     && s1.ledger.epochsVerified == s.ledger.epochsVerified && s1.ledger.epochsKept == s.ledger.epochsKept
                else s1.ledger.retained <= s.ledger.retained + s.ledger.opening
                     && s1.ledger.epochsVerified + s1.ledger.epochsKept
                        <= s.ledger.epochsVerified + s.ledger.epochsKept + 1
                     && s.ledger.epochsKept <= s1.ledger.epochsKept)
  {
    if step.Tick? {
      AverageStaysBetween(s.meter, step.total, step.now, step.weight);
      VerdictNeedsEpoch(s.policy, Measure(s.meter, step.total, step.workers, step.busy, step.now, step.weight), step.now);
    }
  }
}
