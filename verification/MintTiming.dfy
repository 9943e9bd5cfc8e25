/** How long things take under the mint controller, relative to how often it ticks: an epoch is
    closed, and a frozen job is probed, in bounded time. */
module MintTiming {
  import opened JobTypes
  import opened MintRules
  import opened MintRuns

  /** The latest moment by which the verdict after `extensions` extensions is due, counted from
      the opening of the epoch, when the controller ticks at least every `d` seconds. */
  function VerdictDue(extensions: nat, d: real): real {
    if extensions == 0 then EPOCH_VERDICT_AGE_SEC
    else EPOCH_NO_GROWTH_DEADLINE_SEC + extensions as real * (EPOCH_EXTENSION_SEC + d)
  }

  /** The last tick has left the epoch open for one of the two reasons it may: the verdict is
      not due, or the job has not grown and its deadline has not passed. */
  predicate EpochTimely(e: Epoch, lastTickAt: real, d: real) {
    && e.extensions <= EPOCH_MAX_EXTENSIONS
    && e.nextVerdictAt - e.openedAt <= VerdictDue(e.extensions, d)
    && (lastTickAt < e.nextVerdictAt || lastTickAt - e.openedAt < EPOCH_NO_GROWTH_DEADLINE_SEC)
  }

  predicate FreezeTimely(p: Policy, l: Ledger, lastTickAt: real)
    requires PolicyOk(p)
  {
    p.frozen ==>
      && l.frozenAt + PROBE_INTERVAL_SEC <= p.probeAt.value <= l.frozenAt + PROBE_INTERVAL_MAX_SEC
      && lastTickAt < p.probeAt.value
  }

  predicate Timely(s: State, d: real)
    requires PolicyOk(s.policy)
  {
    && (s.policy.epoch.Some? ==> EpochTimely(s.policy.epoch.value, s.meter.lastTickAt, d))
    && FreezeTimely(s.policy, s.ledger, s.meter.lastTickAt)
    && (s.meter.lastTotal.None? ==> s.policy.epoch.None? && !s.policy.frozen && |s.meter.blocks| == 0)
    && (s.meter.lastTotal.Some? ==> s.meter.lastTickAt <= s.clock <= s.meter.lastTickAt + d)
  }

  /** The step happens within `d` seconds of the last tick, and a tick takes no longer than that. */
  predicate Prompt(s: State, step: Step, d: real) {
    match step
    case Grant(_, _, now, _) => s.meter.lastTotal.Some? ==> now <= s.meter.lastTickAt + d
    case TakeShed(_) => true
    case Tick(_, _, _, now, later, _) => (s.meter.lastTotal.Some? ==> now <= s.meter.lastTickAt + d) && later <= now + d
  }

  lemma GrantStaysTimely(s: State, step: Step, d: real)
    requires Inv(s) && Enabled(s, step) && d >= 0.0 && Timely(s, d) && Prompt(s, step, d) && step.Grant?
    ensures Inv(Apply(s, step)) && Timely(Apply(s, step), d)
  {
    StepKeepsInv(s, step);
  }

  lemma JudgedEpochStaysTimely(e: Epoch, before: real, m: Meter, sigma: real, now: real, d: real)
    requires d >= 0.0 && EpochTimely(e, before, d) && now <= before + d
    ensures var v := JudgeEpoch(e, m, sigma, now);
            && (v.Quiet? ==> EpochTimely(e, now, d))
            && (v.Extended? ==>
                  EpochTimely(e.(extensions := e.extensions + 1, nextVerdictAt := now + EPOCH_EXTENSION_SEC), now, d))
  {
  }

  lemma DecideStaysTimely(p: Policy, l: Ledger, before: real, m: Meter, now: real, later: real, d: real)
    requires PolicyOk(p) && d >= 0.0 && now <= later && now <= before + d
    requires p.epoch.Some? ==> EpochTimely(p.epoch.value, before, d)
    requires FreezeTimely(p, l, before)
    ensures var v := VerdictOf(p, m, now);
            var p' := Decide(p, m.workers, v, now, later);
            && PolicyOk(p')
            && (p'.epoch.Some? ==> EpochTimely(p'.epoch.value, now, d))
            && FreezeTimely(p', Record(l, p, v, now, later), now)
  {
    DecideKeepsPolicy(p, m, now, later);
    if p.epoch.Some? {
      JudgedEpochStaysTimely(p.epoch.value, before, m, p.epoch.value.sigma.value, now, d);
    }
  }

  lemma TickStaysTimely(s: State, step: Step, d: real)
    requires Inv(s) && Enabled(s, step) && d >= 0.0 && Timely(s, d) && Prompt(s, step, d) && step.Tick?
    ensures Inv(Apply(s, step)) && Timely(Apply(s, step), d)
  {
    StepKeepsInv(s, step);
    if s.meter.lastTotal.Some? {
      var read := Measure(s.meter, step.total, step.workers, step.busy, step.now, step.weight);
      DecideStaysTimely(s.policy, s.ledger, s.meter.lastTickAt, read, step.now, step.later, d);
    }
  }

  lemma StepStaysTimely(s: State, step: Step, d: real)
    requires Inv(s) && Enabled(s, step) && d >= 0.0 && Timely(s, d) && Prompt(s, step, d)
    ensures Inv(Apply(s, step)) && Timely(Apply(s, step), d)
  {
    match step
    case Grant(_, _, _, _) => GrantStaysTimely(s, step, d);
    case TakeShed(_) => StepKeepsInv(s, step);
    case Tick(_, _, _, _, _, _) => TickStaysTimely(s, step, d);
  }

  ghost predicate IsPromptRun(s: State, steps: seq<Step>, d: real)
    requires Inv(s)
    decreases |steps|
  {
    IsRun(s, steps)
    && (steps != [] ==>
          Prompt(s, steps[0], d) && (StepKeepsInv(s, steps[0]); IsPromptRun(Apply(s, steps[0]), steps[1..], d)))
  }

  lemma {:induction false} RunStaysTimely(s: State, steps: seq<Step>, d: real)
    requires Inv(s) && d >= 0.0 && Timely(s, d) && IsPromptRun(s, steps, d)
    ensures Timely(After(s, steps), d)
    decreases |steps|
  {
    if steps != [] {
      StepStaysTimely(s, steps[0], d);
      RunStaysTimely(Apply(s, steps[0]), steps[1..], d);
    }
  }

  /** No epoch is ever open for 240 seconds and three tick gaps, and no job stays frozen for more
      than the 600-second probe interval and one gap. */
  lemma {:induction false} EpochsCloseAndProbesOpen(workers: nat, now: real, steps: seq<Step>, d: real)
    requires d >= 0.0 && IsPromptRun(Start(workers, now), steps, d)
    ensures var s := After(Start(workers, now), steps);
            && (s.policy.epoch.Some? ==> s.clock - s.policy.epoch.value.openedAt < 240.0 + 3.0 * d)
            && (s.policy.frozen ==> s.clock - s.ledger.frozenAt < 600.0 + d)
  {
    var s := After(Start(workers, now), steps);
    RunStaysTimely(Start(workers, now), steps, d);
    if s.policy.epoch.Some? {
      assert s.meter.lastTotal.Some?;
      assert VerdictDue(s.policy.epoch.value.extensions, d) <= 240.0 + 2.0 * d;
    }
  }
}
