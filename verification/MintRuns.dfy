/** Whole runs of a job's mint controller: nodes ask for slots, push their state and take back what
    they owe, and the head ticks. A ledger beside the controller remembers where every slot ever
    granted went, and the theorems are about the two together. */
module MintRuns {
  import opened JobTypes
  import opened MintRules

  /** What became of every slot granted. The controller itself does not store it. */
  datatype Ledger = Ledger(
    granted: Slots,             // per node, everything ever granted
    verified: Slots,            // by epochs that verified
    kept: Slots,                // by epochs that did not verify and were not taken back
    taken: Slots,               // sheds the node has already collected
    epochsOpened: nat,                // epochs opened
    opening: nat,               // the allowance the latest epoch opened with
    epochsVerified: nat,
    epochsKept: nat,
    keptSinceVerified: nat,
    unproved: nat,              // slots kept since the last verified epoch
    retained: nat,              // slots of verified and kept epochs
    keptOpening: nat,           // the allowance the latest kept epoch opened with
    frozenAt: real)

  datatype State = State(policy: Policy, meter: Meter, ledger: Ledger, clock: real)

  datatype Step =
    | Grant(node: nat, requested: nat, now: real, root: real)
    | TakeShed(node: nat)
    | Tick(total: int, workers: nat, busy: nat, now: real, later: real, weight: real)

  function Start(workers: nat, now: real): (s: State)
    ensures Inv(s)
  {
    var c := NewController(workers);
    State(c.policy, c.meter, Ledger(map[], map[], map[], map[], 0, 0, 0, 0, 0, 0, 0, 0, now), now)
  }

  /** Clock readings never go back; the EWMA weight of a positive time step lies in (0, 1]. */
  predicate Enabled(s: State, step: Step) {
    match step
    case Grant(_, _, now, root) => now >= s.clock && RootOk(s.meter, root)
    case TakeShed(_) => true
    case Tick(_, _, _, now, later, weight) => s.clock <= now <= later && 0.0 < weight <= 1.0
  }

  function Credit(m: Slots, node: nat, slots: nat): Slots {
    m[node := Of(m, node) + slots]
  }

  function AfterGrantStep(s: State, step: Step): State
    requires step.Grant?
  {
    var p, m := s.policy, s.meter;
    var granted := GrantSize(p, m, step.node, step.requested, step.now, step.root);
    var opens := Grantable(p, m, step.node, step.now) && p.epoch.None?;
    State(AfterGrant(p, m, step.node, step.requested, step.now, step.root), m,
          s.ledger.(granted := Credit(s.ledger.granted, step.node, granted),
                    epochsOpened := s.ledger.epochsOpened + if opens then 1 else 0,
                    opening := if opens then OpenEpoch(p, m, step.now, step.root).allowance else s.ledger.opening),
          step.now)
  }

  function AfterShedStep(s: State, node: nat): State {
    s.(policy := AfterTakeShed(s.policy, node),
       ledger := s.ledger.(taken := Credit(s.ledger.taken, node, Of(s.policy.sheds, node))))
  }

  predicate Keeps(v: Verdict, probing: bool) {
    Freezes(v) && !TakesBack(v, probing)
  }

  ghost function Record(l: Ledger, p: Policy, v: Verdict, now: real, later: real): Ledger {
    var frozenAt := if Freezes(v) then if v.NoEvidence? then now else later else l.frozenAt;
    if v.Verified? then
      l.(verified := Merge(l.verified, p.grants), retained := l.retained + Total(p.grants),
         epochsVerified := l.epochsVerified + 1, keptSinceVerified := 0, unproved := 0)
    else if Keeps(v, p.probing) then
      l.(kept := Merge(l.kept, p.grants), retained := l.retained + Total(p.grants),
         epochsKept := l.epochsKept + 1, keptSinceVerified := l.keptSinceVerified + 1,
         unproved := l.unproved + Total(p.grants),
         keptOpening := l.opening, frozenAt := frozenAt)
    else
      l.(frozenAt := frozenAt)
  }

  ghost function AfterTickStep(s: State, step: Step): State
    requires step.Tick? && PolicyOk(s.policy)
  {
    var read := Measure(s.meter, step.total, step.workers, step.busy, step.now, step.weight);
    var v := TickVerdict(s.policy, s.meter, read, step.now);
    State(AfterTick(s.policy, s.meter, read, step.now, step.later), read,
          Record(s.ledger, s.policy, v, step.now, step.later), step.later)
  }

  ghost function Apply(s: State, step: Step): State
    requires PolicyOk(s.policy)
  {
    match step
    case Grant(_, _, _, _) => AfterGrantStep(s, step)
    case TakeShed(node) => AfterShedStep(s, node)
    case Tick(_, _, _, _, _, _) => AfterTickStep(s, step)
  }

  // ---------------------------------------------------------------- invariants

  /** A frozen controller grants nothing and knows when it will probe; one that is not frozen and
      has no epoch open has something to grant; an open epoch always has a noise estimate. */
  predicate PolicyOk(p: Policy) {
    && (p.frozen ==> p.epoch.None? && !p.probing && p.allowance == 0)
    && (p.frozen <==> p.probeAt.Some?)
    && (!p.frozen && p.epoch.None? ==> p.allowance > 0)
    && (p.epoch.None? ==> |p.grants| == 0)
    && (p.epoch.Some? ==> p.allowance >= 0 && p.epoch.value.sigma.Some? && p.epoch.value.sigma.value >= 0.0)
    && PROBE_INTERVAL_SEC <= p.probeInterval <= PROBE_INTERVAL_MAX_SEC
  }

  /** Every slot a node was ever granted is in a verified or kept epoch, in the open epoch,
      waiting to be shed, or shed already. */
  predicate NodeBalances(p: Policy, l: Ledger, node: nat) {
    Of(l.granted, node)
    == Of(l.verified, node) + Of(l.kept, node) + Of(p.grants, node) + Of(p.sheds, node) + Of(l.taken, node)
  }

  ghost predicate BooksOk(p: Policy, l: Ledger) {
    forall node: nat :: NodeBalances(p, l, node)
  }

  ghost predicate EpochFunded(p: Policy, l: Ledger) {
    p.epoch.Some? ==> Total(p.grants) + p.allowance == l.opening
  }

  /** At most one epoch since the last verified one was kept without evidence, and after it only
      probes are opened. */
  predicate KeptOk(p: Policy, l: Ledger) {
    && l.keptSinceVerified <= 1
    && (l.keptSinceVerified == 1 ==> p.frozen || p.probing)
    && l.epochsKept <= l.epochsVerified + l.keptSinceVerified
    && l.unproved <= (if l.keptSinceVerified == 0 then 0 else l.keptOpening)
  }

  ghost predicate Inv(s: State) {
    PolicyOk(s.policy) && BooksOk(s.policy, s.ledger) && EpochFunded(s.policy, s.ledger) && KeptOk(s.policy, s.ledger)
  }

  lemma EarnedIsPositive(e: Epoch, m: Meter, granted: nat, strong: bool)
    requires GrewEnough(e, m)
    ensures EarnedAllowance(m.workers, granted, strong) > 0
  {
  }

  lemma GrantKeepsPolicy(p: Policy, m: Meter, node: nat, requested: nat, now: real, root: real)
    requires PolicyOk(p) && RootOk(m, root)
    ensures PolicyOk(AfterGrant(p, m, node, requested, now, root))
  {
  }

  lemma DecideKeepsPolicy(p: Policy, m: Meter, now: real, later: real)
    requires PolicyOk(p)
    ensures PolicyOk(Decide(p, m.workers, VerdictOf(p, m, now), now, later))
  {
    var v := VerdictOf(p, m, now);
    if v.Verified? {
      EarnedIsPositive(p.epoch.value, m, Total(p.grants), v.strong);
    }
  }

  /** A frozen or idle controller can give no verdict about grants. */
  lemma VerdictNeedsEpoch(p: Policy, m: Meter, now: real)
    requires PolicyOk(p)
    ensures var v := VerdictOf(p, m, now);
            && (v.Verified? || v.Extended? || Freezes(v) ==> p.epoch.Some?)
            && (v.ProbeOpened? ==> p.frozen)
  {
  }

  lemma DecideKeepsBooks(p: Policy, l: Ledger, workers: nat, v: Verdict, now: real, later: real)
    requires PolicyOk(p) && BooksOk(p, l)
    requires v.Verified? || v.Extended? || Freezes(v) ==> p.epoch.Some?
    ensures BooksOk(Decide(p, workers, v, now, later), Record(l, p, v, now, later))
  {
    var p', l' := Decide(p, workers, v, now, later), Record(l, p, v, now, later);
    forall node: nat ensures NodeBalances(p', l', node) {
      assert NodeBalances(p, l, node);
    }
  }

  lemma GrantKeepsBooks(s: State, step: Step)
    requires Inv(s) && step.Grant?
    ensures var s' := AfterGrantStep(s, step); BooksOk(s'.policy, s'.ledger)
  {
    var s' := AfterGrantStep(s, step);
    forall node: nat ensures NodeBalances(s'.policy, s'.ledger, node) {
      assert NodeBalances(s.policy, s.ledger, node);
    }
  }

  lemma GrantKeepsFunding(s: State, step: Step)
    requires Inv(s) && step.Grant?
    ensures var s' := AfterGrantStep(s, step); EpochFunded(s'.policy, s'.ledger)
  {
    var p, m := s.policy, s.meter;
    if Grantable(p, m, step.node, step.now) {
      var funded := OpenEpoch(p, m, step.now, step.root);
      TotalWith(funded.grants, step.node, GrantSize(p, m, step.node, step.requested, step.now, step.root));
    }
  }

  lemma ShedKeepsInv(s: State, node: nat)
    requires Inv(s)
    ensures Inv(AfterShedStep(s, node))
  {
    var s' := AfterShedStep(s, node);
    forall n: nat ensures NodeBalances(s'.policy, s'.ledger, n) {
      assert NodeBalances(s.policy, s.ledger, n);
    }
  }

  lemma DecideKeepsKept(p: Policy, l: Ledger, workers: nat, v: Verdict, now: real, later: real)
    requires PolicyOk(p) && KeptOk(p, l) && EpochFunded(p, l)
    requires v.Verified? || v.Extended? || Freezes(v) ==> p.epoch.Some?
    requires v.ProbeOpened? ==> p.frozen
    ensures KeptOk(Decide(p, workers, v, now, later), Record(l, p, v, now, later))
  {
  }

  lemma TickKeepsInv(s: State, step: Step)
    requires Inv(s) && step.Tick?
    ensures Inv(AfterTickStep(s, step))
  {
    var read := Measure(s.meter, step.total, step.workers, step.busy, step.now, step.weight);
    var v := TickVerdict(s.policy, s.meter, read, step.now);
    DecideKeepsPolicy(s.policy, read, step.now, step.later);
    VerdictNeedsEpoch(s.policy, read, step.now);
    DecideKeepsBooks(s.policy, s.ledger, read.workers, v, step.now, step.later);
    DecideKeepsKept(s.policy, s.ledger, read.workers, v, step.now, step.later);
  }

  lemma StepKeepsInv(s: State, step: Step)
    requires Inv(s) && Enabled(s, step)
    ensures Inv(Apply(s, step))
  {
    match step
    case Grant(node, requested, now, root) =>
      GrantKeepsPolicy(s.policy, s.meter, node, requested, now, root);
      GrantKeepsBooks(s, step);
      GrantKeepsFunding(s, step);
    case TakeShed(node) => ShedKeepsInv(s, node);
    case Tick(_, _, _, _, _, _) => TickKeepsInv(s, step);
  }

  /** A probe whose epoch ends is verified or taken back in full from exactly the nodes that got
      its slots; what is kept without proof never comes from a probe. */
  lemma ProbeIsVerifiedOrTakenBack(s: State, step: Step, node: nat)
    requires Inv(s) && Enabled(s, step) && step.Tick?
    requires s.policy.probing && s.policy.epoch.Some? && Apply(s, step).policy.epoch.None?
    ensures var s' := Apply(s, step);
            if s'.ledger.epochsVerified == s.ledger.epochsVerified + 1
            then Of(s'.ledger.verified, node) == Of(s.ledger.verified, node) + Of(s.policy.grants, node)
                 && s'.policy.sheds == s.policy.sheds
            else s'.policy.frozen && s'.ledger.kept == s.ledger.kept && s'.ledger.verified == s.ledger.verified
                 && Of(s'.policy.sheds, node) == Of(s.policy.sheds, node) + Of(s.policy.grants, node)
  {
    VerdictNeedsEpoch(s.policy, Measure(s.meter, step.total, step.workers, step.busy, step.now, step.weight), step.now);
  }

  // ---------------------------------------------------------------- runs

  ghost predicate IsRun(s: State, steps: seq<Step>)
    requires Inv(s)
    decreases |steps|
  {
    steps == []
    || (Enabled(s, steps[0]) && (StepKeepsInv(s, steps[0]); IsRun(Apply(s, steps[0]), steps[1..])))
  }

  ghost function After(s: State, steps: seq<Step>): (s': State)
    requires Inv(s) && IsRun(s, steps)
    ensures Inv(s')
    decreases |steps|
  {
    if steps == [] then s else (StepKeepsInv(s, steps[0]); After(Apply(s, steps[0]), steps[1..]))
  }

  /** Reached from a new controller by some run. */
  ghost predicate Reachable(s: State) {
    exists workers: nat, now: real, steps ::
      IsRun(Start(workers, now), steps) && After(Start(workers, now), steps) == s
  }

  /** The books of a job balance at every moment: per node, and for the allowance of the open
      epoch; and what was kept without proof is at most one epoch more than what was proved. */
  lemma SlotsAccountedFor(s: State, node: nat)
    requires Reachable(s)
    ensures Of(s.ledger.granted, node)
            == Of(s.ledger.verified, node) + Of(s.ledger.kept, node)
               + Of(s.policy.grants, node) + Of(s.policy.sheds, node) + Of(s.ledger.taken, node)
    ensures s.policy.epoch.Some? ==> Total(s.policy.grants) + s.policy.allowance == s.ledger.opening
    ensures s.ledger.epochsKept <= s.ledger.epochsVerified + 1 && s.ledger.keptSinceVerified <= 1
    ensures s.ledger.keptSinceVerified == 1 ==> s.policy.frozen || s.policy.probing
    ensures s.ledger.unproved <= (if s.ledger.keptSinceVerified == 0 then 0 else s.ledger.keptOpening)
  {
    assert NodeBalances(s.policy, s.ledger, node);
  }

  /** A frozen controller grants nothing; one that is neither frozen nor judging an epoch has
      something to grant, and every epoch it opens has a noise estimate. */
  lemma NeverStuck(s: State)
    requires Reachable(s)
    ensures s.policy.frozen ==> s.policy.allowance == 0 && s.policy.probeAt.Some?
    ensures !s.policy.frozen && s.policy.epoch.None? ==> s.policy.allowance > 0
    ensures s.policy.epoch.Some? ==> s.policy.epoch.value.sigma.Some? && s.policy.epoch.value.sigma.value >= 0.0
  {
  }

  lemma {:induction false} EpochsOnlyOpen(s: State, steps: seq<Step>)
    requires Inv(s) && IsRun(s, steps)
    ensures After(s, steps).ledger.epochsOpened >= s.ledger.epochsOpened
    decreases |steps|
  {
    if steps != [] {
      StepKeepsInv(s, steps[0]);
      EpochsOnlyOpen(Apply(s, steps[0]), steps[1..]);
    }
  }

  /** While no further epoch is opened, a node that was granted slots is granted no more. */
  lemma {:induction false} GrantedOncePerEpoch(s: State, steps: seq<Step>, node: nat)
    requires Inv(s) && IsRun(s, steps)
    requires s.policy.epoch.Some? ==> node in s.policy.grants
    requires After(s, steps).ledger.epochsOpened == s.ledger.epochsOpened
    ensures Of(After(s, steps).ledger.granted, node) == Of(s.ledger.granted, node)
    decreases |steps|
  {
    if steps != [] {
      var s' := Apply(s, steps[0]);
      StepKeepsInv(s, steps[0]);
      EpochsOnlyOpen(s', steps[1..]);
      StepGrantsOnce(s, steps[0], node);
      GrantedOncePerEpoch(s', steps[1..], node);
    }
  }

  lemma StepGrantsOnce(s: State, step: Step, node: nat)
    requires Inv(s) && Enabled(s, step)
    requires s.policy.epoch.Some? ==> node in s.policy.grants
    requires Apply(s, step).ledger.epochsOpened == s.ledger.epochsOpened
    ensures Of(Apply(s, step).ledger.granted, node) == Of(s.ledger.granted, node)
    ensures Apply(s, step).policy.epoch.Some? ==> node in Apply(s, step).policy.grants
  {
    if step.Tick? {
      VerdictNeedsEpoch(s.policy, Measure(s.meter, step.total, step.workers, step.busy, step.now, step.weight), step.now);
    }
  }
}
