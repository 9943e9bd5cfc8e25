/** The mint controller's answers in numbers: how much may be granted, what counts as noise, when an epoch
    is verified and what it then earns, and what is taken back otherwise. */
module MintAnswers {
  import opened Arithmetic
  import opened JobTypes
  import opened MintRules
  import opened MintRuns
  import opened MintJudgement

  // ---------------------------------------------------------------- allowances

  /** Ten percent of the workers to within one half, and four at least. */
  lemma BaseIsATenth(workers: nat)
    ensures var base := BaseAllowance(workers) as real;
            base >= 4.0 && base >= 0.1 * workers as real - 0.5 && (base > 4.0 ==> base <= 0.1 * workers as real + 0.5)
  {
  }

  /** What a verified epoch earns. One whose workers each earned at least 0.8 of an average worker gets four
      times its grants, any other twice, both at least the base; and half of the workers at most. */
  lemma EarningsOf(workers: nat, granted: nat, strong: bool)
    ensures var earned, base := EarnedAllowance(workers, granted, strong), BaseAllowance(workers);
            && earned as real <= 0.5 * workers as real + 0.5
            && (!strong ==> earned <= Max(base, 2 * granted))
            && (strong ==> earned <= Max(base, 4 * granted))
            && (earned as real >= 0.5 * workers as real - 0.5
                || (earned >= base && earned >= if strong then 4 * granted else 2 * granted))
  {
    RoundIsExact(4 * granted);
    RoundIsExact(2 * granted);
  }

  lemma RoundIsExact(n: nat)
    ensures Round(n as real) == n
  {
  }

  lemma ProbeIsSmall(p: Policy, workers: nat)
    ensures var probe := OpenProbe(p, workers);
            && !probe.frozen && probe.probing && probe.probeAt.None?
            && probe.allowance >= 4 && probe.allowance as real >= 0.02 * workers as real - 0.5
            && (probe.allowance > 4 ==> probe.allowance as real <= 0.02 * workers as real + 0.5)
  {
  }

  // ---------------------------------------------------------------- measurements

  /** The average moves the share `weight` of the way to the latest rate. */
  lemma MovesTowardsRate(m: Meter, total: int, now: real, weight: real)
    requires m.lastTotal.Some? && now > m.lastTickAt
    ensures var rate := (total - m.lastTotal.value) as real / (now - m.lastTickAt);
            var goodput := MeasureGoodput(m, total, now, weight);
            goodput - m.goodput == weight * (rate - m.goodput) && rate - goodput == (1.0 - weight) * (rate - m.goodput)
  {
  }

  /** A reading closes the block once it is 15 s old. Its rate joins the noise if the job was busy throughout, nine
      of ten workers at every reading; only the last eight rates count. */
  predicate IsBlockRead(before: Meter, total: int, workers: nat, busy: nat, now: real, after: Meter) {
    var wasBusy := before.blockFullyBusy && workers > 0 && 10 * busy >= 9 * workers;
    if now - before.blockStartedAt < 15.0 then
      && after.blocks == before.blocks && after.blockStartedAt == before.blockStartedAt
      && after.blockStartTotal == before.blockStartTotal && after.blockFullyBusy == wasBusy
    else
      && after.blockStartedAt == now && after.blockStartTotal == total && after.blockFullyBusy
      && (!wasBusy ==> after.blocks == before.blocks)
      && (wasBusy ==>
            && |after.blocks| == Min(8, |before.blocks| + 1)
            && after.blocks[|after.blocks| - 1] == (total - before.blockStartTotal) as real / (now - before.blockStartedAt)
            && after.blocks[..|after.blocks| - 1] == before.blocks[|before.blocks| - (|after.blocks| - 1)..])
  }

  lemma IsBusyExactlyWhen(workers: nat, busy: nat)
    ensures busy as real >= 0.9 * workers as real <==> 10 * busy >= 9 * workers
  {
  }

  lemma ReadingMovesGoodput(m: Meter, total: int, workers: nat, busy: nat, now: real, weight: real)
    requires m.lastTotal.Some?
    ensures var goodput := Measure(m, total, workers, busy, now, weight).goodput;
            && (now <= m.lastTickAt ==> goodput == m.goodput)
            && (now > m.lastTickAt ==>
                  goodput - m.goodput == weight * ((total - m.lastTotal.value) as real / (now - m.lastTickAt) - m.goodput))
  {
    if now > m.lastTickAt {
      MovesTowardsRate(m, total, now, weight);
    }
  }

  lemma ReadingClosesBlock(m: Meter, total: int, workers: nat, busy: nat, now: real)
    ensures var m' := MeasureBlock(m, total, workers, busy, now);
            && IsBlockRead(m, total, workers, busy, now, m')
            && m' == m.(blocks := m'.blocks, blockStartedAt := m'.blockStartedAt, blockStartTotal := m'.blockStartTotal,
                        blockFullyBusy := m'.blockFullyBusy)
  {
    IsBusyExactlyWhen(workers, busy);
    var rate := if now - m.blockStartedAt < 15.0 then 0.0
                else (total - m.blockStartTotal) as real / (now - m.blockStartedAt);
    LastEight(m.blocks, rate);
  }

  lemma LastEight(blocks: seq<real>, rate: real)
    ensures var last := LastBlocks(blocks + [rate]);
            && |last| == Min(8, |blocks| + 1) && last[|last| - 1] == rate
            && last[..|last| - 1] == blocks[|blocks| - (|last| - 1)..]
  {
  }

  /** A reading moves the average towards the latest rate and may close a block; the first one only sets the
      origin. */
  lemma ReadingAnswer(m: Meter, total: int, workers: nat, busy: nat, now: real, weight: real)
    ensures var m' := Measure(m, total, workers, busy, now, weight);
            && m'.workers == workers && m'.lastTotal == Some(total) && m'.lastTickAt == now
            && (m.lastTotal.None? ==>
                  m'.goodput == m.goodput && m'.blocks == m.blocks
                  && m'.blockStartedAt == now && m'.blockStartTotal == total && !m'.blockFullyBusy)
            && (m.lastTotal.Some? ==> IsBlockRead(m, total, workers, busy, now, m'))
  {
    if m.lastTotal.Some? {
      var averaged := m.(goodput := MeasureGoodput(m, total, now, weight), workers := workers,
                         lastTotal := Some(total), lastTickAt := now);
      ReadingClosesBlock(averaged, total, workers, busy, now);
    }
  }

  lemma VarianceOfFour(a: real, b: real, c: real, d: real)
    ensures 12.0 * Variance([a, b, c, d])
            == Square(a - b) + Square(a - c) + Square(a - d) + Square(b - c) + Square(b - d) + Square(c - d)
  {
    var xs := [a, b, c, d];
    SumOfFour(a, b, c, d);
    var mean := SumReal(xs) / 4.0;
    assert 4.0 * mean == a + b + c + d;
    var squares := SquaredDeviations(xs, mean);
    assert squares[0] == Square(a - mean) && squares[1] == Square(b - mean);
    assert squares[2] == Square(c - mean) && squares[3] == Square(d - mean);
    assert squares == [Square(a - mean), Square(b - mean), Square(c - mean), Square(d - mean)];
    SumOfFour(Square(a - mean), Square(b - mean), Square(c - mean), Square(d - mean));
    SquaresAroundMean(a, b, c, d, mean);
  }

  lemma SumOfFour(a: real, b: real, c: real, d: real)
    ensures SumReal([a, b, c, d]) == a + b + c + d
  {
    assert [a, b, c, d][..3] == [a, b, c] && [a, b, c][..2] == [a, b] && [a, b][..1] == [a] && [a][..0] == [];
    assert SumReal([a]) == a;
    assert SumReal([a, b]) == a + b;
    assert SumReal([a, b, c]) == a + b + c;
  }

  lemma SquaresAroundMean(a: real, b: real, c: real, d: real, mean: real)
    requires 4.0 * mean == a + b + c + d
    ensures 4.0 * (Square(a - mean) + Square(b - mean) + Square(c - mean) + Square(d - mean))
            == Square(a - b) + Square(a - c) + Square(a - d) + Square(b - c) + Square(b - d) + Square(c - d)
  {
  }

  /** The noise an epoch is judged by is that of the last four blocks: 24 times its square is the sum of the
      squared differences between each two of them. */
  lemma NoiseIsOfLastFour(blocks: seq<real>, sigma: real)
    requires |blocks| >= 4
    ensures var n := |blocks|;
            var a, b, c, d := blocks[n - 4], blocks[n - 3], blocks[n - 2], blocks[n - 1];
            && Baseline(blocks) == [a, b, c, d]
            && (IsNoise(sigma, Baseline(blocks)) <==>
                  sigma >= 0.0
                  && 24.0 * (sigma * sigma)
                     == Square(a - b) + Square(a - c) + Square(a - d) + Square(b - c) + Square(b - d) + Square(c - d))
  {
    var n := |blocks|;
    assert blocks[n - 4..] == [blocks[n - 4], blocks[n - 3], blocks[n - 2], blocks[n - 1]];
    VarianceOfFour(blocks[n - 4], blocks[n - 3], blocks[n - 2], blocks[n - 1]);
  }

  // ---------------------------------------------------------------- verdicts

  /** The job has at least four workers more than when the epoch opened, and two percent more. */
  predicate HasGrown(e: Epoch, m: Meter) {
    m.workers - e.baseWorkers >= 4 && 50 * (m.workers - e.baseWorkers) >= e.baseWorkers
  }

  /** Each new worker earns at least `fraction` of what an average worker earns. */
  predicate EachEarns(e: Epoch, m: Meter, fraction: real, slack: real) {
    (m.goodput - e.baseGoodput + slack) * m.workers as real >= fraction * m.goodput * (m.workers - e.baseWorkers) as real
  }

  lemma BarIsEarning(e: Epoch, m: Meter, fraction: real, slack: real)
    requires m.workers > 0
    ensures Gain(e, m) + slack >= Bar(e, m, fraction) <==> EachEarns(e, m, fraction, slack)
  {
    var w, share := m.workers as real, m.goodput / m.workers as real;
    assert share * w == m.goodput;
    var d := (m.workers - e.baseWorkers) as real;
    assert Bar(e, m, fraction) == fraction * share * d;
    assert fraction * share * d * w == fraction * (share * w) * d;
    ScaledOrder(Bar(e, m, fraction), Gain(e, m) + slack, w);
  }

  lemma ScaledOrder(x: real, y: real, w: real)
    requires w > 0.0
    ensures x <= y <==> x * w <= y * w
  {
    if x <= y {
      assert (y - x) * w >= 0.0;
    } else {
      assert (x - y) * w > 0.0;
    }
  }

  /** An epoch is verified exactly when its time has come, the job has grown, its new workers earn at least 0.3
      of an average worker each and the gain exceeds 1.65 sigma; strongly so when they earn 0.8. */
  lemma VerifiedExactlyWhen(e: Epoch, m: Meter, sigma: real, now: real)
    ensures var v := JudgeEpoch(e, m, sigma, now);
            && (v.Verified? <==> now >= e.nextVerdictAt && HasGrown(e, m) && EachEarns(e, m, 0.3, 0.0)
                                 && m.goodput - e.baseGoodput > 1.65 * sigma)
            && (v.Verified? ==> (v.strong <==> EachEarns(e, m, 0.8, 0.0)))
  {
    if m.workers > 0 {
      BarIsEarning(e, m, 0.3, 0.0);
      BarIsEarning(e, m, 0.8, 0.0);
    }
  }

  /** An epoch that is not verified when its time has come: without growth it is given up at 150 s; with
      growth, one that comes within 1.65 sigma of its bar is extended, twice at most; after that, one that
      cost more than 3 sigma is rolled back and any other only frozen. */
  lemma UnverifiedVerdicts(e: Epoch, m: Meter, sigma: real, now: real)
    requires now >= e.nextVerdictAt && !JudgeEpoch(e, m, sigma, now).Verified?
    ensures var v, close := JudgeEpoch(e, m, sigma, now), EachEarns(e, m, 0.3, 1.65 * sigma);
            && (v.NoEvidence? <==> !HasGrown(e, m) && now - e.openedAt >= 150.0)
            && (v.Quiet? <==> !HasGrown(e, m) && now - e.openedAt < 150.0)
            && (v.Extended? <==> HasGrown(e, m) && close && e.extensions < 2)
            && (v.RolledBack? <==> HasGrown(e, m) && !(close && e.extensions < 2)
                                   && m.goodput - e.baseGoodput < -3.0 * sigma)
            && !v.ProbeOpened?
  {
    if m.workers > 0 {
      BarIsEarning(e, m, 0.3, 1.65 * sigma);
    }
  }

  lemma VerdictWaits(e: Epoch, m: Meter, sigma: real, now: real)
    ensures now < e.nextVerdictAt ==> JudgeEpoch(e, m, sigma, now).Quiet?
  {
  }

  /** A frozen job is probed exactly from the time set for it on; without an open epoch nothing else happens. */
  lemma ProbesExactlyWhen(p: Policy, m: Meter, now: real)
    requires PolicyOk(p)
    ensures VerdictOf(p, m, now).ProbeOpened? <==> p.frozen && now >= p.probeAt.value
    ensures !p.frozen && p.epoch.None? ==> VerdictOf(p, m, now).Quiet?
    ensures !p.frozen && p.epoch.Some? ==> VerdictOf(p, m, now) == JudgeEpoch(p.epoch.value, m, p.epoch.value.sigma.value, now)
  {
  }

  // ---------------------------------------------------------------- consequences of a verdict

  /** A verdict that freezes the job takes the epoch's slots back, node by node, if the epoch was a probe, showed
      no growth or did harm, and keeps them otherwise. A failed probe doubles the wait for the next, up to
      600 s. */
  lemma FreezingConsequences(p: Policy, workers: nat, v: Verdict, now: real, later: real, node: nat)
    requires v.NoEvidence? || v.RolledBack? || v.Inconclusive? || v.Shortfall?
    ensures var p' := Decide(p, workers, v, now, later);
            && p'.frozen && p'.allowance == 0 && p'.epoch.None? && |p'.grants| == 0
            && Of(p'.sheds, node)
               == Of(p.sheds, node) + (if v.NoEvidence? || v.RolledBack? || p.probing then Of(p.grants, node) else 0)
            && p'.probeInterval == (if p.probing then MinReal(2.0 * p.probeInterval, 600.0) else p.probeInterval)
            && p'.probeAt == Some((if v.NoEvidence? then now else later) + p'.probeInterval)
  {
  }

  /** A verified epoch keeps its slots and makes the next probe come early; an extended one waits 45 s. */
  lemma GoingOnConsequences(p: Policy, workers: nat, v: Verdict, now: real, later: real)
    requires p.epoch.Some? && (v.Verified? || v.Extended? || v.Quiet?)
    ensures var p' := Decide(p, workers, v, now, later);
            && p'.sheds == p.sheds && p'.frozen == p.frozen
            && (v.Quiet? ==> p' == p)
            && (v.Verified? ==> p'.epoch.None? && !p'.probing && p'.probeInterval == 90.0 && |p'.grants| == 0
                                && p'.allowance == EarnedAllowance(workers, Total(p.grants), v.strong))
            && (v.Extended? ==> p'.allowance == p.allowance && p'.grants == p.grants)
            && (v.Extended? ==>
                  p'.epoch == Some(p.epoch.value.(extensions := p.epoch.value.extensions + 1, nextVerdictAt := now + 45.0)))
  {
  }

  lemma StrongStaysStrong(e: Epoch, m: Meter, better: Meter, sigma: real, now: real)
    requires m.workers == better.workers && 0.0 <= m.goodput <= better.goodput && sigma >= 0.0
    requires JudgeEpoch(e, m, sigma, now).Verified?
    ensures JudgeEpoch(e, better, sigma, now).Verified?
    ensures JudgeEpoch(e, m, sigma, now).strong ==> JudgeEpoch(e, better, sigma, now).strong
  {
    BarRisesSlower(e, m, better, 0.3);
    BarRisesSlower(e, m, better, 0.8);
  }

  lemma StrongEarnsMore(workers: nat, granted: nat)
    ensures EarnedAllowance(workers, granted, false) <= EarnedAllowance(workers, granted, true)
  {
    RoundIsExact(4 * granted);
    RoundIsExact(2 * granted);
  }

  /** With all else equal, more goodput never leaves a smaller allowance when the verdict ends the epoch. */
  lemma MoreGoodputEarnsMore(p: Policy, m: Meter, better: Meter, now: real, later: real)
    requires p.epoch.Some? && p.epoch.value.sigma.Some? && p.epoch.value.sigma.value >= 0.0
    requires m.workers == better.workers && 0.0 <= m.goodput <= better.goodput
    requires now >= p.epoch.value.nextVerdictAt && HasGrown(p.epoch.value, m)
    ensures var e, sigma := p.epoch.value, p.epoch.value.sigma.value;
            var v, v' := JudgeEpoch(e, m, sigma, now), JudgeEpoch(e, better, sigma, now);
            !v.Extended? && !v'.Extended? ==>
              Decide(p, m.workers, v, now, later).allowance <= Decide(p, m.workers, v', now, later).allowance
  {
    var e, sigma := p.epoch.value, p.epoch.value.sigma.value;
    var v := JudgeEpoch(e, m, sigma, now);
    if v.Verified? {
      StrongStaysStrong(e, m, better, sigma, now);
    }
    StrongEarnsMore(m.workers, Total(p.grants));
    assert GrewEnough(e, m) && GrewEnough(e, better);
    EarnedIsPositive(e, m, Total(p.grants), false);
    EarnedIsPositive(e, m, Total(p.grants), true);
  }

  /** What an extended epoch has left may be more than it would have earned, but it is not granted any more. */
  lemma ExtendedGrantsNothing(p: Policy, workers: nat, m: Meter, node: nat, requested: nat, now: real, later: real, root: real)
    requires p.epoch.Some? && p.epoch.value.openedAt + 75.0 <= p.epoch.value.nextVerdictAt <= now <= later
    ensures GrantSize(Decide(p, workers, Extended, now, later), m, node, requested, later, root) == 0
  {
  }
}
