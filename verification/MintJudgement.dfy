/** What the mint controller's measurements and verdicts amount to: which rates count as noise, and
    that a job can only fare better by producing more. */
module MintJudgement {
  import opened JobTypes
  import opened MintRules

  // ---------------------------------------------------------------- noise blocks

  datatype Reading = Reading(total: int, workers: nat, busy: nat, now: real)

  predicate IsBusy(r: Reading) {
    r.workers > 0 && r.busy as real >= 0.9 * r.workers as real
  }

  predicate AllBusy(readings: seq<Reading>) {
    forall k :: 0 <= k < |readings| ==> IsBusy(readings[k])
  }

  function ReadAll(m: Meter, readings: seq<Reading>): Meter {
    if readings == [] then m
    else
      var r := readings[|readings| - 1];
      MeasureBlock(ReadAll(m, readings[..|readings| - 1]), r.total, r.workers, r.busy, r.now)
  }

  lemma {:induction false} BlockGoesOn(m: Meter, readings: seq<Reading>)
    requires forall k :: 0 <= k < |readings| ==> readings[k].now - m.blockStartedAt < BLOCK_SEC
    ensures ReadAll(m, readings)
            == m.(blockFullyBusy := m.blockFullyBusy && AllBusy(readings))
  {
    var n := |readings|;
    if n > 0 {
      BlockGoesOn(m, readings[..n - 1]);
      assert AllBusy(readings) <==> AllBusy(readings[..n - 1]) && IsBusy(readings[n - 1]);
    }
  }

  lemma AllBusyAppend(readings: seq<Reading>, last: Reading)
    ensures AllBusy(readings + [last]) <==> AllBusy(readings) && IsBusy(last)
  {
    assert (readings + [last])[|readings|] == last;
    assert forall k :: 0 <= k < |readings| ==> (readings + [last])[k] == readings[k];
  }

  /** A block that opened after another one closed lasts until the first reading at least 15 s
      later. Its rate, the results gained over its length, joins the noise exactly when every one
      of its readings found the job busy; the next block opens at once. */
  lemma BlockCountsExactlyWhenBusy(m: Meter, readings: seq<Reading>, last: Reading)
    requires m.blockFullyBusy && last.now - m.blockStartedAt >= BLOCK_SEC
    requires forall k :: 0 <= k < |readings| ==> readings[k].now - m.blockStartedAt < BLOCK_SEC
    ensures var m' := ReadAll(m, readings + [last]);
            var rate := (last.total - m.blockStartTotal) as real / (last.now - m.blockStartedAt);
            && m'.blocks == (if AllBusy(readings + [last]) then LastBlocks(m.blocks + [rate]) else m.blocks)
            && m'.blockFullyBusy && m'.blockStartedAt == last.now && m'.blockStartTotal == last.total
  {
    assert (readings + [last])[..|readings|] == readings;
    BlockGoesOn(m, readings);
    AllBusyAppend(readings, last);
  }

  lemma {:induction false} NoiseIsRecent(m: Meter, readings: seq<Reading>)
    requires |m.blocks| <= SIGMA_BLOCKS
    ensures |ReadAll(m, readings).blocks| <= SIGMA_BLOCKS
  {
    if readings != [] {
      NoiseIsRecent(m, readings[..|readings| - 1]);
    }
  }

  // ---------------------------------------------------------------- verdicts

  /** How well an epoch that may be judged and has grown comes off. */
  function Standing(v: Verdict): nat {
    match v
    case Verified(_) => 3
    case Extended => 2
    case Inconclusive => 2
    case Shortfall => 1
    case _ => 0
  }

  lemma ShareOfGain(x: real, workers: nat, growth: nat)
    requires x >= 0.0 && 0 < growth <= workers
    ensures 0.0 <= x / workers as real * growth as real <= x
  {
    var each := x / workers as real;
    assert each * workers as real == x;
    assert each >= 0.0;
    assert each * growth as real <= each * workers as real;
  }

  /** The bar for earning a fraction of an average worker rises with goodput, but by less than
      goodput itself. */
  lemma BarRisesSlower(e: Epoch, m: Meter, better: Meter, fraction: real)
    requires m.workers == better.workers && 0 < Growth(e, m) && 0.0 <= m.goodput <= better.goodput
    requires 0.0 <= fraction <= 1.0
    ensures 0.0 <= Bar(e, m, fraction) <= Bar(e, better, fraction) <= Bar(e, m, fraction) + (better.goodput - m.goodput)
  {
    var w, d, x := m.workers, Growth(e, m), better.goodput - m.goodput;
    ShareOfGain(x, w, d);
    ShareOfGain(m.goodput, w, d);
    assert better.goodput / w as real == m.goodput / w as real + x / w as real;
    var a, b := m.goodput / w as real, x / w as real;
    assert fraction * (a + b) * d as real == fraction * a * d as real + fraction * (b * d as real);
    assert fraction * a * d as real == fraction * (a * d as real);
    FractionOf(fraction, b * d as real);
    FractionOf(fraction, a * d as real);
  }

  lemma FractionOf(fraction: real, x: real)
    requires 0.0 <= fraction <= 1.0 && x >= 0.0
    ensures 0.0 <= fraction * x <= x
  {
  }

  /** With everything else as it is, more goodput never worsens the verdict; and one that rolls back
      is below the bar by more than the noise, so it is never an ambiguous one. */
  lemma MoreGoodputNeverHurts(e: Epoch, m: Meter, better: Meter, sigma: real, now: real)
    requires m.workers == better.workers && 0.0 <= m.goodput <= better.goodput && sigma >= 0.0
    requires now >= e.nextVerdictAt && GrewEnough(e, m)
    ensures Standing(JudgeEpoch(e, m, sigma, now)) <= Standing(JudgeEpoch(e, better, sigma, now))
    ensures JudgeEpoch(e, m, sigma, now).RolledBack? ==> Gain(e, m) < Bar(e, m, KAPPA) - FREEZE_Z * sigma
  {
    BarRisesSlower(e, m, better, KAPPA);
  }
}
