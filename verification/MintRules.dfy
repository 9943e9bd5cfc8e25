/** What the head's mint controller decides: when a job may grow, by how much, and whether the
    growth paid for itself. Time and goodput are real numbers; the square root in the noise
    estimate and the EWMA weight, whose exponential has no closed form here, are parameters. */
module MintRules {
  import opened Arithmetic
  import opened JobTypes

  const BLOCK_SEC: real := 15.0
  const SIGMA_BLOCKS: nat := 8
  const BASELINE_NOISE_BLOCKS: nat := 4
  const KAPPA: real := 0.3
  const FREEZE_Z: real := 1.65
  const ROLLBACK_Z: real := 3.0
  const EPOCH_GRANT_WINDOW_SEC: real := 30.0
  const EPOCH_VERDICT_AGE_SEC: real := 75.0
  const EPOCH_EXTENSION_SEC: real := 45.0
  const EPOCH_MAX_EXTENSIONS: nat := 2
  const EPOCH_NO_GROWTH_DEADLINE_SEC: real := 150.0
  const EPOCH_MIN_GROWTH_FRACTION: real := 0.02
  const EPOCH_MIN_GROWTH_SLOTS: nat := 4
  const ALLOWANCE_BASE_FRACTION: real := 0.10
  const ALLOWANCE_MIN_SLOTS: nat := 4
  const ALLOWANCE_MAX_FRACTION: real := 0.5
  const VERIFIED_MULTIPLIER: real := 2.0
  const VERIFIED_STRONG_FRACTION: real := 0.8
  const VERIFIED_STRONG_MULTIPLIER: real := 4.0
  const PROBE_INTERVAL_SEC: real := 90.0
  const PROBE_INTERVAL_MAX_SEC: real := 600.0
  const PROBE_FRACTION: real := 0.02

  type Slots = map<nat, nat>

  function MaxReal(a: real, b: real): real { if a < b then b else a }
  function MinReal(a: real, b: real): real { if a < b then a else b }

  /** Rounds to the nearest integer, and to the even one halfway between two. */
  function Round(x: real): (n: int)
    ensures -0.5 <= x - n as real <= 0.5
    ensures x - n as real in {-0.5, 0.5} ==> n % 2 == 0
  {
    var below := x.Floor;
    var excess := x - below as real;
    if excess < 0.5 || (excess == 0.5 && below % 2 == 0) then below else below + 1
  }

  // ---------------------------------------------------------------- slots per node

  function Of(m: Slots, node: nat): nat {
    if node in m then m[node] else 0
  }

  function Merge(a: Slots, b: Slots): Slots {
    map node | node in a.Keys + b.Keys :: Of(a, node) + Of(b, node)
  }

  ghost function Pick(m: Slots): (node: nat)
    requires |m| > 0
    ensures node in m
  {
    assert m.Keys != {};
    var node :| node in m.Keys;
    node
  }

  ghost function Total(m: Slots): nat {
    if |m| == 0 then 0 else m[Pick(m)] + Total(m - {Pick(m)})
  }

  /** The total does not depend on the order in which the nodes are visited. */
  lemma {:induction false} TotalWithout(m: Slots, node: nat)
    requires node in m
    ensures Total(m) == m[node] + Total(m - {node})
    decreases |m|
  {
    var first := Pick(m);
    if first != node {
      TotalWithout(m - {first}, node);
      assert m - {first} - {node} == m - {node} - {first};
      TotalWithout(m - {node}, first);
    }
  }

  lemma TotalWith(m: Slots, node: nat, slots: nat)
    requires node !in m
    ensures Total(m[node := slots]) == Total(m) + slots
  {
    TotalWithout(m[node := slots], node);
    assert m[node := slots] - {node} == m;
  }

  // ---------------------------------------------------------------- the controller's state

  datatype Epoch = Epoch(
    openedAt: real,
    baseWorkers: nat,
    baseGoodput: real,
    sigma: Option<real>,
    extensions: nat,
    nextVerdictAt: real)

  /** What the controller has decided so far. */
  datatype Policy = Policy(
    frozen: bool,
    probing: bool,
    probeAt: Option<real>,
    probeInterval: real,
    allowance: int,
    epoch: Option<Epoch>,
    grants: Slots,              // what each node was granted this epoch
    sheds: Slots)               // what each node still has to give back

  /** What it has measured: the goodput average, the live workers, and the noise blocks. */
  datatype Meter = Meter(
    goodput: real,
    workers: nat,
    lastTotal: Option<int>,
    lastTickAt: real,
    blocks: seq<real>,
    blockStartedAt: real,
    blockStartTotal: int,
    blockFullyBusy: bool)

  datatype Controller = Controller(policy: Policy, meter: Meter)

  function BaseAllowance(workers: nat): (slots: int)
    ensures slots >= ALLOWANCE_MIN_SLOTS
  {
    Max(ALLOWANCE_MIN_SLOTS, Round(ALLOWANCE_BASE_FRACTION * workers as real))
  }

  function NewController(workers: nat): Controller {
    Controller(Policy(false, false, None, PROBE_INTERVAL_SEC, BaseAllowance(workers), None, map[], map[]),
               Meter(0.0, workers, None, 0.0, [], 0.0, 0, false))
  }

  // ---------------------------------------------------------------- noise

  function SumReal(xs: seq<real>): real {
    if xs == [] then 0.0 else SumReal(xs[..|xs| - 1]) + xs[|xs| - 1]
  }

  function Square(x: real): real { x * x }

  function SquaredDeviations(xs: seq<real>, mean: real): (squares: seq<real>)
    ensures |squares| == |xs|
    ensures forall i :: 0 <= i < |xs| ==> squares[i] == Square(xs[i] - mean)
  {
    seq(|xs|, i requires 0 <= i < |xs| => Square(xs[i] - mean))
  }

  function Variance(xs: seq<real>): real
    requires |xs| > 1
  {
    SumReal(SquaredDeviations(xs, SumReal(xs) / |xs| as real)) / (|xs| - 1) as real
  }

  /** The squared factor is 2 * BLOCK_SEC / (2 * 30 s): a goodput difference compares two averages. */
  predicate IsNoise(sigma: real, blocks: seq<real>)
    requires |blocks| > 1
  {
    sigma >= 0.0 && sigma * sigma == Variance(blocks) * 0.5
  }

  function SigmaDg(blocks: seq<real>, root: real): Option<real> {
    if |blocks| < 4 then None else Some(root)
  }

  function Baseline(blocks: seq<real>): seq<real> {
    if |blocks| < BASELINE_NOISE_BLOCKS then blocks else blocks[|blocks| - BASELINE_NOISE_BLOCKS..]
  }

  /** `root` stands for the square root the code takes of the baseline's variance. */
  predicate RootOk(m: Meter, root: real) {
    |m.blocks| >= SIGMA_BLOCKS ==> IsNoise(root, Baseline(m.blocks))
  }

  // ---------------------------------------------------------------- granting

  predicate Grantable(p: Policy, m: Meter, node: nat, now: real) {
    && !p.frozen && p.allowance > 0
    && |m.blocks| >= SIGMA_BLOCKS
    && (p.epoch.Some? ==> now - p.epoch.value.openedAt <= EPOCH_GRANT_WINDOW_SEC && node !in p.grants)
  }

  function OpenEpoch(p: Policy, m: Meter, now: real, root: real): Policy {
    if p.epoch.Some? then p
    else
      p.(allowance := if p.probing then p.allowance else Max(p.allowance, BaseAllowance(m.workers)),
         epoch := Some(Epoch(now, m.workers, m.goodput, SigmaDg(Baseline(m.blocks), root), 0,
                             now + EPOCH_VERDICT_AGE_SEC)),
         grants := map[])
  }

  function GrantSize(p: Policy, m: Meter, node: nat, requested: nat, now: real, root: real): (granted: nat)
    ensures granted <= requested
  {
    if Grantable(p, m, node, now) then Min(requested, OpenEpoch(p, m, now, root).allowance) else 0
  }

  function AfterGrant(p: Policy, m: Meter, node: nat, requested: nat, now: real, root: real): Policy {
    if !Grantable(p, m, node, now) then p
    else
      var granted := GrantSize(p, m, node, requested, now, root);
      var funded := OpenEpoch(p, m, now, root);
      funded.(allowance := funded.allowance - granted,
              grants := funded.grants[node := Of(funded.grants, node) + granted])
  }

  function AfterTakeShed(p: Policy, node: nat): Policy {
    p.(sheds := p.sheds - {node})
  }

  // ---------------------------------------------------------------- measuring

  /** The goodput average moves towards the latest rate by `weight`, which is 1 - exp(-dt / 30 s). */
  function MeasureGoodput(m: Meter, total: int, now: real, weight: real): real
    requires m.lastTotal.Some?
  {
    var dt := now - m.lastTickAt;
    if dt > 0.0 then m.goodput + ((total - m.lastTotal.value) as real / dt - m.goodput) * weight else m.goodput
  }

  function LastBlocks(blocks: seq<real>): seq<real> {
    if |blocks| > SIGMA_BLOCKS then blocks[|blocks| - SIGMA_BLOCKS..] else blocks
  }

  function MeasureBlock(m: Meter, total: int, workers: nat, busy: nat, now: real): Meter {
    var fullyBusy := m.blockFullyBusy && workers > 0 && busy as real >= 0.9 * workers as real;
    if now - m.blockStartedAt >= BLOCK_SEC then
      var rate := (total - m.blockStartTotal) as real / (now - m.blockStartedAt);
      m.(blocks := if fullyBusy then LastBlocks(m.blocks + [rate]) else m.blocks,
         blockStartedAt := now, blockStartTotal := total, blockFullyBusy := true)
    else
      m.(blockFullyBusy := fullyBusy)
  }

  /** One reading of the job's totals; the first one only sets the origin. */
  function Measure(m: Meter, total: int, workers: nat, busy: nat, now: real, weight: real): Meter {
    if m.lastTotal.None? then
      m.(workers := workers, lastTotal := Some(total), lastTickAt := now, blockStartedAt := now,
         blockStartTotal := total, blockFullyBusy := false)
    else
      var averaged := m.(goodput := MeasureGoodput(m, total, now, weight), workers := workers,
                         lastTotal := Some(total), lastTickAt := now);
      MeasureBlock(averaged, total, workers, busy, now)
  }

  // ---------------------------------------------------------------- judging

  datatype Verdict =
    | Quiet
    | ProbeOpened
    | NoEvidence
    | Verified(strong: bool)
    | Extended
    | RolledBack
    | Inconclusive
    | Shortfall

  function Growth(e: Epoch, m: Meter): int {
    m.workers - e.baseWorkers
  }

  predicate GrewEnough(e: Epoch, m: Meter) {
    Growth(e, m) as real >= MaxReal(EPOCH_MIN_GROWTH_SLOTS as real, EPOCH_MIN_GROWTH_FRACTION * e.baseWorkers as real)
  }

  function Gain(e: Epoch, m: Meter): real {
    m.goodput - e.baseGoodput
  }

  /** What the new workers would add if each earned `fraction` of an average worker. */
  function Bar(e: Epoch, m: Meter, fraction: real): real {
    fraction * (if m.workers > 0 then m.goodput / m.workers as real else 0.0) * Growth(e, m) as real
  }

  /** The verdict on an open epoch whose noise estimate is `sigma`. */
  function JudgeEpoch(e: Epoch, m: Meter, sigma: real, now: real): Verdict {
    if now < e.nextVerdictAt then Quiet
    else if !GrewEnough(e, m) then
      if now - e.openedAt < EPOCH_NO_GROWTH_DEADLINE_SEC then Quiet else NoEvidence
    else if Gain(e, m) >= Bar(e, m, KAPPA) && Gain(e, m) > FREEZE_Z * sigma then
      Verified(Gain(e, m) >= Bar(e, m, VERIFIED_STRONG_FRACTION))
    else
      var ambiguous := Gain(e, m) >= Bar(e, m, KAPPA) - FREEZE_Z * sigma;
      if ambiguous && e.extensions < EPOCH_MAX_EXTENSIONS then Extended
      else if Gain(e, m) < -ROLLBACK_Z * sigma then RolledBack
      else if ambiguous then Inconclusive
      else Shortfall
  }

  function VerdictOf(p: Policy, m: Meter, now: real): Verdict
    requires p.epoch.Some? ==> p.epoch.value.sigma.Some?
  {
    if p.frozen && p.probeAt.Some? && now >= p.probeAt.value then ProbeOpened
    else if p.epoch.None? then Quiet
    else JudgeEpoch(p.epoch.value, m, p.epoch.value.sigma.value, now)
  }

  /** Growth stops; the epoch's grants are taken back or kept. */
  function Freeze(p: Policy, takeBack: bool, at: real): Policy {
    var interval := if p.probing then MinReal(p.probeInterval * 2.0, PROBE_INTERVAL_MAX_SEC) else p.probeInterval;
    p.(frozen := true, probing := false, allowance := 0,
       probeInterval := interval, probeAt := Some(at + interval),
       sheds := if takeBack then Merge(p.sheds, p.grants) else p.sheds,
       epoch := None, grants := map[])
  }

  function OpenProbe(p: Policy, workers: nat): Policy {
    p.(frozen := false, probing := true, probeAt := None,
       allowance := Max(ALLOWANCE_MIN_SLOTS, Round(PROBE_FRACTION * workers as real)))
  }

  /** The next allowance after a verified epoch that granted `granted` slots. */
  function EarnedAllowance(workers: nat, granted: nat, strong: bool): int {
    var multiplier := if strong then VERIFIED_STRONG_MULTIPLIER else VERIFIED_MULTIPLIER;
    Min(Max(BaseAllowance(workers), Round(granted as real * multiplier)),
           Round(ALLOWANCE_MAX_FRACTION * workers as real))
  }

  ghost function Reward(p: Policy, workers: nat, strong: bool): Policy {
    p.(allowance := EarnedAllowance(workers, Total(p.grants), strong),
       epoch := None, grants := map[], probing := false, probeInterval := PROBE_INTERVAL_SEC)
  }

  function Extend(p: Policy, now: real): Policy
    requires p.epoch.Some?
  {
    p.(epoch := Some(p.epoch.value.(extensions := p.epoch.value.extensions + 1,
                                    nextVerdictAt := now + EPOCH_EXTENSION_SEC)))
  }

  /** A verdict that ends the epoch without verifying it: does it return the grants? */
  predicate TakesBack(v: Verdict, probing: bool) {
    v.NoEvidence? || v.RolledBack? || ((v.Inconclusive? || v.Shortfall?) && probing)
  }

  predicate Freezes(v: Verdict) {
    v.NoEvidence? || v.RolledBack? || v.Inconclusive? || v.Shortfall?
  }

  /** `later` is the second clock reading, taken when a judged epoch freezes. */
  ghost function Decide(p: Policy, workers: nat, v: Verdict, now: real, later: real): Policy
    requires v.Extended? ==> p.epoch.Some?
  {
    match v
    case Quiet => p
    case ProbeOpened => OpenProbe(p, workers)
    case Verified(strong) => Reward(p, workers, strong)
    case Extended => Extend(p, now)
    case _ => Freeze(p, TakesBack(v, p.probing), if v.NoEvidence? then now else later)
  }

  /** The verdict of a tick whose reading is `after`; the first reading gives none. */
  function TickVerdict(p: Policy, before: Meter, after: Meter, now: real): Verdict
    requires p.epoch.Some? ==> p.epoch.value.sigma.Some?
  {
    if before.lastTotal.None? then Quiet else VerdictOf(p, after, now)
  }

  ghost function AfterTick(p: Policy, before: Meter, after: Meter, now: real, later: real): Policy
    requires p.epoch.Some? ==> p.epoch.value.sigma.Some?
  {
    Decide(p, after.workers, TickVerdict(p, before, after, now), now, later)
  }
}
