/**
 * The lifecycle and trust record of one leased search identity, and what every
 * possible history of that identity keeps.
 */
module Lifecycle {
  import opened Domain

  datatype State = Warming | Probation | Trusted | Degraded | Quarantined | Draining | Retired

  datatype TrustConfig = TrustConfig(
    minSamples: int,
    minSuccessRate: real,
    minRecentEWMA: real,
    maxConsecutiveFailures: int,
    recentAlpha: real,
    decayHalfLife: int)

  /** `persistent` says whether a manifest store is configured. */
  datatype Config = Config(
    trustedTrafficPercent: int,
    trust: TrustConfig,
    quarantineCooldown: int,
    degradedCooldown: int,
    maxRecoveryAttempts: int,
    persistent: bool)

  const DEFAULT_TRUST := TrustConfig(20, 0.9, 0.9, 3, 0.2, 7 * 24 * 60 * MINUTE)

  /** Out-of-range trust settings fall back, field by field, to the defaults. */
  function NormalizedTrust(c: TrustConfig): (r: TrustConfig)
    ensures r.minSamples >= 1 && r.maxConsecutiveFailures >= 1 && r.decayHalfLife > 0
    ensures 0.0 < r.minSuccessRate <= 1.0 && 0.0 < r.minRecentEWMA <= 1.0 && 0.0 < r.recentAlpha <= 1.0
  {
    TrustConfig(
      if c.minSamples <= 0 then 20 else c.minSamples,
      if c.minSuccessRate <= 0.0 || c.minSuccessRate > 1.0 then 0.9 else c.minSuccessRate,
      if c.minRecentEWMA <= 0.0 || c.minRecentEWMA > 1.0 then 0.9 else c.minRecentEWMA,
      if c.maxConsecutiveFailures <= 0 then 3 else c.maxConsecutiveFailures,
      if c.recentAlpha <= 0.0 || c.recentAlpha > 1.0 then 0.2 else c.recentAlpha,
      if c.decayHalfLife <= 0 then 7 * 24 * 60 * MINUTE else c.decayHalfLife)
  }

  function NormalizedConfig(c: Config): (r: Config)
    ensures ValidConfig(r)
  {
    Config(
      if c.trustedTrafficPercent <= 0 || c.trustedTrafficPercent >= 100 then 80 else c.trustedTrafficPercent,
      NormalizedTrust(c.trust),
      if c.quarantineCooldown <= 0 then 5 * MINUTE else c.quarantineCooldown,
      if c.degradedCooldown <= 0 then MINUTE else c.degradedCooldown,
      if c.maxRecoveryAttempts <= 0 then 3 else c.maxRecoveryAttempts,
      c.persistent)
  }

  /** What every configuration satisfies once a pool has been built with it. */
  predicate ValidConfig(c: Config) {
    && 0 < c.trustedTrafficPercent < 100
    && c.trust.minSamples >= 1
    && c.trust.maxConsecutiveFailures >= 1
    && 0.0 < c.trust.recentAlpha <= 1.0
    && 0.0 < c.trust.minSuccessRate <= 1.0
    && 0.0 < c.trust.minRecentEWMA <= 1.0
    && c.quarantineCooldown > 0
    && c.degradedCooldown > 0
    && c.maxRecoveryAttempts >= 1
  }

  datatype Profile = Profile(id: string, provider: string, capacity: int)

  /** The fields of one pool entry. */
  datatype Record = Record(
    profile: Profile,
    state: State,
    inFlight: int,
    effectiveSamples: int,
    successWeight: real,
    failureWeight: real,
    recentEWMA: real,
    consecutiveFailures: int,
    generation: int,
    recoveryState: State,
    quarantinedUntil: int,
    recoveryAttempts: int)

  datatype Result = Result(succeeded: bool, classification: Classification)

  /** The durable part of a record. */
  datatype Manifest = Manifest(
    desiredState: State,
    effectiveSamples: int,
    successWeight: real,
    failureWeight: real,
    recentEWMA: real,
    consecutiveFailures: int,
    generation: int,
    quarantinedUntil: int,
    recoveryAttempts: int)

  // ------------------------------------------------------------------
  // What each pool operation does to one record
  // ------------------------------------------------------------------

  predicate Serving(s: State) {
    s == Probation || s == Trusted
  }

  predicate CoolingDown(s: State) {
    s == Quarantined || s == Degraded
  }

  predicate Quarantines(c: Classification) {
    c == Captcha || c == RateLimited
  }

  /** A markup change is the provider's fault, not the identity's. */
  predicate IsCharged(result: Result) {
    result.succeeded || result.classification != ParseChanged
  }

  function Newborn(cfg: Config, profile: Profile): Record {
    Record(profile, if cfg.persistent then Warming else Probation, 0, 0, 0.0, 0.0, 1.0, 0, 1, Probation, 0, 0)
  }

  function ManifestOf(r: Record): Manifest {
    Manifest(r.state, r.effectiveSamples, r.successWeight, r.failureWeight, r.recentEWMA,
             r.consecutiveFailures, r.generation, r.quarantinedUntil, r.recoveryAttempts)
  }

  /** math.Round: to the nearest integer, halves away from zero. */
  function Round(x: real): int {
    if x >= 0.0 then (x + 0.5).Floor else -((0.5 - x).Floor)
  }

  /** A score drifts back to the neutral 0.5 while the process is down. */
  function DecayedEWMA(ewma: real, factor: real): real {
    0.5 + (ewma - 0.5) * factor
  }

  function DecayedSamples(samples: int, factor: real): int {
    Round(samples as real * factor)
  }

  /** A record rebuilt from its manifest after a restart; `factor` is the decay since the last save. */
  function Restored(profile: Profile, m: Manifest, factor: real): Record {
    Record(profile, Warming, 0, DecayedSamples(m.effectiveSamples, factor),
           m.successWeight * factor, m.failureWeight * factor, DecayedEWMA(m.recentEWMA, factor),
           m.consecutiveFailures, m.generation + 1,
           if m.desiredState == Trusted then Trusted else Probation,
           m.quarantinedUntil, m.recoveryAttempts)
  }

  function Activated(r: Record): Record {
    if r.state == Warming then r.(state := r.recoveryState) else r
  }

  /** Retirement waits for the last lease. */
  function Drained(r: Record): Record {
    r.(state := if r.inFlight == 0 then Retired else Draining)
  }

  function Reconciled(cfg: Config, now: int, r: Record): Record {
    if !CoolingDown(r.state) || r.quarantinedUntil > now then r
    else if r.recoveryAttempts >= cfg.maxRecoveryAttempts then Drained(r)
    else r.(recoveryAttempts := r.recoveryAttempts + 1, state := Probation, consecutiveFailures := 0)
  }

  function Granted(r: Record): Record {
    r.(inFlight := r.inFlight + 1)
  }

  function Replaced(r: Record, replacement: Profile): Record {
    r.(profile := replacement, state := Probation, recoveryState := Probation, inFlight := 0,
       effectiveSamples := 0, successWeight := 0.0, failureWeight := 0.0, recentEWMA := 1.0,
       consecutiveFailures := 0, recoveryAttempts := 0, generation := r.generation + 1)
  }

  /** Every charged failure weighs something, and none more than a success counts for. */
  function FailureWeight(c: Classification): (w: real)
    ensures c == ParseChanged <==> w == 0.0
    ensures c != ParseChanged ==> 0.25 <= w <= 1.0
    ensures Quarantines(c) ==> w >= 0.75
  {
    match c
    case Timeout => 0.25
    case NetworkError => 0.25
    case ParseChanged => 0.0
    case RateLimited => 0.75
    case _ => 1.0
  }

  function SuccessRate(success: real, failure: real): real
    requires success >= 0.0 && failure >= 0.0
  {
    (success + 1.0) / (success + failure + 2.0)
  }

  function MixedEWMA(alpha: real, observation: real, previous: real): real {
    alpha * observation + (1.0 - alpha) * previous
  }

  /** Trust bookkeeping of one charged result, before any state change. */
  function Charged(cfg: Config, r: Record, result: Result): Record {
    var alpha := cfg.trust.recentAlpha;
    if result.succeeded then
      r.(effectiveSamples := r.effectiveSamples + 1,
         successWeight := r.successWeight + 1.0,
         consecutiveFailures := 0,
         recentEWMA := MixedEWMA(alpha, 1.0, r.recentEWMA))
    else
      r.(effectiveSamples := r.effectiveSamples + 1,
         failureWeight := r.failureWeight + FailureWeight(result.classification),
         consecutiveFailures := r.consecutiveFailures + 1,
         recentEWMA := MixedEWMA(alpha, 0.0, r.recentEWMA))
  }

  predicate Promotable(cfg: Config, r: Record)
    requires r.successWeight >= 0.0 && r.failureWeight >= 0.0
  {
    && r.effectiveSamples >= cfg.trust.minSamples
    && SuccessRate(r.successWeight, r.failureWeight) >= cfg.trust.minSuccessRate
    && r.recentEWMA >= cfg.trust.minRecentEWMA
  }

  function Judged(cfg: Config, now: int, r: Record, c: Classification): Record
    requires r.successWeight >= 0.0 && r.failureWeight >= 0.0
  {
    if Quarantines(c) then r.(state := Quarantined, quarantinedUntil := now + cfg.quarantineCooldown)
    else if r.consecutiveFailures >= cfg.trust.maxConsecutiveFailures then
      r.(state := Degraded, quarantinedUntil := now + cfg.degradedCooldown)
    else if r.state == Probation && Promotable(cfg, r) then r.(state := Trusted)
    else r
  }

  function SlotReturned(r: Record): Record {
    if r.inFlight > 0 then r.(inFlight := r.inFlight - 1) else r
  }

  function Released(cfg: Config, now: int, r: Record, result: Result): Record
    requires r.successWeight >= 0.0 && r.failureWeight >= 0.0
  {
    var r1 := SlotReturned(r);
    if r1.state == Draining && r1.inFlight == 0 then r1.(state := Retired)
    else if !IsCharged(result) then r1
    else Judged(cfg, now, Charged(cfg, r1, result), result.classification)
  }

  predicate SavesOnRelease(r: Record, result: Result) {
    (r.state == Draining && SlotReturned(r).inFlight == 0) || IsCharged(result)
  }

  // ------------------------------------------------------------------
  // Histories of one identity
  // ------------------------------------------------------------------

  /**
   * Everything that can happen to one identity, in the order its pool lets it
   * happen. `wrote` says whether the manifest write of the event succeeds.
   */
  datatype Event =
    | Reconcile(now: int)
    | Grant
    | Release(now: int, result: Result, wrote: bool)
    | Drain(wrote: bool)
    | Replace(replacement: Profile, wrote: bool)
    | Activate(wrote: bool)
    | Close
    | Restart(factor: real)

  /**
   * History variables. `closed` says that the pool is closed; `charged`,
   * `onlyFailures`, `recoveries` and `riskAt` (the last captcha or rate-limit
   * release) speak of the current generation; `newborn` says that it started
   * without a manifest; `streak` is the number of charged successes since the
   * identity's last charged failure, restarts included, and None when no
   * failure was ever charged. `saved` is what the manifest store holds;
   * `stale` says that it misses the last charged failure, and `forgotten`
   * that the record does, having been restored from such a manifest.
   */
  datatype History = History(
    clock: int,
    closed: bool,
    newborn: bool,
    charged: nat,
    onlyFailures: bool,
    recoveries: nat,
    streak: Option<nat>,
    riskAt: Option<int>,
    saved: Option<Manifest>,
    stale: bool,
    forgotten: bool)

  datatype Life = Life(r: Record, h: History)

  /** Whether a release reaches the trust bookkeeping: the last release of a draining identity does not. */
  predicate ReachesTrust(r: Record, result: Result) {
    IsCharged(result) && !(r.state == Draining && r.inFlight <= 1)
  }

  function ObserveRelease(r: Record, h: History, now: int, result: Result): History {
    if !ReachesTrust(r, result) then h.(clock := now)
    else h.(
      clock := now,
      charged := h.charged + 1,
      onlyFailures := h.onlyFailures && !result.succeeded,
      streak := if !result.succeeded then Some(0) else if h.streak.Some? then Some(h.streak.value + 1) else None,
      riskAt := if Quarantines(result.classification) then Some(now) else h.riskAt,
      stale := h.stale || !result.succeeded,
      forgotten := h.forgotten && result.succeeded)
  }

  /** A successful write replaces the saved manifest by the record as it is. */
  function Written(cfg: Config, r: Record, h: History, wrote: bool): History {
    if cfg.persistent && wrote then h.(saved := Some(ManifestOf(r)), stale := h.forgotten) else h
  }

  predicate Recovers(cfg: Config, now: int, r: Record) {
    CoolingDown(r.state) && r.quarantinedUntil <= now && r.recoveryAttempts < cfg.maxRecoveryAttempts
  }

  predicate ValidRecord(r: Record) {
    && r.profile.capacity >= 1
    && 0 <= r.inFlight <= r.profile.capacity
    && r.successWeight >= 0.0
    && r.failureWeight >= 0.0
    && 0.0 <= r.recentEWMA <= 1.0
    && r.consecutiveFailures >= 0
    && r.recoveryAttempts >= 0
    && (r.recoveryState == Probation || r.recoveryState == Trusted)
    && (r.state == Warming ==> r.inFlight == 0)
  }

  predicate SaneManifest(m: Manifest) {
    && m.successWeight >= 0.0 && m.failureWeight >= 0.0 && 0.0 <= m.recentEWMA <= 1.0
    && m.consecutiveFailures >= 0 && m.recoveryAttempts >= 0
  }

  predicate ValidLife(l: Life) {
    ValidRecord(l.r) && (l.h.saved.Some? ==> SaneManifest(l.h.saved.value))
  }

  predicate Enabled(l: Life, e: Event) {
    match e
    case Reconcile(now) => l.h.clock <= now && !l.h.closed
    case Grant => Serving(l.r.state) && l.r.inFlight < l.r.profile.capacity && !l.h.closed
    case Release(now, _, _) => l.h.clock <= now && l.r.inFlight > 0
    case Replace(p, _) => l.r.state == Retired && l.r.inFlight == 0 && p.capacity >= 1
    case Restart(factor) => 0.0 < factor <= 1.0
    case _ => true
  }

  function Step(cfg: Config, l: Life, e: Event): Life
    requires l.r.successWeight >= 0.0 && l.r.failureWeight >= 0.0
  {
    match e
    case Reconcile(now) =>
      Life(Reconciled(cfg, now, l.r),
           l.h.(clock := now, recoveries := l.h.recoveries + if Recovers(cfg, now, l.r) then 1 else 0))
    case Grant => Life(Granted(l.r), l.h)
    case Release(now, result, wrote) =>
      var r, h := Released(cfg, now, l.r, result), ObserveRelease(l.r, l.h, now, result);
      Life(r, if SavesOnRelease(l.r, result) then Written(cfg, r, h, wrote) else h)
    case Drain(wrote) => Life(Drained(l.r), Written(cfg, Drained(l.r), l.h, wrote))
    case Replace(p, wrote) =>
      var r := Replaced(l.r, p);
      Life(r, Written(cfg, r, History(l.h.clock, l.h.closed, true, 0, true, 0, None, None, l.h.saved, true, false), wrote))
    case Activate(wrote) =>
      Life(Activated(l.r), if l.r.state == Warming then Written(cfg, Activated(l.r), l.h, wrote) else l.h)
    case Close => Life(l.r.(state := Retired), l.h.(closed := true))
    case Restart(factor) => Restarted(cfg, l, factor)
  }

  /** A new process restores what the store holds, which need not be what the old process last knew. */
  function Restarted(cfg: Config, l: Life, factor: real): Life {
    var h := l.h.(closed := false, newborn := l.h.saved.None?, charged := 0, onlyFailures := true, recoveries := 0,
                  riskAt := None, forgotten := l.h.saved.Some? && l.h.stale);
    Life(if l.h.saved.Some? then Restored(l.r.profile, l.h.saved.value, factor) else Newborn(cfg, l.r.profile), h)
  }

  ghost predicate Legal(cfg: Config, l: Life, es: seq<Event>)
    requires ValidConfig(cfg) && ValidLife(l)
    decreases |es|
  {
    es == [] || (Enabled(l, es[0]) && (StepKeepsRecordValid(cfg, l, es[0]); Legal(cfg, Step(cfg, l, es[0]), es[1..])))
  }

  ghost function After(cfg: Config, l: Life, es: seq<Event>): Life
    requires ValidConfig(cfg) && ValidLife(l)
    requires Legal(cfg, l, es)
    decreases |es|
  {
    if es == [] then l
    else StepKeepsRecordValid(cfg, l, es[0]); After(cfg, Step(cfg, l, es[0]), es[1..])
  }

  lemma MixedEWMAInRange(alpha: real, observation: real, previous: real)
    requires 0.0 < alpha <= 1.0 && 0.0 <= observation <= 1.0 && 0.0 <= previous <= 1.0
    ensures 0.0 <= MixedEWMA(alpha, observation, previous) <= 1.0
  {
    Fraction(alpha, observation, alpha * observation);
    Fraction(1.0 - alpha, previous, (1.0 - alpha) * previous);
  }

  lemma DecayedEWMAInRange(ewma: real, factor: real)
    requires 0.0 <= ewma <= 1.0 && 0.0 < factor <= 1.0
    ensures 0.0 <= DecayedEWMA(ewma, factor) <= 1.0
    ensures DecayedEWMA(ewma, factor) <= if ewma >= 0.5 then ewma else 0.5
  {
    Shrinks(ewma - 0.5, factor, (ewma - 0.5) * factor);
  }

  lemma Shrinks(gap: real, factor: real, r: real)
    requires 0.0 < factor <= 1.0 && r == gap * factor
    ensures if gap >= 0.0 then 0.0 <= r <= gap else gap <= r <= 0.0
  {
    if gap >= 0.0 {
      Fraction(gap, factor, r);
    } else {
      Fraction(-gap, factor, -r);
    }
  }

  /** Every event keeps the record and the saved manifest well-formed; in particular the recent score stays within [0, 1]. */
  lemma StepKeepsRecordValid(cfg: Config, l: Life, e: Event)
    requires ValidConfig(cfg) && ValidLife(l) && Enabled(l, e)
    ensures ValidLife(Step(cfg, l, e))
  {
    hide Restored, Released;
    match e
    case Release(now, result, wrote) => ReleaseKeepsRecordValid(cfg, l, now, result, wrote);
    case Restart(factor) =>
      if l.h.saved.Some? {
        RestoredIsValid(l.r.profile, l.h.saved.value, factor);
      }
    case _ =>
  }

  lemma RestoredIsValid(profile: Profile, m: Manifest, factor: real)
    requires profile.capacity >= 1 && SaneManifest(m) && 0.0 < factor <= 1.0
    ensures ValidRecord(Restored(profile, m, factor))
  {
    hide DecayedEWMA;
    DecayedEWMAInRange(m.recentEWMA, factor);
    Fraction(m.successWeight, factor, m.successWeight * factor);
    Fraction(m.failureWeight, factor, m.failureWeight * factor);
  }

  lemma ReleaseKeepsRecordValid(cfg: Config, l: Life, now: int, result: Result, wrote: bool)
    requires ValidConfig(cfg) && ValidLife(l) && Enabled(l, Release(now, result, wrote))
    ensures ValidLife(Step(cfg, l, Release(now, result, wrote)))
  {
    MixedEWMAInRange(cfg.trust.recentAlpha, 1.0, l.r.recentEWMA);
    MixedEWMAInRange(cfg.trust.recentAlpha, 0.0, l.r.recentEWMA);
  }

  // ------------------------------------------------------------------
  // What each operation means, on the fields
  // ------------------------------------------------------------------

  /** Settings in range are kept, the others become the defaults: 20 samples, 0.9, 0.9, 3 failures, 0.2, a week. */
  lemma NormalizedTrustMeans(c: TrustConfig)
    ensures var r := NormalizedTrust(c);
            && r.minSamples == (if c.minSamples >= 1 then c.minSamples else 20)
            && r.minSuccessRate == (if 0.0 < c.minSuccessRate <= 1.0 then c.minSuccessRate else 0.9)
            && r.minRecentEWMA == (if 0.0 < c.minRecentEWMA <= 1.0 then c.minRecentEWMA else 0.9)
            && r.maxConsecutiveFailures == (if c.maxConsecutiveFailures >= 1 then c.maxConsecutiveFailures else 3)
            && r.recentAlpha == (if 0.0 < c.recentAlpha <= 1.0 then c.recentAlpha else 0.2)
            && r.decayHalfLife == (if c.decayHalfLife >= 1 then c.decayHalfLife else 604_800 * SECOND)
    ensures NormalizedTrust(NormalizedTrust(c)) == NormalizedTrust(c)
    ensures NormalizedTrust(TrustConfig(0, 0.0, 0.0, 0, 0.0, 0)) == DEFAULT_TRUST
  {
  }

  /** A usable configuration is left alone; an empty one becomes 80 percent, five minutes, one minute, three recoveries. */
  lemma NormalizedConfigMeans(c: Config)
    ensures ValidConfig(c) && c.trust.decayHalfLife > 0 ==> NormalizedConfig(c) == c
    ensures var r := NormalizedConfig(c);
            && r.trustedTrafficPercent == (if 0 < c.trustedTrafficPercent < 100 then c.trustedTrafficPercent else 80)
            && r.quarantineCooldown == (if c.quarantineCooldown > 0 then c.quarantineCooldown else 300 * SECOND)
            && r.degradedCooldown == (if c.degradedCooldown > 0 then c.degradedCooldown else 60 * SECOND)
            && r.maxRecoveryAttempts == (if c.maxRecoveryAttempts > 0 then c.maxRecoveryAttempts else 3)
            && r.persistent == c.persistent
  {
    NormalizedTrustMeans(c.trust);
  }

  lemma RoundsToNearest(x: real)
    ensures -0.5 <= Round(x) as real - x <= 0.5
    ensures x >= 0.0 ==> Round(x) as real - x > -0.5
    ensures x < 0.0 ==> Round(x) as real - x < 0.5
  {
  }

  /** Whether a release retires a draining identity: it is the last one. */
  predicate EndsDrain(r: Record) {
    r.state == Draining && r.inFlight == 1
  }

  /** A result that counts for or against the identity: a success, or any failure but a changed page. */
  predicate Counts(result: Result) {
    result.succeeded || result.classification != ParseChanged
  }

  /** The last lease of a draining identity retires it, whatever its result; a changed page only gives the slot back. */
  lemma UncountedReleaseMeans(cfg: Config, r: Record, now: int, result: Result)
    requires ValidRecord(r) && r.inFlight > 0 && (EndsDrain(r) || !Counts(result))
    ensures Released(cfg, now, r, result) ==
            r.(inFlight := r.inFlight - 1, state := if EndsDrain(r) then Retired else r.state)
    ensures SavesOnRelease(r, result) == EndsDrain(r)|| Counts(result)
  {
  }

  /** What one result weighs in the success and in the failure weight. */
  function Weights(result: Result): (real, real) {
    if result.succeeded then (1.0, 0.0)
    else if result.classification == Timeout || result.classification == NetworkError then (0.0, 0.25)
    else if result.classification == RateLimited then (0.0, 0.75)
    else (0.0, 1.0)
  }

  /**
   * Any other release gives the slot back and counts one result. A success
   * ends the row of failures, a failure prolongs it; the recent score moves
   * the fraction alpha of its way to 1 or to 0.
   */
  lemma CountedReleaseBooks(cfg: Config, r: Record, now: int, result: Result)
    requires ValidConfig(cfg) && ValidRecord(r) && r.inFlight > 0 && !EndsDrain(r) && Counts(result)
    ensures var r' := Released(cfg, now, r, result);
            && r' == r.(inFlight := r.inFlight - 1, effectiveSamples := r.effectiveSamples + 1,
                        successWeight := r.successWeight + Weights(result).0,
                        failureWeight := r.failureWeight + Weights(result).1,
                        consecutiveFailures := if result.succeeded then 0 else r.consecutiveFailures + 1,
                        recentEWMA := r'.recentEWMA, state := r'.state, quarantinedUntil := r'.quarantinedUntil)
            && r'.recentEWMA - r.recentEWMA == cfg.trust.recentAlpha * ((if result.succeeded then 1.0 else 0.0) - r.recentEWMA)
    ensures SavesOnRelease(r, result)
  {
    hide Promotable;
  }

  /**
   * And it decides the state: a captcha or a rate limit quarantines, the last
   * tolerated failure in a row degrades, and a probation identity becomes
   * trusted exactly when its new samples, success rate and score reach the
   * thresholds.
   */
  lemma CountedReleaseJudges(cfg: Config, r: Record, now: int, result: Result)
    requires ValidConfig(cfg) && ValidRecord(r) && r.inFlight > 0 && !EndsDrain(r) && Counts(result)
    ensures var r' := Released(cfg, now, r, result);
            if result.classification == Captcha || result.classification == RateLimited then
              r'.state == Quarantined && r'.quarantinedUntil == now + cfg.quarantineCooldown
            else if r'.consecutiveFailures >= cfg.trust.maxConsecutiveFailures then
              r'.state == Degraded && r'.quarantinedUntil == now + cfg.degradedCooldown
            else
              && r'.quarantinedUntil == r.quarantinedUntil
              && r'.state == if r.state == Probation && r'.effectiveSamples >= cfg.trust.minSamples
                                && (r'.successWeight + 1.0) / (r'.successWeight + r'.failureWeight + 2.0) >= cfg.trust.minSuccessRate
                                && r'.recentEWMA >= cfg.trust.minRecentEWMA
                             then Trusted else r.state
  {
    hide FailureWeight, MixedEWMA;
  }

  /**
   * A cooldown ends, at its deadline and not before, in probation and with one
   * recovery used up; without a recovery left the identity retires as soon
   * as no lease is out. Nothing else is touched.
   */
  lemma RecoveryMeans(cfg: Config, r: Record, now: int)
    ensures var r', due := Reconciled(cfg, now, r), (r.state == Quarantined || r.state == Degraded) && r.quarantinedUntil <= now;
            && (!due ==> r' == r)
            && (due && r.recoveryAttempts < cfg.maxRecoveryAttempts ==>
                  r' == r.(state := Probation, recoveryAttempts := r.recoveryAttempts + 1, consecutiveFailures := 0))
            && (due && r.recoveryAttempts >= cfg.maxRecoveryAttempts ==>
                  r' == r.(state := if r.inFlight == 0 then Retired else Draining))
  {
  }

  /** A birth leads to probation, through warming if there is a store; a replacement is a birth in the next generation. */
  lemma BirthMeans(cfg: Config, r: Record, profile: Profile)
    ensures Activated(Newborn(cfg, profile)) == Record(profile, Probation, 0, 0, 0.0, 0.0, 1.0, 0, 1, Probation, 0, 0)
    ensures Newborn(cfg, profile).state == if cfg.persistent then Warming else Probation
    ensures Replaced(r, profile) ==
            Activated(Newborn(cfg, profile)).(generation := r.generation + 1, quarantinedUntil := r.quarantinedUntil)
  {
  }

  /** An immediate restart brings back the record as it was saved, warming, without leases and in the next generation. */
  lemma RestartRestores(r: Record)
    requires ValidRecord(r)
    ensures Restored(r.profile, ManifestOf(r), 1.0) ==
            r.(state := Warming, inFlight := 0, generation := r.generation + 1,
               recoveryState := if r.state == Trusted then Trusted else Probation)
  {
    assert Round(r.effectiveSamples as real) == r.effectiveSamples;
  }

  /** A later one scales weights, samples and the distance of the score from 0.5 by the decay, and nothing else. */
  lemma RestartDecays(profile: Profile, m: Manifest, factor: real)
    ensures var r := Restored(profile, m, factor);
            && r == Restored(profile, m, 1.0).(effectiveSamples := r.effectiveSamples, successWeight := r.successWeight,
                                               failureWeight := r.failureWeight, recentEWMA := r.recentEWMA)
            && r.successWeight == m.successWeight * factor && r.failureWeight == m.failureWeight * factor
            && r.recentEWMA - 0.5 == (m.recentEWMA - 0.5) * factor
            && -0.5 <= r.effectiveSamples as real - m.effectiveSamples as real * factor <= 0.5
  {
    RoundsToNearest(m.effectiveSamples as real * factor);
  }

  /**
   * After a restart and an activation an identity serves, whatever its
   * manifest says of a quarantine that is not over, of recoveries that are
   * spent, or of its retirement; trusted only if it was saved as trusted.
   */
  lemma RestartServes(profile: Profile, m: Manifest, factor: real)
    ensures Activated(Restored(profile, m, factor)).state == if m.desiredState == Trusted then Trusted else Probation
    ensures Activated(Restored(profile, m, factor)).inFlight == 0
  {
  }
}
