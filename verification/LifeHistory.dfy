/**
 * What holds over every history of one identity: its recovery budget, how
 * trust is earned, and how long a risk response keeps it out of service.
 */
module LifeHistory {
  import opened Domain
  import opened Lifecycle

  function Born(cfg: Config, profile: Profile, clock: int): Life {
    Life(Newborn(cfg, profile), History(clock, false, true, 0, true, 0, None, None, None, false, false))
  }

  /** A release before its manifest is written. */
  function Observed(cfg: Config, l: Life, now: int, result: Result): Life
    requires l.r.successWeight >= 0.0 && l.r.failureWeight >= 0.0
  {
    Life(Released(cfg, now, l.r, result), ObserveRelease(l.r, l.h, now, result))
  }

  /** The write that follows is about the saved manifest only. */
  lemma WriteChangesStore(cfg: Config, l: Life, now: int, result: Result, wrote: bool)
    requires l.r.successWeight >= 0.0 && l.r.failureWeight >= 0.0
    ensures var l', o := Step(cfg, l, Release(now, result, wrote)), Observed(cfg, l, now, result);
            l'.r == o.r && l'.h == o.h.(saved := l'.h.saved, stale := l'.h.stale)
  {
  }

  // ------------------------------------------------------------------
  // Recovery budget
  // ------------------------------------------------------------------

  /** The most charged failures one stretch of service can bring: stragglers may still be in flight when it ends. */
  function StretchBound(cfg: Config, capacity: int): int {
    cfg.trust.maxConsecutiveFailures + capacity - 1
  }

  ghost predicate WithinBudget(cfg: Config, l: Life) {
    var stretch := StretchBound(cfg, l.r.profile.capacity);
    && l.h.recoveries <= l.r.recoveryAttempts
    && (l.h.recoveries > 0 ==> l.r.recoveryAttempts <= cfg.maxRecoveryAttempts)
    && (l.h.newborn ==>
          && l.r.recoveryAttempts <= cfg.maxRecoveryAttempts
          && l.r.consecutiveFailures + l.r.inFlight <= stretch
          && (Serving(l.r.state) ==> l.r.consecutiveFailures < cfg.trust.maxConsecutiveFailures)
          && (l.r.state == Warming ==> l.r.consecutiveFailures == 0)
          && (l.h.onlyFailures ==> l.h.charged <= l.r.recoveryAttempts * stretch + l.r.consecutiveFailures))
  }

  lemma StepKeepsBudget(cfg: Config, l: Life, e: Event)
    requires ValidConfig(cfg) && ValidLife(l) && Enabled(l, e)
    requires WithinBudget(cfg, l)
    ensures WithinBudget(cfg, Step(cfg, l, e))
  {
    match e
    case Reconcile(now) => ReconcileKeepsBudget(cfg, l, now);
    case Release(now, result, wrote) => ReleaseKeepsBudget(cfg, l, now, result, wrote);
    case _ =>
  }

  lemma ReconcileKeepsBudget(cfg: Config, l: Life, now: int)
    requires ValidConfig(cfg) && ValidLife(l) && Enabled(l, Reconcile(now))
    requires WithinBudget(cfg, l)
    ensures WithinBudget(cfg, Step(cfg, l, Reconcile(now)))
  {
    var stretch := StretchBound(cfg, l.r.profile.capacity);
    assert (l.r.recoveryAttempts + 1) * stretch == l.r.recoveryAttempts * stretch + stretch;
  }

  lemma ReleaseKeepsBudget(cfg: Config, l: Life, now: int, result: Result, wrote: bool)
    requires ValidConfig(cfg) && ValidLife(l) && Enabled(l, Release(now, result, wrote))
    requires WithinBudget(cfg, l)
    ensures WithinBudget(cfg, Step(cfg, l, Release(now, result, wrote)))
  {
    hide Step, Observed;
    ObservedKeepsBudget(cfg, l, now, result);
    WriteChangesStore(cfg, l, now, result, wrote);
  }

  lemma ObservedKeepsBudget(cfg: Config, l: Life, now: int, result: Result)
    requires ValidConfig(cfg) && ValidLife(l) && l.r.inFlight > 0 && WithinBudget(cfg, l)
    ensures WithinBudget(cfg, Observed(cfg, l, now, result))
  {
    hide Promotable, MixedEWMA, FailureWeight;
  }

  // ------------------------------------------------------------------
  // Trust
  // ------------------------------------------------------------------

  function Power(x: real, n: nat): real {
    if n == 0 then 1.0 else x * Power(x, n - 1)
  }

  lemma {:induction false} PowerInUnit(x: real, n: nat)
    requires 0.0 <= x <= 1.0
    ensures 0.0 <= Power(x, n) <= 1.0
  {
    if n > 0 {
      PowerInUnit(x, n - 1);
      Fraction(x, Power(x, n - 1), Power(x, n));
    }
  }

  /** After a charged failure and `k` charged successes the recent score is at most this. */
  function ScoreCeiling(alpha: real, k: nat): real {
    1.0 - alpha * Power(1.0 - alpha, k)
  }

  /**
   * What a score may be `k` charged successes after a charged failure: under
   * the ceiling, or from so few samples that all of them came after it.
   */
  predicate Earned(cfg: Config, ewma: real, samples: int, k: nat) {
    ewma <= ScoreCeiling(cfg.trust.recentAlpha, k) || 0 <= samples <= k
  }

  /** The record, unless it has forgotten the last charged failure, and the saved manifest, unless it misses it. */
  ghost predicate ScoreEarned(cfg: Config, l: Life) {
    cfg.trust.recentAlpha <= 0.5 && l.h.streak.Some? ==>
      && (!l.h.forgotten ==> Earned(cfg, l.r.recentEWMA, l.r.effectiveSamples, l.h.streak.value))
      && (l.h.saved.Some? && !l.h.stale ==>
            Earned(cfg, l.h.saved.value.recentEWMA, l.h.saved.value.effectiveSamples, l.h.streak.value))
  }

  lemma CeilingAboveHalf(alpha: real, k: nat)
    requires 0.0 < alpha <= 0.5
    ensures ScoreCeiling(alpha, k) >= 0.5
  {
    PowerInUnit(1.0 - alpha, k);
    Fraction(alpha, Power(1.0 - alpha, k), alpha * Power(1.0 - alpha, k));
  }

  lemma CeilingStep(alpha: real, previous: real, k: nat)
    requires 0.0 < alpha <= 0.5 && previous <= ScoreCeiling(alpha, k)
    ensures MixedEWMA(alpha, 1.0, previous) <= ScoreCeiling(alpha, k + 1)
  {
    MixedBelow(alpha, previous, Power(1.0 - alpha, k), Power(1.0 - alpha, k + 1));
  }

  lemma MixedBelow(alpha: real, previous: real, power: real, next: real)
    requires 0.0 < alpha <= 0.5 && next == (1.0 - alpha) * power && previous <= 1.0 - alpha * power
    ensures alpha * 1.0 + (1.0 - alpha) * previous <= 1.0 - alpha * next
  {
    var rest, room := 1.0 - alpha, 1.0 - alpha * power - previous;
    assert rest * room >= 0.0;
    assert alpha * next == alpha * (rest * power);
    assert rest * room == rest - rest * (alpha * power) - rest * previous;
  }

  lemma FailureCeiling(alpha: real, previous: real)
    requires 0.0 < alpha <= 0.5 && 0.0 <= previous <= 1.0
    ensures MixedEWMA(alpha, 0.0, previous) <= ScoreCeiling(alpha, 0)
  {
    Fraction(1.0 - alpha, previous, (1.0 - alpha) * previous);
  }

  lemma CeilingGrows(alpha: real, k: nat)
    requires 0.0 < alpha <= 0.5
    ensures ScoreCeiling(alpha, k) <= ScoreCeiling(alpha, k + 1)
  {
    var power, next := Power(1.0 - alpha, k), Power(1.0 - alpha, k + 1);
    PowerInUnit(1.0 - alpha, k);
    Fraction(power, 1.0 - alpha, next);
    ScaledBelow(alpha, next, power);
  }

  lemma ScaledBelow(alpha: real, low: real, high: real)
    requires 0.0 < alpha && low <= high
    ensures alpha * low <= alpha * high
  {
    assert alpha * (high - low) >= 0.0;
  }

  /** One more charged success keeps what was earned, and earns the mixed score too. */
  lemma SuccessEarns(cfg: Config, ewma: real, samples: int, k: nat)
    requires ValidConfig(cfg) && cfg.trust.recentAlpha <= 0.5 && Earned(cfg, ewma, samples, k)
    ensures Earned(cfg, ewma, samples, k + 1)
    ensures Earned(cfg, MixedEWMA(cfg.trust.recentAlpha, 1.0, ewma), samples + 1, k + 1)
  {
    CeilingGrows(cfg.trust.recentAlpha, k);
    if ewma <= ScoreCeiling(cfg.trust.recentAlpha, k) {
      CeilingStep(cfg.trust.recentAlpha, ewma, k);
    }
  }

  /** Decay keeps what was earned. */
  lemma DecayEarns(cfg: Config, ewma: real, samples: int, k: nat, factor: real)
    requires ValidConfig(cfg) && cfg.trust.recentAlpha <= 0.5 && Earned(cfg, ewma, samples, k)
    requires 0.0 <= ewma <= 1.0 && 0.0 < factor <= 1.0
    ensures Earned(cfg, DecayedEWMA(ewma, factor), DecayedSamples(samples, factor), k)
  {
    CeilingAboveHalf(cfg.trust.recentAlpha, k);
    DecayedEWMAInRange(ewma, factor);
    if samples >= 0 {
      Fraction(samples as real, factor, samples as real * factor);
    }
  }

  lemma NoSamplesEarn(cfg: Config, ewma: real, k: nat)
    ensures Earned(cfg, ewma, 0, k)
  {
  }

  lemma StepKeepsScore(cfg: Config, l: Life, e: Event)
    requires ValidConfig(cfg) && ValidLife(l) && Enabled(l, e)
    requires ScoreEarned(cfg, l)
    ensures ScoreEarned(cfg, Step(cfg, l, e))
  {
    hide Earned, Released;
    if cfg.trust.recentAlpha <= 0.5 {
      match e
      case Release(now, result, wrote) => ReleaseKeepsScore(cfg, l, now, result, wrote);
      case Restart(factor) => RestartKeepsScore(cfg, l, factor);
      case _ =>
    }
  }

  lemma RestartKeepsScore(cfg: Config, l: Life, factor: real)
    requires ValidConfig(cfg) && ValidLife(l) && 0.0 < factor <= 1.0 && cfg.trust.recentAlpha <= 0.5 && ScoreEarned(cfg, l)
    ensures ScoreEarned(cfg, Restarted(cfg, l, factor))
  {
    hide Earned, DecayedEWMA, DecayedSamples;
    if l.h.streak.Some? {
      if l.h.saved.None? {
        NoSamplesEarn(cfg, 1.0, l.h.streak.value);
      } else if !l.h.stale {
        var m := l.h.saved.value;
        DecayEarns(cfg, m.recentEWMA, m.effectiveSamples, l.h.streak.value, factor);
      }
    }
  }

  lemma ReleaseKeepsScore(cfg: Config, l: Life, now: int, result: Result, wrote: bool)
    requires ValidConfig(cfg) && ValidLife(l) && Enabled(l, Release(now, result, wrote)) && cfg.trust.recentAlpha <= 0.5
    requires ScoreEarned(cfg, l)
    ensures ScoreEarned(cfg, Step(cfg, l, Release(now, result, wrote)))
  {
    hide Earned, Released, ObserveRelease;
    ObservedKeepsScore(cfg, l, now, result);
  }

  lemma ObservedKeepsScore(cfg: Config, l: Life, now: int, result: Result)
    requires ValidConfig(cfg) && ValidLife(l) && l.r.inFlight > 0 && cfg.trust.recentAlpha <= 0.5 && ScoreEarned(cfg, l)
    ensures ScoreEarned(cfg, Observed(cfg, l, now, result))
  {
    ReleasedScore(cfg, l.r, now, result);
    if ReachesTrust(l.r, result) {
      ChargedScore(cfg, l, result);
    }
  }

  /** A release moves the score and the samples only if it is charged, and then as the charge does. */
  lemma ReleasedScore(cfg: Config, r: Record, now: int, result: Result)
    requires r.successWeight >= 0.0 && r.failureWeight >= 0.0 && r.inFlight > 0
    ensures var r', charged := Released(cfg, now, r, result), Charged(cfg, r, result);
            if ReachesTrust(r, result) then
              r'.recentEWMA == charged.recentEWMA && r'.effectiveSamples == charged.effectiveSamples
            else r'.recentEWMA == r.recentEWMA && r'.effectiveSamples == r.effectiveSamples
  {
    hide MixedEWMA, Promotable, FailureWeight;
  }

  lemma ChargedScore(cfg: Config, l: Life, result: Result)
    requires ValidConfig(cfg) && ValidLife(l) && cfg.trust.recentAlpha <= 0.5 && ScoreEarned(cfg, l)
    ensures !result.succeeded ==> var r := Charged(cfg, l.r, result); Earned(cfg, r.recentEWMA, r.effectiveSamples, 0)
    ensures result.succeeded && l.h.streak.Some? && !l.h.forgotten ==>
              var r := Charged(cfg, l.r, result); Earned(cfg, r.recentEWMA, r.effectiveSamples, l.h.streak.value + 1)
    ensures l.h.streak.Some? && l.h.saved.Some? && !l.h.stale ==>
              var m := l.h.saved.value; Earned(cfg, m.recentEWMA, m.effectiveSamples, l.h.streak.value + 1)
  {
    hide MixedEWMA, ScoreCeiling, FailureWeight;
    if !result.succeeded {
      FailureCeiling(cfg.trust.recentAlpha, l.r.recentEWMA);
    }
    if l.h.streak.Some? && !l.h.forgotten {
      SuccessEarns(cfg, l.r.recentEWMA, l.r.effectiveSamples, l.h.streak.value);
    }
    if l.h.streak.Some? && l.h.saved.Some? && !l.h.stale {
      SuccessEarns(cfg, l.h.saved.value.recentEWMA, l.h.saved.value.effectiveSamples, l.h.streak.value);
    }
  }

  lemma QuotientAtLeast(part: real, total: real, bound: real)
    requires total > 0.0
    ensures part / total >= bound <==> part >= bound * total
  {
    var rate := part / total;
    assert rate * total == part;
    assert (rate - bound) * total == part - bound * total;
    if rate >= bound {
      assert (rate - bound) * total >= 0.0;
    } else {
      assert (bound - rate) * total > 0.0;
    }
  }

  lemma SuccessRateThreshold(success: real, failure: real)
    requires success >= 0.0 && failure >= 0.0
    ensures SuccessRate(success, failure) >= 0.9 <==> success >= 8.0 + 9.0 * failure
  {
    QuotientAtLeast(success + 1.0, success + failure + 2.0, 0.9);
  }

  // ------------------------------------------------------------------
  // Isolation after a risk response
  // ------------------------------------------------------------------

  function ShortestCooldown(cfg: Config): int {
    Min(cfg.quarantineCooldown, cfg.degradedCooldown)
  }

  ghost predicate Isolated(cfg: Config, l: Life) {
    && (l.r.state == Warming ==> l.h.riskAt == None)
    && (CoolingDown(l.r.state) ==> l.r.inFlight < l.r.profile.capacity)
    && (l.h.riskAt.Some? ==>
          var t := l.h.riskAt.value;
          && t <= l.h.clock
          && (Serving(l.r.state) ==> t + ShortestCooldown(cfg) <= l.h.clock)
          && (CoolingDown(l.r.state) ==> t + ShortestCooldown(cfg) <= l.r.quarantinedUntil)
          && (l.r.profile.capacity == 1 ==>
                && (Serving(l.r.state) || l.r.inFlight == 1 ==> t + cfg.quarantineCooldown <= l.h.clock)
                && (CoolingDown(l.r.state) ==> t + cfg.quarantineCooldown <= l.r.quarantinedUntil)))
  }

  lemma StepKeepsIsolation(cfg: Config, l: Life, e: Event)
    requires ValidConfig(cfg) && ValidLife(l) && Enabled(l, e)
    requires Isolated(cfg, l)
    ensures Isolated(cfg, Step(cfg, l, e))
  {
    match e
    case Reconcile(now) => ReconcileKeepsIsolation(cfg, l, now);
    case Release(now, result, wrote) => ReleaseKeepsIsolation(cfg, l, now, result, wrote);
    case _ =>
  }

  lemma ReconcileKeepsIsolation(cfg: Config, l: Life, now: int)
    requires ValidConfig(cfg) && ValidLife(l) && Enabled(l, Reconcile(now)) && Isolated(cfg, l)
    ensures Isolated(cfg, Step(cfg, l, Reconcile(now)))
  {
  }

  lemma ReleaseKeepsIsolation(cfg: Config, l: Life, now: int, result: Result, wrote: bool)
    requires ValidConfig(cfg) && ValidLife(l) && Enabled(l, Release(now, result, wrote)) && Isolated(cfg, l)
    ensures Isolated(cfg, Step(cfg, l, Release(now, result, wrote)))
  {
    hide Step, Observed;
    ObservedKeepsIsolation(cfg, l, now, result);
    WriteChangesStore(cfg, l, now, result, wrote);
  }

  lemma ObservedKeepsIsolation(cfg: Config, l: Life, now: int, result: Result)
    requires ValidConfig(cfg) && ValidLife(l) && l.r.inFlight > 0 && l.h.clock <= now && Isolated(cfg, l)
    ensures Isolated(cfg, Observed(cfg, l, now, result))
  {
    hide Released;
    ReleasedDeadline(cfg, l.r, now, result);
  }

  /** Where a release can take an identity, and until when. */
  lemma ReleasedDeadline(cfg: Config, r: Record, now: int, result: Result)
    requires r.successWeight >= 0.0 && r.failureWeight >= 0.0 && r.inFlight > 0
    ensures var r' := Released(cfg, now, r, result);
            && r'.inFlight == r.inFlight - 1 && r'.profile == r.profile
            && (if !ReachesTrust(r, result) then
                  (r'.state == r.state || r'.state == Retired) && r'.quarantinedUntil == r.quarantinedUntil
                else if Quarantines(result.classification) then
                  r'.state == Quarantined && r'.quarantinedUntil == now + cfg.quarantineCooldown
                else
                  || (r'.state == Degraded && r'.quarantinedUntil == now + cfg.degradedCooldown)
                  || ((r'.state == r.state || (r.state == Probation && r'.state == Trusted))
                      && r'.quarantinedUntil == r.quarantinedUntil))
  {
    hide Promotable, MixedEWMA, FailureWeight;
  }

  // ------------------------------------------------------------------
  // Leaving a drain
  // ------------------------------------------------------------------

  /**
   * A release takes a draining identity anywhere but on to retirement exactly
   * when another lease is still out and the charged result is a risk response
   * or the failure that degrades it; with capacity 1 that cannot happen.
   */
  lemma DrainIsLeftExactlyWhen(cfg: Config, r: Record, now: int, result: Result)
    requires ValidConfig(cfg) && ValidRecord(r) && r.state == Draining && r.inFlight > 0
    ensures var state := Released(cfg, now, r, result).state;
            && (state != Draining && state != Retired <==>
                  && r.inFlight > 1 && IsCharged(result)
                  && (Quarantines(result.classification)
                      || (!result.succeeded && r.consecutiveFailures + 1 >= cfg.trust.maxConsecutiveFailures)))
            && (r.profile.capacity == 1 ==> state == Retired)
  {
  }

  // ------------------------------------------------------------------
  // Bookkeeping
  // ------------------------------------------------------------------

  /**
   * A manifest-free generation has one sample for each charged release, and
   * its weights account for every one of them: a success weighs one, a
   * failure between a quarter and one.
   */
  ghost predicate Booked(l: Life) {
    l.h.newborn ==>
      && l.r.effectiveSamples == l.h.charged
      && l.r.successWeight + l.r.failureWeight <= l.h.charged as real <= l.r.successWeight + 4.0 * l.r.failureWeight
      && (if l.h.onlyFailures then l.r.successWeight == 0.0 else l.r.successWeight >= 1.0)
  }

  lemma StepKeepsBooks(cfg: Config, l: Life, e: Event)
    requires ValidConfig(cfg) && ValidLife(l) && Enabled(l, e) && Booked(l)
    ensures Booked(Step(cfg, l, e))
  {
    match e
    case Release(now, result, wrote) =>
      ObservedKeepsBooks(cfg, l, now, result);
      ReleaseKeepsBooks(cfg, l, now, result, wrote);
    case _ =>
  }

  lemma ReleaseKeepsBooks(cfg: Config, l: Life, now: int, result: Result, wrote: bool)
    requires l.r.successWeight >= 0.0 && l.r.failureWeight >= 0.0 && Booked(Observed(cfg, l, now, result))
    ensures Booked(Step(cfg, l, Release(now, result, wrote)))
  {
    hide Step, Observed;
    WriteChangesStore(cfg, l, now, result, wrote);
  }

  lemma ObservedKeepsBooks(cfg: Config, l: Life, now: int, result: Result)
    requires ValidConfig(cfg) && ValidLife(l) && l.r.inFlight > 0 && Booked(l)
    ensures Booked(Observed(cfg, l, now, result))
  {
    hide Promotable, MixedEWMA;
  }

  /** A restart only forgets: samples, weights and the distance of the score from neutral never exceed the saved ones. */
  lemma RestartOnlyForgets(profile: Profile, m: Manifest, factor: real)
    requires SaneManifest(m) && m.effectiveSamples >= 0 && 0.0 < factor <= 1.0
    ensures var r := Restored(profile, m, factor);
            && 0 <= r.effectiveSamples <= m.effectiveSamples
            && 0.0 <= r.successWeight <= m.successWeight && 0.0 <= r.failureWeight <= m.failureWeight
            && (m.recentEWMA >= 0.5 ==> 0.5 <= r.recentEWMA <= m.recentEWMA)
            && (m.recentEWMA <= 0.5 ==> m.recentEWMA <= r.recentEWMA <= 0.5)
            && r.state == Warming && r.inFlight == 0 && r.generation == m.generation + 1
            && r.quarantinedUntil == m.quarantinedUntil && r.recoveryAttempts == m.recoveryAttempts
  {
    var n := m.effectiveSamples as real;
    Fraction(n, factor, n * factor);
    Fraction(m.successWeight, factor, m.successWeight * factor);
    Fraction(m.failureWeight, factor, m.failureWeight * factor);
    Shrinks(m.recentEWMA - 0.5, factor, (m.recentEWMA - 0.5) * factor);
  }

  // ------------------------------------------------------------------
  // Joining histories
  // ------------------------------------------------------------------

  lemma {:induction false} Appended(cfg: Config, l: Life, es: seq<Event>, fs: seq<Event>)
    requires ValidConfig(cfg) && ValidLife(l) && Legal(cfg, l, es)
    requires ValidLife(After(cfg, l, es)) && Legal(cfg, After(cfg, l, es), fs)
    ensures Legal(cfg, l, es + fs) && After(cfg, l, es + fs) == After(cfg, After(cfg, l, es), fs)
    decreases |es|
  {
    hide Step, Enabled;
    if es == [] {
      assert es + fs == fs;
    } else {
      StepKeepsRecordValid(cfg, l, es[0]);
      Appended(cfg, Step(cfg, l, es[0]), es[1..], fs);
      assert (es + fs)[0] == es[0] && (es + fs)[1..] == es[1..] + fs;
    }
  }

  lemma OneEvent(cfg: Config, l: Life, e: Event)
    requires ValidConfig(cfg) && ValidLife(l) && Enabled(l, e)
    ensures Legal(cfg, l, [e]) && After(cfg, l, [e]) == Step(cfg, l, e) && ValidLife(Step(cfg, l, e))
  {
    StepKeepsRecordValid(cfg, l, e);
    assert [e][1..] == [];
    assert Legal(cfg, Step(cfg, l, e), []);
  }

  function RecordAfter(cfg: Config, r: Record, e: Event): Record
    requires r.successWeight >= 0.0 && r.failureWeight >= 0.0 && !e.Restart?
  {
    match e
    case Reconcile(now) => Reconciled(cfg, now, r)
    case Grant => Granted(r)
    case Release(now, result, _) => Released(cfg, now, r, result)
    case Drain(_) => Drained(r)
    case Replace(p, _) => Replaced(r, p)
    case Activate(_) => Activated(r)
    case Close => r.(state := Retired)
  }

  /** What one event does to the record, the clock and the closing, whatever the manifest store does. */
  lemma OneEventMeans(cfg: Config, l: Life, e: Event)
    requires ValidConfig(cfg) && ValidLife(l) && Enabled(l, e) && !e.Restart?
    ensures Legal(cfg, l, [e]) && After(cfg, l, [e]) == Step(cfg, l, e) && ValidLife(Step(cfg, l, e))
    ensures var l' := Step(cfg, l, e);
            && l'.h.clock == (if e.Reconcile? || e.Release? then e.now else l.h.clock)
            && l'.h.closed == (l.h.closed || e.Close?)
            && l'.r == RecordAfter(cfg, l.r, e)
  {
    hide Reconciled, Released, Drained, Replaced, Activated, ManifestOf, ValidLife;
    OneEvent(cfg, l, e);
  }

  lemma Extended(cfg: Config, l: Life, es: seq<Event>, e: Event)
    requires ValidConfig(cfg) && ValidLife(l) && Legal(cfg, l, es)
    requires ValidLife(After(cfg, l, es)) && Enabled(After(cfg, l, es), e)
    ensures Legal(cfg, l, es + [e])
    ensures After(cfg, l, es + [e]) == Step(cfg, After(cfg, l, es), e)
    ensures ValidLife(After(cfg, l, es + [e]))
  {
    OneEvent(cfg, After(cfg, l, es), e);
    Appended(cfg, l, es, [e]);
  }

  // ------------------------------------------------------------------
  // Whole histories
  // ------------------------------------------------------------------

  ghost predicate Sound(cfg: Config, l: Life) {
    ValidLife(l) && WithinBudget(cfg, l) && ScoreEarned(cfg, l) && Isolated(cfg, l) && Booked(l)
  }

  lemma {:induction false} HistoryKeepsSound(cfg: Config, l: Life, es: seq<Event>)
    requires ValidConfig(cfg) && Sound(cfg, l) && Legal(cfg, l, es)
    ensures Sound(cfg, After(cfg, l, es))
    decreases |es|
  {
    if es != [] {
      StepKeepsRecordValid(cfg, l, es[0]);
      StepKeepsBudget(cfg, l, es[0]);
      StepKeepsScore(cfg, l, es[0]);
      StepKeepsIsolation(cfg, l, es[0]);
      StepKeepsBooks(cfg, l, es[0]);
      HistoryKeepsSound(cfg, Step(cfg, l, es[0]), es[1..]);
    }
  }

  lemma BornSound(cfg: Config, profile: Profile, clock: int)
    requires ValidConfig(cfg) && profile.capacity >= 1
    ensures Sound(cfg, Born(cfg, profile, clock))
  {
  }

  /** Whatever happened to a manifest-free generation, its samples and weights account for every charged release. */
  lemma WeightsAreBooked(cfg: Config, profile: Profile, clock: int, es: seq<Event>)
    requires ValidConfig(cfg) && profile.capacity >= 1
    requires Legal(cfg, Born(cfg, profile, clock), es)
    ensures Booked(After(cfg, Born(cfg, profile, clock), es))
  {
    BornSound(cfg, profile, clock);
    HistoryKeepsSound(cfg, Born(cfg, profile, clock), es);
  }

  /**
   * Any generation recovers at most maxRecoveryAttempts times. A generation
   * born without a manifest whose charged releases all fail is charged at most
   * (attempts + 1) stretches, and is leased only while that budget lasts.
   */
  lemma RecoveryBudget(cfg: Config, profile: Profile, clock: int, es: seq<Event>)
    requires ValidConfig(cfg) && profile.capacity >= 1
    requires Legal(cfg, Born(cfg, profile, clock), es)
    ensures var l := After(cfg, Born(cfg, profile, clock), es);
            var budget := (cfg.maxRecoveryAttempts + 1) * StretchBound(cfg, l.r.profile.capacity);
            && l.h.recoveries <= cfg.maxRecoveryAttempts
            && (l.h.newborn && l.h.onlyFailures ==> l.h.charged <= budget)
            && (l.h.newborn && l.h.onlyFailures && Enabled(l, Grant) ==> l.h.charged < budget)
    ensures StretchBound(cfg, 1) == cfg.trust.maxConsecutiveFailures
  {
    BornSound(cfg, profile, clock);
    HistoryKeepsSound(cfg, Born(cfg, profile, clock), es);
    var l := After(cfg, Born(cfg, profile, clock), es);
    if l.h.newborn {
      var stretch := StretchBound(cfg, l.r.profile.capacity);
      AttemptsTimesStretch(l.r.recoveryAttempts, cfg.maxRecoveryAttempts, stretch);
    }
  }

  lemma AttemptsTimesStretch(attempts: int, limit: int, stretch: int)
    requires 0 <= attempts <= limit && stretch >= 0
    ensures attempts * stretch + stretch <= (limit + 1) * stretch
    ensures attempts < limit && stretch > 0 ==> attempts * stretch + stretch < (limit + 1) * stretch
  {
    var left := limit - attempts;
    assert (limit + 1) * stretch == attempts * stretch + stretch + left * stretch;
    if left > 0 {
      assert left * stretch >= stretch;
    }
  }

  /** The budget is used up: no lease is out and the identity does not serve. */
  ghost predicate Spent(cfg: Config, l: Life) {
    && !Serving(l.r.state)
    && l.r.state != Warming
    && l.r.inFlight == 0
    && l.r.recoveryAttempts >= cfg.maxRecoveryAttempts
  }

  predicate StartsGeneration(e: Event) {
    e.Replace? || e.Restart?
  }

  predicate OneGeneration(es: seq<Event>) {
    forall k :: 0 <= k < |es| ==> !StartsGeneration(es[k])
  }

  lemma {:induction false} SpentStaysOut(cfg: Config, l: Life, es: seq<Event>)
    requires ValidConfig(cfg) && ValidLife(l) && Spent(cfg, l) && Legal(cfg, l, es)
    requires OneGeneration(es)
    ensures Grant !in es
    decreases |es|
  {
    if es != [] {
      assert !StartsGeneration(es[0]);
      StepKeepsRecordValid(cfg, l, es[0]);
      SpentStaysOut(cfg, Step(cfg, l, es[0]), es[1..]);
    }
  }

  /** Once the whole budget has been charged the identity is never leased again before it is replaced or restarted. */
  lemma SpentBudgetEndsService(cfg: Config, profile: Profile, clock: int, es: seq<Event>, more: seq<Event>)
    requires ValidConfig(cfg) && profile.capacity >= 1
    requires Legal(cfg, Born(cfg, profile, clock), es)
    requires var l := After(cfg, Born(cfg, profile, clock), es);
             && l.h.newborn && l.h.onlyFailures
             && l.h.charged == (cfg.maxRecoveryAttempts + 1) * StretchBound(cfg, l.r.profile.capacity)
             && ValidLife(l)
             && Legal(cfg, l, more)
    requires OneGeneration(more)
    ensures Grant !in more
  {
    var l := After(cfg, Born(cfg, profile, clock), es);
    BornSound(cfg, profile, clock);
    HistoryKeepsSound(cfg, Born(cfg, profile, clock), es);
    AttemptsTimesStretch(l.r.recoveryAttempts, cfg.maxRecoveryAttempts, StretchBound(cfg, l.r.profile.capacity));
    SpentStaysOut(cfg, l, more);
  }

  predicate ChargesFailure(e: Event) {
    e.Release? && !e.result.succeeded && IsCharged(e.result)
  }

  /** Every charged failure reached the manifest store. */
  predicate NoFailureLost(es: seq<Event>) {
    forall k :: 0 <= k < |es| && ChargesFailure(es[k]) ==> es[k].wrote
  }

  /** The record knows of the last charged failure, and so does the saved manifest. */
  ghost predicate Remembers(l: Life) {
    l.h.saved.Some? && l.h.streak.Some? ==> !l.h.stale && !l.h.forgotten
  }

  lemma StepRemembers(cfg: Config, l: Life, e: Event)
    requires ValidConfig(cfg) && ValidLife(l) && Enabled(l, e)
    requires (l.h.saved.None? ==> !l.h.forgotten) && (cfg.persistent || l.h.saved.None?)
    requires Remembers(l) && (cfg.persistent && ChargesFailure(e) ==> e.wrote)
    ensures var h := Step(cfg, l, e).h; (h.saved.None? ==> !h.forgotten) && (cfg.persistent || h.saved.None?)
    ensures Remembers(Step(cfg, l, e))
  {
    hide Released, Restored, Reconciled, Drained, Replaced, Activated, ManifestOf, Newborn;
    match e
    case Release(now, result, wrote) => ReleaseRemembers(cfg, l, now, result, wrote);
    case _ =>
  }

  lemma ReleaseRemembers(cfg: Config, l: Life, now: int, result: Result, wrote: bool)
    requires ValidConfig(cfg) && ValidLife(l) && Enabled(l, Release(now, result, wrote))
    requires (l.h.saved.None? ==> !l.h.forgotten) && (cfg.persistent || l.h.saved.None?)
    requires Remembers(l) && (cfg.persistent && ChargesFailure(Release(now, result, wrote)) ==> wrote)
    ensures var h := Step(cfg, l, Release(now, result, wrote)).h;
            (h.saved.None? ==> !h.forgotten) && (cfg.persistent || h.saved.None?)
    ensures Remembers(Step(cfg, l, Release(now, result, wrote)))
  {
    hide Released, ManifestOf;
  }

  lemma {:induction false} WrittenFailuresAreRemembered(cfg: Config, l: Life, es: seq<Event>)
    requires ValidConfig(cfg) && ValidLife(l) && Legal(cfg, l, es)
    requires (l.h.saved.None? ==> !l.h.forgotten) && (cfg.persistent || l.h.saved.None?)
    requires Remembers(l) && (cfg.persistent ==> NoFailureLost(es))
    ensures After(cfg, l, es).h.streak.Some? ==> !After(cfg, l, es).h.forgotten
    decreases |es|
  {
    hide Step, Enabled;
    if es != [] {
      StepKeepsRecordValid(cfg, l, es[0]);
      StepRemembers(cfg, l, es[0]);
      WrittenFailuresAreRemembered(cfg, Step(cfg, l, es[0]), es[1..]);
    }
  }

  /**
   * Under the default thresholds a release promotes an identity only on a
   * success, only with 20 samples, and only with a success weight of at least
   * 8 plus 9 times the failure weight. It takes four charged successes since
   * the last charged failure, restarts in between included, unless the
   * record was restored from a manifest that misses that failure, which
   * needs a failure whose manifest write was lost.
   */
  lemma PromotionIsEarned(cfg: Config, profile: Profile, clock: int, es: seq<Event>, now: int, result: Result, wrote: bool)
    requires ValidConfig(cfg) && cfg.trust == DEFAULT_TRUST && profile.capacity >= 1
    requires Legal(cfg, Born(cfg, profile, clock), es) && Promotes(cfg, After(cfg, Born(cfg, profile, clock), es), now, result, wrote)
    ensures var l' := Step(cfg, After(cfg, Born(cfg, profile, clock), es), Release(now, result, wrote));
            && result.succeeded
            && l'.r.effectiveSamples >= 20
            && l'.r.successWeight >= 8.0 + 9.0 * l'.r.failureWeight
            && (!l'.h.forgotten || !cfg.persistent || NoFailureLost(es) ==> FourSince(l'))
  {
    var born := Born(cfg, profile, clock);
    var l := After(cfg, born, es);
    BornSound(cfg, profile, clock);
    HistoryKeepsSound(cfg, born, es);
    StepKeepsScore(cfg, l, Release(now, result, wrote));
    var l' := Step(cfg, l, Release(now, result, wrote));
    SuccessRateThreshold(l'.r.successWeight, l'.r.failureWeight);
    if !cfg.persistent || NoFailureLost(es) {
      WrittenFailuresAreRemembered(cfg, born, es);
    }
    if l'.h.streak.Some? && l'.h.streak.value < 4 {
      EarlyCeilings();
    }
  }

  /** A release that turns a probation identity into a trusted one. */
  ghost predicate Promotes(cfg: Config, l: Life, now: int, result: Result, wrote: bool) {
    && ValidLife(l) && Enabled(l, Release(now, result, wrote))
    && l.r.state == Probation && Step(cfg, l, Release(now, result, wrote)).r.state == Trusted
  }

  predicate FourSince(l: Life) {
    l.h.streak.Some? ==> l.h.streak.value >= 4
  }

  // ------------------------------------------------------------------
  // Where trust comes from
  // ------------------------------------------------------------------

  /** Neither the record, nor what it would recover to, nor what the store would bring back is trusted. */
  predicate Untrusted(l: Life) {
    && l.r.state != Trusted && l.r.recoveryState != Trusted
    && (l.h.saved.Some? ==> l.h.saved.value.desiredState != Trusted)
  }

  /**
   * One event: an identity becomes trusted by a release that promotes it out
   * of probation, or by the activation of a record that was restored to be
   * trusted. Only a restart on a manifest saved by a trusted identity
   * restores a record so, and only a trusted identity's manifest says so.
   */
  lemma BecomesTrustedOnly(cfg: Config, l: Life, e: Event)
    requires ValidConfig(cfg) && ValidLife(l) && Enabled(l, e)
    ensures var l' := Step(cfg, l, e);
            && (l'.r.state == Trusted && l.r.state != Trusted ==>
                  || (e.Release? && l.r.state == Probation)
                  || (e.Activate? && l.r.state == Warming && l.r.recoveryState == Trusted))
            && (l'.r.recoveryState == Trusted && l.r.recoveryState != Trusted ==>
                  e.Restart? && l.h.saved.Some? && l.h.saved.value.desiredState == Trusted)
            && (l'.h.saved != l.h.saved ==> l'.h.saved == Some(ManifestOf(l'.r)))
  {
    hide Promotable, MixedEWMA, FailureWeight, DecayedEWMA, DecayedSamples;
  }

  /** Some release of the history promotes the identity. */
  ghost predicate EverPromoted(cfg: Config, l: Life, es: seq<Event>)
    requires ValidConfig(cfg) && ValidLife(l) && Legal(cfg, l, es)
    decreases |es|
  {
    es != [] && (
      || (es[0].Release? && Promotes(cfg, l, es[0].now, es[0].result, es[0].wrote))
      || (StepKeepsRecordValid(cfg, l, es[0]); EverPromoted(cfg, Step(cfg, l, es[0]), es[1..])))
  }

  /** Without a promotion an untrusted identity stays so, through recoveries, drains, replacements and restarts. */
  lemma {:induction false} TrustIsPromoted(cfg: Config, l: Life, es: seq<Event>)
    requires ValidConfig(cfg) && ValidLife(l) && Legal(cfg, l, es) && Untrusted(l)
    ensures Untrusted(After(cfg, l, es)) || EverPromoted(cfg, l, es)
    decreases |es|
  {
    hide Step, Enabled;
    if es != [] {
      StepKeepsRecordValid(cfg, l, es[0]);
      BecomesTrustedOnly(cfg, l, es[0]);
      if !EverPromoted(cfg, l, es) {
        TrustIsPromoted(cfg, Step(cfg, l, es[0]), es[1..]);
      }
    }
  }

  ghost predicate PromotedAt(cfg: Config, l: Life, es: seq<Event>, k: nat)
    requires ValidConfig(cfg) && ValidLife(l)
  {
    && k < |es| && es[k].Release? && Legal(cfg, l, es[..k])
    && Promotes(cfg, After(cfg, l, es[..k]), es[k].now, es[k].result, es[k].wrote)
  }

  lemma {:induction false} PromotionPoint(cfg: Config, l: Life, es: seq<Event>) returns (k: nat)
    requires ValidConfig(cfg) && ValidLife(l) && Legal(cfg, l, es) && EverPromoted(cfg, l, es)
    ensures PromotedAt(cfg, l, es, k)
    decreases |es|
  {
    hide Step, Enabled, Promotes;
    if es[0].Release? && Promotes(cfg, l, es[0].now, es[0].result, es[0].wrote) {
      k := 0;
      assert es[..k] == [];
    } else {
      StepKeepsRecordValid(cfg, l, es[0]);
      var rest := PromotionPoint(cfg, Step(cfg, l, es[0]), es[1..]);
      k := rest + 1;
      assert es[..k][0] == es[0] && es[..k][1..] == es[1..][..rest];
    }
  }

  /**
   * Whatever happened to an identity born without a manifest, it is trusted
   * only after a release that promoted it, and under the default thresholds
   * that was a success with 20 samples and a success weight of at least 8
   * plus 9 times the failure weight.
   */
  lemma TrustIsEarned(cfg: Config, profile: Profile, clock: int, es: seq<Event>) returns (k: nat)
    requires ValidConfig(cfg) && profile.capacity >= 1 && Legal(cfg, Born(cfg, profile, clock), es)
    requires After(cfg, Born(cfg, profile, clock), es).r.state == Trusted
    ensures PromotedAt(cfg, Born(cfg, profile, clock), es, k)
    ensures cfg.trust == DEFAULT_TRUST ==>
              var r := Step(cfg, After(cfg, Born(cfg, profile, clock), es[..k]), es[k]).r;
              es[k].result.succeeded && r.effectiveSamples >= 20 && r.successWeight >= 8.0 + 9.0 * r.failureWeight
  {
    var born := Born(cfg, profile, clock);
    TrustIsPromoted(cfg, born, es);
    k := PromotionPoint(cfg, born, es);
    if cfg.trust == DEFAULT_TRUST {
      PromotionIsEarned(cfg, profile, clock, es[..k], es[k].now, es[k].result, es[k].wrote);
    }
  }

  const GOOD := Result(true, Normal)

  function Successes(n: nat, clock: int): seq<Event> {
    if n == 0 then [Activate(true)] else Successes(n - 1, clock) + [Grant] + [Release(clock, GOOD, true)]
  }

  lemma {:induction false} AfterSuccesses(cfg: Config, profile: Profile, clock: int, n: nat)
    requires ValidConfig(cfg) && cfg.trust == DEFAULT_TRUST && cfg.persistent && profile.capacity >= 1 && n < 20
    ensures var es := Successes(n, clock);
            && Legal(cfg, Born(cfg, profile, clock), es)
            && var l := After(cfg, Born(cfg, profile, clock), es);
            && ValidLife(l) && l.h.clock == clock && !l.h.closed && l.h.saved == Some(ManifestOf(l.r))
            && l.r == Record(profile, Probation, 0, n, n as real, 0.0, 1.0, 0, 1, Probation, 0, 0)
  {
    var l0 := Born(cfg, profile, clock);
    if n == 0 {
      Extended(cfg, l0, [], Activate(true));
      assert [] + [Activate(true)] == Successes(0, clock);
    } else {
      AfterSuccesses(cfg, profile, clock, n - 1);
      var es := Successes(n - 1, clock);
      Extended(cfg, l0, es, Grant);
      Extended(cfg, l0, es + [Grant], Release(clock, GOOD, true));
    }
  }

  /** A charged failure is lost with its write. */
  lemma FailureUnwritten(cfg: Config, profile: Profile, clock: int) returns (es: seq<Event>, saved: Manifest)
    requires ValidConfig(cfg) && cfg.trust == DEFAULT_TRUST && cfg.persistent && profile.capacity >= 1
    ensures saved == Manifest(Probation, 18, 18.0, 0.0, 1.0, 0, 1, 0, 0)
    ensures Legal(cfg, Born(cfg, profile, clock), es)
    ensures var l := After(cfg, Born(cfg, profile, clock), es);
            && ValidLife(l) && l.r.profile == profile && l.h.clock == clock
            && l.h.streak == Some(0) && l.h.saved == Some(saved) && l.h.stale
  {
    var l0 := Born(cfg, profile, clock);
    AfterSuccesses(cfg, profile, clock, 18);
    es, saved := Successes(18, clock), Manifest(Probation, 18, 18.0, 0.0, 1.0, 0, 1, 0, 0);
    Extended(cfg, l0, es, Grant);
    es := es + [Grant];
    Extended(cfg, l0, es, Release(clock, LATE, false));
    es := es + [Release(clock, LATE, false)];
  }

  /** The process restarts on the manifest before the lost failure, and two successes promote. */
  lemma FailureForgotten(cfg: Config, profile: Profile, clock: int) returns (es: seq<Event>)
    requires ValidConfig(cfg) && cfg.trust == DEFAULT_TRUST && cfg.persistent && profile.capacity >= 1
    ensures Legal(cfg, Born(cfg, profile, clock), es)
    ensures var l := After(cfg, Born(cfg, profile, clock), es);
            Promotes(cfg, l, clock, GOOD, true) && Step(cfg, l, Release(clock, GOOD, true)).h.streak == Some(2)
  {
    var l0 := Born(cfg, profile, clock);
    var saved;
    es, saved := FailureUnwritten(cfg, profile, clock);
    Extended(cfg, l0, es, Restart(1.0));
    es := es + [Restart(1.0)];
    assert Restored(profile, saved, 1.0) == Record(profile, Warming, 0, 18, 18.0, 0.0, 1.0, 0, 2, Probation, 0, 0);
    Extended(cfg, l0, es, Activate(true));
    es := es + [Activate(true)];
    es := TwoMoreSuccesses(cfg, l0, es);
  }

  lemma TwoMoreSuccesses(cfg: Config, l0: Life, es: seq<Event>) returns (more: seq<Event>)
    requires ValidConfig(cfg) && cfg.trust == DEFAULT_TRUST && ValidLife(l0) && Legal(cfg, l0, es)
    requires var l := After(cfg, l0, es);
             && ValidLife(l) && !l.h.closed && l.h.streak == Some(0)
             && l.r.state == Probation && l.r.inFlight == 0 && l.r.effectiveSamples == 18
             && l.r.successWeight == 18.0 && l.r.failureWeight == 0.0 && l.r.recentEWMA == 1.0
    ensures Legal(cfg, l0, more)
    ensures var l, clock := After(cfg, l0, more), After(cfg, l0, es).h.clock;
            Promotes(cfg, l, clock, GOOD, true) && Step(cfg, l, Release(clock, GOOD, true)).h.streak == Some(2)
  {
    var clock := After(cfg, l0, es).h.clock;
    Extended(cfg, l0, es, Grant);
    more := es + [Grant];
    Extended(cfg, l0, more, Release(clock, GOOD, true));
    more := more + [Release(clock, GOOD, true)];
    Extended(cfg, l0, more, Grant);
    more := more + [Grant];
  }

  /** Over all histories the four successes are kept exactly when no restart can bring back an older record. */
  lemma FourSinceKeptExactlyWhen(cfg: Config, profile: Profile, clock: int)
    requires ValidConfig(cfg) && cfg.trust == DEFAULT_TRUST && profile.capacity >= 1
    ensures (forall es, now, result, wrote ::
               Legal(cfg, Born(cfg, profile, clock), es)
               && Promotes(cfg, After(cfg, Born(cfg, profile, clock), es), now, result, wrote) ==>
                 FourSince(Step(cfg, After(cfg, Born(cfg, profile, clock), es), Release(now, result, wrote))))
            <==> !cfg.persistent
  {
    if cfg.persistent {
      var es := FailureForgotten(cfg, profile, clock);
    } else {
      forall es, now, result, wrote |
        Legal(cfg, Born(cfg, profile, clock), es)
        && Promotes(cfg, After(cfg, Born(cfg, profile, clock), es), now, result, wrote)
        ensures FourSince(Step(cfg, After(cfg, Born(cfg, profile, clock), es), Release(now, result, wrote)))
      {
        PromotionIsEarned(cfg, profile, clock, es, now, result, wrote);
      }
    }
  }

  /** With the default weight three successes do not lift the score to 0.9; four may. */
  lemma EarlyCeilings()
    ensures forall k: nat :: k < 4 ==> ScoreCeiling(0.2, k) < 0.9
    ensures ScoreCeiling(0.2, 4) >= 0.9
  {
    var x := 0.8;
    assert Power(x, 1) == 0.8;
    assert Power(x, 2) == 0.64;
    assert Power(x, 3) == 0.512;
    assert Power(x, 4) == 0.4096;
  }

  /** A generation is not leased again before the shorter cooldown has passed since its last risk response; with capacity 1, not before the quarantine has. */
  lemma RiskKeepsIdentityOut(cfg: Config, profile: Profile, clock: int, es: seq<Event>)
    requires ValidConfig(cfg) && profile.capacity >= 1
    requires Legal(cfg, Born(cfg, profile, clock), es)
    ensures var l := After(cfg, Born(cfg, profile, clock), es);
            l.h.riskAt.Some? && Enabled(l, Grant) ==>
              && l.h.clock >= l.h.riskAt.value + ShortestCooldown(cfg)
              && (l.r.profile.capacity == 1 ==> l.h.clock >= l.h.riskAt.value + cfg.quarantineCooldown)
  {
    BornSound(cfg, profile, clock);
    HistoryKeepsSound(cfg, Born(cfg, profile, clock), es);
  }

  // ------------------------------------------------------------------
  // When the full quarantine is kept
  // ------------------------------------------------------------------

  ghost predicate QuarantineKept(cfg: Config, l: Life) {
    l.h.riskAt.Some? && Enabled(l, Grant) ==> l.h.clock >= l.h.riskAt.value + cfg.quarantineCooldown
  }

  predicate SameProfile(es: seq<Event>) {
    forall k :: 0 <= k < |es| ==> !es[k].Replace?
  }

  lemma {:induction false} ProfileKept(cfg: Config, l: Life, es: seq<Event>)
    requires ValidConfig(cfg) && ValidLife(l) && Legal(cfg, l, es) && SameProfile(es)
    ensures After(cfg, l, es).r.profile == l.r.profile
    decreases |es|
  {
    if es != [] {
      assert !es[0].Replace?;
      StepKeepsRecordValid(cfg, l, es[0]);
      ProfileKept(cfg, Step(cfg, l, es[0]), es[1..]);
    }
  }

  const LATE := Result(false, Timeout)
  const CHALLENGED := Result(false, Captcha)

  function FailedTries(n: nat, clock: int): seq<Event> {
    if n == 0 then [Activate(true)] else FailedTries(n - 1, clock) + [Grant] + [Release(clock, LATE, true)]
  }

  lemma {:induction false} AfterFailedTries(cfg: Config, profile: Profile, clock: int, n: nat)
    requires ValidConfig(cfg) && profile.capacity >= 1 && n < cfg.trust.maxConsecutiveFailures
    ensures var es := FailedTries(n, clock);
            && OneGeneration(es) && Legal(cfg, Born(cfg, profile, clock), es)
            && var l := After(cfg, Born(cfg, profile, clock), es);
            && ValidLife(l) && Serving(l.r.state) && l.r.consecutiveFailures == n && l.r.inFlight == 0
            && l.r.recoveryAttempts == 0 && l.r.profile == profile && l.h.clock == clock && l.h.newborn && !l.h.closed
  {
    var l0 := Born(cfg, profile, clock);
    if n == 0 {
      Extended(cfg, l0, [], Activate(true));
      assert [] + [Activate(true)] == FailedTries(0, clock);
    } else {
      AfterFailedTries(cfg, profile, clock, n - 1);
      var es := FailedTries(n - 1, clock);
      Extended(cfg, l0, es, Grant);
      Extended(cfg, l0, es + [Grant], Release(clock, LATE, true));
    }
  }

  /** Both leases of an identity that is one charged failure short of degrading are out. */
  lemma TwoLeasesOut(cfg: Config, profile: Profile, clock: int) returns (es: seq<Event>)
    requires ValidConfig(cfg) && profile.capacity >= 2
    ensures OneGeneration(es) && Legal(cfg, Born(cfg, profile, clock), es)
    ensures var l := After(cfg, Born(cfg, profile, clock), es);
            && ValidLife(l) && Serving(l.r.state) && l.r.inFlight == 2 && l.r.recoveryAttempts == 0
            && l.r.consecutiveFailures == Max(0, cfg.trust.maxConsecutiveFailures - 2)
            && l.r.profile == profile && l.h.clock == clock && !l.h.closed
  {
    var n := Max(0, cfg.trust.maxConsecutiveFailures - 2);
    var l0 := Born(cfg, profile, clock);
    AfterFailedTries(cfg, profile, clock, n);
    es := FailedTries(n, clock);
    Extended(cfg, l0, es, Grant);
    es := es + [Grant];
    Extended(cfg, l0, es, Grant);
    es := es + [Grant];
  }

  /** The first lease ends in a captcha, the second in the failure that degrades the identity. */
  lemma QuarantineOverwritten(cfg: Config, profile: Profile, clock: int) returns (es: seq<Event>)
    requires ValidConfig(cfg) && profile.capacity >= 2
    ensures SameProfile(es) && Legal(cfg, Born(cfg, profile, clock), es)
    ensures var l := After(cfg, Born(cfg, profile, clock), es);
            && ValidLife(l) && l.r.state == Degraded && l.r.inFlight == 0 && l.r.recoveryAttempts == 0
            && l.r.quarantinedUntil == clock + cfg.degradedCooldown && l.h.riskAt == Some(clock)
            && l.r.profile == profile && l.h.clock == clock && !l.h.closed
  {
    var l0 := Born(cfg, profile, clock);
    es := TwoLeasesOut(cfg, profile, clock);
    Extended(cfg, l0, es, Release(clock, CHALLENGED, true));
    es := es + [Release(clock, CHALLENGED, true)];
    Extended(cfg, l0, es, Release(clock, LATE, true));
    es := es + [Release(clock, LATE, true)];
  }

  /** The earlier deadline is the one that counts. */
  lemma QuarantineShortened(cfg: Config, profile: Profile, clock: int) returns (es: seq<Event>)
    requires ValidConfig(cfg) && profile.capacity >= 2 && cfg.degradedCooldown < cfg.quarantineCooldown
    ensures SameProfile(es) && Legal(cfg, Born(cfg, profile, clock), es)
    ensures !QuarantineKept(cfg, After(cfg, Born(cfg, profile, clock), es))
  {
    es := QuarantineOverwritten(cfg, profile, clock);
    Extended(cfg, Born(cfg, profile, clock), es, Reconcile(clock + cfg.degradedCooldown));
    es := es + [Reconcile(clock + cfg.degradedCooldown)];
  }

  /**
   * The quarantine deadline of a generation is honoured in every history
   * exactly when no second lease can overwrite it with an earlier deadline.
   */
  lemma QuarantineKeptExactlyWhen(cfg: Config, profile: Profile, clock: int)
    requires ValidConfig(cfg) && profile.capacity >= 1
    ensures (forall es :: SameProfile(es) && Legal(cfg, Born(cfg, profile, clock), es) ==>
                       QuarantineKept(cfg, After(cfg, Born(cfg, profile, clock), es)))
            <==> profile.capacity == 1 || cfg.quarantineCooldown <= cfg.degradedCooldown
  {
    if profile.capacity == 1 || cfg.quarantineCooldown <= cfg.degradedCooldown {
      forall es | SameProfile(es) && Legal(cfg, Born(cfg, profile, clock), es)
        ensures QuarantineKept(cfg, After(cfg, Born(cfg, profile, clock), es))
      {
        RiskKeepsIdentityOut(cfg, profile, clock, es);
        ProfileKept(cfg, Born(cfg, profile, clock), es);
      }
    } else {
      var es := QuarantineShortened(cfg, profile, clock);
    }
  }

  // ------------------------------------------------------------------
  // When a drain is final
  // ------------------------------------------------------------------

  /** No lease is granted after a drain. */
  predicate DrainsAreFinal(es: seq<Event>) {
    forall i, j :: 0 <= i < j < |es| && es[i].Drain? ==> es[j] != Grant
  }

  /** On the way out for good: with capacity 1 no straggler is left to bring the identity back, unless its pool is closed. */
  predicate Leaving(l: Life) {
    && l.r.profile.capacity == 1
    && (l.h.closed || l.r.state == Draining || (l.r.state == Retired && l.r.inFlight == 0))
  }

  lemma StepKeepsLeaving(cfg: Config, l: Life, e: Event)
    requires ValidConfig(cfg) && ValidLife(l) && Enabled(l, e) && Leaving(l) && !StartsGeneration(e)
    ensures e != Grant && Leaving(Step(cfg, l, e))
  {
    match e
    case Release(now, result, wrote) =>
      hide Released;
      if l.r.state == Draining {
        DrainIsLeftExactlyWhen(cfg, l.r, now, result);
      }
      ReleasedDeadline(cfg, l.r, now, result);
    case _ =>
  }

  lemma {:induction false} LeavingGetsNoLease(cfg: Config, l: Life, es: seq<Event>)
    requires ValidConfig(cfg) && ValidLife(l) && Leaving(l) && Legal(cfg, l, es) && OneGeneration(es)
    ensures Grant !in es
    decreases |es|
  {
    if es != [] {
      assert !StartsGeneration(es[0]);
      StepKeepsRecordValid(cfg, l, es[0]);
      StepKeepsLeaving(cfg, l, es[0]);
      LeavingGetsNoLease(cfg, Step(cfg, l, es[0]), es[1..]);
    }
  }

  lemma {:induction false} DrainIsFinal(cfg: Config, l: Life, es: seq<Event>)
    requires ValidConfig(cfg) && ValidLife(l) && l.r.profile.capacity == 1 && Legal(cfg, l, es) && OneGeneration(es)
    ensures DrainsAreFinal(es)
    decreases |es|
  {
    if es != [] {
      var rest := es[1..];
      assert !StartsGeneration(es[0]);
      StepKeepsRecordValid(cfg, l, es[0]);
      var l' := Step(cfg, l, es[0]);
      assert l'.r.profile == l.r.profile;
      if es[0].Drain? {
        LeavingGetsNoLease(cfg, l', rest);
      }
      DrainIsFinal(cfg, l', rest);
      assert forall j :: 0 < j < |es| ==> es[j] == rest[j - 1];
    }
  }

  /** A drain with two leases out, and a captcha on the first. */
  lemma DrainInterrupted(cfg: Config, profile: Profile, clock: int) returns (es: seq<Event>, at: nat)
    requires ValidConfig(cfg) && profile.capacity >= 2
    ensures Legal(cfg, Born(cfg, profile, clock), es) && OneGeneration(es) && at < |es| && es[at].Drain?
    ensures var l := After(cfg, Born(cfg, profile, clock), es);
            && ValidLife(l) && l.r.state == Quarantined && l.r.inFlight == 1 && l.r.recoveryAttempts == 0
            && l.r.quarantinedUntil == clock + cfg.quarantineCooldown
            && l.r.profile == profile && l.h.clock == clock && !l.h.closed
  {
    var l0 := Born(cfg, profile, clock);
    es := TwoLeasesOut(cfg, profile, clock);
    at := |es|;
    Extended(cfg, l0, es, Drain(true));
    es := es + [Drain(true)];
    Extended(cfg, l0, es, Release(clock, CHALLENGED, true));
    es := es + [Release(clock, CHALLENGED, true)];
  }

  /** The interrupted drain ends with the identity leased again after its quarantine. */
  lemma DrainUndone(cfg: Config, profile: Profile, clock: int) returns (es: seq<Event>)
    requires ValidConfig(cfg) && profile.capacity >= 2
    ensures Legal(cfg, Born(cfg, profile, clock), es) && OneGeneration(es) && !DrainsAreFinal(es)
  {
    var l0, later, at := Born(cfg, profile, clock), clock + cfg.quarantineCooldown, 0;
    es, at := DrainInterrupted(cfg, profile, clock);
    Extended(cfg, l0, es, Reconcile(later));
    es := es + [Reconcile(later)];
    Extended(cfg, l0, es, Grant);
    es := es + [Grant];
    assert es[at].Drain? && es[|es| - 1] == Grant;
  }

  /** Without a replacement or a restart a drained identity is never leased again in any history exactly when its capacity is 1. */
  lemma DrainIsFinalExactlyWhen(cfg: Config, profile: Profile, clock: int)
    requires ValidConfig(cfg) && profile.capacity >= 1
    ensures (forall es :: Legal(cfg, Born(cfg, profile, clock), es) && OneGeneration(es) ==> DrainsAreFinal(es))
            <==> profile.capacity == 1
  {
    if profile.capacity == 1 {
      forall es | Legal(cfg, Born(cfg, profile, clock), es) && OneGeneration(es)
        ensures DrainsAreFinal(es)
      {
        DrainIsFinal(cfg, Born(cfg, profile, clock), es);
      }
    } else {
      var es := DrainUndone(cfg, profile, clock);
    }
  }
}
