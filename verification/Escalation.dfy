/** How far a risk response travels: from the Baidu chain through the router to the pool. */
module Escalation {
  import opened Domain
  import opened Lifecycle
  import BaiduChain
  import PoolModel
  import Router
  import Session

  /** A leased search over the Baidu chain that failed, as the router sees it and reports it. */
  ghost predicate FailedOverChain(cfg: Session.Config, steps: seq<BaiduChain.Strategy>, w: BaiduChain.ChainWorld,
                                  legs: seq<BaiduChain.Leg>, turn: Router.Turn, result: Result)
  {
    && |legs| == |steps| && BaiduChain.ClientReady(w) && BaiduChain.Detects(legs)
    && BaiduChain.SearchFrom(cfg, steps, w, legs, 0).1 != BaiduChain.Found
    && turn.tracedRoute && turn.tracedLease
    && turn.answer == Router.Failed(Router.SearchError(
         BaiduChain.ErrorFor(BaiduChain.AttemptsFrom(cfg, steps, w, legs, 0)), true))
    && Router.Reports(turn, result)
  }

  /**
   * A captcha or a rate limit that stops the chain quarantines the leased
   * identity, unless its release retires it; no other failed search does.
   * The router tries elsewhere in every case.
   */
  lemma ChainRiskQuarantines<L>(cfg: Session.Config, steps: seq<BaiduChain.Strategy>, w: BaiduChain.ChainWorld,
                                legs: seq<BaiduChain.Leg>, turn: Router.Turn, result: Result,
                                poolCfg: Config, s: PoolModel.PoolState<L>, now: int, lease: L, saved: bool)
    requires FailedOverChain(cfg, steps, w, legs, turn, result)
    requires ValidConfig(poolCfg) && PoolModel.PoolInv(s) && lease in s.held && !EndsDrain(s.entries[s.held[lease].index])
    ensures var outcome := BaiduChain.SearchFrom(cfg, steps, w, legs, 0).1;
            var i, s' := s.held[lease].index, PoolModel.Release(poolCfg, s, now, lease, result, saved);
            && (if outcome == BaiduChain.Refused(Captcha) || outcome == BaiduChain.Refused(RateLimited) then
                  s'.entries[i].state == Quarantined && s'.entries[i].quarantinedUntil == now + poolCfg.quarantineCooldown
                else s'.entries[i].state == Quarantined ==> s.entries[i].state == Quarantined)
            && Router.GoesOn(turn.answer)
  {
    hide BaiduChain.SearchFrom, BaiduChain.AttemptsFrom, BaiduChain.ErrorFor;
    BaiduChain.ErrorTellsRisk(cfg, steps, w, legs);
    Router.ReportReachesPool(poolCfg, s, now, lease, turn, result, saved);
    if result.classification != Captcha && result.classification != RateLimited {
      ReportDecidesQuarantine(poolCfg, s, now, lease, turn, result, saved);
    }
  }

  lemma ReportDecidesQuarantine<L>(cfg: Config, s: PoolModel.PoolState<L>, now: int, lease: L, turn: Router.Turn,
                                   result: Result, saved: bool)
    requires ValidConfig(cfg) && PoolModel.PoolInv(s) && lease in s.held && Router.Reports(turn, result)
    requires turn.tracedRoute && turn.tracedLease && !EndsDrain(s.entries[s.held[lease].index])
    requires result.classification != Captcha && result.classification != RateLimited
    ensures var i, s' := s.held[lease].index, PoolModel.Release(cfg, s, now, lease, result, saved);
            s'.entries[i].state == Quarantined ==> s.entries[i].state == Quarantined
  {
    hide Released;
    var i := s.held[lease].index;
    assert lease in PoolModel.Holders(s, i);
    if Counts(result) {
      CountedReleaseJudges(cfg, s.entries[i], now, result);
    } else {
      UncountedReleaseMeans(cfg, s.entries[i], now, result);
    }
  }

  /**
   * So a captcha or a rate limit that the fixed session meets both cools the
   * session and quarantines the identity; a block only cools the session.
   */
  lemma SessionRiskQuarantines<L>(cfg: Session.Config, steps: seq<BaiduChain.Strategy>, w: BaiduChain.ChainWorld,
                                  legs: seq<BaiduChain.Leg>, turn: Router.Turn, result: Result,
                                  poolCfg: Config, s: PoolModel.PoolState<L>, now: int, lease: L, saved: bool)
    requires FailedOverChain(cfg, steps, w, legs, turn, result)
    requires Session.EndsInRisk(w.world.trace, BaiduChain.SearchFrom(cfg, steps, w, legs, 0).0.world.trace)
    requires ValidConfig(poolCfg) && PoolModel.PoolInv(s) && lease in s.held
    requires s.entries[s.held[lease].index].state == Probation || s.entries[s.held[lease].index].state == Trusted
    ensures var world := BaiduChain.SearchFrom(cfg, steps, w, legs, 0).0.world;
            var i, s' := s.held[lease].index, PoolModel.Release(poolCfg, s, now, lease, result, saved);
            && world.session.mode == Session.Cooling
            && (s'.entries[i].state == Quarantined <==>
                  Session.ToldLast(world.trace) == Captcha || Session.ToldLast(world.trace) == RateLimited)
  {
    hide BaiduChain.SearchFrom, BaiduChain.AttemptsFrom;
    BaiduChain.SearchEndsAtRisk(cfg, steps, w, legs, 0);
    ChainRiskQuarantines(cfg, steps, w, legs, turn, result, poolCfg, s, now, lease, saved);
  }
}
