/**
 * One Baidu search: an ordered chain of strategies, a circuit breaker per
 * transport, and a conservative policy on when to fall back.
 */
module BaiduChain {
  import opened Domain
  import opened Session

  /** `fixed` marks the fixed-session transport; the other transports are fetched as they are. */
  datatype Strategy = Strategy(name: string, transport: string, useBreaker: bool, fixed: bool)

  datatype ChainEvent =
    | Fetched(name: string, transport: string, guarded: bool, at: int)
    | Tripped(name: string, at: int, classification: Classification)

  datatype ChainWorld = ChainWorld(open: map<string, int>, world: World, trace: seq<ChainEvent>)

  /**
   * What one strategy meets: its waiters (how long, and whether they let it
   * through), the call on the fixed session or the answer of another
   * transport, and whether the page parses. `timedOut` tells the kind of an
   * error without a classification, `detected` is how the page of such an
   * answer classifies, and `results` says whether a parsed page has any.
   */
  datatype Leg = Leg(wait: int, passes: bool, visit: Visit, duration: int, failed: bool, classification: Classification,
                     timedOut: bool, detected: Classification, parses: bool, results: bool)

  datatype Outcome = Found | Refused(classification: Classification) | NoneLeft

  /** Only failures that another implementation may cure without escalating risk controls. */
  predicate Allows(c: Classification) {
    c == NetworkError || c == Timeout || c == ParseChanged
  }

  // ------------------------------------------------------------------
  // The breaker
  // ------------------------------------------------------------------

  predicate Closed(open: map<string, int>, transport: string, now: int) {
    transport in open ==> now >= open[transport]
  }

  predicate Trips(c: Classification) {
    c == Captcha || c == RateLimited
  }

  function TripCooldown(c: Classification): int {
    if c == Captcha then 30 * MINUTE else if c == RateLimited then 5 * MINUTE else 0
  }

  function Trip(open: map<string, int>, transport: string, c: Classification, now: int): map<string, int> {
    if Trips(c) then open[transport := now + TripCooldown(c)] else open
  }

  /** Tripping a strategy trips every guarded transport of that name. */
  function TripStrategy(steps: seq<Strategy>, open: map<string, int>, name: string, c: Classification, now: int): map<string, int> {
    if steps == [] then open
    else
      var before := TripStrategy(steps[..|steps| - 1], open, name, c, now);
      var last := steps[|steps| - 1];
      if last.useBreaker && last.name == name then Trip(before, last.transport, c, now) else before
  }

  // ------------------------------------------------------------------
  // One search
  // ------------------------------------------------------------------

  predicate ClientReady(w: ChainWorld) {
    w.world.session.mode == Warm ==> w.world.session.client.Some?
  }

  function Rest(w: ChainWorld, duration: int): ChainWorld {
    w.(world := w.world.(now := w.world.now + duration))
  }

  /** The gate is obtained no earlier than the call that asks for it. */
  function Arriving(v: Visit, now: int): Visit {
    v.(arrival := Max(v.arrival, now))
  }

  /** The fetch of one strategy: the world after it, whether it failed, and its classification. */
  function FetchWith(cfg: Config, step: Strategy, w: ChainWorld, leg: Leg): (r: (ChainWorld, bool, Classification))
    requires ClientReady(w)
    ensures ClientReady(r.0) && r.0.open == w.open
  {
    if step.fixed then
      var visit := Arriving(leg.visit, w.world.now);
      var (world, reply) := Fetch(cfg, w.world, visit);
      FetchKeepsClient(cfg, w.world, visit);
      (w.(world := world), reply.Failed?, reply.classification)
    else
      (Rest(w.(trace := w.trace + [Fetched(step.name, step.transport, step.useBreaker, w.world.now)]), leg.duration),
       leg.failed, leg.classification)
  }

  lemma FetchKeepsClient(cfg: Config, w: World, v: Visit)
    requires w.session.mode == Warm ==> w.session.client.Some?
    ensures var s := Fetch(cfg, w, v).0.session; s.mode == Warm ==> s.client.Some?
  {
  }

  function AfterFailure(steps: seq<Strategy>, step: Strategy, w: ChainWorld, c: Classification): (r: ChainWorld)
    ensures r.world == w.world
  {
    if step.useBreaker then
      w.(open := TripStrategy(steps, w.open, step.name, c, w.world.now),
         trace := w.trace + if Trips(c) then [Tripped(step.name, w.world.now, c)] else [])
    else w
  }

  function PassBreaker(step: Strategy, w: ChainWorld): (r: ChainWorld)
    ensures r.world == w.world
  {
    if step.useBreaker then w.(open := w.open - {step.transport}) else w
  }

  /** An answer without a classification gets one from its error or its page. */
  function Effective(leg: Leg, failed: bool, c: Classification): Classification {
    if c != Unset then c
    else if failed then if leg.timedOut then Timeout else NetworkError
    else leg.detected
  }

  /** The part of a turn after the breaker and the waiters; None means that the chain goes on. */
  function Turn(cfg: Config, steps: seq<Strategy>, step: Strategy, w: ChainWorld, leg: Leg): (r: (ChainWorld, Option<Outcome>))
    requires ClientReady(w)
    ensures ClientReady(r.0)
  {
    var (w1, failed, raw) := FetchWith(cfg, step, w, leg);
    var c := Effective(leg, failed, raw);
    if failed || (c != Normal && c != Classification.Empty) then
      (AfterFailure(steps, step, w1, c), if Allows(c) then None else Some(Refused(c)))
    else if !leg.parses then (w1, None)
    else (w1, Some(Found))
  }

  function SearchFrom(cfg: Config, steps: seq<Strategy>, w: ChainWorld, legs: seq<Leg>, i: nat): (r: (ChainWorld, Outcome))
    requires |legs| == |steps| && i <= |steps| && ClientReady(w)
    ensures ClientReady(r.0)
    decreases |steps| - i
  {
    if i == |steps| then (w, NoneLeft)
    else if steps[i].useBreaker && !Closed(w.open, steps[i].transport, w.world.now) then
      SearchFrom(cfg, steps, w, legs, i + 1)
    else
      var w1 := Rest(PassBreaker(steps[i], w), legs[i].wait);
      if !legs[i].passes then (w1, NoneLeft)
      else
        var (w2, outcome) := Turn(cfg, steps, steps[i], w1, legs[i]);
        if outcome.Some? then (w2, outcome.value) else SearchFrom(cfg, steps, w2, legs, i + 1)
  }

  /** What is recorded of a turn. */
  function AttemptOf(cfg: Config, step: Strategy, w: ChainWorld, leg: Leg): Classification
    requires ClientReady(w)
  {
    var (w1, failed, raw) := FetchWith(cfg, step, w, leg);
    var c := Effective(leg, failed, raw);
    if failed || (c != Normal && c != Classification.Empty) then c
    else if !leg.parses then ParseChanged
    else if !leg.results then Classification.Empty
    else c
  }

  /** The attempts of a search, in order: an open circuit counts as blocked, a waiter that gives up as a timeout. */
  function AttemptsFrom(cfg: Config, steps: seq<Strategy>, w: ChainWorld, legs: seq<Leg>, i: nat): seq<Classification>
    requires |legs| == |steps| && i <= |steps| && ClientReady(w)
    decreases |steps| - i
  {
    if i == |steps| then []
    else if steps[i].useBreaker && !Closed(w.open, steps[i].transport, w.world.now) then
      [Classification.Blocked] + AttemptsFrom(cfg, steps, w, legs, i + 1)
    else
      var w1 := Rest(PassBreaker(steps[i], w), legs[i].wait);
      if !legs[i].passes then [Timeout]
      else
        var (w2, outcome) := Turn(cfg, steps, steps[i], w1, legs[i]);
        [AttemptOf(cfg, steps[i], w1, legs[i])] + if outcome.Some? then [] else AttemptsFrom(cfg, steps, w2, legs, i + 1)
  }

  /** The code of a failed search: the gravest of what its attempts met. */
  function ErrorFor(attempts: seq<Classification>): ErrorCode {
    if Captcha in attempts then CaptchaRequired
    else if RateLimited in attempts then RateLimitHit
    else if Timeout in attempts then UpstreamTimeout
    else if ParseChanged in attempts then UpstreamChanged
    else ProviderUnavailable
  }

  ghost function Searches(cfg: Config, steps: seq<Strategy>, w: ChainWorld, runs: seq<seq<Leg>>): ChainWorld
    requires ClientReady(w) && forall k :: 0 <= k < |runs| ==> |runs[k]| == |steps|
    decreases |runs|
  {
    if runs == [] then w else Searches(cfg, steps, SearchFrom(cfg, steps, w, runs[0], 0).0, runs[1..])
  }

  // ------------------------------------------------------------------
  // One strategy, and one failed search
  // ------------------------------------------------------------------

  /** What a strategy's fetch brings: from the session, or from its transport, which logs it. */
  lemma FetchMeans(cfg: Config, step: Strategy, w: ChainWorld, leg: Leg)
    requires ClientReady(w)
    ensures var (w', failed, c) := FetchWith(cfg, step, w, leg);
            && w'.open == w.open
            && (step.fixed ==>
                  var visit := leg.visit.(arrival := if leg.visit.arrival < w.world.now then w.world.now else leg.visit.arrival);
                  var (world, reply) := Fetch(cfg, w.world, visit);
                  w'.world == world && w'.trace == w.trace && failed == reply.Failed? && c == reply.classification)
            && (!step.fixed ==>
                  && w'.world.session == w.world.session && w'.world.trace == w.world.trace
                  && w'.world.now == w.world.now + leg.duration
                  && w'.trace == w.trace + [Fetched(step.name, step.transport, step.useBreaker, w.world.now)]
                  && failed == leg.failed && c == leg.classification)
  {
    hide Fetch;
  }

  /**
   * The chain goes on after a network error, a timeout or a changed page, and
   * stops at every other failure. A captcha closes every guarded transport
   * of the strategy for 30 minutes, a rate limit for 5, and nothing else
   * touches the breaker. The attempt is recorded under the classification
   * that decides, an unreadable page as a changed one.
   */
  lemma TurnMeans(cfg: Config, steps: seq<Strategy>, step: Strategy, w: ChainWorld, leg: Leg)
    requires ClientReady(w)
    ensures var (w1, failed, raw) := FetchWith(cfg, step, w, leg);
            var (w', outcome) := Turn(cfg, steps, step, w, leg);
            var c := if raw != Unset then raw else if !failed then leg.detected else if leg.timedOut then Timeout else NetworkError;
            var fails := failed || (c != Normal && c != Classification.Empty);
            var until := w1.world.now + if c == Captcha then 1_800 * SECOND else 300 * SECOND;
            && outcome == (if !fails then if leg.parses then Some(Found) else None
                           else if c == NetworkError || c == Timeout || c == ParseChanged then None
                           else Some(Refused(c)))
            && AttemptOf(cfg, step, w, leg) ==
                 (if fails then c else if !leg.parses then ParseChanged else if leg.results then c else Classification.Empty)
            && w'.world == w1.world
            && (if fails && step.useBreaker && (c == Captcha || c == RateLimited) then
                  && w'.trace == w1.trace + [Tripped(step.name, w1.world.now, c)]
                  && (forall i :: Guarded(steps, i, step.name) ==> steps[i].transport in w'.open && w'.open[steps[i].transport] == until)
                  && (forall t :: t in w.open && !(t in w'.open && w'.open[t] == w.open[t]) ==>
                        exists i :: Guarded(steps, i, step.name) && steps[i].transport == t)
                  && (forall t :: t in w'.open && t !in w.open ==> exists i :: Guarded(steps, i, step.name) && steps[i].transport == t)
                else w'.open == w.open && w'.trace == w1.trace)
  {
    hide FetchWith, TripStrategy;
    var (w1, failed, raw) := FetchWith(cfg, step, w, leg);
    TripStrategyShape(steps, w.open, step.name, Effective(leg, failed, raw), w1.world.now);
  }

  /** Nothing that risk control has said. */
  predicate Harmless(c: Classification) {
    c == NetworkError || c == Timeout || c == ParseChanged || c == Classification.Blocked
  }

  predicate Detects(legs: seq<Leg>) {
    forall k :: 0 <= k < |legs| ==> legs[k].detected != Unset
  }

  /** Only the last attempt of a search can be a captcha, a rate limit, or a page with or without results. */
  lemma {:induction false} RiskIsLastAttempt(cfg: Config, steps: seq<Strategy>, w: ChainWorld, legs: seq<Leg>, i: nat)
    requires |legs| == |steps| && i <= |steps| && ClientReady(w) && Detects(legs)
    ensures var (w', outcome) := SearchFrom(cfg, steps, w, legs, i);
            var a := AttemptsFrom(cfg, steps, w, legs, i);
            && |a| <= |steps| - i
            && (forall k :: 0 <= k < |a| && (k < |a| - 1 || outcome == NoneLeft) ==> Harmless(a[k]))
            && (outcome == Found ==> a != [] && (a[|a| - 1] == Normal || a[|a| - 1] == Classification.Empty))
            && (outcome.Refused? ==>
                  && a != [] && a[|a| - 1] == outcome.classification
                  && outcome.classification != NetworkError && outcome.classification != Timeout
                  && outcome.classification != ParseChanged && outcome.classification != Unset)
    decreases |steps| - i
  {
    hide Turn, AttemptOf;
    if i < |steps| {
      if steps[i].useBreaker && !Closed(w.open, steps[i].transport, w.world.now) {
        RiskIsLastAttempt(cfg, steps, w, legs, i + 1);
      } else if legs[i].passes {
        var w1 := Rest(PassBreaker(steps[i], w), legs[i].wait);
        TurnAttempts(cfg, steps, steps[i], w1, legs[i]);
        var (w2, outcome) := Turn(cfg, steps, steps[i], w1, legs[i]);
        if outcome.None? {
          RiskIsLastAttempt(cfg, steps, w2, legs, i + 1);
        }
      }
    }
  }

  lemma TurnAttempts(cfg: Config, steps: seq<Strategy>, step: Strategy, w: ChainWorld, leg: Leg)
    requires ClientReady(w) && leg.detected != Unset
    ensures var outcome, c := Turn(cfg, steps, step, w, leg).1, AttemptOf(cfg, step, w, leg);
            match outcome
            case None => c == NetworkError || c == Timeout || c == ParseChanged
            case Some(Found) => c == Normal || c == Classification.Empty
            case Some(Refused(r)) => c == r && c != NetworkError && c != Timeout && c != ParseChanged && c != Unset
            case Some(NoneLeft) => false
  {
    hide FetchWith;
    TurnMeans(cfg, steps, step, w, leg);
  }

  /**
   * A failed search reports a captcha, or a rate limit, exactly if that is
   * what stopped it; of the harmless failures a timeout outweighs a changed
   * page, and a block alone makes the provider unavailable.
   */
  lemma ErrorTellsRisk(cfg: Config, steps: seq<Strategy>, w: ChainWorld, legs: seq<Leg>)
    requires |legs| == |steps| && ClientReady(w) && Detects(legs) && SearchFrom(cfg, steps, w, legs, 0).1 != Found
    ensures var outcome, a := SearchFrom(cfg, steps, w, legs, 0).1, AttemptsFrom(cfg, steps, w, legs, 0);
            && (ErrorFor(a) == CaptchaRequired <==> outcome == Refused(Captcha))
            && (ErrorFor(a) == RateLimitHit <==> outcome == Refused(RateLimited))
            && (ErrorFor(a) == UpstreamTimeout <==> outcome != Refused(Captcha) && outcome != Refused(RateLimited) && Timeout in a)
            && (ErrorFor(a) == UpstreamChanged <==>
                  outcome != Refused(Captcha) && outcome != Refused(RateLimited) && Timeout !in a && ParseChanged in a)
            && (ErrorFor(a) == ProviderUnavailable <==>
                  outcome != Refused(Captcha) && outcome != Refused(RateLimited) && Timeout !in a && ParseChanged !in a)
  {
    hide SearchFrom, AttemptsFrom;
    RiskIsLastAttempt(cfg, steps, w, legs, 0);
    var outcome, a := SearchFrom(cfg, steps, w, legs, 0).1, AttemptsFrom(cfg, steps, w, legs, 0);
    if outcome.Refused? {
      assert a[|a| - 1] == outcome.classification;
    }
  }

  // ------------------------------------------------------------------
  // A blocked session stops the chain
  // ------------------------------------------------------------------

  /**
   * While the fixed session is cooling, a first-page search that gets the
   * gate asks nothing of anybody: the chain ends at its first strategy, on
   * every transport, and the session stays as it was.
   */
  lemma {:induction false} BlockedSessionSilencesChain(cfg: Config, steps: seq<Strategy>, w: ChainWorld, legs: seq<Leg>)
    requires |legs| == |steps| > 0 && steps[0].fixed && !steps[0].useBreaker && legs[0].passes
    requires Session.Inv(cfg, w.world) && w.world.session.mode == Cooling
    requires Enters(legs[0].visit)
    requires Arriving(legs[0].visit, w.world.now + legs[0].wait).arrival < w.world.session.blockedUntil.value
    ensures var (w', outcome) := SearchFrom(cfg, steps, w, legs, 0);
            && w'.trace == w.trace && w'.world.trace == w.world.trace
            && w'.open == w.open && w'.world.session == w.world.session
            && outcome == Refused(w.world.session.blockedAs)
  {
  }

  /** The session is blocked until this time. */
  ghost predicate Blocked(s: SessionRecord, deadline: int) {
    s.mode == Cooling && s.blockedUntil == Some(deadline) && IsRisk(s.blockedAs)
  }

  /** Every call of this search that reaches the session gets the gate before the deadline. */
  ghost predicate GatesBefore(cfg: Config, steps: seq<Strategy>, w: ChainWorld, legs: seq<Leg>, i: nat, deadline: int)
    requires |legs| == |steps| && i <= |steps| && ClientReady(w)
    decreases |steps| - i
  {
    i == |steps|
    || (if steps[i].useBreaker && !Closed(w.open, steps[i].transport, w.world.now) then
          GatesBefore(cfg, steps, w, legs, i + 1, deadline)
        else
          var w1 := Rest(PassBreaker(steps[i], w), legs[i].wait);
          legs[i].passes ==>
            && (steps[i].fixed && Enters(legs[i].visit) ==> Arriving(legs[i].visit, w1.world.now).arrival < deadline)
            && var (w2, outcome) := Turn(cfg, steps, steps[i], w1, legs[i]);
               outcome.None? ==> GatesBefore(cfg, steps, w2, legs, i + 1, deadline))
  }

  /** A call on a blocked session, whatever its page, leaves the session and its requests as they are. */
  lemma BlockedFetchIsIdle(cfg: Config, w: World, v: Visit, deadline: int)
    requires Blocked(w.session, deadline) && (Enters(v) ==> v.arrival < deadline)
    ensures var (w', reply) := Fetch(cfg, w, v); w'.session == w.session && w'.trace == w.trace
  {
  }

  /** So does a whole search: later pages and calls that never get the gate may fetch elsewhere, but not from the session. */
  lemma {:induction false} SearchLeavesSession(
    cfg: Config, steps: seq<Strategy>, w: ChainWorld, legs: seq<Leg>, i: nat, deadline: int)
    requires |legs| == |steps| && i <= |steps| && Blocked(w.world.session, deadline)
    requires GatesBefore(cfg, steps, w, legs, i, deadline)
    ensures var w' := SearchFrom(cfg, steps, w, legs, i).0; w'.world.session == w.world.session && w'.world.trace == w.world.trace
    decreases |steps| - i
  {
    if i < |steps| {
      if steps[i].useBreaker && !Closed(w.open, steps[i].transport, w.world.now) {
        SearchLeavesSession(cfg, steps, w, legs, i + 1, deadline);
      } else {
        var w1 := Rest(PassBreaker(steps[i], w), legs[i].wait);
        if legs[i].passes {
          TurnLeavesSession(cfg, steps, steps[i], w1, legs[i], deadline);
          var (w2, outcome) := Turn(cfg, steps, steps[i], w1, legs[i]);
          if outcome.None? {
            SearchLeavesSession(cfg, steps, w2, legs, i + 1, deadline);
          }
        }
      }
    }
  }

  lemma TurnLeavesSession(cfg: Config, steps: seq<Strategy>, step: Strategy, w: ChainWorld, leg: Leg, deadline: int)
    requires Blocked(w.world.session, deadline)
    requires step.fixed && Enters(leg.visit) ==> Arriving(leg.visit, w.world.now).arrival < deadline
    ensures var w' := Turn(cfg, steps, step, w, leg).0; w'.world.session == w.world.session && w'.world.trace == w.world.trace
  {
    if step.fixed {
      BlockedFetchIsIdle(cfg, w.world, Arriving(leg.visit, w.world.now), deadline);
    }
  }

  /** A first-page search: its first strategy is stopped by a waiter or reaches the session. */
  predicate FirstPage(legs: seq<Leg>) {
    legs != [] && (legs[0].passes ==> Enters(legs[0].visit))
  }

  /** Every search of the run gets to the session before the deadline. */
  ghost predicate RunsBefore(cfg: Config, steps: seq<Strategy>, w: ChainWorld, runs: seq<seq<Leg>>, deadline: int)
    requires ClientReady(w) && forall k :: 0 <= k < |runs| ==> |runs[k]| == |steps|
    decreases |runs|
  {
    runs == [] || (GatesBefore(cfg, steps, w, runs[0], 0, deadline)
                   && RunsBefore(cfg, steps, SearchFrom(cfg, steps, w, runs[0], 0).0, runs[1..], deadline))
  }

  /** No search of the run touches the session, and a first-page search touches nothing at all. */
  ghost predicate Silent(cfg: Config, steps: seq<Strategy>, w: ChainWorld, runs: seq<seq<Leg>>)
    requires ClientReady(w) && forall k :: 0 <= k < |runs| ==> |runs[k]| == |steps|
    decreases |runs|
  {
    runs == [] || (
      var (w', outcome) := SearchFrom(cfg, steps, w, runs[0], 0);
      && w'.world.session == w.world.session && w'.world.trace == w.world.trace
      && (FirstPage(runs[0]) ==>
            && w'.trace == w.trace && w'.open == w.open
            && outcome == if runs[0][0].passes then Refused(w.world.session.blockedAs) else NoneLeft)
      && Silent(cfg, steps, w', runs[1..]))
  }

  lemma {:induction false} BlockSilencesRun(cfg: Config, steps: seq<Strategy>, w: ChainWorld, runs: seq<seq<Leg>>, deadline: int)
    requires |steps| > 0 && steps[0].fixed && !steps[0].useBreaker && forall k :: 0 <= k < |runs| ==> |runs[k]| == |steps|
    requires Blocked(w.world.session, deadline) && RunsBefore(cfg, steps, w, runs, deadline)
    ensures Silent(cfg, steps, w, runs)
    ensures Searches(cfg, steps, w, runs).world.session == w.world.session
    ensures Searches(cfg, steps, w, runs).world.trace == w.world.trace
    ensures (forall k :: 0 <= k < |runs| ==> FirstPage(runs[k])) ==>
              Searches(cfg, steps, w, runs).trace == w.trace && Searches(cfg, steps, w, runs).open == w.open
    decreases |runs|
  {
    if runs != [] {
      var (w', outcome) := SearchFrom(cfg, steps, w, runs[0], 0);
      SearchLeavesSession(cfg, steps, w, runs[0], 0, deadline);
      if FirstPage(runs[0]) {
        FirstPageIsSilent(cfg, steps, w, runs[0], deadline);
      }
      BlockSilencesRun(cfg, steps, w', runs[1..], deadline);
    }
  }

  lemma FirstPageIsSilent(cfg: Config, steps: seq<Strategy>, w: ChainWorld, legs: seq<Leg>, deadline: int)
    requires |legs| == |steps| > 0 && steps[0].fixed && !steps[0].useBreaker && FirstPage(legs)
    requires Blocked(w.world.session, deadline) && GatesBefore(cfg, steps, w, legs, 0, deadline)
    ensures var (w', outcome) := SearchFrom(cfg, steps, w, legs, 0);
            && w'.trace == w.trace && w'.open == w.open
            && outcome == if legs[0].passes then Refused(w.world.session.blockedAs) else NoneLeft
  {
  }

  lemma TurnEndsAtRisk(cfg: Config, steps: seq<Strategy>, step: Strategy, w: ChainWorld, leg: Leg)
    requires ClientReady(w) && EndsInRisk(w.world.trace, Turn(cfg, steps, step, w, leg).0.world.trace)
    ensures var (w', outcome) := Turn(cfg, steps, step, w, leg);
            outcome == Some(Refused(ToldLast(w'.world.trace))) && Cooled(cfg, w'.world)
  {
    hide Fetch;
    if step.fixed {
      var visit := Arriving(leg.visit, w.world.now);
      assert EndsInRisk(w.world.trace, Fetch(cfg, w.world, visit).0.trace);
      RiskCoolsSession(cfg, w.world, visit);
    }
  }

  lemma {:induction false} SearchExtends(cfg: Config, steps: seq<Strategy>, w: ChainWorld, legs: seq<Leg>, i: nat)
    requires |legs| == |steps| && i <= |steps| && ClientReady(w)
    ensures w.world.trace <= SearchFrom(cfg, steps, w, legs, i).0.world.trace
    decreases |steps| - i
  {
    hide Turn;
    if i < |steps| {
      if steps[i].useBreaker && !Closed(w.open, steps[i].transport, w.world.now) {
        SearchExtends(cfg, steps, w, legs, i + 1);
      } else {
        var w1 := Rest(PassBreaker(steps[i], w), legs[i].wait);
        var (w2, outcome) := Turn(cfg, steps, steps[i], w1, legs[i]);
        TurnExtends(cfg, steps, steps[i], w1, legs[i]);
        if outcome.None? {
          SearchExtends(cfg, steps, w2, legs, i + 1);
        }
      }
    }
  }

  lemma TurnExtends(cfg: Config, steps: seq<Strategy>, step: Strategy, w: ChainWorld, leg: Leg)
    requires ClientReady(w)
    ensures w.world.trace <= Turn(cfg, steps, step, w, leg).0.world.trace
  {
    hide Fetch;
    if step.fixed {
      FetchExtends(cfg, w.world, Arriving(leg.visit, w.world.now));
    }
  }

  /** A risk response to the session is the end of its search, and blocks the session for its cooldown. */
  lemma {:induction false} SearchEndsAtRisk(cfg: Config, steps: seq<Strategy>, w: ChainWorld, legs: seq<Leg>, i: nat)
    requires |legs| == |steps| && i <= |steps| && ClientReady(w)
    requires EndsInRisk(w.world.trace, SearchFrom(cfg, steps, w, legs, i).0.world.trace)
    ensures var (w', outcome) := SearchFrom(cfg, steps, w, legs, i);
            outcome == Refused(ToldLast(w'.world.trace)) && Cooled(cfg, w'.world)
    decreases |steps| - i
  {
    hide Turn;
    assert i < |steps|;
    if steps[i].useBreaker && !Closed(w.open, steps[i].transport, w.world.now) {
      SearchEndsAtRisk(cfg, steps, w, legs, i + 1);
    } else {
      var w1 := Rest(PassBreaker(steps[i], w), legs[i].wait);
      var (w2, outcome) := Turn(cfg, steps, steps[i], w1, legs[i]);
      if EndsInRisk(w.world.trace, w2.world.trace) {
        TurnEndsAtRisk(cfg, steps, steps[i], w1, legs[i]);
      } else if outcome.None? {
        SearchExtends(cfg, steps, w2, legs, i + 1);
        SearchEndsAtRisk(cfg, steps, w2, legs, i + 1);
      }
    }
  }

  /**
   * When a search meets a risk response of the session that finished at time
   * t, the session is blocked until t plus the captcha cooldown for a captcha
   * and until t plus the rate-limit cooldown otherwise. No search of any
   * sequence of searches that get to the session before that time makes a
   * request through the session or changes it; a first-page search makes no
   * request on any transport. Searches for later pages, and calls that never
   * get the gate, may come in between.
   */
  lemma RiskSilencesChain(cfg: Config, steps: seq<Strategy>, before: ChainWorld, legs: seq<Leg>, runs: seq<seq<Leg>>)
    requires |steps| > 0 && steps[0].fixed && !steps[0].useBreaker
    requires |legs| == |steps| && forall k :: 0 <= k < |runs| ==> |runs[k]| == |steps|
    requires ClientReady(before) && EndsInRisk(before.world.trace, SearchFrom(cfg, steps, before, legs, 0).0.world.trace)
    requires var w := SearchFrom(cfg, steps, before, legs, 0).0;
             var told, ended := ToldLast(w.world.trace), EndedLast(w.world.trace);
             RunsBefore(cfg, steps, w, runs, ended + if told == Captcha then cfg.captchaCooldown else cfg.rateLimitCooldown)
    ensures var w := SearchFrom(cfg, steps, before, legs, 0).0;
            var told, ended := ToldLast(w.world.trace), EndedLast(w.world.trace);
            var w' := Searches(cfg, steps, w, runs);
            && w.world.session.blockedUntil == Some(ended + if told == Captcha then cfg.captchaCooldown else cfg.rateLimitCooldown)
            && Silent(cfg, steps, w, runs)
            && w'.world.session == w.world.session && w'.world.trace == w.world.trace
            && ((forall k :: 0 <= k < |runs| ==> FirstPage(runs[k])) ==> w'.trace == w.trace && w'.open == w.open)
  {
    hide Searches, Silent, RunsBefore, SearchFrom;
    SearchEndsAtRisk(cfg, steps, before, legs, 0);
    var w := SearchFrom(cfg, steps, before, legs, 0).0;
    BlockSilencesRun(cfg, steps, w, runs, w.world.session.blockedUntil.value);
  }

  // ------------------------------------------------------------------
  // What the breaker guarantees over any number of searches
  // ------------------------------------------------------------------

  ghost predicate DistinctTransports(steps: seq<Strategy>) {
    forall i, j :: 0 <= i < j < |steps| ==> steps[i].transport != steps[j].transport
  }

  predicate Guarded(steps: seq<Strategy>, i: int, name: string) {
    0 <= i < |steps| && steps[i].useBreaker && steps[i].name == name
  }

  /** Two transports of one strategy are open until the same time, or no longer open. */
  predicate SameFate(open: map<string, int>, now: int, a: string, b: string) {
    && (a in open && b in open ==> open[a] == open[b])
    && (a in open && b !in open ==> now >= open[a])
    && (b in open && a !in open ==> now >= open[b])
  }

  ghost predicate SharedFate(steps: seq<Strategy>, open: map<string, int>, now: int) {
    forall i, j :: 0 <= i < |steps| && Guarded(steps, j, steps[i].name) && steps[i].useBreaker ==>
                     SameFate(open, now, steps[i].transport, steps[j].transport)
  }

  /** The transport is kept closed to requests until `deadline`. */
  predicate KeptUntil(open: map<string, int>, now: int, transport: string, deadline: int) {
    now >= deadline || (transport in open && open[transport] >= deadline)
  }

  ghost predicate TripsHonoured(steps: seq<Strategy>, w: ChainWorld) {
    forall k, i :: 0 <= k < |w.trace| && w.trace[k].Tripped? && Guarded(steps, i, w.trace[k].name) ==>
                     KeptUntil(w.open, w.world.now, steps[i].transport, w.trace[k].at + TripCooldown(w.trace[k].classification))
  }

  /** No guarded fetch of a strategy starts before the cooldown of an earlier trip of that strategy is over. */
  ghost predicate GoodChainTrace(trace: seq<ChainEvent>) {
    forall j, k :: 0 <= j < k < |trace| && trace[j].Tripped? && trace[k].Fetched? && trace[k].guarded && trace[k].name == trace[j].name ==>
                     trace[k].at >= trace[j].at + if trace[j].classification == Captcha then 1_800 * SECOND
                                                  else if trace[j].classification == RateLimited then 300 * SECOND else 0
  }

  ghost predicate Inv(steps: seq<Strategy>, w: ChainWorld) {
    SharedFate(steps, w.open, w.world.now) && TripsHonoured(steps, w) && GoodChainTrace(w.trace)
  }

  predicate ValidLeg(cfg: Config, leg: Leg) {
    leg.wait >= 0 && leg.duration >= 0 && ValidVisit(cfg, leg.visit)
  }

  /** Time runs forward, and no deadline that is still set has moved to an earlier time. */
  ghost predicate Later(w: ChainWorld, w': ChainWorld) {
    w'.world.now >= w.world.now && forall t :: t in w.open && t in w'.open ==> w'.open[t] >= w.open[t]
  }

  lemma FetchTakesTime(cfg: Config, w: World, v: Visit)
    requires Session.ValidConfig(cfg) && ValidVisit(cfg, v) && v.arrival >= w.now
    requires w.session.mode == Warm ==> w.session.client.Some?
    ensures Fetch(cfg, w, v).0.now >= w.now
  {
  }

  lemma TripStrategyShape(steps: seq<Strategy>, open: map<string, int>, name: string, c: Classification, now: int)
    ensures var r := TripStrategy(steps, open, name, c, now);
            && (!Trips(c) ==> r == open)
            && (Trips(c) ==> forall i :: Guarded(steps, i, name) ==> steps[i].transport in r && r[steps[i].transport] == now + TripCooldown(c))
            && (forall t :: (t in r && !(t in open && r[t] == open[t])) || (t in open && t !in r) ==>
                  exists i :: Guarded(steps, i, name) && steps[i].transport == t)
  {
    TripReachesGroup(steps, open, name, c, now);
    TripStaysInGroup(steps, open, name, c, now);
  }

  lemma {:induction false} TripReachesGroup(steps: seq<Strategy>, open: map<string, int>, name: string, c: Classification, now: int)
    ensures var r := TripStrategy(steps, open, name, c, now);
            && (!Trips(c) ==> r == open)
            && (Trips(c) ==> forall i :: Guarded(steps, i, name) ==> steps[i].transport in r && r[steps[i].transport] == now + TripCooldown(c))
  {
    if steps != [] {
      var n := |steps| - 1;
      var rest := steps[..n];
      TripReachesGroup(rest, open, name, c, now);
      assert forall i :: Guarded(steps, i, name) && i < n ==> Guarded(rest, i, name) && rest[i] == steps[i];
    }
  }

  lemma {:induction false} TripStaysInGroup(steps: seq<Strategy>, open: map<string, int>, name: string, c: Classification, now: int)
    ensures var r := TripStrategy(steps, open, name, c, now);
            forall t :: (t in r && !(t in open && r[t] == open[t])) || (t in open && t !in r) ==>
              exists i :: Guarded(steps, i, name) && steps[i].transport == t
  {
    if steps != [] {
      var n := |steps| - 1;
      var rest := steps[..n];
      TripStaysInGroup(rest, open, name, c, now);
      var r := TripStrategy(steps, open, name, c, now);
      forall t | (t in r && !(t in open && r[t] == open[t])) || (t in open && t !in r)
        ensures exists i :: Guarded(steps, i, name) && steps[i].transport == t
      {
        if !(Guarded(steps, n, name) && steps[n].transport == t) {
          var i :| Guarded(rest, i, name) && rest[i].transport == t;
          assert Guarded(steps, i, name);
        }
      }
    }
  }

  lemma RestKeepsInv(steps: seq<Strategy>, w: ChainWorld, w': ChainWorld)
    requires Inv(steps, w) && w'.open == w.open && w'.trace == w.trace && w'.world.now >= w.world.now
    ensures Inv(steps, w') && Later(w, w')
  {
  }

  lemma PassKeepsInv(steps: seq<Strategy>, w: ChainWorld, i: nat)
    requires Inv(steps, w) && i < |steps| && (steps[i].useBreaker ==> Closed(w.open, steps[i].transport, w.world.now))
    ensures Inv(steps, PassBreaker(steps[i], w)) && Later(w, PassBreaker(steps[i], w))
    ensures steps[i].useBreaker ==> steps[i].transport !in PassBreaker(steps[i], w).open
  {
  }

  lemma FetchedKeepsInv(steps: seq<Strategy>, w: ChainWorld, i: nat)
    requires Inv(steps, w) && i < |steps| && (steps[i].useBreaker ==> steps[i].transport !in w.open)
    ensures Inv(steps, w.(trace := w.trace + [Fetched(steps[i].name, steps[i].transport, steps[i].useBreaker, w.world.now)]))
  {
    var step := steps[i];
    var grown := w.trace + [Fetched(step.name, step.transport, step.useBreaker, w.world.now)];
    if step.useBreaker {
      forall j | 0 <= j < |w.trace| && w.trace[j].Tripped? && w.trace[j].name == step.name
        ensures w.world.now >= w.trace[j].at + TripCooldown(w.trace[j].classification)
      {
        assert Guarded(steps, i, w.trace[j].name);
      }
    }
    assert forall k :: 0 <= k < |w.trace| ==> grown[k] == w.trace[k];
  }

  lemma FailureKeepsInv(steps: seq<Strategy>, w: ChainWorld, i: nat, c: Classification)
    requires Inv(steps, w) && DistinctTransports(steps) && i < |steps|
    requires steps[i].useBreaker ==> steps[i].transport !in w.open
    ensures Inv(steps, AfterFailure(steps, steps[i], w, c)) && Later(w, AfterFailure(steps, steps[i], w, c))
  {
    var step := steps[i];
    if step.useBreaker {
      TripStrategyShape(steps, w.open, step.name, c, w.world.now);
      if Trips(c) {
        GroupIsClosed(steps, w, i);
        TripKeepsFate(steps, w, step.name, c);
        TripKeepsPromises(steps, w, step.name, c);
      } else {
        assert AfterFailure(steps, step, w, c).trace == w.trace;
      }
    }
  }

  /** When one guarded transport of a strategy is off the breaker's list, the time of all the others has come too. */
  lemma GroupIsClosed(steps: seq<Strategy>, w: ChainWorld, i: nat)
    requires SharedFate(steps, w.open, w.world.now) && i < |steps| && steps[i].useBreaker && steps[i].transport !in w.open
    ensures forall j :: Guarded(steps, j, steps[i].name) ==> Closed(w.open, steps[j].transport, w.world.now)
  {
  }

  lemma TripKeepsFate(steps: seq<Strategy>, w: ChainWorld, name: string, c: Classification)
    requires SharedFate(steps, w.open, w.world.now) && DistinctTransports(steps) && Trips(c)
    ensures SharedFate(steps, TripStrategy(steps, w.open, name, c, w.world.now), w.world.now)
  {
    TripStrategyShape(steps, w.open, name, c, w.world.now);
    var r := TripStrategy(steps, w.open, name, c, w.world.now);
    forall i, j | 0 <= i < |steps| && Guarded(steps, j, steps[i].name) && steps[i].useBreaker
      ensures SameFate(r, w.world.now, steps[i].transport, steps[j].transport)
    {
      if steps[i].name == name {
        assert Guarded(steps, i, name) && Guarded(steps, j, name);
      } else {
        OutsideGroup(steps, i, name);
        OutsideGroup(steps, j, name);
        assert SameFate(w.open, w.world.now, steps[i].transport, steps[j].transport);
      }
    }
  }

  lemma OutsideGroup(steps: seq<Strategy>, i: nat, name: string)
    requires DistinctTransports(steps) && i < |steps| && steps[i].name != name
    ensures !exists k :: Guarded(steps, k, name) && steps[k].transport == steps[i].transport
  {
  }

  lemma TripKeepsPromises(steps: seq<Strategy>, w: ChainWorld, name: string, c: Classification)
    requires Inv(steps, w) && DistinctTransports(steps) && Trips(c)
    requires forall j :: Guarded(steps, j, name) ==> Closed(w.open, steps[j].transport, w.world.now)
    ensures var w' := w.(open := TripStrategy(steps, w.open, name, c, w.world.now),
                         trace := w.trace + [Tripped(name, w.world.now, c)]);
            TripsHonoured(steps, w') && GoodChainTrace(w'.trace) && Later(w, w')
  {
    TripStrategyShape(steps, w.open, name, c, w.world.now);
    var w' := w.(open := TripStrategy(steps, w.open, name, c, w.world.now), trace := w.trace + [Tripped(name, w.world.now, c)]);
    assert forall k :: 0 <= k < |w.trace| ==> w'.trace[k] == w.trace[k];
    forall k, i | 0 <= k < |w'.trace| && w'.trace[k].Tripped? && Guarded(steps, i, w'.trace[k].name)
      ensures KeptUntil(w'.open, w'.world.now, steps[i].transport, w'.trace[k].at + TripCooldown(w'.trace[k].classification))
    {
      if k < |w.trace| {
        assert KeptUntil(w.open, w.world.now, steps[i].transport, w.trace[k].at + TripCooldown(w.trace[k].classification));
        if steps[i].name == name {
          assert Guarded(steps, i, name);
        } else {
          OutsideGroup(steps, i, name);
        }
      }
    }
    forall t | t in w.open && t in w'.open
      ensures w'.open[t] >= w.open[t]
    {
      if w'.open[t] != w.open[t] {
        var i :| Guarded(steps, i, name) && steps[i].transport == t;
      }
    }
  }

  /** A turn of one strategy keeps the breaker's promises, and moves no deadline that stays set to an earlier time. */
  lemma TurnKeepsInv(cfg: Config, steps: seq<Strategy>, i: nat, w: ChainWorld, leg: Leg)
    requires Session.ValidConfig(cfg) && ValidLeg(cfg, leg) && DistinctTransports(steps) && i < |steps| && ClientReady(w)
    requires Inv(steps, w) && (steps[i].useBreaker ==> steps[i].transport !in w.open)
    ensures Inv(steps, Turn(cfg, steps, steps[i], w, leg).0) && Later(w, Turn(cfg, steps, steps[i], w, leg).0)
  {
    var (w1, failed, c) := FetchWith(cfg, steps[i], w, leg);
    if steps[i].fixed {
      FetchTakesTime(cfg, w.world, Arriving(leg.visit, w.world.now));
      RestKeepsInv(steps, w, w1);
    } else {
      FetchedKeepsInv(steps, w, i);
      RestKeepsInv(steps, w.(trace := w1.trace), w1);
    }
    FailureKeepsInv(steps, w1, i, Effective(leg, failed, c));
  }

  /** Every search keeps the breaker's promises, whatever its strategies meet. */
  lemma {:induction false} SearchKeepsInv(cfg: Config, steps: seq<Strategy>, w: ChainWorld, legs: seq<Leg>, i: nat)
    requires Session.ValidConfig(cfg) && DistinctTransports(steps) && |legs| == |steps| && i <= |steps| && ClientReady(w)
    requires forall k :: 0 <= k < |legs| ==> ValidLeg(cfg, legs[k])
    requires Inv(steps, w)
    ensures Inv(steps, SearchFrom(cfg, steps, w, legs, i).0)
    ensures SearchFrom(cfg, steps, w, legs, i).0.world.now >= w.world.now
    decreases |steps| - i
  {
    if i < |steps| {
      if steps[i].useBreaker && !Closed(w.open, steps[i].transport, w.world.now) {
        SearchKeepsInv(cfg, steps, w, legs, i + 1);
      } else {
        PassKeepsInv(steps, w, i);
        var w0 := PassBreaker(steps[i], w);
        var w1 := Rest(w0, legs[i].wait);
        RestKeepsInv(steps, w0, w1);
        if legs[i].passes {
          TurnKeepsInv(cfg, steps, i, w1, legs[i]);
          var (w2, outcome) := Turn(cfg, steps, steps[i], w1, legs[i]);
          if outcome.None? {
            SearchKeepsInv(cfg, steps, w2, legs, i + 1);
          }
        }
      }
    }
  }

  lemma {:induction false} SearchesKeepInv(cfg: Config, steps: seq<Strategy>, w: ChainWorld, runs: seq<seq<Leg>>)
    requires Session.ValidConfig(cfg) && DistinctTransports(steps) && ClientReady(w) && Inv(steps, w)
    requires forall k :: 0 <= k < |runs| ==> |runs[k]| == |steps|
    requires forall k, j :: 0 <= k < |runs| && 0 <= j < |runs[k]| ==> ValidLeg(cfg, runs[k][j])
    ensures Inv(steps, Searches(cfg, steps, w, runs))
    decreases |runs|
  {
    if runs != [] {
      SearchKeepsInv(cfg, steps, w, runs[0], 0);
      SearchesKeepInv(cfg, steps, SearchFrom(cfg, steps, w, runs[0], 0).0, runs[1..]);
    }
  }

  /**
   * After any number of searches one after the other, the guarded transports
   * of a strategy are all let through or all stopped, and none of them was
   * ever fetched before the cooldown of an earlier trip was over.
   */
  lemma BreakerActsAsOne(cfg: Config, steps: seq<Strategy>, now: int, runs: seq<seq<Leg>>, i: nat, j: nat)
    requires Session.ValidConfig(cfg) && DistinctTransports(steps)
    requires forall k :: 0 <= k < |runs| ==> |runs[k]| == |steps|
    requires forall k, l :: 0 <= k < |runs| && 0 <= l < |runs[k]| ==> ValidLeg(cfg, runs[k][l])
    requires i < |steps| && steps[i].useBreaker && Guarded(steps, j, steps[i].name)
    ensures var w := Searches(cfg, steps, ChainWorld(map[], World(BEGINNING, [], now), []), runs);
            && GoodChainTrace(w.trace)
            && forall later: int :: later >= w.world.now ==>
                 (Closed(w.open, steps[i].transport, later) <==> Closed(w.open, steps[j].transport, later))
  {
    SearchesKeepInv(cfg, steps, ChainWorld(map[], World(BEGINNING, [], now), []), runs);
    var w := Searches(cfg, steps, ChainWorld(map[], World(BEGINNING, [], now), []), runs);
    assert SameFate(w.open, w.world.now, steps[i].transport, steps[j].transport);
  }
}
