/** The breaker and the strategy loop of the Baidu provider as the program keeps them. */
module BaiduProvider {
  import opened Domain
  import opened Session
  import opened SessionTransport
  import opened BaiduChain

  class Breaker {
    var openUntil: map<string, int>

    constructor ()
      ensures openUntil == map[]
    {
      openUntil := map[];
    }

    /** An open circuit whose time has come is forgotten. */
    method Allow(name: string, now: int) returns (allowed: bool)
      modifies this
      ensures allowed <==> Closed(old(openUntil), name, now)
      ensures openUntil == if allowed then old(openUntil) - {name} else old(openUntil)
    {
      if name !in openUntil {
        return true;
      }
      if !(now < openUntil[name]) {
        openUntil := openUntil - {name};
        return true;
      }
      return false;
    }

    method TripOne(name: string, classification: Classification, now: int)
      modifies this
      ensures openUntil == Trip(old(openUntil), name, classification, now)
    {
      var cooldown: int;
      match classification {
        case Captcha => cooldown := 30 * MINUTE;
        case RateLimited => cooldown := 5 * MINUTE;
        case _ => return;
      }
      openUntil := openUntil[name := now + cooldown];
    }
  }

  /** Recording one attempt after the other gives the whole list. */
  lemma Recording(done: seq<Classification>, next: Classification, rest: seq<Classification>)
    ensures done + ([next] + rest) == (done + [next]) + rest
    ensures done + [] == done && [next] + [] == [next]
  {
  }

  class Provider {
    const steps: seq<Strategy>
    const breaker: Breaker
    const session: BaiduSessionTransport
    ghost var trace: seq<ChainEvent>

    constructor (steps: seq<Strategy>, session: BaiduSessionTransport)
      ensures this.steps == steps && this.session == session && fresh(breaker)
      ensures breaker.openUntil == map[] && trace == []
    {
      this.steps, this.session := steps, session;
      breaker := new Breaker();
      trace := [];
    }

    ghost function At(now: int): ChainWorld
      reads this, breaker, session
    {
      ChainWorld(breaker.openUntil, session.At(now), trace)
    }

    /** Walks the chain until a strategy finds a page, refuses to go on, or none is left; `error` is the code of a failed search. */
    method Search(legs: seq<Leg>, now: int) returns (outcome: Outcome, error: Option<ErrorCode>, ghost end: int)
      requires |legs| == |steps| && (session.mode == Warm ==> session.client.Some?)
      modifies this, breaker, session
      ensures (At(end), outcome) == SearchFrom(session.cfg, steps, old(At(now)), legs, 0)
      ensures error == if outcome == Found then None else Some(ErrorFor(AttemptsFrom(session.cfg, steps, old(At(now)), legs, 0)))
    {
      var attempts;
      outcome, attempts, end := Walk(legs, now);
      error := None;
      if outcome != Found {
        var code := BuildSearchError(attempts);
        error := Some(code);
      }
    }

    method Walk(legs: seq<Leg>, now: int) returns (outcome: Outcome, attempts: seq<Classification>, ghost end: int)
      requires |legs| == |steps| && (session.mode == Warm ==> session.client.Some?)
      modifies this, breaker, session
      ensures (At(end), outcome) == SearchFrom(session.cfg, steps, old(At(now)), legs, 0)
      ensures attempts == AttemptsFrom(session.cfg, steps, old(At(now)), legs, 0)
    {
      hide Turn, AttemptOf;
      ghost var goal, recorded := SearchFrom(session.cfg, steps, At(now), legs, 0), AttemptsFrom(session.cfg, steps, At(now), legs, 0);
      attempts := [];
      var clock := now;
      var i := 0;
      while i < |steps|
        invariant 0 <= i <= |steps| && ClientReady(At(clock))
        invariant SearchFrom(session.cfg, steps, At(clock), legs, i) == goal
        invariant attempts + AttemptsFrom(session.cfg, steps, At(clock), legs, i) == recorded
      {
        var step := steps[i];
        var allowed := true;
        if step.useBreaker {
          allowed := breaker.Allow(step.transport, clock);
        }
        if !allowed {
          Recording(attempts, Classification.Blocked, AttemptsFrom(session.cfg, steps, At(clock), legs, i + 1));
          attempts := attempts + [Classification.Blocked];
        } else {
          clock := clock + legs[i].wait;
          if !legs[i].passes {
            return NoneLeft, attempts + [Timeout], clock;
          }
          var stop, attempt;
          stop, attempt, clock := TakeTurn(step, legs[i], clock);
          Recording(attempts, attempt, if stop.Some? then [] else AttemptsFrom(session.cfg, steps, At(clock), legs, i + 1));
          attempts := attempts + [attempt];
          if stop.Some? {
            return stop.value, attempts, clock;
          }
        }
        i := i + 1;
      }
      return NoneLeft, attempts, clock;
    }

    method TakeTurn(step: Strategy, leg: Leg, now: int) returns (stop: Option<Outcome>, attempt: Classification, clock: int)
      requires ClientReady(At(now))
      modifies this, breaker, session
      ensures (At(clock), stop) == Turn(session.cfg, steps, step, old(At(now)), leg)
      ensures attempt == AttemptOf(session.cfg, step, old(At(now)), leg)
    {
      var failed, classification;
      failed, classification, clock := FetchStep(step, leg, now);
      if classification == Unset {
        if failed {
          classification := NetworkError;
          if leg.timedOut {
            classification := Timeout;
          }
        } else {
          classification := leg.detected;
        }
      }
      attempt := classification;
      if failed || (classification != Normal && classification != Classification.Empty) {
        if step.useBreaker {
          Trip(step.name, classification, clock);
        }
        if !Allows(classification) {
          return Some(Refused(classification)), attempt, clock;
        }
        return None, attempt, clock;
      }
      if !leg.parses {
        return None, ParseChanged, clock;
      }
      if !leg.results {
        attempt := Classification.Empty;
      }
      return Some(Found), attempt, clock;
    }

    method FetchStep(step: Strategy, leg: Leg, now: int) returns (failed: bool, classification: Classification, clock: int)
      requires ClientReady(At(now))
      modifies this`trace, session
      ensures (At(clock), failed, classification) == FetchWith(session.cfg, step, old(At(now)), leg)
    {
      if step.fixed {
        var reply;
        reply, clock := session.Fetch(Arriving(leg.visit, now), now);
        return reply.Failed?, reply.classification, clock;
      }
      trace := trace + [Fetched(step.name, step.transport, step.useBreaker, now)];
      return leg.failed, leg.classification, now + leg.duration;
    }

    /** The gravest classification among the attempts decides the code. */
    static method BuildSearchError(attempts: seq<Classification>) returns (code: ErrorCode)
      ensures code == ErrorFor(attempts)
    {
      var priority := [(Captcha, CaptchaRequired), (RateLimited, RateLimitHit), (Timeout, UpstreamTimeout), (ParseChanged, UpstreamChanged)];
      for i := 0 to |priority|
        invariant forall j :: 0 <= j < i ==> priority[j].0 !in attempts
      {
        for k := 0 to |attempts|
          invariant priority[i].0 !in attempts[..k]
        {
          if attempts[k] == priority[i].0 {
            assert attempts[k] in attempts && forall j :: 0 <= j < i ==> priority[j].0 !in attempts;
            assert i > 0 ==> priority[0].0 !in attempts;
            assert i > 1 ==> priority[1].0 !in attempts;
            assert i > 2 ==> priority[2].0 !in attempts;
            return priority[i].1;
          }
        }
        assert attempts[..|attempts|] == attempts;
      }
      assert priority[0].0 !in attempts && priority[1].0 !in attempts && priority[2].0 !in attempts && priority[3].0 !in attempts;
      return ProviderUnavailable;
    }

    /** Trips every guarded transport of a strategy. */
    method Trip(name: string, classification: Classification, now: int)
      modifies this`trace, breaker
      ensures breaker.openUntil == TripStrategy(steps, old(breaker.openUntil), name, classification, now)
      ensures trace == old(trace) + if Trips(classification) then [Tripped(name, now, classification)] else []
    {
      for i := 0 to |steps|
        invariant breaker.openUntil == TripStrategy(steps[..i], old(breaker.openUntil), name, classification, now)
        invariant trace == old(trace)
      {
        assert steps[..i + 1][..i] == steps[..i];
        if steps[i].useBreaker && steps[i].name == name {
          breaker.TripOne(steps[i].transport, classification, now);
        }
      }
      assert steps[..|steps|] == steps;
      if Trips(classification) {
        trace := trace + [Tripped(name, now, classification)];
      }
    }
  }
}
