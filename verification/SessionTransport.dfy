/** The fixed session as the program keeps it, one record updated in place under the gate. */
module SessionTransport {
  import opened Domain
  import opened Session

  class BaiduSessionTransport {
    const cfg: Config
    var mode: Mode
    var client: Option<nat>
    var lastFinished: Option<int>
    var blockedUntil: Option<int>
    var blockedAs: Classification
    var generation: nat
    ghost var trace: seq<Upstream>

    ghost function Record(): SessionRecord
      reads this
    {
      SessionRecord(mode, client, lastFinished, blockedUntil, blockedAs, generation)
    }

    ghost function At(now: int): World
      reads this
    {
      World(Record(), trace, now)
    }

    constructor (cfg: Config)
      ensures this.cfg == cfg && Record() == BEGINNING && trace == []
    {
      this.cfg := cfg;
      mode, client, lastFinished, blockedUntil, blockedAs, generation := Cold, None, None, None, Unset, 0;
      trace := [];
    }

    /** Bootstraps, paces, and executes one serialised search request; `end` is the time at which it returns. */
    method Fetch(v: Visit, now: int) returns (reply: Reply, end: int)
      requires mode == Warm ==> client.Some?
      modifies this
      ensures (At(end), reply) == Session.Fetch(cfg, old(At(now)), v)
    {
      end := now;
      if !v.urlBuilt {
        return Failed(Unset), end;
      }
      if v.page > 1 {
        return Failed(ParseChanged), end;
      }
      if !v.gate {
        return Failed(Timeout), end;
      }
      end := v.arrival;
      var clock := v.arrival;
      var cooling := HandleCooling(clock);
      if cooling.Some? {
        return Failed(cooling.value), clock;
      }
      if mode == Cold {
        var failure;
        failure, clock := BootstrapSession(v, clock);
        if failure.Some? {
          return Failed(failure.value), clock;
        }
      }
      reply, clock := Search(v, clock);
      end := clock;
    }

    method HandleCooling(now: int) returns (refusal: Option<Classification>)
      modifies this
      ensures Thawed(old(Record()), now) <==> refusal.None?
      ensures At(now) == old(At(now)).(session := if refusal.None? then Thaw(old(Record())) else old(Record()))
      ensures refusal.Some? ==> refusal.value == old(blockedAs)
    {
      if mode != Cooling {
        return None;
      }
      if blockedUntil.Some? && !(now < blockedUntil.value) {
        mode := Cold;
        client := None;
        blockedUntil := None;
        blockedAs := Unset;
        return None;
      }
      return Some(blockedAs);
    }

    method BootstrapSession(v: Visit, now: int) returns (failure: Option<Classification>, clock: int)
      requires mode == Cold
      modifies this
      ensures (At(clock), failure) == Bootstrap(cfg, old(At(now)), v)
    {
      clock := now;
      if v.factory.None? {
        return Some(NetworkError), clock;
      }
      client := v.factory;
      generation := generation + 1;
      trace := trace + [Created(v.factory.value)];
      var pause := Pace(cfg, lastFinished, BootstrapReserve(cfg), clock, v.jitter1, v.deadline, v.cancelled1);
      clock := pause.now;
      if !pause.ok {
        return Some(Timeout), clock;
      }
      var verdict;
      verdict, clock := FetchURL(false, v.bootstrap, clock);
      if verdict.FetchFailed? || RiskVerdict(verdict) {
        SessionFailure(verdict, clock);
        return Some(FailureOf(verdict)), clock;
      }
      if verdict.status < 200 || verdict.status >= 400 {
        return Some(NetworkError), clock;
      }
      mode := Warm;
      return None, clock;
    }

    method Search(v: Visit, now: int) returns (reply: Reply, clock: int)
      requires client.Some?
      modifies this
      ensures (At(clock), reply) == SearchWarm(cfg, old(At(now)), v)
    {
      var pause := Pace(cfg, lastFinished, cfg.requestTimeout + cfg.fallbackReserve, now, v.jitter2, v.deadline, v.cancelled2);
      clock := pause.now;
      if !pause.ok {
        return Failed(Timeout), clock;
      }
      var verdict;
      verdict, clock := FetchURL(true, v.search, clock);
      if verdict.FetchFailed? || (verdict.classification != Normal && verdict.classification != Classification.Empty) {
        SessionFailure(verdict, clock);
        return Failed(FailureOf(verdict)), clock;
      }
      return Served(verdict.classification), clock;
    }

    /** One request through the session's client; its end is remembered however it ends. */
    method FetchURL(search: bool, answer: Answer, now: int) returns (verdict: Verdict, clock: int)
      requires client.Some?
      modifies this`lastFinished, this`trace
      ensures verdict == answer.verdict && clock == now + answer.duration && lastFinished == Some(clock)
      ensures trace == old(trace) + [Asked(search, client.value, now, clock, verdict)]
    {
      clock := now + answer.duration;
      verdict := answer.verdict;
      lastFinished := Some(clock);
      trace := trace + [Asked(search, client.value, now, clock, verdict)];
    }

    /** A risk classification cools the session; any other failure leaves it as it is. */
    method SessionFailure(verdict: Verdict, now: int)
      modifies this`mode, this`client, this`blockedAs, this`blockedUntil
      ensures Record() == if verdict.Page? && (verdict.classification == Captcha || verdict.classification == RateLimited
                                               || verdict.classification == Classification.Blocked) then
                            old(Record()).(mode := Cooling, client := None, blockedAs := verdict.classification,
                                           blockedUntil := Some(now + if verdict.classification == Captcha then cfg.captchaCooldown
                                                                      else cfg.rateLimitCooldown))
                          else old(Record())
    {
      var classification := FailureOf(verdict);
      if Session.IsRisk(classification) {
        var cooldown := cfg.rateLimitCooldown;
        if classification == Captcha {
          cooldown := cfg.captchaCooldown;
        }
        mode := Cooling;
        client := None;
        blockedAs := classification;
        blockedUntil := Some(now + cooldown);
      }
    }
  }
}
