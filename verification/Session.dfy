/**
 * The fixed Baidu session: bootstrapped, paced, cooled down after a risk
 * response, and serialised by a gate. Time is an integer; a request and a
 * timer are the only things that take time while the gate is held.
 */
module Session {
  import opened Domain

  datatype Mode = Cold | Warm | Cooling

  datatype Config = Config(
    requestTimeout: int,
    minInterval: int,
    maxJitter: int,
    captchaCooldown: int,
    rateLimitCooldown: int,
    fallbackReserve: int)

  predicate ValidConfig(c: Config) {
    && c.requestTimeout > 0 && c.minInterval > 0 && c.captchaCooldown > 0 && c.rateLimitCooldown > 0
    && c.maxJitter >= 0 && c.fallbackReserve >= 0
  }

  datatype SessionRecord = SessionRecord(
    mode: Mode,
    client: Option<nat>,
    lastFinished: Option<int>,
    blockedUntil: Option<int>,
    blockedAs: Classification,
    generation: nat)

  /** A fetch error, or a page with its classification and status. */
  datatype Verdict = FetchFailed(timedOut: bool) | Page(classification: Classification, status: int)

  datatype Answer = Answer(duration: int, verdict: Verdict)

  datatype Upstream =
    | Created(client: nat)
    | Asked(search: bool, client: nat, started: int, finished: int, verdict: Verdict)

  /** The session, everything it ever asked for, and the time. */
  datatype World = World(session: SessionRecord, trace: seq<Upstream>, now: int)

  /**
   * One call of Fetch and what it meets: when it gets the gate, its deadline,
   * the client the factory makes, the jitter drawn before each wait (None when
   * the random source fails), how long into a wait its context is cancelled,
   * and the answers to its requests.
   */
  datatype Visit = Visit(
    page: int,
    urlBuilt: bool,
    gate: bool,
    arrival: int,
    deadline: Option<int>,
    factory: Option<nat>,
    jitter1: Option<int>,
    cancelled1: Option<int>,
    bootstrap: Answer,
    jitter2: Option<int>,
    cancelled2: Option<int>,
    search: Answer)

  datatype Reply = Served(classification: Classification) | Failed(classification: Classification)

  predicate IsRisk(c: Classification) {
    c == Captcha || c == RateLimited || c == Blocked
  }

  predicate RiskVerdict(v: Verdict) {
    v.Page? && IsRisk(v.classification)
  }

  predicate ValidDraw(cfg: Config, draw: Option<int>) {
    draw.Some? ==> 0 <= draw.value <= cfg.maxJitter
  }

  predicate ValidVisit(cfg: Config, v: Visit) {
    && ValidDraw(cfg, v.jitter1) && ValidDraw(cfg, v.jitter2)
    && 0 <= v.bootstrap.duration <= cfg.requestTimeout
    && 0 <= v.search.duration <= cfg.requestTimeout
    && (v.cancelled1.Some? ==> v.cancelled1.value >= 0)
    && (v.cancelled2.Some? ==> v.cancelled2.value >= 0)
  }

  // ------------------------------------------------------------------
  // The pacer
  // ------------------------------------------------------------------

  datatype Wait = Wait(ok: bool, now: int)

  function DelayFor(cfg: Config, last: Option<int>, draw: Option<int>, now: int): int {
    if last.None? then 0
    else Max(0, cfg.minInterval + (if cfg.maxJitter > 0 && draw.Some? then draw.value else 0) - (now - last.value))
  }

  function Pace(cfg: Config, last: Option<int>, reserve: int, now: int, draw: Option<int>, deadline: Option<int>, cancelled: Option<int>): Wait {
    var delay := DelayFor(cfg, last, draw, now);
    if last.Some? && cfg.maxJitter > 0 && draw.None? then Wait(false, now)
    else if deadline.Some? && deadline.value - now < delay + reserve then Wait(false, now)
    else if cancelled.Some? then Wait(false, now + Min(delay, Max(0, cancelled.value)))
    else Wait(true, now + delay)
  }

  // ------------------------------------------------------------------
  // Fetch
  // ------------------------------------------------------------------

  function Cooldown(cfg: Config, c: Classification): int {
    if c == Captcha then cfg.captchaCooldown else cfg.rateLimitCooldown
  }

  /** One request and the judgement of its answer: a risk response cools the session and drops its client. */
  function Exchange(cfg: Config, w: World, search: bool, answer: Answer): World
    requires w.session.client.Some?
  {
    var finished := w.now + answer.duration;
    var asked := Asked(search, w.session.client.value, w.now, finished, answer.verdict);
    var s := w.session.(lastFinished := Some(finished));
    World(
      if RiskVerdict(answer.verdict) then
        s.(mode := Cooling, client := None, blockedAs := answer.verdict.classification,
           blockedUntil := Some(finished + Cooldown(cfg, answer.verdict.classification)))
      else s,
      w.trace + [asked], finished)
  }

  function FailureOf(v: Verdict): Classification {
    match v
    case FetchFailed(timedOut) => if timedOut then Timeout else NetworkError
    case Page(c, _) => if c == Unset then NetworkError else c
  }

  predicate Thawed(s: SessionRecord, now: int) {
    s.mode == Cooling ==> s.blockedUntil.Some? && now >= s.blockedUntil.value
  }

  function Thaw(s: SessionRecord): SessionRecord {
    if s.mode == Cooling then s.(mode := Cold, client := None, blockedUntil := None, blockedAs := Unset) else s
  }

  function Open(w: World, client: nat): World {
    w.(session := w.session.(client := Some(client), generation := w.session.generation + 1),
       trace := w.trace + [Created(client)])
  }

  function BootstrapReserve(cfg: Config): int {
    2 * cfg.requestTimeout + cfg.minInterval + cfg.maxJitter + cfg.fallbackReserve
  }

  predicate GoodPage(v: Verdict) {
    v.Page? && !IsRisk(v.classification) && 200 <= v.status < 400
  }

  /** The world after bootstrapping a cold session, and None, or the failure to reply with. */
  function Bootstrap(cfg: Config, w: World, v: Visit): (r: (World, Option<Classification>))
    ensures r.1.None? ==> r.0.session.client.Some?
  {
    if v.factory.None? then (w, Some(NetworkError))
    else
      var w1 := Open(w, v.factory.value);
      var pause := Pace(cfg, w1.session.lastFinished, BootstrapReserve(cfg), w1.now, v.jitter1, v.deadline, v.cancelled1);
      if !pause.ok then (w1.(now := pause.now), Some(Timeout))
      else
        var w2 := Exchange(cfg, w1.(now := pause.now), false, v.bootstrap);
        var verdict := v.bootstrap.verdict;
        if verdict.FetchFailed? || RiskVerdict(verdict) then (w2, Some(FailureOf(verdict)))
        else if !GoodPage(verdict) then (w2, Some(NetworkError))
        else (w2.(session := w2.session.(mode := Warm)), None)
  }

  function PaceSearch(cfg: Config, w: World, v: Visit): Wait {
    Pace(cfg, w.session.lastFinished, cfg.requestTimeout + cfg.fallbackReserve, w.now, v.jitter2, v.deadline, v.cancelled2)
  }

  function SearchWarm(cfg: Config, w: World, v: Visit): (World, Reply)
    requires w.session.client.Some?
  {
    var pause := PaceSearch(cfg, w, v);
    if !pause.ok then (w.(now := pause.now), Failed(Timeout))
    else
      var w1 := Exchange(cfg, w.(now := pause.now), true, v.search);
      var verdict := v.search.verdict;
      if verdict.Page? && verdict.classification in {Normal, Classification.Empty} then (w1, Served(verdict.classification))
      else (w1, Failed(FailureOf(verdict)))
  }

  /** Whether a call gets as far as the session at all. */
  predicate Enters(v: Visit) {
    v.urlBuilt && v.page <= 1 && v.gate
  }

  function Fetch(cfg: Config, w: World, v: Visit): (World, Reply)
    requires w.session.mode == Warm ==> w.session.client.Some?
  {
    if !v.urlBuilt then (w, Failed(Unset))
    else if v.page > 1 then (w, Failed(ParseChanged))
    else if !v.gate then (w, Failed(Timeout))
    else if !Thawed(w.session, v.arrival) then (w.(now := v.arrival), Failed(w.session.blockedAs))
    else
      var w1 := World(Thaw(w.session), w.trace, v.arrival);
      if w1.session.mode == Cold then
        var (w2, failure) := Bootstrap(cfg, w1, v);
        if failure.Some? then (w2, Failed(failure.value)) else SearchWarm(cfg, w2, v)
      else SearchWarm(cfg, w1, v)
  }

  // ------------------------------------------------------------------
  // What every run keeps
  // ------------------------------------------------------------------

  predicate BootstrappedWell(trace: seq<Upstream>, client: nat, before: nat)
    requires before <= |trace|
  {
    exists j :: 0 <= j < before && trace[j].Asked? && !trace[j].search && trace[j].client == client && GoodPage(trace[j].verdict)
  }

  predicate Untainted(trace: seq<Upstream>, client: nat, before: nat)
    requires before <= |trace|
  {
    forall j :: 0 <= j < before && trace[j].Asked? && trace[j].client == client ==> !RiskVerdict(trace[j].verdict)
  }

  predicate Spaced(trace: seq<Upstream>, started: int, before: nat, gap: int)
    requires before <= |trace|
  {
    forall j :: 0 <= j < before && trace[j].Asked? ==> trace[j].finished + gap <= started
  }

  function ClientsCreated(trace: seq<Upstream>): nat {
    if trace == [] then 0 else ClientsCreated(trace[..|trace| - 1]) + if trace[|trace| - 1].Created? then 1 else 0
  }

  predicate NewClient(trace: seq<Upstream>, client: nat) {
    forall j :: 0 <= j < |trace| ==> trace[j].client != client
  }

  /**
   * Every request uses a client that no risk response was ever seen on and
   * starts at least minInterval after every earlier request finished; every
   * search uses a client that was bootstrapped well before.
   */
  ghost predicate GoodTrace(cfg: Config, trace: seq<Upstream>) {
    forall k :: 0 <= k < |trace| && trace[k].Asked? ==> GoodRequest(cfg, trace, k)
  }

  ghost predicate GoodRequest(cfg: Config, trace: seq<Upstream>, k: nat)
    requires k < |trace| && trace[k].Asked?
  {
    && trace[k].started <= trace[k].finished
    && Untainted(trace, trace[k].client, k)
    && Spaced(trace, trace[k].started, k, cfg.minInterval)
    && (trace[k].search ==> BootstrappedWell(trace, trace[k].client, k))
  }

  ghost predicate Inv(cfg: Config, w: World) {
    && GoodTrace(cfg, w.trace)
    && w.session.generation == ClientsCreated(w.trace)
    && (w.session.mode == Cooling <==> w.session.blockedUntil.Some?)
    && (if w.session.mode == Cooling then w.session.client.None? && IsRisk(w.session.blockedAs) else w.session.blockedAs == Unset)
    && (w.session.client.Some? ==> Untainted(w.trace, w.session.client.value, |w.trace|))
    && (w.session.mode == Warm ==> w.session.client.Some? && BootstrappedWell(w.trace, w.session.client.value, |w.trace|))
    && (match w.session.lastFinished
        case None => forall j :: 0 <= j < |w.trace| ==> !w.trace[j].Asked?
        case Some(t) => t <= w.now && Spaced(w.trace, t, |w.trace|, 0))
  }

  const BEGINNING := SessionRecord(Cold, None, None, None, Unset, 0)

  lemma GrownTraceStaysGood(cfg: Config, trace: seq<Upstream>, u: Upstream)
    requires GoodTrace(cfg, trace)
    requires u.Asked? ==>
               && u.started <= u.finished
               && Untainted(trace, u.client, |trace|)
               && Spaced(trace, u.started, |trace|, cfg.minInterval)
               && (u.search ==> BootstrappedWell(trace, u.client, |trace|))
    ensures GoodTrace(cfg, trace + [u])
  {
    var grown := trace + [u];
    forall k | 0 <= k < |grown| && grown[k].Asked?
      ensures GoodRequest(cfg, grown, k)
    {
      assert forall j :: 0 <= j < |trace| ==> grown[j] == trace[j];
      if k < |trace| {
        assert GoodRequest(cfg, trace, k);
        if trace[k].search {
          var j :| 0 <= j < k && trace[j].Asked? && !trace[j].search && trace[j].client == trace[k].client && GoodPage(trace[j].verdict);
          assert grown[j] == trace[j];
        }
      } else if u.search {
        var j :| 0 <= j < |trace| && trace[j].Asked? && !trace[j].search && trace[j].client == u.client && GoodPage(trace[j].verdict);
        assert grown[j] == trace[j];
      }
    }
  }

  /** A new client asks nothing yet, and has a clean record. */
  lemma ClientGrows(trace: seq<Upstream>, client: nat, grown: seq<Upstream>)
    requires grown == trace + [Created(client)]
    ensures ClientsCreated(grown) == ClientsCreated(trace) + 1
    ensures NewClient(trace, client) ==> Untainted(grown, client, |grown|)
    ensures (forall j :: 0 <= j < |trace| ==> !trace[j].Asked?) ==> forall j :: 0 <= j < |grown| ==> !grown[j].Asked?
    ensures forall t: int :: Spaced(trace, t, |trace|, 0) ==> Spaced(grown, t, |grown|, 0)
  {
    assert grown[..|grown| - 1] == trace;
    assert forall j :: 0 <= j < |trace| ==> grown[j] == trace[j];
  }

  lemma OpenKeepsInv(cfg: Config, w: World, client: nat)
    requires Inv(cfg, w) && w.session.mode == Cold && NewClient(w.trace, client)
    ensures Inv(cfg, Open(w, client))
  {
    hide GoodTrace, Untainted, Spaced, ClientsCreated, BootstrappedWell;
    GrownTraceStaysGood(cfg, w.trace, Created(client));
    ClientGrows(w.trace, client, Open(w, client).trace);
  }

  lemma PacedRequestIsSpaced(cfg: Config, w: World, reserve: int, draw: Option<int>, deadline: Option<int>, cancelled: Option<int>)
    requires ValidConfig(cfg) && Inv(cfg, w) && ValidDraw(cfg, draw)
    ensures var pause := Pace(cfg, w.session.lastFinished, reserve, w.now, draw, deadline, cancelled);
            && pause.now >= w.now
            && Inv(cfg, w.(now := pause.now))
            && (pause.ok ==> Spaced(w.trace, pause.now, |w.trace|, cfg.minInterval))
  {
  }

  lemma ExchangeKeepsInv(cfg: Config, w: World, search: bool, answer: Answer)
    requires Inv(cfg, w) && w.session.client.Some? && answer.duration >= 0
    requires Spaced(w.trace, w.now, |w.trace|, cfg.minInterval) && cfg.minInterval > 0
    requires search <==> w.session.mode == Warm
    ensures Inv(cfg, Exchange(cfg, w, search, answer))
  {
    var w' := Exchange(cfg, w, search, answer);
    RequestGrows(cfg, w.trace, Asked(search, w.session.client.value, w.now, w.now + answer.duration, answer.verdict), w'.trace);
    if RiskVerdict(answer.verdict) {
      assert w'.session.mode == Cooling && w'.session.client == None;
    } else {
      assert w'.session == w.session.(lastFinished := Some(w'.now));
    }
  }

  lemma GoodBootstrapWarms(cfg: Config, w: World, answer: Answer)
    requires w.session.client.Some? && GoodPage(answer.verdict) && w.session.mode == Cold
    requires Inv(cfg, Exchange(cfg, w, false, answer))
    ensures var w' := Exchange(cfg, w, false, answer);
            Inv(cfg, w'.(session := w'.session.(mode := Warm)))
  {
    var w' := Exchange(cfg, w, false, answer);
    assert w'.trace[|w.trace|].client == w.session.client.value;
    assert BootstrappedWell(w'.trace, w.session.client.value, |w'.trace|);
  }

  /** What one more sound request leaves true of the trace. */
  lemma RequestGrows(cfg: Config, trace: seq<Upstream>, u: Upstream, grown: seq<Upstream>)
    requires grown == trace + [u]
    requires GoodTrace(cfg, trace) && u.Asked? && u.started <= u.finished && cfg.minInterval > 0
    requires Untainted(trace, u.client, |trace|) && Spaced(trace, u.started, |trace|, cfg.minInterval)
    requires u.search ==> BootstrappedWell(trace, u.client, |trace|)
    ensures GoodTrace(cfg, grown)
    ensures ClientsCreated(grown) == ClientsCreated(trace)
    ensures Spaced(grown, u.finished, |grown|, 0)
    ensures !RiskVerdict(u.verdict) ==> Untainted(grown, u.client, |grown|)
    ensures u.search ==> BootstrappedWell(grown, u.client, |grown|)
  {
    GrownTraceStaysGood(cfg, trace, u);
    SpacingGrows(trace, u, cfg.minInterval);
    TaintGrows(trace, u, u.client);
    assert grown[..|grown| - 1] == trace;
    if u.search {
      BootstrapGrows(trace, u, u.client);
    }
  }

  lemma BootstrapGrows(trace: seq<Upstream>, u: Upstream, client: nat)
    requires BootstrappedWell(trace, client, |trace|)
    ensures BootstrappedWell(trace + [u], client, |trace| + 1)
  {
    var j :| 0 <= j < |trace| && trace[j].Asked? && !trace[j].search && trace[j].client == client && GoodPage(trace[j].verdict);
    assert (trace + [u])[j] == trace[j];
  }

  lemma SpacingGrows(trace: seq<Upstream>, u: Upstream, gap: int)
    requires u.Asked? && u.started <= u.finished && gap >= 0 && Spaced(trace, u.started, |trace|, gap)
    ensures Spaced(trace + [u], u.finished, |trace| + 1, 0)
  {
  }

  lemma TaintGrows(trace: seq<Upstream>, u: Upstream, client: nat)
    requires u.Asked? && Untainted(trace, client, |trace|)
    ensures !RiskVerdict(u.verdict) ==> Untainted(trace + [u], client, |trace| + 1)
  {
  }

  lemma BootstrapKeepsInv(cfg: Config, w: World, v: Visit)
    requires ValidConfig(cfg) && ValidVisit(cfg, v) && Inv(cfg, w) && w.session.mode == Cold
    requires v.factory.Some? ==> NewClient(w.trace, v.factory.value)
    ensures Inv(cfg, Bootstrap(cfg, w, v).0) && Bootstrap(cfg, w, v).0.now >= w.now
    ensures Bootstrap(cfg, w, v).1.None? ==> Bootstrap(cfg, w, v).0.session.mode == Warm
  {
    if v.factory.Some? {
      var w1 := Open(w, v.factory.value);
      OpenKeepsInv(cfg, w, v.factory.value);
      PacedRequestIsSpaced(cfg, w1, BootstrapReserve(cfg), v.jitter1, v.deadline, v.cancelled1);
      var pause := Pace(cfg, w1.session.lastFinished, BootstrapReserve(cfg), w1.now, v.jitter1, v.deadline, v.cancelled1);
      if pause.ok {
        ExchangeKeepsInv(cfg, w1.(now := pause.now), false, v.bootstrap);
        if GoodPage(v.bootstrap.verdict) {
          GoodBootstrapWarms(cfg, w1.(now := pause.now), v.bootstrap);
        }
      }
    }
  }

  lemma SearchWarmKeepsInv(cfg: Config, w: World, v: Visit)
    requires ValidConfig(cfg) && ValidVisit(cfg, v) && Inv(cfg, w) && w.session.mode == Warm
    ensures Inv(cfg, SearchWarm(cfg, w, v).0) && SearchWarm(cfg, w, v).0.now >= w.now
  {
    PacedRequestIsSpaced(cfg, w, cfg.requestTimeout + cfg.fallbackReserve, v.jitter2, v.deadline, v.cancelled2);
    var pause := PaceSearch(cfg, w, v);
    if pause.ok {
      ExchangeKeepsInv(cfg, w.(now := pause.now), true, v.search);
    }
  }

  /** Calls come in the order in which they get the gate, and the factory never hands out a client twice. */
  predicate Allowed(cfg: Config, w: World, v: Visit) {
    ValidVisit(cfg, v) && w.now <= v.arrival && (v.factory.Some? ==> NewClient(w.trace, v.factory.value))
  }

  lemma FetchKeepsInv(cfg: Config, w: World, v: Visit)
    requires ValidConfig(cfg) && Inv(cfg, w) && Allowed(cfg, w, v)
    ensures Inv(cfg, Fetch(cfg, w, v).0)
  {
    if Enters(v) && Thawed(w.session, v.arrival) {
      var w1 := World(Thaw(w.session), w.trace, v.arrival);
      assert Inv(cfg, w1);
      if w1.session.mode == Cold {
        BootstrapKeepsInv(cfg, w1, v);
        var r := Bootstrap(cfg, w1, v);
        if r.1.None? {
          SearchWarmKeepsInv(cfg, r.0, v);
        }
      } else {
        SearchWarmKeepsInv(cfg, w1, v);
      }
    }
  }

  ghost predicate RunAllowed(cfg: Config, w: World, vs: seq<Visit>)
    requires ValidConfig(cfg) && Inv(cfg, w)
    decreases |vs|
  {
    vs == [] || (Allowed(cfg, w, vs[0]) && (FetchKeepsInv(cfg, w, vs[0]); RunAllowed(cfg, Fetch(cfg, w, vs[0]).0, vs[1..])))
  }

  ghost function Run(cfg: Config, w: World, vs: seq<Visit>): World
    requires ValidConfig(cfg) && Inv(cfg, w) && RunAllowed(cfg, w, vs)
    decreases |vs|
  {
    if vs == [] then w else FetchKeepsInv(cfg, w, vs[0]); Run(cfg, Fetch(cfg, w, vs[0]).0, vs[1..])
  }

  lemma {:induction false} RunKeepsInv(cfg: Config, w: World, vs: seq<Visit>)
    requires ValidConfig(cfg) && Inv(cfg, w) && RunAllowed(cfg, w, vs)
    ensures Inv(cfg, Run(cfg, w, vs))
    decreases |vs|
  {
    if vs != [] {
      FetchKeepsInv(cfg, w, vs[0]);
      RunKeepsInv(cfg, Fetch(cfg, w, vs[0]).0, vs[1..]);
    }
  }

  lemma BeginningKeepsInv(cfg: Config, now: int)
    ensures Inv(cfg, World(BEGINNING, [], now))
  {
  }

  /** What an operator sees of any session that started cold. */
  lemma EveryRunIsWellBehaved(cfg: Config, now: int, vs: seq<Visit>)
    requires ValidConfig(cfg) && Inv(cfg, World(BEGINNING, [], now)) && RunAllowed(cfg, World(BEGINNING, [], now), vs)
    ensures var w := Run(cfg, World(BEGINNING, [], now), vs);
            && GoodTrace(cfg, w.trace)
            && w.session.generation == ClientsCreated(w.trace)
            && (w.session.mode == Cooling <==> w.session.blockedUntil.Some?)
            && (w.session.mode == Cooling <==> w.session.blockedAs != Unset)
  {
    RunKeepsInv(cfg, World(BEGINNING, [], now), vs);
  }

  // ------------------------------------------------------------------
  // Deadlines
  // ------------------------------------------------------------------

  /**
   * Once the budget check before a bootstrap has passed, the one before the
   * search cannot fail for lack of budget: that wait fails only when the
   * random source does or the caller cancels.
   */
  lemma BootstrapBudgetCoversSearch(cfg: Config, w: World, v: Visit)
    requires ValidConfig(cfg) && ValidVisit(cfg, v)
    requires Bootstrap(cfg, w, v).1.None?
    ensures PaceSearch(cfg, Bootstrap(cfg, w, v).0, v).ok
            <==> (cfg.maxJitter > 0 ==> v.jitter2.Some?) && v.cancelled2.None?
  {
  }

  /** After every search request at least the fallback reserve is left of the caller's deadline. */
  lemma SearchLeavesReserve(cfg: Config, w: World, v: Visit)
    requires ValidConfig(cfg) && ValidVisit(cfg, v) && (w.session.mode == Warm ==> w.session.client.Some?)
    requires v.deadline.Some?
    requires var trace := Fetch(cfg, w, v).0.trace;
             |trace| > |w.trace| && trace[|trace| - 1].Asked? && trace[|trace| - 1].search
    ensures Fetch(cfg, w, v).0.now <= v.deadline.value - cfg.fallbackReserve
  {
  }

  // ------------------------------------------------------------------
  // Cooling
  // ------------------------------------------------------------------

  /** No answer, whatever the call, before the block ends. */
  lemma BlockedSessionAsksNothing(cfg: Config, w: World, v: Visit)
    requires Inv(cfg, w) && w.session.mode == Cooling && (Enters(v) ==> v.arrival < w.session.blockedUntil.value)
    ensures var (w', reply) := Fetch(cfg, w, v);
            && w'.session == w.session && w'.trace == w.trace
            && reply.Failed?
            && (Enters(v) ==> reply.classification == w.session.blockedAs && IsRisk(reply.classification))
  {
  }

  lemma {:induction false} BlockLasts(cfg: Config, w: World, vs: seq<Visit>)
    requires ValidConfig(cfg) && Inv(cfg, w) && w.session.mode == Cooling && RunAllowed(cfg, w, vs)
    requires forall k :: 0 <= k < |vs| && Enters(vs[k]) ==> vs[k].arrival < w.session.blockedUntil.value
    ensures Run(cfg, w, vs).trace == w.trace && Run(cfg, w, vs).session == w.session
    decreases |vs|
  {
    if vs != [] {
      BlockedSessionAsksNothing(cfg, w, vs[0]);
      FetchKeepsInv(cfg, w, vs[0]);
      BlockLasts(cfg, Fetch(cfg, w, vs[0]).0, vs[1..]);
    }
  }

  /** How the last page of a trace was classified. */
  function ToldLast(trace: seq<Upstream>): Classification {
    if trace != [] && trace[|trace| - 1].Asked? && trace[|trace| - 1].verdict.Page? then trace[|trace| - 1].verdict.classification
    else Unset
  }

  /** When the last request of a trace finished. */
  function EndedLast(trace: seq<Upstream>): int {
    if trace != [] && trace[|trace| - 1].Asked? then trace[|trace| - 1].finished else 0
  }

  /** The call asked for something, and the last thing it was told is a captcha, a rate limit or a block. */
  predicate EndsInRisk(before: seq<Upstream>, after: seq<Upstream>) {
    && |after| > |before|
    && (ToldLast(after) == Captcha || ToldLast(after) == RateLimited || ToldLast(after) == Classification.Blocked)
  }

  /** What a risk response leaves: the last answer's classification, and the end of its cooldown. */
  predicate Cooled(cfg: Config, w: World) {
    && w.session.mode == Cooling && w.session.client.None? && w.session.blockedAs == ToldLast(w.trace)
    && w.session.blockedUntil ==
         Some(EndedLast(w.trace) + if ToldLast(w.trace) == Captcha then cfg.captchaCooldown else cfg.rateLimitCooldown)
  }

  lemma BootstrapCools(cfg: Config, w: World, v: Visit)
    requires EndsInRisk(w.trace, Bootstrap(cfg, w, v).0.trace)
    ensures var (w', failure) := Bootstrap(cfg, w, v); failure == Some(ToldLast(w'.trace)) && Cooled(cfg, w')
  {
    hide Pace;
  }

  lemma SearchCools(cfg: Config, w: World, v: Visit)
    requires w.session.client.Some? && EndsInRisk(w.trace, SearchWarm(cfg, w, v).0.trace)
    ensures var (w', reply) := SearchWarm(cfg, w, v); reply == Failed(ToldLast(w'.trace)) && Cooled(cfg, w')
  {
    hide Pace;
  }

  /** A call only adds to what the session has asked for. */
  lemma FetchExtends(cfg: Config, w: World, v: Visit)
    requires w.session.mode == Warm ==> w.session.client.Some?
    ensures w.trace <= Fetch(cfg, w, v).0.trace
  {
    hide Pace;
  }

  lemma SearchGrows(cfg: Config, w: World, v: Visit)
    requires w.session.client.Some?
    ensures |SearchWarm(cfg, w, v).0.trace| == |w.trace| + 1 || SearchWarm(cfg, w, v).0.trace == w.trace
  {
    hide Pace;
  }

  /**
   * A risk response that finished at time t fails the call under its own
   * classification, drops the client, and blocks the session until exactly t
   * plus the captcha cooldown for a captcha, and until exactly t plus the
   * rate-limit cooldown for the others.
   */
  lemma RiskCoolsSession(cfg: Config, w: World, v: Visit)
    requires (w.session.mode == Warm ==> w.session.client.Some?) && EndsInRisk(w.trace, Fetch(cfg, w, v).0.trace)
    ensures var (w', reply) := Fetch(cfg, w, v);
            var c := ToldLast(w'.trace);
            && reply == Failed(c)
            && w'.session.mode == Cooling && w'.session.client.None? && w'.session.blockedAs == c
            && w'.session.blockedUntil ==
                 Some(EndedLast(w'.trace) + if c == Captcha then cfg.captchaCooldown else cfg.rateLimitCooldown)
  {
    hide Bootstrap, SearchWarm, GoodTrace, Untainted, Spaced, BootstrappedWell, ClientsCreated;
    if Enters(v) && Thawed(w.session, v.arrival) {
      var w1 := World(Thaw(w.session), w.trace, v.arrival);
      if w1.session.mode != Cold {
        SearchCools(cfg, w1, v);
      } else {
        var (w2, failure) := Bootstrap(cfg, w1, v);
        if failure.None? {
          SearchGrows(cfg, w2, v);
          if SearchWarm(cfg, w2, v).0.trace != w2.trace {
            SearchCools(cfg, w2, v);
          }
        }
        if EndsInRisk(w.trace, w2.trace) {
          BootstrapCools(cfg, w1, v);
        }
      }
    }
  }

  /** A call on a cooling session that gets the gate is let through from the end of the block on, and not before. */
  lemma ThawsExactlyWhen(cfg: Config, w: World, v: Visit)
    requires Inv(cfg, w) && w.session.mode == Cooling && Enters(v) && v.factory.Some?
    ensures Fetch(cfg, w, v).0.trace != w.trace <==> v.arrival >= w.session.blockedUntil.value
  {
    if v.arrival < w.session.blockedUntil.value {
      BlockedSessionAsksNothing(cfg, w, v);
    }
  }

  /**
   * After a risk response that finished at time t no call that gets the gate
   * before the end of its cooldown asks for anything, and the next call after
   * any number of them is let through if and only if the cooldown is over.
   */
  lemma RiskSilencesSession(cfg: Config, w: World, v: Visit, vs: seq<Visit>, next: Visit)
    requires ValidConfig(cfg) && Inv(cfg, w) && Allowed(cfg, w, v) && EndsInRisk(w.trace, Fetch(cfg, w, v).0.trace)
    requires Inv(cfg, Fetch(cfg, w, v).0) && RunAllowed(cfg, Fetch(cfg, w, v).0, vs)
    requires Enters(next) && next.factory.Some?
    requires var w' := Fetch(cfg, w, v).0;
             var until := EndedLast(w'.trace) + if ToldLast(w'.trace) == Captcha then cfg.captchaCooldown else cfg.rateLimitCooldown;
             forall k :: 0 <= k < |vs| && Enters(vs[k]) ==> vs[k].arrival < until
    ensures var w' := Fetch(cfg, w, v).0;
            var until := EndedLast(w'.trace) + if ToldLast(w'.trace) == Captcha then cfg.captchaCooldown else cfg.rateLimitCooldown;
            var silent := Run(cfg, w', vs);
            && silent.trace == w'.trace && silent.session == w'.session
            && (Fetch(cfg, silent, next).0.trace != w'.trace <==> next.arrival >= until)
  {
    hide Fetch, GoodTrace, Untainted, Spaced, BootstrappedWell, ClientsCreated;
    var w' := Fetch(cfg, w, v).0;
    RiskCoolsSession(cfg, w, v);
    BlockLasts(cfg, w', vs);
    RunKeepsInv(cfg, w', vs);
    ThawsExactlyWhen(cfg, Run(cfg, w', vs), next);
  }

  // ------------------------------------------------------------------
  // When it asks, and what it replies
  // ------------------------------------------------------------------

  /** The earliest time for the next request: the interval and the drawn jitter after the last one finished. */
  function Earliest(cfg: Config, last: Option<int>, now: int, draw: Option<int>): int {
    var pause := cfg.minInterval + if cfg.maxJitter > 0 && draw.Some? then draw.value else 0;
    if last.None? || last.value + pause <= now then now else last.value + pause
  }

  /**
   * A wait goes through exactly if the jitter can be drawn where one is due,
   * the deadline leaves the reserve after the wait, and nobody cancels. It
   * then ends at the earliest time; without a cancellation a failure takes no time.
   */
  lemma PaceMeans(cfg: Config, last: Option<int>, reserve: int, now: int, draw: Option<int>, deadline: Option<int>, cancelled: Option<int>)
    ensures var pause, start := Pace(cfg, last, reserve, now, draw, deadline, cancelled), Earliest(cfg, last, now, draw);
            && (pause.ok <==>
                  && (last.None? || cfg.maxJitter <= 0 || draw.Some?)
                  && (deadline.Some? ==> start + reserve <= deadline.value)
                  && cancelled.None?)
            && (pause.ok ==> pause.now == start)
            && (!pause.ok && cancelled.None? ==> pause.now == now)
            && now <= pause.now <= start
  {
  }

  /** A cold session asks for its bootstrap page only if the deadline leaves room for two whole requests, one pause and the fallback. */
  lemma BootstrapStartsExactlyWhen(cfg: Config, w: World, v: Visit)
    ensures var start := Earliest(cfg, w.session.lastFinished, w.now, v.jitter1);
            |Bootstrap(cfg, w, v).0.trace| == |w.trace| + 2 <==>
              && v.factory.Some?
              && (w.session.lastFinished.None? || cfg.maxJitter <= 0 || v.jitter1.Some?)
              && (v.deadline.Some? ==>
                    start + 2 * cfg.requestTimeout + cfg.minInterval + cfg.maxJitter + cfg.fallbackReserve <= v.deadline.value)
              && v.cancelled1.None?
  {
    hide Pace;
    if v.factory.Some? {
      PaceMeans(cfg, w.session.lastFinished, BootstrapReserve(cfg), w.now, v.jitter1, v.deadline, v.cancelled1);
    }
  }

  /** A search request needs room for itself and the fallback. */
  lemma SearchStartsExactlyWhen(cfg: Config, w: World, v: Visit)
    requires w.session.client.Some?
    ensures var start := Earliest(cfg, w.session.lastFinished, w.now, v.jitter2);
            SearchWarm(cfg, w, v).0.trace != w.trace <==>
              && (w.session.lastFinished.None? || cfg.maxJitter <= 0 || v.jitter2.Some?)
              && (v.deadline.Some? ==> start + cfg.requestTimeout + cfg.fallbackReserve <= v.deadline.value)
              && v.cancelled2.None?
  {
    hide Pace;
    PaceMeans(cfg, w.session.lastFinished, cfg.requestTimeout + cfg.fallbackReserve, w.now, v.jitter2, v.deadline, v.cancelled2);
  }

  function AfterFetchError(timedOut: bool): Classification {
    if timedOut then Timeout else NetworkError
  }

  /** What the last answer of a call makes of its reply. */
  predicate RepliesTo(u: Upstream, reply: Reply) {
    match u
    case Created(_) => reply == Failed(Timeout)
    case Asked(_, _, _, _, FetchFailed(timedOut)) => reply == Failed(AfterFetchError(timedOut))
    case Asked(true, _, _, _, Page(c, _)) =>
      reply == if c == Normal || c == Classification.Empty then Served(c)
               else Failed(if c == Unset then NetworkError else c)
    case Asked(false, _, _, _, Page(c, status)) =>
      reply == Failed(if c == Captcha || c == RateLimited || c == Classification.Blocked then c
                      else if status < 200 || status >= 400 then NetworkError
                      else Timeout)
  }

  /** A call that asked for something replies to the last answer; one that did not says what stopped it, the URL first, then the page, the gate and the block. */
  lemma ReplyMeans(cfg: Config, w: World, v: Visit)
    requires Inv(cfg, w)
    ensures var (w', reply) := Fetch(cfg, w, v);
            && w.trace <= w'.trace
            && (w'.trace != w.trace ==> RepliesTo(w'.trace[|w'.trace| - 1], reply))
            && (w'.trace == w.trace ==>
                  reply == Failed(
                    if !v.urlBuilt then Unset
                    else if v.page > 1 then ParseChanged
                    else if !v.gate then Timeout
                    else if w.session.mode == Cooling && v.arrival < w.session.blockedUntil.value then w.session.blockedAs
                    else if w.session.mode == Warm then Timeout
                    else NetworkError))
  {
    hide Pace, GoodTrace, Untainted, Spaced, BootstrappedWell, ClientsCreated;
  }
}
