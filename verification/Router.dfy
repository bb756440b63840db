/**
 * The automatic router's retry loop: lease, search, release, and reroute to
 * another identity or another provider within fixed attempt limits.
 */
module Router {
  import opened Domain
  import opened Lifecycle
  import opened Sequences
  import PoolModel

  datatype Limits = Limits(maxProviderAttempts: int, maxAgentAttempts: int, autoQueueMax: int)

  /** The limits that a constructed router works with. */
  function NormalizedLimits(c: Limits): (r: Limits)
    ensures r.maxProviderAttempts >= 1 && r.maxAgentAttempts >= 1 && r.autoQueueMax >= 1
  {
    Limits(
      if c.maxProviderAttempts <= 0 then 3 else c.maxProviderAttempts,
      if c.maxAgentAttempts <= 0 then 2 else c.maxAgentAttempts,
      if c.autoQueueMax <= 0 then 100 else c.autoQueueMax)
  }

  /** Positive limits are kept; the others become three providers, two identities and a queue of a hundred. */
  lemma NormalizedLimitsMeans(c: Limits)
    ensures var r := NormalizedLimits(c);
            && r.maxProviderAttempts == (if c.maxProviderAttempts >= 1 then c.maxProviderAttempts else 3)
            && r.maxAgentAttempts == (if c.maxAgentAttempts >= 1 then c.maxAgentAttempts else 2)
            && r.autoQueueMax == (if c.autoQueueMax >= 1 then c.autoQueueMax else 100)
    ensures NormalizedLimits(NormalizedLimits(c)) == NormalizedLimits(c)
  {
  }

  datatype Failure = SearchError(code: ErrorCode, retryable: bool) | OtherError

  datatype Answer = Answered(resultCount: nat) | Failed(failure: Failure)

  /** What a leased search reports back to its pool. */
  function ResultFor(answer: Answer): Result {
    match answer
    case Answered(n) => Result(n > 0, if n == 0 then Classification.Empty else Normal)
    case Failed(OtherError) => Result(false, Unset)
    case Failed(SearchError(code, _)) =>
      Result(false,
             match code
             case CaptchaRequired => Captcha
             case RateLimitHit => RateLimited
             case UpstreamChanged => ParseChanged
             case UpstreamTimeout => Timeout
             case _ => NetworkError)
  }

  /**
   * What a pool must be told about one turn: a success only for a non-empty
   * answer, each risk or fault under its own classification, and a network
   * error when the trace is lost before the search.
   */
  predicate Reports(turn: Turn, result: Result) {
    var f := turn.answer;
    && (result.succeeded <==> turn.tracedRoute && turn.tracedLease && f.Answered? && f.resultCount > 0)
    && (!turn.tracedRoute || !turn.tracedLease ==> result.classification == NetworkError)
    && (turn.tracedRoute && turn.tracedLease ==>
          && (f.Answered? ==> result.classification == if f.resultCount > 0 then Normal else Classification.Empty)
          && (f.Failed? && f.failure.OtherError? ==> result.classification == Unset)
          && (f.Failed? && f.failure.SearchError? ==>
                var code := f.failure.code;
                result.classification ==
                  if code == CaptchaRequired then Captcha
                  else if code == RateLimitHit then RateLimited
                  else if code == UpstreamChanged then ParseChanged
                  else if code == UpstreamTimeout then Timeout
                  else NetworkError))
  }

  predicate Reroutable(f: Failure) {
    f.SearchError? && f.retryable
    && f.code in {CaptchaRequired, RateLimitHit, UpstreamChanged, ProviderUnavailable, UpstreamTimeout}
  }

  /**
   * What the outside world answers in one turn of the loop. `direct` and
   * `again` map a provider to the identity its pool leases on the first and on
   * the last immediate try; `raced` is what the waiting race brings.
   */
  datatype Turn = Turn(
    budget: bool,
    direct: map<string, string>,
    depth: int,
    raced: Option<(string, string)>,
    again: map<string, string>,
    tracedRoute: bool,
    tracedLease: bool,
    answer: Answer,
    released: bool,
    tracedAfter: bool,
    alternative: bool)

  datatype Reply =
    | Success(provider: string, profile: string, fallbackCount: nat, warnings: seq<string>, degraded: bool)
    | Full
    | Exhausted
    | TraceFailed
    | Refused(failure: Failure)

  datatype Lease = Lease(provider: string, profile: string)

  /** What happens to leases, in order. `direct` says that the lease came from an immediate try. */
  datatype LeaseEvent = Leased(lease: Lease, direct: bool) | Returned(lease: Lease, result: Result)

  /** Every lease is returned, once, before the next one is taken. */
  ghost predicate Balanced(log: seq<LeaseEvent>) {
    && |log| % 2 == 0
    && forall k :: 0 <= k < |log| && k % 2 == 0 ==> log[k].Leased? && log[k + 1].Returned? && log[k + 1].lease == log[k].lease
  }

  /** The identity of `provider` leased last. */
  function LastProfile(log: seq<LeaseEvent>, provider: string): string {
    if log == [] then ""
    else
      var last := log[|log| - 1];
      if last.Leased? && last.lease.provider == provider then last.lease.profile
      else LastProfile(log[..|log| - 1], provider)
  }

  /** An immediate try never leases the identity of that provider that has just failed. */
  ghost predicate AvoidsLast(log: seq<LeaseEvent>) {
    forall k :: 0 <= k < |log| && log[k].Leased? && log[k].direct ==>
      log[k].lease.profile != LastProfile(log[..k], log[k].lease.provider)
  }

  function Attempts(m: map<string, nat>, p: string): nat {
    if p in m then m[p] else 0
  }

  function Total(pools: seq<string>, m: map<string, nat>): nat {
    if pools == [] then 0 else Attempts(m, pools[0]) + Total(pools[1..], m)
  }

  lemma {:induction false} TotalAfter(pools: seq<string>, m: map<string, nat>, p: string)
    requires Distinct(pools)
    ensures Total(pools, m[p := Attempts(m, p) + 1]) == Total(pools, m) + if p in pools then 1 else 0
  {
    if pools != [] {
      assert forall k :: 0 <= k < |pools| - 1 ==> pools[1..][k] == pools[k + 1];
      TotalAfter(pools[1..], m, p);
      assert p in pools <==> p == pools[0] || p in pools[1..];
    }
  }

  function Members(pools: seq<string>, s: set<string>): nat {
    if pools == [] then 0 else (if pools[0] in s then 1 else 0) + Members(pools[1..], s)
  }

  lemma {:induction false} MembersBound(pools: seq<string>, s: set<string>)
    requires Distinct(pools)
    ensures Members(pools, s) <= |s|
  {
    if pools != [] {
      assert forall k :: 0 <= k < |pools| - 1 ==> pools[1..][k] == pools[k + 1];
      MembersBound(pools[1..], s - {pools[0]});
      MembersWithout(pools[1..], s, pools[0]);
    }
  }

  lemma {:induction false} MembersWithout(pools: seq<string>, s: set<string>, p: string)
    requires p !in pools
    ensures Members(pools, s - {p}) == Members(pools, s)
  {
    if pools != [] {
      MembersWithout(pools[1..], s, p);
    }
  }

  /** Attempts stay one below the limit on a provider that is still open, and within it on one given up. */
  ghost predicate WithinLimits(pools: seq<string>, m: map<string, nat>, given: set<string>, limit: int) {
    forall p :: p in pools ==> Attempts(m, p) <= if p in given then limit else limit - 1
  }

  lemma {:induction false} TotalBound(pools: seq<string>, m: map<string, nat>, given: set<string>, limit: int)
    requires Distinct(pools) && WithinLimits(pools, m, given, limit)
    ensures Total(pools, m) <= |pools| * (limit - 1) + Members(pools, given)
  {
    if pools != [] {
      assert forall k :: 0 <= k < |pools| - 1 ==> pools[1..][k] == pools[k + 1];
      TotalBound(pools[1..], m, given, limit);
      assert pools[0] in pools;
      assert |pools| * (limit - 1) == (|pools| - 1) * (limit - 1) + (limit - 1);
    }
  }

  /** The most rounds a request can take over `n` pools. */
  function RoundLimit(cfg: Limits, n: nat): int {
    n * (cfg.maxAgentAttempts - 1) + Min(n, cfg.maxProviderAttempts)
  }

  /** A pool never leases the identity that its caller excludes. */
  function OfferOf(offers: map<string, string>, excluded: map<string, string>, pool: string): Option<string> {
    if pool in offers && (pool in excluded ==> offers[pool] != excluded[pool]) && offers[pool] != "" then Some(offers[pool])
    else None
  }

  function FirstOffer(pools: seq<string>, offers: map<string, string>, attempted: set<string>, excluded: map<string, string>)
    : Option<Lease>
  {
    if pools == [] then None
    else if pools[0] !in attempted && OfferOf(offers, excluded, pools[0]).Some? then
      Some(Lease(pools[0], OfferOf(offers, excluded, pools[0]).value))
    else FirstOffer(pools[1..], offers, attempted, excluded)
  }

  /** A pool that is still open leases this identity, which is not the one its caller excludes. */
  predicate Offers(offers: map<string, string>, attempted: set<string>, excluded: map<string, string>, lease: Lease) {
    && lease.provider !in attempted
    && lease.provider in offers && offers[lease.provider] == lease.profile && lease.profile != ""
    && (lease.provider in excluded ==> lease.profile != excluded[lease.provider])
  }

  /** `lease` comes from the first pool in priority order that offers one; None if none does. */
  ghost predicate IsFirstOffer(pools: seq<string>, offers: map<string, string>, attempted: set<string>,
                               excluded: map<string, string>, lease: Option<Lease>)
  {
    match lease
    case None => forall j, id :: 0 <= j < |pools| ==> !Offers(offers, attempted, excluded, Lease(pools[j], id))
    case Some(l) =>
      exists k :: 0 <= k < |pools| && pools[k] == l.provider && Offers(offers, attempted, excluded, l)
                  && forall j, id :: 0 <= j < k ==> !Offers(offers, attempted, excluded, Lease(pools[j], id))
  }

  /** The first pool in priority order that is still open and leases an identity other than its excluded one. */
  method TryAcquire(pools: seq<string>, offers: map<string, string>, attempted: set<string>, excluded: map<string, string>)
    returns (lease: Option<Lease>)
    ensures lease == FirstOffer(pools, offers, attempted, excluded)
    ensures IsFirstOffer(pools, offers, attempted, excluded, lease)
  {
    for i := 0 to |pools|
      invariant FirstOffer(pools[i..], offers, attempted, excluded) == FirstOffer(pools, offers, attempted, excluded)
      invariant forall j, id :: 0 <= j < i ==> !Offers(offers, attempted, excluded, Lease(pools[j], id))
    {
      if pools[i] !in attempted {
        var offer := OfferOf(offers, excluded, pools[i]);
        if offer.Some? {
          return Some(Lease(pools[i], offer.value));
        }
      }
    }
    return None;
  }

  /** Whether a pool still shows a serving identity with a free slot besides the one that has just failed. */
  method HasAlternativeProfile(profiles: seq<Record>, excluded: string) returns (found: bool)
    ensures found <==> exists i :: 0 <= i < |profiles| && IsAlternative(profiles[i], excluded)
    ensures found <==> exists i :: 0 <= i < |profiles| && profiles[i].profile.id != excluded
                         && (profiles[i].state == Probation || profiles[i].state == Trusted)
                         && profiles[i].inFlight < profiles[i].profile.capacity
  {
    for i := 0 to |profiles|
      invariant forall j :: 0 <= j < i ==> !IsAlternative(profiles[j], excluded)
    {
      var p := profiles[i];
      if p.profile.id != excluded && (p.state == Probation || p.state == Trusted) && p.inFlight < p.profile.capacity {
        return true;
      }
    }
    return false;
  }

  predicate IsAlternative(r: Record, excluded: string) {
    r.profile.id != excluded && Serving(r.state) && r.inFlight < r.profile.capacity
  }

  /** An alternative that a pool shows is one it leases, as long as the pool has not changed and is open and healthy. */
  lemma AlternativeIsLeased<L>(cfg: Config, s: PoolModel.PoolState<L>, now: int, ask: PoolModel.Ask, i: nat)
    requires PoolModel.PoolInv(s) && !s.closed && s.manifestHealthy && !ask.explicit
    requires i < |s.entries| && IsAlternative(s.entries[i], ask.excluded)
    ensures PoolModel.Leased(cfg, s, now, ask).Some?
  {
    PoolModel.ServedExactlyWhen(cfg, s, now, ask);
    assert PoolModel.Offers(cfg, now, s.entries[i], ask.excluded);
  }

  /** The provider leases nothing in this turn, except perhaps the identity that has just failed on it. */
  ghost predicate OffersNothing(turn: Turn, p: string, last: string) {
    && (p in turn.direct ==> turn.direct[p] == "" || turn.direct[p] == last)
    && (p in turn.again ==> turn.again[p] == "" || turn.again[p] == last)
    && (turn.raced.Some? ==> turn.raced.value.0 != p)
  }

  ghost predicate AllOfferNothing(pools: seq<string>, turn: Turn, failed: seq<string>, log: seq<LeaseEvent>) {
    forall p :: p in pools && p !in failed ==> OffersNothing(turn, p, LastProfile(log, p))
  }

  /** What the loop tries elsewhere: an empty answer, or a failure that may be rerouted. */
  predicate GoesOn(answer: Answer) {
    match answer
    case Answered(n) => n == 0
    case Failed(OtherError) => false
    case Failed(SearchError(code, retryable)) =>
      retryable && (code == CaptchaRequired || code == RateLimitHit || code == UpstreamChanged
                    || code == ProviderUnavailable || code == UpstreamTimeout)
  }

  /** Every trace of the turn is written, and the lease's manifest saved. */
  predicate Recorded(turn: Turn) {
    turn.tracedRoute && turn.tracedLease && turn.released && turn.tracedAfter
  }

  predicate WentOn(turn: Turn) {
    Recorded(turn) && GoesOn(turn.answer)
  }

  /** Exactly this lease is out: it was leased last, and everything before it is settled. */
  ghost predicate IsOut(log: seq<LeaseEvent>, lease: Lease) {
    && log != [] && Balanced(log[..|log| - 1])
    && log[|log| - 1].Leased? && log[|log| - 1].lease == lease
  }

  lemma ReturnSettles(log: seq<LeaseEvent>, lease: Lease, result: Result)
    ensures IsOut(log, lease) ==> Balanced(log + [Returned(lease, result)])
  {
  }

  /** One lease through its search; None means that the loop goes on to another identity or provider. */
  method Round(turn: Turn, lease: Lease, failed: seq<string>, ghost log: seq<LeaseEvent>)
    returns (reply: Option<Reply>, ghost log': seq<LeaseEvent>)
    ensures IsOut(log, lease) ==> Balanced(log')
    ensures |log'| == |log| + 1 && log'[..|log|] == log && log'[|log|].Returned?
    ensures log'[|log|].lease == lease && Reports(turn, log'[|log|].result)
    ensures reply.None? <==> WentOn(turn)
    ensures reply == Some(TraceFailed) <==> !Recorded(turn)
    ensures reply.Some? && Recorded(turn) ==>
              reply.value == match turn.answer
                case Answered(_) => Success(lease.provider, lease.profile, |failed|, failed, |failed| > 0)
                case Failed(f) => Refused(f)
  {
    hide Balanced, IsOut;
    log' := log;
    if !turn.tracedRoute {
      log' := log' + [Returned(lease, Result(false, NetworkError))];
      ReturnSettles(log, lease, Result(false, NetworkError));
      return Some(TraceFailed), log';
    }
    if !turn.tracedLease {
      log' := log' + [Returned(lease, Result(false, NetworkError))];
      ReturnSettles(log, lease, Result(false, NetworkError));
      return Some(TraceFailed), log';
    }
    log' := log' + [Returned(lease, ResultFor(turn.answer))];
    ReturnSettles(log, lease, ResultFor(turn.answer));
    if !turn.released {
      return Some(TraceFailed), log';
    }
    if !turn.tracedAfter {
      return Some(TraceFailed), log';
    }
    var failure;
    match turn.answer {
      case Answered(n) =>
        if n > 0 {
          return Some(Success(lease.provider, lease.profile, |failed|, failed, |failed| > 0)), log';
        }
        failure := SearchError(ProviderUnavailable, true);
      case Failed(f) => failure := f;
    }
    if !Reroutable(failure) {
      return Some(Refused(failure)), log';
    }
    return None, log';
  }

  /** What a turn grants: the lease if any, whether the queue is full, and whether the lease comes from an immediate try. */
  function NextGrant(pools: seq<string>, cfg: Limits, turn: Turn, attempted: set<string>, excluded: map<string, string>)
    : (Option<Lease>, bool, bool)
  {
    var first := FirstOffer(pools, turn.direct, attempted, excluded);
    if first.Some? then (first, false, true)
    else if turn.depth > cfg.autoQueueMax then (None, true, true)
    else if turn.raced.Some? && turn.raced.value.0 in pools && turn.raced.value.0 !in attempted then
      (Some(Lease(turn.raced.value.0, turn.raced.value.1)), false, false)
    else (FirstOffer(pools, turn.again, attempted, excluded), false, true)
  }

  /** The waiting race does not look at the excluded identities: on any open provider it may lease the one that has just failed. */
  lemma RaceMayRepeat(pools: seq<string>, cfg: Limits, attempted: set<string>, excluded: map<string, string>, p: string)
    returns (turn: Turn)
    requires cfg.autoQueueMax >= 1 && p in pools && p !in attempted && p in excluded
    ensures NextGrant(pools, cfg, turn, attempted, excluded) == (Some(Lease(p, excluded[p])), false, false)
  {
    turn := Turn(true, map[], 1, Some((p, excluded[p])), map[], true, true, Answered(0), true, true, true);
    NothingToOffer(pools, attempted, excluded);
  }

  lemma {:induction false} NothingToOffer(pools: seq<string>, attempted: set<string>, excluded: map<string, string>)
    ensures FirstOffer(pools, map[], attempted, excluded).None?
  {
    if pools != [] {
      NothingToOffer(pools[1..], attempted, excluded);
    }
  }

  /**
   * An immediate lease from the first pool that offers one. When none does:
   * nothing if the queue is full, else what the race brings from an open
   * pool, else another immediate try.
   */
  ghost predicate Grants(pools: seq<string>, cfg: Limits, turn: Turn, attempted: set<string>, excluded: map<string, string>,
                         lease: Option<Lease>, full: bool, direct: bool)
  {
    if !IsFirstOffer(pools, turn.direct, attempted, excluded, None) then
      !full && direct && lease.Some? && IsFirstOffer(pools, turn.direct, attempted, excluded, lease)
    else if turn.depth > cfg.autoQueueMax then full && lease.None?
    else if turn.raced.Some? && turn.raced.value.0 in pools && turn.raced.value.0 !in attempted then
      !full && !direct && lease == Some(Lease(turn.raced.value.0, turn.raced.value.1))
    else !full && direct && IsFirstOffer(pools, turn.again, attempted, excluded, lease)
  }

  lemma NoOffer(pools: seq<string>, offers: map<string, string>, attempted: set<string>, excluded: map<string, string>)
    requires IsFirstOffer(pools, offers, attempted, excluded, None)
    ensures forall p :: p in pools && p !in attempted && p in offers ==>
                          offers[p] == "" || offers[p] == if p in excluded then excluded[p] else ""
  {
    forall p | p in pools && p !in attempted && p in offers
      ensures offers[p] == "" || offers[p] == if p in excluded then excluded[p] else ""
    {
      var j :| 0 <= j < |pools| && pools[j] == p;
      assert !Offers(offers, attempted, excluded, Lease(pools[j], offers[p]));
    }
  }

  /** The lease for one turn: an immediate try, else the wait and a last immediate try. */
  method NextLease(pools: seq<string>, cfg: Limits, turn: Turn, attempted: set<string>, excluded: map<string, string>,
                   ghost log: seq<LeaseEvent>)
    returns (lease: Option<Lease>, full: bool, ghost direct: bool, ghost log': seq<LeaseEvent>)
    ensures (lease, full, direct) == NextGrant(pools, cfg, turn, attempted, excluded)
    ensures log' == if lease.Some? then log + [Leased(lease.value, direct)] else log
    ensures Grants(pools, cfg, turn, attempted, excluded, lease, full, direct)
    ensures lease.Some? ==> lease.value.provider in pools && lease.value.provider !in attempted
    ensures lease.Some? && direct ==>
              lease.value.profile != "" && (lease.value.provider in excluded ==> lease.value.profile != excluded[lease.value.provider])
  {
    full := false;
    direct := true;
    log' := log;
    lease := TryAcquire(pools, turn.direct, attempted, excluded);
    if lease.Some? {
      log' := log' + [Leased(lease.value, true)];
      return;
    }
    if turn.depth > cfg.autoQueueMax {
      full := true;
      return;
    }
    if turn.raced.Some? && turn.raced.value.0 in pools && turn.raced.value.0 !in attempted {
      direct := false;
      lease := Some(Lease(turn.raced.value.0, turn.raced.value.1));
      log' := log' + [Leased(lease.value, false)];
      return;
    }
    lease := TryAcquire(pools, turn.again, attempted, excluded);
    if lease.Some? {
      log' := log' + [Leased(lease.value, true)];
    }
  }

  /**
   * What a turn's report does to the leased identity, unless it is the last
   * lease of a draining one: a captcha or a rate limit quarantines it until
   * the cooldown is over, a changed page leaves its trust alone, and every
   * other failure or empty answer is one more failure in a row.
   */
  lemma ReportReachesPool<L>(cfg: Config, s: PoolModel.PoolState<L>, now: int, lease: L, turn: Turn, result: Result, saved: bool)
    requires ValidConfig(cfg) && PoolModel.PoolInv(s) && lease in s.held && Reports(turn, result)
    requires turn.tracedRoute && turn.tracedLease && !EndsDrain(s.entries[s.held[lease].index])
    ensures var i := s.held[lease].index;
            var s' := PoolModel.Release(cfg, s, now, lease, result, saved);
            var r, r' := s.entries[i], s'.entries[i];
            var code := if turn.answer.Failed? && turn.answer.failure.SearchError? then Some(turn.answer.failure.code) else None;
            && (code == Some(CaptchaRequired) || code == Some(RateLimitHit) ==>
                  r'.state == Quarantined && r'.quarantinedUntil == now + cfg.quarantineCooldown)
            && (code == Some(UpstreamChanged) ==> r' == r.(inFlight := r.inFlight - 1))
            && (code != Some(UpstreamChanged) ==>
                  r'.consecutiveFailures == if turn.answer.Answered? && turn.answer.resultCount > 0 then 0 else r.consecutiveFailures + 1)
  {
    hide Released, Weights;
    var i := s.held[lease].index;
    assert lease in PoolModel.Holders(s, i);
    var r := s.entries[i];
    if Counts(result) {
      CountedReleaseBooks(cfg, r, now, result);
      CountedReleaseJudges(cfg, r, now, result);
    } else {
      UncountedReleaseMeans(cfg, r, now, result);
    }
  }

  // ------------------------------------------------------------------
  // The retry loop
  // ------------------------------------------------------------------

  /** Every return reports what its own turn answered. */
  ghost predicate Told(world: nat -> Turn, log: seq<LeaseEvent>) {
    forall j :: 0 <= j < |log| && j % 2 == 1 ==> log[j].Returned? && Reports(world(j / 2), log[j].result)
  }

  function LeasesFrom(log: seq<LeaseEvent>, p: string): nat {
    if log == [] then 0
    else
      var last := log[|log| - 1];
      LeasesFrom(log[..|log| - 1], p) + if last.Leased? && last.lease.provider == p then 1 else 0
  }

  /** The providers given up, in order: their turn went on, and left them no further attempt or no other identity. */
  ghost function GivenUp(cfg: Limits, world: nat -> Turn, log: seq<LeaseEvent>): seq<string> {
    if |log| < 2 then []
    else
      var before, turn, p := log[..|log| - 2], world(|log| / 2 - 1), log[|log| - 2].lease.provider;
      GivenUp(cfg, world, before)
      + if WentOn(turn) && (LeasesFrom(log, p) >= cfg.maxAgentAttempts || !turn.alternative) then [p] else []
  }

  /** No open provider offers another identity than the one it leased last. */
  ghost predicate NothingDirect(pools: seq<string>, turn: Turn, failed: seq<string>, log: seq<LeaseEvent>) {
    forall p :: p in pools && p !in failed && p in turn.direct ==> turn.direct[p] == "" || turn.direct[p] == LastProfile(log, p)
  }

  ghost predicate Budgeted(world: nat -> Turn, n: nat) {
    forall k: nat :: k < n ==> world(k).budget
  }

  ghost predicate AllWentOn(world: nat -> Turn, n: int) {
    forall k: nat :: k < n ==> WentOn(world(k))
  }

  /** Every turn but the last went on, and the last one, or the try after it, explains the reply. */
  ghost predicate Explains(cfg: Limits, pools: seq<string>, world: nat -> Turn, rounds: nat, failed: seq<string>,
                           log: seq<LeaseEvent>, reply: Reply)
  {
    && Budgeted(world, rounds)
    && AllWentOn(world, if reply.Full? || reply.Exhausted? then rounds else rounds - 1)
    && (reply.Full? ==> world(rounds).depth > cfg.autoQueueMax && NothingDirect(pools, world(rounds), failed, log))
    && (reply.Exhausted? ==>
          || |failed| == cfg.maxProviderAttempts || !world(rounds).budget
          || (world(rounds).depth <= cfg.autoQueueMax && AllOfferNothing(pools, world(rounds), failed, log)))
    && (reply.TraceFailed? || reply.Success? || reply.Refused? ==>
          && rounds > 0
          && var last := world(rounds - 1);
          && (reply.TraceFailed? <==> !Recorded(last))
          && (reply.Success? ==> last.answer.Answered? && last.answer.resultCount > 0)
          && (reply.Refused? ==> last.answer == Failed(reply.failure) && !GoesOn(last.answer)))
  }

  /**
   * The retry loop takes at most maxAgentAttempts - 1 rounds on each provider,
   * and one more on each that it may give up, whatever the world answers.
   * Every lease is returned exactly once before the next is taken or the
   * call returns, with a report of what its search answered. The providers
   * given up are those, in order, whose round went on without a further
   * attempt or another identity. A success comes from a provider that was
   * not given up, and reports every one that was.
   */
  method Search(pools: seq<string>, cfg: Limits, world: nat -> Turn)
    returns (reply: Reply, rounds: nat, ghost failed: seq<string>, ghost log: seq<LeaseEvent>)
    requires Distinct(pools) && |pools| > 0 && cfg == NormalizedLimits(cfg)
    ensures rounds <= |pools| * (cfg.maxAgentAttempts - 1) + if |pools| <= cfg.maxProviderAttempts then |pools| else cfg.maxProviderAttempts
    ensures Balanced(log) && |log| == 2 * rounds && Told(world, log)
    ensures AvoidsLast(log)
    ensures Distinct(failed) && |failed| <= cfg.maxProviderAttempts && forall p :: p in failed ==> p in pools
    ensures failed == GivenUp(cfg, world, log)
    ensures reply.Success? ==>
              && reply.provider in pools && reply.provider !in failed
              && reply.fallbackCount == |failed| && reply.warnings == failed && (reply.degraded <==> failed != [])
              && |log| > 0 && log[|log| - 1] == Returned(Lease(reply.provider, reply.profile), Result(true, Normal))
    ensures Explains(cfg, pools, world, rounds, failed, log, reply)
  {
    hide Logged, Paced, Chosen, Distinct, Elements, RoundLimit, NextGrant, Explains, AllWentOn, Budgeted, WentOn, Reports, Recorded,
      IsFirstOffer, OffersNothing, IsTurn, Grants, GoesOn, Balanced, AvoidsLast, Told, GivenUp, IsOut;
    var attempted: set<string> := {};
    var agentAttempts: map<string, nat> := map[];
    var excluded: map<string, string> := map[];
    var failures: seq<string> := [];
    rounds := 0;
    log := [];
    reply := Exhausted;
    ghost var repeats, ended := excluded, false;
    NothingLogged(cfg, world);
    PacedAtStart(pools, cfg);
    PacedLimit(pools, cfg, agentAttempts, failures, rounds);
    PacedMeans(pools, cfg, agentAttempts, failures, rounds);
    while |attempted| < cfg.maxProviderAttempts && world(rounds).budget
      invariant attempted == Elements(failures) && |attempted| == |failures|
      invariant Paced(pools, cfg, agentAttempts, failures, rounds) && rounds <= RoundLimit(cfg, |pools|) && Chosen(pools, cfg, failures)
      invariant reply == Exhausted && AllWentOn(world, rounds) && Budgeted(world, rounds)
      invariant Logged(cfg, world, agentAttempts, excluded, failures, rounds, log) && repeats == excluded && !ended
      decreases RoundLimit(cfg, |pools|) - rounds
    {
      var turn := world(rounds);
      ghost var before, counts := log, agentAttempts;
      var lease, full;
      ghost var direct;
      lease, full, direct, log := NextLease(pools, cfg, turn, attempted, excluded, log);
      if full {
        EndsFull(cfg, pools, world, agentAttempts, excluded, failures, rounds, log);
        reply, ended := Full, true;
        break;
      }
      if lease.None? {
        EndsWithoutLease(cfg, pools, world, agentAttempts, excluded, failures, rounds, log);
        ended := true;
        break;
      }
      ghost var out := log;
      var provider := lease.value.provider;
      RoundPaced(pools, cfg, agentAttempts, failures, rounds, provider);
      agentAttempts := agentAttempts[provider := Attempts(agentAttempts, provider) + 1];
      rounds := rounds + 1;
      var early;
      early, log := Round(turn, lease.value, failures, log);
      TurnMade(before, lease.value, direct, out, log);
      TurnLogged(cfg, world, counts, excluded, failures, rounds - 1, before, lease.value, direct, log);
      repeats := excluded[provider := lease.value.profile];
      if early.Some? {
        EndsEarly(cfg, pools, world, failures, rounds, log, early.value);
        reply, ended := early.value, true;
        break;
      }
      AllWentOnGrows(world, rounds - 1);
      excluded := excluded[provider := lease.value.profile];
      if !(agentAttempts[provider] < cfg.maxAgentAttempts && turn.alternative) {
        attempted := attempted + {provider};
        failures := failures + [provider];
      }
      PacedMeans(pools, cfg, agentAttempts, failures, rounds);
    }
    if !ended {
      EndsSpent(cfg, pools, world, failures, rounds, log);
    }
    LoggedMeans(cfg, pools, world, agentAttempts, repeats, failures, rounds, log);
    failed := failures;
  }

  // ------------------------------------------------------------------
  // Bookkeeping of the loop
  // ------------------------------------------------------------------

  lemma LengthWithin(xs: seq<string>, pools: seq<string>)
    requires Distinct(xs) && forall x :: x in xs ==> x in pools
    ensures |xs| <= |pools|
  {
    ElementsSize(xs);
    ElementsSize(pools);
    SubsetSize(Elements(xs), Elements(pools));
  }

  lemma SpendBound(pools: seq<string>, m: map<string, nat>, failures: seq<string>, limit: int)
    requires Distinct(pools) && Distinct(failures) && limit >= 1
    requires forall p :: p in failures ==> p in pools
    requires WithinLimits(pools, m, Elements(failures), limit)
    ensures Total(pools, m) <= |pools| * (limit - 1) + |failures|
    ensures |failures| <= |pools|
    ensures |pools| * (limit - 1) + |pools| == |pools| * limit
  {
    TotalBound(pools, m, Elements(failures), limit);
    MembersBound(pools, Elements(failures));
    ElementsSize(failures);
    LengthWithin(failures, pools);
  }

  lemma {:induction false} TotalOfNothing(pools: seq<string>)
    ensures Total(pools, map[]) == 0
  {
    if pools != [] {
      TotalOfNothing(pools[1..]);
    }
  }

  ghost predicate Chosen(pools: seq<string>, cfg: Limits, failures: seq<string>) {
    Distinct(failures) && |failures| <= cfg.maxProviderAttempts && forall p :: p in failures ==> p in pools
  }

  /** How far the loop has got: rounds are attempts, and no provider is over its limit. */
  ghost predicate Paced(pools: seq<string>, cfg: Limits, m: map<string, nat>, failures: seq<string>, rounds: nat) {
    && Chosen(pools, cfg, failures)
    && WithinLimits(pools, m, Elements(failures), cfg.maxAgentAttempts)
    && rounds == Total(pools, m)
  }

  lemma PacedAtStart(pools: seq<string>, cfg: Limits)
    requires cfg.maxProviderAttempts >= 0 && cfg.maxAgentAttempts >= 1
    ensures Paced(pools, cfg, map[], [], 0) && Elements<string>([]) == {}
  {
    TotalOfNothing(pools);
  }

  lemma PacedMeans(pools: seq<string>, cfg: Limits, m: map<string, nat>, failures: seq<string>, rounds: nat)
    requires Paced(pools, cfg, m, failures, rounds)
    ensures Chosen(pools, cfg, failures)
  {
  }

  lemma PacedLimit(pools: seq<string>, cfg: Limits, m: map<string, nat>, failures: seq<string>, rounds: nat)
    requires Distinct(pools) && cfg.maxAgentAttempts >= 1 && Paced(pools, cfg, m, failures, rounds)
    ensures rounds <= RoundLimit(cfg, |pools|)
  {
    SpendBound(pools, m, failures, cfg.maxAgentAttempts);
  }

  /** One more round on an open provider stays within the limit; after it the provider is either still open or given up. */
  lemma RoundPaced(pools: seq<string>, cfg: Limits, m: map<string, nat>, failures: seq<string>, rounds: nat, provider: string)
    requires Distinct(pools) && cfg.maxAgentAttempts >= 1 && Paced(pools, cfg, m, failures, rounds)
    requires |failures| < cfg.maxProviderAttempts && provider in pools && provider !in Elements(failures)
    ensures rounds + 1 <= RoundLimit(cfg, |pools|)
    ensures var m' := m[provider := Attempts(m, provider) + 1];
            && (m'[provider] < cfg.maxAgentAttempts ==> Paced(pools, cfg, m', failures, rounds + 1))
            && Paced(pools, cfg, m', failures + [provider], rounds + 1)
    ensures Elements(failures + [provider]) == Elements(failures) + {provider}
    ensures |Elements(failures + [provider])| == |failures| + 1 && provider !in failures
  {
    FailuresGrow(failures, provider);
    RoundIsWithin(pools, cfg, m, failures, rounds, provider);
    TotalAfter(pools, m, provider);
  }

  lemma FailuresGrow(failures: seq<string>, provider: string)
    requires Distinct(failures) && provider !in failures
    ensures Distinct(failures + [provider])
    ensures Elements(failures + [provider]) == Elements(failures) + {provider}
    ensures |Elements(failures + [provider])| == |failures| + 1
  {
    ElementsSize(failures);
  }

  lemma RoundIsWithin(pools: seq<string>, cfg: Limits, m: map<string, nat>, failures: seq<string>, rounds: nat, provider: string)
    requires Distinct(pools) && cfg.maxAgentAttempts >= 1 && Paced(pools, cfg, m, failures, rounds)
    requires |failures| < cfg.maxProviderAttempts && provider in pools && provider !in failures
    ensures rounds + 1 <= RoundLimit(cfg, |pools|)
  {
    SpendBound(pools, m, failures, cfg.maxAgentAttempts);
    FailuresGrow(failures, provider);
    LengthWithin(failures + [provider], pools);
  }

  /** Attempts are counted by provider. */
  ghost predicate Counted(m: map<string, nat>, log: seq<LeaseEvent>) {
    forall p :: Attempts(m, p) == LeasesFrom(log, p)
  }

  /** `excluded` holds, for each provider, the identity leased last. */
  ghost predicate Remembers(log: seq<LeaseEvent>, excluded: map<string, string>) {
    forall p :: LastProfile(log, p) == if p in excluded then excluded[p] else ""
  }

  /** A granted lease is the only one out, and keeps apart from the identity leased before if the try was immediate. */
  lemma LeaseGoesOut(log: seq<LeaseEvent>, lease: Lease, direct: bool, excluded: map<string, string>)
    requires Balanced(log) && AvoidsLast(log) && Remembers(log, excluded)
    requires direct ==> lease.profile != "" && (lease.provider in excluded ==> lease.profile != excluded[lease.provider])
    ensures var out := log + [Leased(lease, direct)];
            IsOut(out, lease) && AvoidsLast(out) && Remembers(out, excluded[lease.provider := lease.profile])
  {
    var out := log + [Leased(lease, direct)];
    assert out[..|log|] == log;
    forall k | 0 <= k < |out| && out[k].Leased? && out[k].direct
      ensures out[k].lease.profile != LastProfile(out[..k], out[k].lease.provider)
    {
      if k < |log| {
        assert out[..k] == log[..k];
      }
    }
  }

  /** A return changes nothing about what was leased. */
  lemma LeaseComesBack(out: seq<LeaseEvent>, log: seq<LeaseEvent>, excluded: map<string, string>)
    requires AvoidsLast(out) && Remembers(out, excluded)
    requires |log| == |out| + 1 && log[..|out|] == out && log[|out|].Returned?
    ensures AvoidsLast(log) && Remembers(log, excluded)
  {
    forall k | 0 <= k < |log| && log[k].Leased? && log[k].direct
      ensures log[k].lease.profile != LastProfile(log[..k], log[k].lease.provider)
    {
      assert log[..k] == out[..k];
    }
  }

  // ------------------------------------------------------------------
  // The log of the loop
  // ------------------------------------------------------------------

  /** What the loop's log keeps, and what the loop's variables say about it. */
  ghost predicate Logged(cfg: Limits, world: nat -> Turn, m: map<string, nat>, excluded: map<string, string>,
                         failures: seq<string>, rounds: nat, log: seq<LeaseEvent>)
  {
    && |log| == 2 * rounds && Balanced(log) && AvoidsLast(log) && Told(world, log)
    && Remembers(log, excluded) && Counted(m, log) && failures == GivenUp(cfg, world, log)
  }

  lemma LoggedMeans(cfg: Limits, pools: seq<string>, world: nat -> Turn, m: map<string, nat>, excluded: map<string, string>, failures: seq<string>,
                    rounds: nat, log: seq<LeaseEvent>)
    requires Logged(cfg, world, m, excluded, failures, rounds, log) && Chosen(pools, cfg, failures) && rounds <= RoundLimit(cfg, |pools|)
    ensures rounds <= |pools| * (cfg.maxAgentAttempts - 1) + if |pools| <= cfg.maxProviderAttempts then |pools| else cfg.maxProviderAttempts
    ensures Distinct(failures) && |failures| <= cfg.maxProviderAttempts && forall p :: p in failures ==> p in pools
    ensures Balanced(log) && |log| == 2 * rounds && Told(world, log) && AvoidsLast(log) && failures == GivenUp(cfg, world, log)
  {
  }

  lemma NothingLogged(cfg: Limits, world: nat -> Turn)
    ensures Logged(cfg, world, map[], map[], [], 0, []) && AllWentOn(world, 0) && Budgeted(world, 0)
  {
  }

  /** Two events are one turn: a lease and its return. */
  ghost predicate IsTurn(before: seq<LeaseEvent>, lease: Lease, direct: bool, log: seq<LeaseEvent>) {
    && |log| == |before| + 2 && log[..|before| + 1] == before + [Leased(lease, direct)]
    && log[|before| + 1].Returned? && log[|before| + 1].lease == lease
  }

  lemma TurnMade(before: seq<LeaseEvent>, lease: Lease, direct: bool, out: seq<LeaseEvent>, log: seq<LeaseEvent>)
    requires out == before + [Leased(lease, direct)] && |log| == |out| + 1 && log[..|out|] == out
    requires log[|out|].Returned? && log[|out|].lease == lease
    ensures IsTurn(before, lease, direct, log)
  {
  }

  lemma TurnCounted(before: seq<LeaseEvent>, lease: Lease, direct: bool, log: seq<LeaseEvent>, p: string)
    requires IsTurn(before, lease, direct, log)
    ensures LeasesFrom(log, p) == LeasesFrom(before, p) + if p == lease.provider then 1 else 0
  {
    var out := log[..|log| - 1];
    assert out[..|out| - 1] == before && out[|out| - 1] == Leased(lease, direct);
    assert LeasesFrom(log, p) == LeasesFrom(out, p);
  }

  lemma TurnTold(world: nat -> Turn, before: seq<LeaseEvent>, lease: Lease, direct: bool, log: seq<LeaseEvent>)
    requires |before| % 2 == 0 && Told(world, before) && IsTurn(before, lease, direct, log)
    requires Reports(world(|before| / 2), log[|before| + 1].result)
    ensures Told(world, log)
  {
    hide Reports;
    assert forall j :: 0 <= j < |before| ==> log[j] == log[..|before| + 1][j] == before[j];
  }

  lemma TurnGivenUp(cfg: Limits, world: nat -> Turn, before: seq<LeaseEvent>, lease: Lease, direct: bool, log: seq<LeaseEvent>)
    requires |before| % 2 == 0 && IsTurn(before, lease, direct, log)
    ensures var p, turn := lease.provider, world(|before| / 2);
            GivenUp(cfg, world, log) == GivenUp(cfg, world, before)
              + if WentOn(turn) && !(LeasesFrom(before, p) + 1 < cfg.maxAgentAttempts && turn.alternative) then [p] else []
  {
    hide WentOn, LeasesFrom;
    TurnCounted(before, lease, direct, log, lease.provider);
    var n := |before|;
    assert log[..n] == log[..n + 1][..n] == before;
    assert log[n] == log[..n + 1][n] == Leased(lease, direct);
    assert |log| - 2 == n && |log| / 2 - 1 == n / 2;
  }

  lemma TurnLogged(cfg: Limits, world: nat -> Turn, m: map<string, nat>, excluded: map<string, string>, failures: seq<string>,
                   rounds: nat, before: seq<LeaseEvent>, lease: Lease, direct: bool, log: seq<LeaseEvent>)
    requires Logged(cfg, world, m, excluded, failures, rounds, before) && IsTurn(before, lease, direct, log)
    requires Reports(world(rounds), log[|before| + 1].result)
    requires direct ==> lease.profile != "" && (lease.provider in excluded ==> lease.profile != excluded[lease.provider])
    ensures var p, turn := lease.provider, world(rounds);
            var m' := m[p := Attempts(m, p) + 1];
            var givenUp := WentOn(turn) && !(m'[p] < cfg.maxAgentAttempts && turn.alternative);
            Logged(cfg, world, m', excluded[p := lease.profile], if givenUp then failures + [p] else failures, rounds + 1, log)
  {
    hide Reports, WentOn, Told, GivenUp, Balanced, AvoidsLast, Remembers, IsOut;
    var out := log[..|before| + 1];
    LeaseGoesOut(before, lease, direct, excluded);
    LeaseComesBack(out, log, excluded[lease.provider := lease.profile]);
    ReturnSettles(out, lease, log[|before| + 1].result);
    assert log == out + [Returned(lease, log[|before| + 1].result)];
    TurnTold(world, before, lease, direct, log);
    TurnGivenUp(cfg, world, before, lease, direct, log);
    forall p
      ensures Attempts(m[lease.provider := Attempts(m, lease.provider) + 1], p) == LeasesFrom(log, p)
    {
      TurnCounted(before, lease, direct, log, p);
    }
  }

  lemma AllWentOnGrows(world: nat -> Turn, n: nat)
    requires AllWentOn(world, n) && WentOn(world(n)) && Budgeted(world, n) && world(n).budget
    ensures AllWentOn(world, n + 1) && Budgeted(world, n + 1)
  {
  }

  lemma EndsFull(cfg: Limits, pools: seq<string>, world: nat -> Turn, m: map<string, nat>, excluded: map<string, string>,
                 failures: seq<string>, rounds: nat, log: seq<LeaseEvent>)
    requires Logged(cfg, world, m, excluded, failures, rounds, log) && AllWentOn(world, rounds) && Budgeted(world, rounds)
    requires exists direct :: Grants(pools, cfg, world(rounds), Elements(failures), excluded, None, true, direct)
    ensures Explains(cfg, pools, world, rounds, failures, log, Full)
  {
    hide WentOn, IsFirstOffer, Balanced, AvoidsLast, Told, GivenUp;
    NoOffer(pools, world(rounds).direct, Elements(failures), excluded);
  }

  lemma EndsWithoutLease(cfg: Limits, pools: seq<string>, world: nat -> Turn, m: map<string, nat>, excluded: map<string, string>,
                         failures: seq<string>, rounds: nat, log: seq<LeaseEvent>)
    requires Logged(cfg, world, m, excluded, failures, rounds, log) && AllWentOn(world, rounds) && Budgeted(world, rounds)
    requires exists direct :: Grants(pools, cfg, world(rounds), Elements(failures), excluded, None, false, direct)
    ensures Explains(cfg, pools, world, rounds, failures, log, Exhausted)
  {
    hide WentOn, Balanced, AvoidsLast, Told, GivenUp, IsFirstOffer;
    NoOffer(pools, world(rounds).direct, Elements(failures), excluded);
    NoOffer(pools, world(rounds).again, Elements(failures), excluded);
  }

  lemma EndsSpent(cfg: Limits, pools: seq<string>, world: nat -> Turn, failures: seq<string>, rounds: nat, log: seq<LeaseEvent>)
    requires AllWentOn(world, rounds) && Budgeted(world, rounds) && Chosen(pools, cfg, failures)
    requires |failures| >= cfg.maxProviderAttempts || !world(rounds).budget
    ensures Explains(cfg, pools, world, rounds, failures, log, Exhausted)
  {
  }

  lemma EndsEarly(cfg: Limits, pools: seq<string>, world: nat -> Turn, failures: seq<string>, rounds: nat,
                  log: seq<LeaseEvent>, reply: Reply)
    requires rounds > 0 && AllWentOn(world, rounds - 1) && Budgeted(world, rounds - 1) && world(rounds - 1).budget
    requires !WentOn(world(rounds - 1)) && !reply.Full? && !reply.Exhausted?
    requires log != [] && log[|log| - 1].Returned? && Reports(world(rounds - 1), log[|log| - 1].result)
    requires var last := world(rounds - 1);
             && (reply == TraceFailed <==> !Recorded(last))
             && (Recorded(last) ==> match last.answer
                   case Answered(_) => reply.Success?
                   case Failed(f) => reply == Refused(f))
    ensures Explains(cfg, pools, world, rounds, failures, log, reply)
    ensures reply.Success? ==> log[|log| - 1].result == Result(true, Normal)
  {
  }
}
