/** Whole runs of a profile pool: any sequence of calls, in the order the mutex serialises them. */
module PoolRuns {
  import opened Domain
  import opened Lifecycle
  import opened LifeHistory
  import opened PoolModel

  datatype Call<L(==)> =
    | Acquire(now: int, ask: Ask, lease: L)
    | Return(now: int, lease: L, result: Result, saved: bool)
    | DrainOne(id: string, saved: bool)
    | ReplaceOne(id: string, replacement: Option<Profile>, closed: bool, saved: bool)
    | Activation(unsaved: set<int>)
    | Closing
    | WaiterIn
    | WaiterOut

  ghost function Apply<L>(cfg: Config, s: PoolState<L>, c: Call<L>): PoolState<L>
    requires AllValid(s.entries)
  {
    match c
    case Acquire(now, ask, lease) => TryAcquire(cfg, s, now, ask, lease)
    case Return(now, lease, result, saved) => PoolModel.Release(cfg, s, now, lease, result, saved)
    case DrainOne(id, saved) => PoolModel.Drain(cfg, s, id, saved)
    case ReplaceOne(id, replacement, closed, saved) => PoolModel.Replace(cfg, s, id, replacement, closed, saved)
    case Activation(unsaved) => ActivateFrom(cfg, s, unsaved, 0)
    case Closing => CloseAll(s)
    case WaiterIn => s.(autoWaiters := s.autoWaiters + 1)
    case WaiterOut => s.(autoWaiters := s.autoWaiters - 1)
  }

  function TimeAfter<L>(clock: int, c: Call<L>): int {
    if c.Acquire? || c.Return? then c.now else clock
  }

  /**
   * Time does not run backwards, every granted lease is a new handle, and
   * identities are not replaced after the pool has been closed: the runtime
   * stops reconciliation first.
   */
  predicate Allowed<L>(s: PoolState<L>, clock: int, c: Call<L>) {
    && clock <= TimeAfter(clock, c)
    && (c.Acquire? ==> c.lease !in s.held)
    && (c.ReplaceOne? ==> !s.closed)
  }

  lemma CallKeepsInv<L>(cfg: Config, s: PoolState<L>, clock: int, c: Call<L>)
    requires ValidConfig(cfg) && PoolInv(s) && Allowed(s, clock, c)
    ensures PoolInv(Apply(cfg, s, c))
  {
    match c
    case Acquire(now, ask, lease) => TryAcquireKeepsInv(cfg, s, now, ask, lease);
    case Return(now, lease, result, saved) => ReleaseKeepsInv(cfg, s, now, lease, result, saved);
    case DrainOne(id, saved) => DrainKeepsInv(cfg, s, id, saved);
    case ReplaceOne(id, replacement, closed, saved) =>
      if Replaces(s, id, replacement, closed) {
        ReplaceKeepsInvExactlyWhen(cfg, s, id, replacement, closed, saved);
      }
    case Activation(unsaved) => ActivateKeepsInv(cfg, s, unsaved);
    case Closing => CloseKeepsInv(s);
    case WaiterIn => SameLeasesKeepInv(s, Apply(cfg, s, c));
    case WaiterOut => SameLeasesKeepInv(s, Apply(cfg, s, c));
  }

  ghost predicate RunAllowed<L>(cfg: Config, s: PoolState<L>, clock: int, cs: seq<Call<L>>)
    requires ValidConfig(cfg) && PoolInv(s)
    decreases |cs|
  {
    cs == [] || (
      && Allowed(s, clock, cs[0])
      && (CallKeepsInv(cfg, s, clock, cs[0]);
          RunAllowed(cfg, Apply(cfg, s, cs[0]), TimeAfter(clock, cs[0]), cs[1..])))
  }

  ghost function Run<L>(cfg: Config, s: PoolState<L>, clock: int, cs: seq<Call<L>>): PoolState<L>
    requires ValidConfig(cfg) && PoolInv(s) && RunAllowed(cfg, s, clock, cs)
    decreases |cs|
  {
    if cs == [] then s
    else
      CallKeepsInv(cfg, s, clock, cs[0]);
      Run(cfg, Apply(cfg, s, cs[0]), TimeAfter(clock, cs[0]), cs[1..])
  }

  function TimeOfRun<L>(clock: int, cs: seq<Call<L>>): int
    decreases |cs|
  {
    if cs == [] then clock else TimeOfRun(TimeAfter(clock, cs[0]), cs[1..])
  }

  /**
   * In every state any run can reach, each identity's in-flight count is its
   * number of outstanding leases and at most its capacity, and every
   * outstanding lease still points at the very identity it was cut from.
   */
  lemma {:induction false} RunKeepsInv<L>(cfg: Config, s: PoolState<L>, clock: int, cs: seq<Call<L>>)
    requires ValidConfig(cfg) && PoolInv(s) && RunAllowed(cfg, s, clock, cs)
    ensures PoolInv(Run(cfg, s, clock, cs))
    decreases |cs|
  {
    if cs != [] {
      CallKeepsInv(cfg, s, clock, cs[0]);
      RunKeepsInv(cfg, Apply(cfg, s, cs[0]), TimeAfter(clock, cs[0]), cs[1..]);
    }
  }

  predicate Grants<L>(c: Call<L>, lease: L) {
    c.Acquire? && c.lease == lease
  }

  lemma {:induction false} ReturnedStaysOut<L>(cfg: Config, s: PoolState<L>, clock: int, cs: seq<Call<L>>, lease: L)
    requires ValidConfig(cfg) && PoolInv(s) && RunAllowed(cfg, s, clock, cs) && lease !in s.held
    requires forall k :: 0 <= k < |cs| ==> !Grants(cs[k], lease)
    ensures lease !in Run(cfg, s, clock, cs).held
    decreases |cs|
  {
    if cs != [] {
      CallKeepsInv(cfg, s, clock, cs[0]);
      assert !Grants(cs[0], lease);
      ReturnedStaysOut(cfg, Apply(cfg, s, cs[0]), TimeAfter(clock, cs[0]), cs[1..], lease);
    }
  }

  /** Releasing a lease again, with whatever result and whatever calls came in between, changes nothing. */
  lemma SecondReleaseIsIdle<L>(cfg: Config, s: PoolState<L>, clock: int, first: Call<L>, between: seq<Call<L>>, second: Call<L>)
    requires ValidConfig(cfg) && PoolInv(s) && first.Return? && second.Return? && second.lease == first.lease
    requires Allowed(s, clock, first) && PoolInv(Apply(cfg, s, first))
    requires RunAllowed(cfg, Apply(cfg, s, first), TimeAfter(clock, first), between)
    requires forall k :: 0 <= k < |between| ==> !Grants(between[k], first.lease)
    ensures var s' := Run(cfg, Apply(cfg, s, first), TimeAfter(clock, first), between);
            PoolInv(s') && Apply(cfg, s', second) == s'
  {
    RunKeepsInv(cfg, Apply(cfg, s, first), TimeAfter(clock, first), between);
    ReturnedStaysOut(cfg, Apply(cfg, s, first), TimeAfter(clock, first), between, first.lease);
  }

  // ------------------------------------------------------------------
  // Fairness between explicit and automatic callers
  // ------------------------------------------------------------------

  ghost predicate GrantsLease<L>(cfg: Config, s: PoolState<L>, c: Call<L>)
    requires AllValid(s.entries)
  {
    c.Acquire? && Leased(cfg, s, c.now, c.ask).Some?
  }

  ghost predicate GrantsExplicit<L>(cfg: Config, s: PoolState<L>, c: Call<L>)
    requires AllValid(s.entries)
  {
    GrantsLease(cfg, s, c) && c.ask.explicit && !c.ask.automatic
  }

  ghost predicate GrantsAutomatic<L>(cfg: Config, s: PoolState<L>, c: Call<L>)
    requires AllValid(s.entries)
  {
    GrantsLease(cfg, s, c) && c.ask.automatic
  }

  ghost function ExplicitGrants<L>(cfg: Config, s: PoolState<L>, clock: int, cs: seq<Call<L>>): nat
    requires ValidConfig(cfg) && PoolInv(s) && RunAllowed(cfg, s, clock, cs)
    decreases |cs|
  {
    if cs == [] then 0
    else
      CallKeepsInv(cfg, s, clock, cs[0]);
      (if GrantsExplicit(cfg, s, cs[0]) then 1 else 0)
      + ExplicitGrants(cfg, Apply(cfg, s, cs[0]), TimeAfter(clock, cs[0]), cs[1..])
  }

  ghost function AutomaticGrants<L>(cfg: Config, s: PoolState<L>, clock: int, cs: seq<Call<L>>): nat
    requires ValidConfig(cfg) && PoolInv(s) && RunAllowed(cfg, s, clock, cs)
    decreases |cs|
  {
    if cs == [] then 0
    else
      CallKeepsInv(cfg, s, clock, cs[0]);
      (if GrantsAutomatic(cfg, s, cs[0]) then 1 else 0)
      + AutomaticGrants(cfg, Apply(cfg, s, cs[0]), TimeAfter(clock, cs[0]), cs[1..])
  }

  /** Some automatic caller is registered as waiting before every call of the run. */
  ghost predicate SomeoneWaits<L>(cfg: Config, s: PoolState<L>, clock: int, cs: seq<Call<L>>)
    requires ValidConfig(cfg) && PoolInv(s) && RunAllowed(cfg, s, clock, cs)
    decreases |cs|
  {
    cs == [] || (
      && s.autoWaiters > 0
      && (CallKeepsInv(cfg, s, clock, cs[0]);
          SomeoneWaits(cfg, Apply(cfg, s, cs[0]), TimeAfter(clock, cs[0]), cs[1..])))
  }

  /** What is left of the allowance of three explicit grants. */
  function Allowance(streak: int): int {
    if streak >= 3 then 0 else 3 - streak
  }

  /** One call: an explicit grant uses up one unit of the allowance, an automatic one restores it. */
  lemma CallWithinAllowance<L>(cfg: Config, s: PoolState<L>, clock: int, c: Call<L>)
    requires ValidConfig(cfg) && PoolInv(s) && Allowed(s, clock, c) && s.autoWaiters > 0
    ensures var left, left' := Allowance(s.explicitStreak), Allowance(Apply(cfg, s, c).explicitStreak);
            && (GrantsExplicit(cfg, s, c) ==> left' + 1 <= left)
            && (!GrantsExplicit(cfg, s, c) && !GrantsAutomatic(cfg, s, c) ==> left' <= left)
            && (GrantsAutomatic(cfg, s, c) ==> left' <= 3)
    ensures !(GrantsExplicit(cfg, s, c) && GrantsAutomatic(cfg, s, c))
  {
  }

  lemma {:induction false} GrantsWithinAllowance<L>(cfg: Config, s: PoolState<L>, clock: int, cs: seq<Call<L>>)
    requires ValidConfig(cfg) && PoolInv(s) && RunAllowed(cfg, s, clock, cs) && SomeoneWaits(cfg, s, clock, cs)
    ensures ExplicitGrants(cfg, s, clock, cs)
            <= 3 * AutomaticGrants(cfg, s, clock, cs) + Allowance(s.explicitStreak)
    decreases |cs|
  {
    hide Apply, Allowed, GrantsExplicit, GrantsAutomatic;
    if cs != [] {
      CallKeepsInv(cfg, s, clock, cs[0]);
      CallWithinAllowance(cfg, s, clock, cs[0]);
      GrantsWithinAllowance(cfg, Apply(cfg, s, cs[0]), TimeAfter(clock, cs[0]), cs[1..]);
    }
  }

  /** While an automatic caller waits, explicit callers get at most three leases for each automatic one, and three more. */
  lemma ThreeToOne<L>(cfg: Config, s: PoolState<L>, clock: int, cs: seq<Call<L>>)
    requires ValidConfig(cfg) && PoolInv(s) && s.explicitStreak >= 0
    requires RunAllowed(cfg, s, clock, cs) && SomeoneWaits(cfg, s, clock, cs)
    ensures ExplicitGrants(cfg, s, clock, cs) <= 3 * (AutomaticGrants(cfg, s, clock, cs) + 1)
  {
    GrantsWithinAllowance(cfg, s, clock, cs);
  }

  /** Explicit grants since the last automatic one; `before` counts those before the run. */
  ghost function SinceAutomatic<L>(cfg: Config, s: PoolState<L>, clock: int, cs: seq<Call<L>>, before: int): int
    requires ValidConfig(cfg) && PoolInv(s) && RunAllowed(cfg, s, clock, cs)
    decreases |cs|
  {
    if cs == [] then before
    else
      CallKeepsInv(cfg, s, clock, cs[0]);
      SinceAutomatic(cfg, Apply(cfg, s, cs[0]), TimeAfter(clock, cs[0]), cs[1..],
                     if GrantsAutomatic(cfg, s, cs[0]) then 0
                     else if GrantsExplicit(cfg, s, cs[0]) then before + 1 else before)
  }

  /** Automatic callers that have registered and not left again; `before` counts those from before the run. */
  function StillWaiting<L>(cs: seq<Call<L>>, before: int): int
    decreases |cs|
  {
    if cs == [] then before
    else StillWaiting(cs[1..], if cs[0].WaiterIn? then before + 1 else if cs[0].WaiterOut? then before - 1 else before)
  }

  ghost predicate ClosesIn<L>(cs: seq<Call<L>>) {
    exists k :: 0 <= k < |cs| && cs[k].Closing?
  }

  lemma CallCounts<L>(cfg: Config, s: PoolState<L>, clock: int, c: Call<L>)
    requires ValidConfig(cfg) && PoolInv(s) && Allowed(s, clock, c)
    ensures var s' := Apply(cfg, s, c);
            && s'.explicitStreak == (if GrantsAutomatic(cfg, s, c) then 0 else s.explicitStreak + if GrantsExplicit(cfg, s, c) then 1 else 0)
            && s'.autoWaiters == s.autoWaiters + (if c.WaiterIn? then 1 else if c.WaiterOut? then -1 else 0)
            && s'.closed == (s.closed || c.Closing?)
  {
    match c
    case Acquire(now, ask, lease) => GrantMeans(cfg, s, now, ask, lease);
    case _ =>
  }

  /** The fields that fairness and closing hang on say what has happened. */
  lemma {:induction false} RunCounts<L>(cfg: Config, s: PoolState<L>, clock: int, cs: seq<Call<L>>)
    requires ValidConfig(cfg) && PoolInv(s) && RunAllowed(cfg, s, clock, cs)
    ensures var s' := Run(cfg, s, clock, cs);
            && s'.explicitStreak == SinceAutomatic(cfg, s, clock, cs, s.explicitStreak)
            && s'.autoWaiters == StillWaiting(cs, s.autoWaiters)
            && s'.closed == (s.closed || ClosesIn(cs))
    decreases |cs|
  {
    hide Apply, Allowed, GrantsExplicit, GrantsAutomatic;
    if cs != [] {
      var rest := cs[1..];
      CallKeepsInv(cfg, s, clock, cs[0]);
      CallCounts(cfg, s, clock, cs[0]);
      RunCounts(cfg, Apply(cfg, s, cs[0]), TimeAfter(clock, cs[0]), rest);
      assert forall k :: 0 < k < |cs| ==> cs[k] == rest[k - 1];
      assert forall k :: 0 <= k < |rest| ==> rest[k] == cs[k + 1];
    }
  }

  // ------------------------------------------------------------------
  // Manifest writes
  // ------------------------------------------------------------------

  /** Whether the last manifest write that one call makes succeeds, if it makes any. */
  ghost function LastWrite<L>(cfg: Config, s: PoolState<L>, c: Call<L>): Option<bool>
    requires PoolInv(s)
  {
    if !cfg.persistent then None
    else match c
    case Return(_, lease, result, saved) =>
      if lease in s.held && (EndsDrain(s.entries[s.held[lease].index]) || Counts(result)) then Some(saved) else None
    case DrainOne(id, saved) =>
      if exists i :: 0 <= i < |s.entries| && s.entries[i].profile.id == id then Some(saved) else None
    case ReplaceOne(id, replacement, closed, saved) =>
      if closed && FitsAs(id, s.provider, replacement)
         && exists i :: 0 <= i < |s.entries| && s.entries[i].profile.id == id && s.entries[i].state == Retired
      then Some(saved) else None
    case Activation(unsaved) =>
      if exists m: nat :: Warms(s.entries, 0, m) then Some(forall m: nat :: Warms(s.entries, 0, m) ==> m !in unsaved) else None
    case _ => None
  }

  /** The last write of a whole run. */
  ghost function LastWriteOf<L>(cfg: Config, s: PoolState<L>, clock: int, cs: seq<Call<L>>): Option<bool>
    requires ValidConfig(cfg) && PoolInv(s) && RunAllowed(cfg, s, clock, cs)
    decreases |cs|
  {
    if cs == [] then None
    else
      CallKeepsInv(cfg, s, clock, cs[0]);
      var later := LastWriteOf(cfg, Apply(cfg, s, cs[0]), TimeAfter(clock, cs[0]), cs[1..]);
      if later.Some? then later else LastWrite(cfg, s, cs[0])
  }

  lemma CallDecidesHealth<L>(cfg: Config, s: PoolState<L>, clock: int, c: Call<L>)
    requires ValidConfig(cfg) && PoolInv(s) && Allowed(s, clock, c)
    ensures Apply(cfg, s, c).manifestHealthy ==
            (if LastWrite(cfg, s, c).Some? then LastWrite(cfg, s, c).value else s.manifestHealthy)
  {
    match c
    case Return(now, lease, result, saved) =>
      if lease in s.held {
        ReleaseDecidesHealth(cfg, s, now, lease, result, saved);
      }
    case Activation(unsaved) => ActivationDecidesHealth(cfg, s, unsaved, 0);
    case _ =>
  }

  /** The store counts as healthy exactly if the last manifest write that any call made succeeded. */
  lemma {:induction false} HealthFollowsLastWrite<L>(cfg: Config, s: PoolState<L>, clock: int, cs: seq<Call<L>>)
    requires ValidConfig(cfg) && PoolInv(s) && RunAllowed(cfg, s, clock, cs)
    ensures var last := LastWriteOf(cfg, s, clock, cs);
            Run(cfg, s, clock, cs).manifestHealthy == if last.Some? then last.value else s.manifestHealthy
    decreases |cs|
  {
    hide Apply, Allowed, LastWrite;
    if cs != [] {
      CallKeepsInv(cfg, s, clock, cs[0]);
      CallDecidesHealth(cfg, s, clock, cs[0]);
      HealthFollowsLastWrite(cfg, Apply(cfg, s, cs[0]), TimeAfter(clock, cs[0]), cs[1..]);
    }
  }

  /**
   * When a pool serves, in terms of what has happened to it: it has not been
   * closed, its last manifest write did not fail, an explicit caller does
   * not meet a waiting automatic one with three or more explicit grants
   * since the last automatic grant, and some identity offers a slot. So an
   * explicit caller that is turned away by an open, healthy pool with a slot
   * to offer has had its three turns while an automatic one waits.
   */
  lemma RunServesExactlyWhen<L>(cfg: Config, s: PoolState<L>, clock: int, cs: seq<Call<L>>, now: int, ask: Ask)
    requires ValidConfig(cfg) && PoolInv(s) && RunAllowed(cfg, s, clock, cs)
    requires !s.closed && s.manifestHealthy && s.autoWaiters == 0 && s.explicitStreak == 0
    ensures var s' := Run(cfg, s, clock, cs);
            && PoolInv(s')
            && (Leased(cfg, s', now, ask).Some? <==>
                  && !ClosesIn(cs)
                  && LastWriteOf(cfg, s, clock, cs) != Some(false)
                  && !(ask.explicit && StillWaiting(cs, 0) > 0 && SinceAutomatic(cfg, s, clock, cs, 0) >= 3)
                  && exists i :: 0 <= i < |s'.entries| && Offers(cfg, now, s'.entries[i], ask.excluded))
  {
    RunKeepsInv(cfg, s, clock, cs);
    RunCounts(cfg, s, clock, cs);
    HealthFollowsLastWrite(cfg, s, clock, cs);
    ServedExactlyWhen(cfg, Run(cfg, s, clock, cs), now, ask);
  }

  // ------------------------------------------------------------------
  // Every identity lives a legal history
  // ------------------------------------------------------------------

  /** What one call means for the identity at position `i`. */
  ghost function EventsAt<L>(cfg: Config, s: PoolState<L>, c: Call<L>, i: nat): seq<Event>
    requires AllValid(s.entries)
  {
    match c
    case Acquire(now, ask, _) =>
      if Refuses(s, ask) then []
      else if Leased(cfg, s, now, ask) == Some(i) then [Reconcile(now), Grant] else [Reconcile(now)]
    case Return(now, lease, result, saved) =>
      if lease in s.held && s.held[lease].index == i then [Event.Release(now, result, saved)] else []
    case DrainOne(id, saved) => if IndexOf(s.entries, id) == Some(i) then [Event.Drain(saved)] else []
    case ReplaceOne(id, replacement, closed, saved) =>
      if Replaces(s, id, replacement, closed) && IndexOf(s.entries, id) == Some(i)
      then [Event.Replace(replacement.value, saved)] else []
    case Activation(unsaved) =>
      if i < |s.entries| && ActivateFrom(cfg, s, unsaved, 0).entries[i] != s.entries[i] then [Activate(i !in unsaved)] else []
    case Closing => [Close]
    case _ => []
  }

  /** A history that the pool's clock and its being open or closed agree with. */
  predicate Agrees<L>(s: PoolState<L>, clock: int, h: History) {
    h.clock <= clock && (h.closed <==> s.closed) && (h.saved.Some? ==> SaneManifest(h.saved.value))
  }

  ghost predicate Projects<L>(cfg: Config, s: PoolState<L>, clock: int, c: Call<L>, i: nat, h: History)
    requires ValidConfig(cfg) && PoolInv(s) && Allowed(s, clock, c) && i < |s.entries| && Agrees(s, clock, h)
  {
    var l, es := Life(s.entries[i], h), EventsAt(cfg, s, c, i);
    && |Apply(cfg, s, c).entries| == |s.entries|
    && Legal(cfg, l, es)
    && After(cfg, l, es).r == Apply(cfg, s, c).entries[i]
    && Agrees(Apply(cfg, s, c), TimeAfter(clock, c), After(cfg, l, es).h)
  }

  lemma AcquireProjects<L>(cfg: Config, s: PoolState<L>, clock: int, now: int, ask: Ask, lease: L, i: nat, h: History)
    requires ValidConfig(cfg) && PoolInv(s) && Allowed(s, clock, Acquire(now, ask, lease)) && i < |s.entries| && Agrees(s, clock, h)
    ensures Projects(cfg, s, clock, Acquire(now, ask, lease), i, h)
  {
    hide Step, SaneManifest, LessLoaded;
    var l := Life(s.entries[i], h);
    if !Refuses(s, ask) {
      OneEventMeans(cfg, l, Reconcile(now));
      if Leased(cfg, s, now, ask) == Some(i) {
        LeaseIsLeastLoaded(cfg, s, now, ask);
        OneEventMeans(cfg, Step(cfg, l, Reconcile(now)), Grant);
        Extended(cfg, l, [Reconcile(now)], Grant);
        assert EventsAt(cfg, s, Acquire(now, ask, lease), i) == [Reconcile(now)] + [Grant];
      }
    }
  }

  lemma ReturnProjects<L>(cfg: Config, s: PoolState<L>, clock: int, c: Call<L>, i: nat, h: History)
    requires ValidConfig(cfg) && PoolInv(s) && Allowed(s, clock, c) && c.Return? && i < |s.entries| && Agrees(s, clock, h)
    ensures Projects(cfg, s, clock, c, i, h)
  {
    hide Released, Step, SaneManifest, SavesOnRelease;
    if c.lease in s.held && s.held[c.lease].index == i {
      assert c.lease in Holders(s, i);
      OneEventMeans(cfg, Life(s.entries[i], h), Event.Release(c.now, c.result, c.saved));
    }
  }

  lemma DrainProjects<L>(cfg: Config, s: PoolState<L>, clock: int, c: Call<L>, i: nat, h: History)
    requires ValidConfig(cfg) && PoolInv(s) && Allowed(s, clock, c) && c.DrainOne? && i < |s.entries| && Agrees(s, clock, h)
    ensures Projects(cfg, s, clock, c, i, h)
  {
    hide Step, SaneManifest;
    if EventsAt(cfg, s, c, i) != [] {
      OneEventMeans(cfg, Life(s.entries[i], h), Event.Drain(c.saved));
    }
  }

  lemma ReplaceProjects<L>(cfg: Config, s: PoolState<L>, clock: int, c: Call<L>, i: nat, h: History)
    requires ValidConfig(cfg) && PoolInv(s) && Allowed(s, clock, c) && c.ReplaceOne? && i < |s.entries| && Agrees(s, clock, h)
    ensures Projects(cfg, s, clock, c, i, h)
  {
    hide Step, Replaced, SaneManifest;
    if EventsAt(cfg, s, c, i) != [] {
      OneEventMeans(cfg, Life(s.entries[i], h), Event.Replace(c.replacement.value, c.saved));
    }
  }

  lemma ActivationProjects<L>(cfg: Config, s: PoolState<L>, clock: int, c: Call<L>, i: nat, h: History)
    requires ValidConfig(cfg) && PoolInv(s) && Allowed(s, clock, c) && c.Activation? && i < |s.entries| && Agrees(s, clock, h)
    ensures Projects(cfg, s, clock, c, i, h)
  {
    hide Step, SaneManifest;
    if EventsAt(cfg, s, c, i) != [] {
      OneEventMeans(cfg, Life(s.entries[i], h), Activate(i !in c.unsaved));
    }
  }

  /** What one call does to an identity is a legal piece of that identity's history. */
  lemma CallProjects<L>(cfg: Config, s: PoolState<L>, clock: int, c: Call<L>, i: nat, h: History)
    requires ValidConfig(cfg) && PoolInv(s) && Allowed(s, clock, c) && i < |s.entries| && Agrees(s, clock, h)
    ensures Projects(cfg, s, clock, c, i, h)
  {
    match c {
      case Acquire(now, ask, lease) => AcquireProjects(cfg, s, clock, now, ask, lease, i, h);
      case Return(_, _, _, _) => ReturnProjects(cfg, s, clock, c, i, h);
      case DrainOne(_, _) => DrainProjects(cfg, s, clock, c, i, h);
      case ReplaceOne(_, _, _, _) => ReplaceProjects(cfg, s, clock, c, i, h);
      case Activation(_) => ActivationProjects(cfg, s, clock, c, i, h);
      case Closing => OneEventMeans(cfg, Life(s.entries[i], h), Close);
      case _ =>
    }
  }

  /** The history of the identity at position `i` through a whole run. */
  ghost function HistoryAt<L>(cfg: Config, s: PoolState<L>, clock: int, cs: seq<Call<L>>, i: nat): seq<Event>
    requires ValidConfig(cfg) && PoolInv(s) && RunAllowed(cfg, s, clock, cs)
    decreases |cs|
  {
    if cs == [] then []
    else
      CallKeepsInv(cfg, s, clock, cs[0]);
      EventsAt(cfg, s, cs[0], i) + HistoryAt(cfg, Apply(cfg, s, cs[0]), TimeAfter(clock, cs[0]), cs[1..], i)
  }

  /** Every run of the pool drives every identity through a legal history that ends in that identity's record. */
  lemma {:induction false} RunProjects<L>(cfg: Config, s: PoolState<L>, clock: int, cs: seq<Call<L>>, i: nat, h: History)
    requires ValidConfig(cfg) && PoolInv(s) && RunAllowed(cfg, s, clock, cs)
    requires i < |s.entries| && Agrees(s, clock, h)
    ensures var l := Life(s.entries[i], h);
            && |Run(cfg, s, clock, cs).entries| == |s.entries|
            && Legal(cfg, l, HistoryAt(cfg, s, clock, cs, i))
            && After(cfg, l, HistoryAt(cfg, s, clock, cs, i)).r == Run(cfg, s, clock, cs).entries[i]
            && Agrees(Run(cfg, s, clock, cs), TimeOfRun(clock, cs), After(cfg, l, HistoryAt(cfg, s, clock, cs, i)).h)
    decreases |cs|
  {
    if cs != [] {
      var l := Life(s.entries[i], h);
      CallProjects(cfg, s, clock, cs[0], i, h);
      CallKeepsInv(cfg, s, clock, cs[0]);
      var es := EventsAt(cfg, s, cs[0], i);
      var l' := After(cfg, l, es);
      RunProjects(cfg, Apply(cfg, s, cs[0]), TimeAfter(clock, cs[0]), cs[1..], i, l'.h);
      Appended(cfg, l, es, HistoryAt(cfg, Apply(cfg, s, cs[0]), TimeAfter(clock, cs[0]), cs[1..], i));
    }
  }

  /**
   * Whatever calls a pool has served, a lease it grants goes to an identity
   * that still has recovery budget left and has sat out the cooldown of its
   * last risk response.
   */
  lemma LeasesAreEarned<L>(cfg: Config, s: PoolState<L>, clock: int, cs: seq<Call<L>>, now: int, ask: Ask, i: nat)
    requires ValidConfig(cfg) && PoolInv(s) && RunAllowed(cfg, s, clock, cs) && TimeOfRun(clock, cs) <= now
    requires !s.closed && i < |s.entries| && s.entries[i] == Newborn(cfg, s.entries[i].profile)
    requires PoolInv(Run(cfg, s, clock, cs)) && Leased(cfg, Run(cfg, s, clock, cs), now, ask) == Some(i)
    ensures var born := Born(cfg, s.entries[i].profile, clock);
            var es := HistoryAt(cfg, s, clock, cs, i) + [Reconcile(now)];
            && Legal(cfg, born, es)
            && var l := After(cfg, born, es);
            && l.h.clock == now
            && Enabled(l, Grant)
            && l.h.recoveries <= cfg.maxRecoveryAttempts
            && (l.h.newborn && l.h.onlyFailures ==>
                  l.h.charged < (cfg.maxRecoveryAttempts + 1) * StretchBound(cfg, l.r.profile.capacity))
            && (l.h.riskAt.Some? ==>
                  && now >= l.h.riskAt.value + ShortestCooldown(cfg)
                  && (l.r.profile.capacity == 1 ==> now >= l.h.riskAt.value + cfg.quarantineCooldown))
  {
    var born := Born(cfg, s.entries[i].profile, clock);
    RunProjects(cfg, s, clock, cs, i, born.h);
    var es := HistoryAt(cfg, s, clock, cs, i);
    LeaseIsLeastLoaded(cfg, Run(cfg, s, clock, cs), now, ask);
    Extended(cfg, born, es, Reconcile(now));
    RecoveryBudget(cfg, s.entries[i].profile, clock, es + [Reconcile(now)]);
    RiskKeepsIdentityOut(cfg, s.entries[i].profile, clock, es + [Reconcile(now)]);
  }

  /** Whatever calls a pool has served, an identity that started as a newborn is trusted only if some release promoted it. */
  lemma RunTrustIsPromoted<L>(cfg: Config, s: PoolState<L>, clock: int, cs: seq<Call<L>>, i: nat)
    requires ValidConfig(cfg) && PoolInv(s) && RunAllowed(cfg, s, clock, cs)
    requires !s.closed && i < |s.entries| && s.entries[i] == Newborn(cfg, s.entries[i].profile)
    ensures var born, es := Born(cfg, s.entries[i].profile, clock), HistoryAt(cfg, s, clock, cs, i);
            && Legal(cfg, born, es)
            && i < |Run(cfg, s, clock, cs).entries|
            && (Run(cfg, s, clock, cs).entries[i].state == Trusted ==> EverPromoted(cfg, born, es))
  {
    var born := Born(cfg, s.entries[i].profile, clock);
    RunProjects(cfg, s, clock, cs, i, born.h);
    TrustIsPromoted(cfg, born, HistoryAt(cfg, s, clock, cs, i));
  }
}
