/**
 * The profile pool as a value: what each call made under the pool's mutex does
 * to the whole pool, for any type `L` of lease handles.
 */
module PoolModel {
  import opened Domain
  import opened Lifecycle
  import opened StringOrder

  /** Where a lease was cut from: a position in the pool and the generation of the identity there. */
  datatype Slot = Slot(index: nat, generation: int)

  datatype PoolState<L(==)> = PoolState(
    provider: string,
    entries: seq<Record>,
    closed: bool,
    manifestHealthy: bool,
    autoWaiters: int,
    explicitStreak: int,
    held: map<L, Slot>)

  /** One request for a lease. `bucket` is the request id's hash, modulo 100; an empty `excluded` excludes nobody. */
  datatype Ask = Ask(bucket: int, automatic: bool, explicit: bool, excluded: string)

  // ------------------------------------------------------------------
  // Selection
  // ------------------------------------------------------------------

  ghost predicate AllValid(entries: seq<Record>) {
    forall i :: 0 <= i < |entries| ==> ValidRecord(entries[i])
  }

  ghost predicate DistinctIds(entries: seq<Record>) {
    forall i, j :: 0 <= i < j < |entries| ==> entries[i].profile.id != entries[j].profile.id
  }

  function Load(r: Record): real
    requires r.profile.capacity >= 1
  {
    r.inFlight as real / r.profile.capacity as real
  }

  predicate LessLoaded(left: Record, right: Record)
    requires left.profile.capacity >= 1 && right.profile.capacity >= 1
  {
    if Load(left) != Load(right) then Load(left) < Load(right) else Less(left.profile.id, right.profile.id)
  }

  predicate Eligible(r: Record, state: State, excluded: string) {
    r.profile.id != excluded && r.state == state && r.inFlight < r.profile.capacity
  }

  /** Entry `i` is eligible and comes before every other eligible entry. */
  ghost predicate IsLeast(entries: seq<Record>, state: State, excluded: string, i: int)
    requires AllValid(entries)
  {
    && 0 <= i < |entries|
    && Eligible(entries[i], state, excluded)
    && forall j :: 0 <= j < |entries| && j != i && Eligible(entries[j], state, excluded) ==>
                     LessLoaded(entries[i], entries[j])
  }

  ghost function Select(entries: seq<Record>, state: State, excluded: string): (r: Option<nat>)
    requires AllValid(entries)
    ensures r.Some? ==> IsLeast(entries, state, excluded, r.value)
  {
    if exists i :: IsLeast(entries, state, excluded, i) then
      var i :| IsLeast(entries, state, excluded, i);
      Some(i)
    else
      None
  }

  lemma LessLoadedIrreflexive(a: Record)
    requires a.profile.capacity >= 1
    ensures !LessLoaded(a, a)
  {
    LessIrreflexive(a.profile.id);
  }

  lemma LessLoadedTransitive(a: Record, b: Record, c: Record)
    requires a.profile.capacity >= 1 && b.profile.capacity >= 1 && c.profile.capacity >= 1
    requires LessLoaded(a, b) && LessLoaded(b, c)
    ensures LessLoaded(a, c)
  {
    if Load(a) == Load(b) == Load(c) {
      LessTransitive(a.profile.id, b.profile.id, c.profile.id);
    }
  }

  lemma LessLoadedTotal(a: Record, b: Record)
    requires a.profile.capacity >= 1 && b.profile.capacity >= 1 && a.profile.id != b.profile.id
    ensures LessLoaded(a, b) || LessLoaded(b, a)
  {
    LessTotal(a.profile.id, b.profile.id);
  }

  lemma LeastIsUnique(entries: seq<Record>, state: State, excluded: string, i: int, j: int)
    requires AllValid(entries)
    requires IsLeast(entries, state, excluded, i) && IsLeast(entries, state, excluded, j)
    ensures i == j
  {
    if i != j {
      LessLoadedTransitive(entries[i], entries[j], entries[i]);
      LessLoadedIrreflexive(entries[i]);
    }
  }

  lemma {:induction false} LeastExists(entries: seq<Record>, state: State, excluded: string) returns (i: int)
    requires AllValid(entries) && DistinctIds(entries)
    requires exists k :: 0 <= k < |entries| && Eligible(entries[k], state, excluded)
    ensures IsLeast(entries, state, excluded, i)
    decreases |entries|
  {
    var n := |entries| - 1;
    var rest := entries[..n];
    if k :| 0 <= k < n && Eligible(entries[k], state, excluded) {
      assert Eligible(rest[k], state, excluded);
      i := LeastExists(rest, state, excluded);
      assert forall j :: 0 <= j < n ==> rest[j] == entries[j];
      if Eligible(entries[n], state, excluded) {
        LessLoadedTotal(entries[i], entries[n]);
        if LessLoaded(entries[n], entries[i]) {
          forall j | 0 <= j < n && Eligible(entries[j], state, excluded)
            ensures LessLoaded(entries[n], entries[j])
          {
            if j != i {
              LessLoadedTransitive(entries[n], entries[i], entries[j]);
            }
          }
          i := n;
        }
      }
    } else {
      i := n;
    }
  }

  /** Selection finds an entry exactly when one is eligible. */
  lemma SelectsWhenEligible(entries: seq<Record>, state: State, excluded: string)
    requires AllValid(entries) && DistinctIds(entries)
    ensures Select(entries, state, excluded).Some?
            <==> exists k :: 0 <= k < |entries| && Eligible(entries[k], state, excluded)
  {
    if exists k :: 0 <= k < |entries| && Eligible(entries[k], state, excluded) {
      var i := LeastExists(entries, state, excluded);
    }
  }

  /** The chosen identity does not depend on the order in which the pool lists its entries. */
  lemma SelectionIgnoresOrder(xs: seq<Record>, ys: seq<Record>, state: State, excluded: string)
    requires AllValid(xs) && DistinctIds(xs) && AllValid(ys) && DistinctIds(ys)
    requires forall r :: r in xs <==> r in ys
    ensures Select(xs, state, excluded).Some? <==> Select(ys, state, excluded).Some?
    ensures Select(xs, state, excluded).Some? ==>
              xs[Select(xs, state, excluded).value] == ys[Select(ys, state, excluded).value]
  {
    SelectsWhenEligible(xs, state, excluded);
    SelectsWhenEligible(ys, state, excluded);
    if k :| 0 <= k < |xs| && Eligible(xs[k], state, excluded) {
      assert xs[k] in ys;
    }
    if k :| 0 <= k < |ys| && Eligible(ys[k], state, excluded) {
      assert ys[k] in xs;
    }
    if Select(xs, state, excluded).Some? {
      var a, b := xs[Select(xs, state, excluded).value], ys[Select(ys, state, excluded).value];
      assert a in xs && b in ys;
      var i :| 0 <= i < |ys| && ys[i] == a;
      var j :| 0 <= j < |xs| && xs[j] == b;
      if a != b {
        assert LessLoaded(a, xs[j]) && LessLoaded(b, ys[i]);
        LessLoadedTransitive(a, b, a);
        LessLoadedIrreflexive(a);
      }
    }
  }

  // ------------------------------------------------------------------
  // Operations
  // ------------------------------------------------------------------

  function ReconcileAll(cfg: Config, now: int, entries: seq<Record>): (r: seq<Record>)
    ensures |r| == |entries|
    ensures forall i :: 0 <= i < |r| ==> r[i] == Reconciled(cfg, now, entries[i])
  {
    seq(|entries|, i requires 0 <= i < |entries| => Reconciled(cfg, now, entries[i]))
  }

  function Preferred(cfg: Config, ask: Ask): State {
    if ask.bucket < cfg.trustedTrafficPercent then Trusted else Probation
  }

  function Other(s: State): State {
    if s == Trusted then Probation else Trusted
  }

  ghost function Choose(cfg: Config, entries: seq<Record>, ask: Ask): Option<nat>
    requires AllValid(entries)
  {
    var first := Select(entries, Preferred(cfg, ask), ask.excluded);
    if first.Some? then first else Select(entries, Other(Preferred(cfg, ask)), ask.excluded)
  }

  predicate Yields<L>(s: PoolState<L>, ask: Ask) {
    ask.explicit && s.autoWaiters > 0 && s.explicitStreak >= 3
  }

  predicate Refuses<L>(s: PoolState<L>, ask: Ask) {
    s.closed || !s.manifestHealthy || Yields(s, ask)
  }

  function NextStreak(ask: Ask, streak: int): int {
    if ask.automatic then 0 else if ask.explicit then streak + 1 else streak
  }

  lemma ReconcileAllValid(cfg: Config, now: int, entries: seq<Record>)
    requires AllValid(entries)
    ensures AllValid(ReconcileAll(cfg, now, entries))
  {
  }

  /** The entry a call leases from, if any. */
  ghost function Leased<L>(cfg: Config, s: PoolState<L>, now: int, ask: Ask): Option<nat>
    requires AllValid(s.entries)
  {
    if Refuses(s, ask) then None
    else ReconcileAllValid(cfg, now, s.entries); Choose(cfg, ReconcileAll(cfg, now, s.entries), ask)
  }

  ghost function TryAcquire<L>(cfg: Config, s: PoolState<L>, now: int, ask: Ask, lease: L): PoolState<L>
    requires AllValid(s.entries)
  {
    if Refuses(s, ask) then s
    else
      var entries := ReconcileAll(cfg, now, s.entries);
      var chosen := Leased(cfg, s, now, ask);
      if chosen.None? then s.(entries := entries)
      else
        CutLease(s.(entries := entries), chosen.value, ask, lease)
  }

  function CutLease<L>(s: PoolState<L>, i: nat, ask: Ask, lease: L): PoolState<L>
    requires i < |s.entries|
  {
    s.(entries := s.entries[i := Granted(s.entries[i])],
       explicitStreak := NextStreak(ask, s.explicitStreak),
       held := s.held[lease := Slot(i, s.entries[i].generation)])
  }

  function AfterSave(cfg: Config, healthy: bool, saved: bool): bool {
    if cfg.persistent then saved else healthy
  }

  /** Returning a lease that is not outstanding any more changes nothing. */
  ghost function Release<L>(cfg: Config, s: PoolState<L>, now: int, lease: L, result: Result, saved: bool): PoolState<L>
    requires AllValid(s.entries)
  {
    if lease !in s.held || s.held[lease].index >= |s.entries| then s
    else
      var i := s.held[lease].index;
      s.(entries := s.entries[i := Released(cfg, now, s.entries[i], result)],
         manifestHealthy := if SavesOnRelease(s.entries[i], result) then AfterSave(cfg, s.manifestHealthy, saved)
                            else s.manifestHealthy,
         held := s.held - {lease})
  }

  ghost function IndexOf(entries: seq<Record>, id: string): (r: Option<nat>)
    ensures r.Some? ==> r.value < |entries| && entries[r.value].profile.id == id
  {
    if exists i :: 0 <= i < |entries| && entries[i].profile.id == id then
      var i :| 0 <= i < |entries| && entries[i].profile.id == id;
      Some(i)
    else
      None
  }

  ghost function Drain<L>(cfg: Config, s: PoolState<L>, id: string, saved: bool): PoolState<L> {
    var found := IndexOf(s.entries, id);
    if found.None? then s
    else s.(entries := s.entries[found.value := Drained(s.entries[found.value])],
            manifestHealthy := AfterSave(cfg, s.manifestHealthy, saved))
  }

  predicate FitsAs(id: string, provider: string, replacement: Option<Profile>) {
    && replacement.Some?
    && replacement.value.id == id
    && replacement.value.provider == provider
    && replacement.value.capacity > 0
  }

  /** Whether a replacement goes through; `closed` says that closing the old identity succeeded. */
  ghost predicate Replaces<L>(s: PoolState<L>, id: string, replacement: Option<Profile>, closed: bool) {
    var found := IndexOf(s.entries, id);
    found.Some? && s.entries[found.value].state == Retired && FitsAs(id, s.provider, replacement) && closed
  }

  ghost function Replace<L>(cfg: Config, s: PoolState<L>, id: string, replacement: Option<Profile>, closed: bool, saved: bool)
    : PoolState<L>
  {
    if !Replaces(s, id, replacement, closed) then s
    else
      var i := IndexOf(s.entries, id).value;
      s.(entries := s.entries[i := Replaced(s.entries[i], replacement.value)],
         manifestHealthy := AfterSave(cfg, s.manifestHealthy, saved))
  }

  /**
   * Activation walks the entries from `i` on and stops after the first one
   * whose manifest cannot be saved; `unsaved` are the positions whose save fails.
   */
  function ActivateFrom<L>(cfg: Config, s: PoolState<L>, unsaved: set<int>, i: nat): (r: PoolState<L>)
    requires i <= |s.entries|
    ensures r == s.(entries := r.entries, manifestHealthy := r.manifestHealthy) && |r.entries| == |s.entries|
    ensures forall j :: 0 <= j < |s.entries| ==> r.entries[j] == s.entries[j] || r.entries[j] == Activated(s.entries[j])
    decreases |s.entries| - i
  {
    if i == |s.entries| then s
    else if s.entries[i].state != Warming then ActivateFrom(cfg, s, unsaved, i + 1)
    else
      var s' := s.(entries := s.entries[i := Activated(s.entries[i])],
                   manifestHealthy := AfterSave(cfg, s.manifestHealthy, i !in unsaved));
      if cfg.persistent && i in unsaved then s' else ActivateFrom(cfg, s', unsaved, i + 1)
  }

  function RetireAll(entries: seq<Record>): (r: seq<Record>)
    ensures |r| == |entries|
    ensures forall i :: 0 <= i < |r| ==> r[i] == entries[i].(state := Retired)
  {
    seq(|entries|, i requires 0 <= i < |entries| => entries[i].(state := Retired))
  }

  ghost function CloseAll<L>(s: PoolState<L>): PoolState<L> {
    s.(entries := RetireAll(s.entries), closed := true)
  }

  // ------------------------------------------------------------------
  // The accounting invariant
  // ------------------------------------------------------------------

  ghost function Holders<L>(s: PoolState<L>, i: nat): set<L> {
    set l | l in s.held && s.held[l].index == i
  }

  /**
   * Every lease is counted on the identity it was cut from, no identity is
   * over capacity, and while the pool is open nothing is retired under a
   * lease and nothing drains without one.
   */
  ghost predicate PoolInv<L>(s: PoolState<L>) {
    && AllValid(s.entries)
    && DistinctIds(s.entries)
    && (forall i :: 0 <= i < |s.entries| ==> s.entries[i].profile.provider == s.provider)
    && (forall l :: l in s.held ==>
          s.held[l].index < |s.entries| && s.held[l].generation == s.entries[s.held[l].index].generation)
    && (forall i :: 0 <= i < |s.entries| ==> s.entries[i].inFlight == |Holders(s, i)|)
    && (!s.closed ==> forall i :: 0 <= i < |s.entries| ==> DrainState(s.entries[i]))
  }

  predicate DrainState(r: Record) {
    (r.state == Retired ==> r.inFlight == 0) && (r.state == Draining ==> r.inFlight > 0)
  }

  /** A step that keeps leases, identities and counts, entry by entry, keeps the invariant. */
  lemma SameLeasesKeepInv<L>(s: PoolState<L>, s': PoolState<L>)
    requires PoolInv(s)
    requires |s'.entries| == |s.entries| && s'.held == s.held && s'.provider == s.provider
    requires forall i :: 0 <= i < |s.entries| ==>
                           && ValidRecord(s'.entries[i])
                           && s'.entries[i].profile == s.entries[i].profile
                           && s'.entries[i].generation == s.entries[i].generation
                           && s'.entries[i].inFlight == s.entries[i].inFlight
    requires !s'.closed ==> forall i :: 0 <= i < |s.entries| ==> DrainState(s'.entries[i])
    ensures PoolInv(s')
  {
    forall i | 0 <= i < |s'.entries|
      ensures s'.entries[i].inFlight == |Holders(s', i)|
    {
      assert Holders(s', i) == Holders(s, i);
    }
  }

  /** So does a step that touches one entry and counts its leases right. */
  lemma OneEntryKeepsInv<L>(s: PoolState<L>, s': PoolState<L>, k: nat, r: Record)
    requires PoolInv(s) && k < |s.entries| && s'.entries == s.entries[k := r]
    requires s'.provider == s.provider && (s'.closed <==> s.closed)
    requires r.profile == s.entries[k].profile && r.generation == s.entries[k].generation
    requires ValidRecord(r) && (!s.closed ==> DrainState(r)) && r.inFlight == |Holders(s', k)|
    requires forall l :: l in s'.held && s'.held[l].index != k ==> l in s.held && s'.held[l] == s.held[l]
    requires forall l :: l in s.held && s.held[l].index != k ==> l in s'.held && s'.held[l] == s.held[l]
    requires forall l :: l in s'.held && s'.held[l].index == k ==> s'.held[l].generation == r.generation
    ensures PoolInv(s')
  {
    forall i | 0 <= i < |s'.entries|
      ensures s'.entries[i].inFlight == |Holders(s', i)|
    {
      if i != k {
        assert Holders(s', i) == Holders(s, i);
      }
    }
    assert forall i :: 0 <= i < |s'.entries| ==> s'.entries[i].profile == s.entries[i].profile;
  }

  lemma CutLeaseKeepsInv<L>(s: PoolState<L>, i: nat, ask: Ask, lease: L)
    requires PoolInv(s) && i < |s.entries| && lease !in s.held
    requires Serving(s.entries[i].state) && s.entries[i].inFlight < s.entries[i].profile.capacity
    ensures PoolInv(CutLease(s, i, ask, lease))
  {
    var s' := CutLease(s, i, ask, lease);
    assert Holders(s', i) == Holders(s, i) + {lease};
    OneEntryKeepsInv(s, s', i, Granted(s.entries[i]));
  }

  lemma ReconcileKeepsInv<L>(cfg: Config, s: PoolState<L>, now: int)
    requires PoolInv(s)
    ensures PoolInv(s.(entries := ReconcileAll(cfg, now, s.entries)))
  {
    SameLeasesKeepInv(s, s.(entries := ReconcileAll(cfg, now, s.entries)));
  }

  lemma TryAcquireKeepsInv<L>(cfg: Config, s: PoolState<L>, now: int, ask: Ask, lease: L)
    requires PoolInv(s) && lease !in s.held
    ensures PoolInv(TryAcquire(cfg, s, now, ask, lease))
  {
    if !Refuses(s, ask) {
      ReconcileKeepsInv(cfg, s, now);
      var chosen := Leased(cfg, s, now, ask);
      if chosen.Some? {
        CutLeaseKeepsInv(s.(entries := ReconcileAll(cfg, now, s.entries)), chosen.value, ask, lease);
      }
    }
  }

  lemma ReleasedKeepsRecord(cfg: Config, now: int, r: Record, result: Result)
    requires ValidConfig(cfg) && ValidRecord(r) && r.inFlight > 0
    ensures var r' := Released(cfg, now, r, result);
            && ValidRecord(r') && r'.profile == r.profile && r'.generation == r.generation
            && r'.inFlight == r.inFlight - 1
            && (DrainState(r) ==> DrainState(r'))
  {
    var h := History(now, false, false, 0, false, 0, None, None, None, false, false);
    StepKeepsRecordValid(cfg, Life(r, h), Event.Release(now, result, false));
  }

  lemma ReleaseKeepsInv<L>(cfg: Config, s: PoolState<L>, now: int, lease: L, result: Result, saved: bool)
    requires ValidConfig(cfg) && PoolInv(s)
    ensures PoolInv(Release(cfg, s, now, lease, result, saved))
  {
    if lease in s.held {
      var k := s.held[lease].index;
      assert lease in Holders(s, k);
      var s' := Release(cfg, s, now, lease, result, saved);
      assert Holders(s', k) == Holders(s, k) - {lease};
      ReleasedKeepsRecord(cfg, now, s.entries[k], result);
      OneEntryKeepsInv(s, s', k, Released(cfg, now, s.entries[k], result));
    }
  }

  lemma DrainKeepsInv<L>(cfg: Config, s: PoolState<L>, id: string, saved: bool)
    requires PoolInv(s)
    ensures PoolInv(Drain(cfg, s, id, saved))
  {
    SameLeasesKeepInv(s, Drain(cfg, s, id, saved));
  }

  lemma ActivateKeepsInv<L>(cfg: Config, s: PoolState<L>, unsaved: set<int>)
    requires PoolInv(s)
    ensures PoolInv(ActivateFrom(cfg, s, unsaved, 0))
  {
    SameLeasesKeepInv(s, ActivateFrom(cfg, s, unsaved, 0));
  }

  lemma CloseKeepsInv<L>(s: PoolState<L>)
    requires PoolInv(s)
    ensures PoolInv(CloseAll(s))
  {
    SameLeasesKeepInv(s, CloseAll(s));
  }

  /** Replacement keeps the invariant exactly when no lease is out on the replaced identity, and in an open pool none ever is. */
  lemma ReplaceKeepsInvExactlyWhen<L>(cfg: Config, s: PoolState<L>, id: string, replacement: Option<Profile>, closed: bool, saved: bool)
    requires PoolInv(s) && Replaces(s, id, replacement, closed)
    ensures PoolInv(Replace(cfg, s, id, replacement, closed, saved))
            <==> Holders(s, IndexOf(s.entries, id).value) == {}
    ensures !s.closed ==> Holders(s, IndexOf(s.entries, id).value) == {}
  {
    var k := IndexOf(s.entries, id).value;
    var s' := Replace(cfg, s, id, replacement, closed, saved);
    assert s'.entries[k].inFlight == 0 && Holders(s', k) == Holders(s, k);
    if Holders(s, k) == {} {
      forall i | 0 <= i < |s'.entries|
        ensures s'.entries[i].inFlight == |Holders(s', i)|
      {
        assert Holders(s', i) == Holders(s, i);
      }
      forall l | l in s'.held
        ensures s'.held[l].generation == s'.entries[s'.held[l].index].generation
      {
        assert s'.held[l].index == k ==> l in Holders(s, k);
      }
    }
  }

  // ------------------------------------------------------------------
  // When a request is served
  // ------------------------------------------------------------------

  /** In service, or cooled down with a recovery left. */
  predicate CanServe(cfg: Config, now: int, r: Record) {
    || r.state == Probation || r.state == Trusted
    || ((r.state == Quarantined || r.state == Degraded) && r.quarantinedUntil <= now && r.recoveryAttempts < cfg.maxRecoveryAttempts)
  }

  predicate Offers(cfg: Config, now: int, r: Record, excluded: string) {
    CanServe(cfg, now, r) && r.inFlight < r.profile.capacity && r.profile.id != excluded
  }

  lemma ReconcileKeepsIds(cfg: Config, now: int, entries: seq<Record>)
    requires DistinctIds(entries)
    ensures DistinctIds(ReconcileAll(cfg, now, entries))
  {
    assert forall r :: Reconciled(cfg, now, r).profile == r.profile;
  }

  lemma OffersMeansEligible(cfg: Config, now: int, r: Record, p: State, excluded: string)
    requires Serving(p)
    ensures Offers(cfg, now, r, excluded) <==>
              Eligible(Reconciled(cfg, now, r), p, excluded) || Eligible(Reconciled(cfg, now, r), Other(p), excluded)
  {
  }

  /**
   * A request is served exactly when the pool is open, its last manifest write
   * succeeded, the caller is not an explicit one that has to let a waiting
   * automatic one go first after three explicit grants in a row, and some
   * identity other than the excluded one can serve and has a free slot.
   */
  lemma ServedExactlyWhen<L>(cfg: Config, s: PoolState<L>, now: int, ask: Ask)
    requires PoolInv(s)
    ensures Leased(cfg, s, now, ask).Some? <==>
              && !s.closed && s.manifestHealthy
              && !(ask.explicit && s.autoWaiters > 0 && s.explicitStreak >= 3)
              && exists i :: 0 <= i < |s.entries| && Offers(cfg, now, s.entries[i], ask.excluded)
  {
    if !Refuses(s, ask) {
      ReconcileAllValid(cfg, now, s.entries);
      ReconcileKeepsIds(cfg, now, s.entries);
      var es := ReconcileAll(cfg, now, s.entries);
      var p := Preferred(cfg, ask);
      SelectsWhenEligible(es, p, ask.excluded);
      SelectsWhenEligible(es, Other(p), ask.excluded);
      forall i | 0 <= i < |es|
        ensures Offers(cfg, now, s.entries[i], ask.excluded) <==>
                  Eligible(es[i], p, ask.excluded) || Eligible(es[i], Other(p), ask.excluded)
      {
        OffersMeansEligible(cfg, now, s.entries[i], p, ask.excluded);
      }
      if Leased(cfg, s, now, ask).Some? {
        var i := Leased(cfg, s, now, ask).value;
        assert Offers(cfg, now, s.entries[i], ask.excluded);
      }
    }
  }

  lemma LoadsCompare(a: Record, b: Record)
    requires a.profile.capacity >= 1 && b.profile.capacity >= 1
    ensures var left, right := a.inFlight * b.profile.capacity, b.inFlight * a.profile.capacity;
            (Load(a) < Load(b) <==> left < right) && (Load(a) == Load(b) <==> left == right)
  {
    var ca, cb := a.profile.capacity as real, b.profile.capacity as real;
    assert Load(a) * ca == a.inFlight as real && Load(b) * cb == b.inFlight as real;
    var gap := Load(b) - Load(a);
    assert gap * (ca * cb) == (Load(b) * cb) * ca - (Load(a) * ca) * cb;
    assert ca * cb > 0.0;
    assert gap > 0.0 <==> gap * (ca * cb) > 0.0;
  }

  /** A smaller share of the capacity is out on `a`, or the same share and `a` has the smaller id. */
  predicate ComesFirst(a: Record, b: Record) {
    var left, right := a.inFlight * b.profile.capacity, b.inFlight * a.profile.capacity;
    left < right || (left == right && Less(a.profile.id, b.profile.id))
  }

  predicate Free(r: Record, state: State, excluded: string) {
    r.state == state && r.inFlight < r.profile.capacity && r.profile.id != excluded
  }

  /**
   * The leased identity is the least loaded of its class. Buckets below the
   * trusted percentage prefer trusted identities, the others prefer those on
   * probation; the second class is used only when the first offers nothing.
   */
  lemma LeaseIsLeastLoaded<L>(cfg: Config, s: PoolState<L>, now: int, ask: Ask)
    requires PoolInv(s) && Leased(cfg, s, now, ask).Some?
    ensures var es := ReconcileAll(cfg, now, s.entries);
            var i := Leased(cfg, s, now, ask).value;
            var preferred := if ask.bucket < cfg.trustedTrafficPercent then Trusted else Probation;
            && i < |es|
            && (es[i].state == Probation || es[i].state == Trusted) && Free(es[i], es[i].state, ask.excluded)
            && (forall j :: 0 <= j < |es| && j != i && Free(es[j], es[i].state, ask.excluded) ==> ComesFirst(es[i], es[j]))
            && (es[i].state != preferred ==> forall j :: 0 <= j < |es| ==> !Free(es[j], preferred, ask.excluded))
  {
    ReconcileAllValid(cfg, now, s.entries);
    ReconcileKeepsIds(cfg, now, s.entries);
    var es := ReconcileAll(cfg, now, s.entries);
    SelectsWhenEligible(es, Preferred(cfg, ask), ask.excluded);
    var i := Leased(cfg, s, now, ask).value;
    forall j | 0 <= j < |es| && j != i && Free(es[j], es[i].state, ask.excluded)
      ensures ComesFirst(es[i], es[j])
    {
      assert Eligible(es[j], es[i].state, ask.excluded);
      LoadsCompare(es[i], es[j]);
    }
    assert forall j, state :: 0 <= j < |es| && Free(es[j], state, ask.excluded) ==> Eligible(es[j], state, ask.excluded);
  }

  /** A grant counts one more lease on its identity, hands out the new lease, and moves the streak; every other count stays. */
  lemma GrantMeans<L>(cfg: Config, s: PoolState<L>, now: int, ask: Ask, lease: L)
    requires PoolInv(s) && lease !in s.held
    ensures var s', at := TryAcquire(cfg, s, now, ask, lease), Leased(cfg, s, now, ask);
            && s'.closed == s.closed && s'.manifestHealthy == s.manifestHealthy && s'.autoWaiters == s.autoWaiters
            && |s'.entries| == |s.entries|
            && (forall i :: 0 <= i < |s.entries| ==>
                  s'.entries[i].inFlight == s.entries[i].inFlight + if at == Some(i) then 1 else 0)
            && (at.None? ==> s'.held == s.held && s'.explicitStreak == s.explicitStreak)
            && (at.Some? ==>
                  && s'.held.Keys == s.held.Keys + {lease} && s'.held[lease].index == at.value
                  && (forall l :: l in s.held ==> s'.held[l] == s.held[l])
                  && s'.explicitStreak == (if ask.automatic then 0 else if ask.explicit then s.explicitStreak + 1 else s.explicitStreak))
  {
    hide ComesFirst, Free, LessLoaded, Holders, DistinctIds, ValidRecord;
    if !Refuses(s, ask) && Leased(cfg, s, now, ask).Some? {
      LeaseIsLeastLoaded(cfg, s, now, ask);
    }
  }

  // ------------------------------------------------------------------
  // Manifest health
  // ------------------------------------------------------------------

  /** A release that writes: it retires a draining identity, or its result is charged to the identity. */
  lemma ReleaseDecidesHealth<L>(cfg: Config, s: PoolState<L>, now: int, lease: L, result: Result, saved: bool)
    requires PoolInv(s) && lease in s.held
    ensures var r := s.entries[s.held[lease].index];
            var writes := (r.state == Draining && r.inFlight == 1) || result.succeeded || result.classification != ParseChanged;
            Release(cfg, s, now, lease, result, saved).manifestHealthy == if writes && cfg.persistent then saved else s.manifestHealthy
  {
    assert lease in Holders(s, s.held[lease].index);
  }

  predicate Warms(entries: seq<Record>, i: nat, j: nat) {
    i <= j < |entries| && entries[j].state == Warming
  }

  /** Activation gets to a warming identity if no write before it fails. */
  ghost predicate Reached(cfg: Config, entries: seq<Record>, unsaved: set<int>, i: nat, j: nat) {
    Warms(entries, i, j) && (cfg.persistent ==> forall m: nat :: Warms(entries, i, m) && m < j ==> m !in unsaved)
  }

  /** Activation gives exactly the warming identities it gets to the state they are to recover to. */
  lemma {:induction false} ActivationMeans<L>(cfg: Config, s: PoolState<L>, unsaved: set<int>, i: nat, j: nat)
    requires i <= |s.entries| && j < |s.entries| && forall m :: 0 <= m < |s.entries| ==> s.entries[m].recoveryState != Warming
    ensures ActivateFrom(cfg, s, unsaved, i).entries[j] ==
            if Reached(cfg, s.entries, unsaved, i, j) then s.entries[j].(state := s.entries[j].recoveryState) else s.entries[j]
    decreases |s.entries| - i
  {
    if i < |s.entries| {
      var k := i + 1;
      if s.entries[i].state != Warming {
        ActivationMeans(cfg, s, unsaved, k, j);
        assert forall m: nat :: Warms(s.entries, i, m) <==> Warms(s.entries, k, m);
      } else {
        assert Warms(s.entries, i, i);
        var s' := s.(entries := s.entries[i := Activated(s.entries[i])],
                     manifestHealthy := AfterSave(cfg, s.manifestHealthy, i !in unsaved));
        assert forall m: nat :: Warms(s'.entries, k, m) <==> Warms(s.entries, i, m) && m != i;
        if !(cfg.persistent && i in unsaved) {
          ActivationMeans(cfg, s', unsaved, k, j);
        }
      }
    }
  }

  /** The manifest store counts as healthy after an activation exactly if no write failed, or none was due and it was healthy. */
  lemma {:induction false} ActivationDecidesHealth<L>(cfg: Config, s: PoolState<L>, unsaved: set<int>, i: nat)
    requires i <= |s.entries| && forall m :: 0 <= m < |s.entries| ==> s.entries[m].recoveryState != Warming
    ensures ActivateFrom(cfg, s, unsaved, i).manifestHealthy ==
            if cfg.persistent && exists m: nat :: Warms(s.entries, i, m) then
              forall m: nat :: Warms(s.entries, i, m) ==> m !in unsaved
            else s.manifestHealthy
    decreases |s.entries| - i
  {
    if i < |s.entries| {
      var k := i + 1;
      if s.entries[i].state != Warming {
        ActivationDecidesHealth(cfg, s, unsaved, k);
        assert forall m: nat :: Warms(s.entries, i, m) <==> Warms(s.entries, k, m);
      } else {
        assert Warms(s.entries, i, i);
        var s' := s.(entries := s.entries[i := Activated(s.entries[i])],
                     manifestHealthy := AfterSave(cfg, s.manifestHealthy, i !in unsaved));
        assert forall m: nat :: Warms(s'.entries, k, m) <==> Warms(s.entries, i, m) && m != i;
        if !(cfg.persistent && i in unsaved) {
          ActivationDecidesHealth(cfg, s', unsaved, k);
        }
      }
    }
  }

  // ------------------------------------------------------------------
  // Construction
  // ------------------------------------------------------------------

  /** What the manifest store answers for one identity; `factor` is the decay since the manifest was written. */
  datatype Loaded = LoadFailed | Absent | Found(manifest: Manifest, factor: real)

  predicate Acceptable(profiles: seq<Profile>) {
    && |profiles| > 0
    && profiles[0].provider != ""
    && (forall i :: 0 <= i < |profiles| ==> Fits(profiles[i], profiles[0].provider))
    && (forall i, j :: 0 <= i < j < |profiles| ==> profiles[i].id != profiles[j].id)
  }

  predicate Fits(p: Profile, provider: string) {
    p.provider == provider && p.id != "" && p.capacity > 0
  }

  function InitialRecord(cfg: Config, p: Profile, load: Loaded): Record {
    if cfg.persistent && load.Found? then Restored(p, load.manifest, load.factor) else Newborn(cfg, p)
  }

  function InitialState<L>(cfg: Config, profiles: seq<Profile>, loads: seq<Loaded>): PoolState<L>
    requires |profiles| == |loads| > 0
  {
    PoolState(profiles[0].provider,
              seq(|profiles|, i requires 0 <= i < |profiles| => InitialRecord(cfg, profiles[i], loads[i])),
              false, true, 0, 0, map[])
  }

  /** The decay is a factor in (0, 1]. */
  predicate Decays(load: Loaded) {
    load.Found? ==> 0.0 < load.factor <= 1.0
  }

  /** What is restored has no negative weight or count, and a score that the decay has brought into range. */
  predicate Restorable(cfg: Config, load: Loaded) {
    cfg.persistent && load.Found? ==>
      var m := load.manifest;
      && m.successWeight >= 0.0 && m.failureWeight >= 0.0 && 0.0 <= DecayedEWMA(m.recentEWMA, load.factor) <= 1.0
      && m.consecutiveFailures >= 0 && m.recoveryAttempts >= 0
  }

  lemma SaneManifestIsRestorable(cfg: Config, load: Loaded)
    requires Decays(load) && (load.Found? ==> SaneManifest(load.manifest))
    ensures Restorable(cfg, load)
  {
    if load.Found? {
      DecayedEWMAInRange(load.manifest.recentEWMA, load.factor);
    }
  }

  lemma RestoredExactlyWhen(cfg: Config, p: Profile, load: Loaded)
    requires p.capacity > 0 && Decays(load)
    ensures ValidRecord(InitialRecord(cfg, p, load)) <==> Restorable(cfg, load)
  {
    if cfg.persistent && load.Found? {
      SignKept(load.manifest.successWeight, load.factor);
      SignKept(load.manifest.failureWeight, load.factor);
    }
  }

  lemma SignKept(x: real, factor: real)
    requires factor > 0.0
    ensures x * factor >= 0.0 <==> x >= 0.0
  {
    if x < 0.0 {
      assert (-x) * factor > 0.0;
    }
  }

  /**
   * A new pool's accounting is in order exactly when every manifest it
   * restores is; loading checks no more than the version and the profile id.
   */
  lemma InitialStateKeepsInvExactlyWhen<L>(cfg: Config, profiles: seq<Profile>, loads: seq<Loaded>)
    requires ValidConfig(cfg) && Acceptable(profiles) && |profiles| == |loads|
    requires forall i :: 0 <= i < |loads| ==> Decays(loads[i])
    ensures PoolInv(InitialState<L>(cfg, profiles, loads)) <==> forall i :: 0 <= i < |loads| ==> Restorable(cfg, loads[i])
  {
    var s := InitialState<L>(cfg, profiles, loads);
    forall i | 0 <= i < |s.entries|
      ensures ValidRecord(s.entries[i]) <==> Restorable(cfg, loads[i])
      ensures s.entries[i].profile == profiles[i] && Fits(profiles[i], profiles[0].provider)
      ensures s.entries[i].inFlight == |Holders(s, i)| && DrainState(s.entries[i])
    {
      assert Fits(profiles[i], profiles[0].provider);
      RestoredExactlyWhen(cfg, profiles[i], loads[i]);
      assert Holders(s, i) == {};
    }
    assert AllValid(s.entries) <==> forall i :: 0 <= i < |loads| ==> Restorable(cfg, loads[i]) by {
      assert |s.entries| == |loads|;
    }
  }
}
