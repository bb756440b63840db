/** The profile pool as the program keeps it: entries, leases and counters updated in place. */
module Pool {
  import opened Domain
  import opened Lifecycle
  import opened PoolModel
  import opened StringOrder

  class Entry {
    ghost const id: string  // replacing the profile keeps the id
    var profile: Profile
    var state: State
    var inFlight: int
    var effectiveSamples: int
    var successWeight: real
    var failureWeight: real
    var recentEWMA: real
    var consecutiveFailures: int
    var generation: int
    var recoveryState: State
    var quarantinedUntil: int
    var recoveryAttempts: int

    ghost function Value(): Record
      reads this
    {
      Record(profile, state, inFlight, effectiveSamples, successWeight, failureWeight, recentEWMA,
             consecutiveFailures, generation, recoveryState, quarantinedUntil, recoveryAttempts)
    }

    constructor (r: Record)
      ensures Value() == r && id == r.profile.id
    {
      id := r.profile.id;
      profile, state, inFlight := r.profile, r.state, r.inFlight;
      effectiveSamples, successWeight, failureWeight := r.effectiveSamples, r.successWeight, r.failureWeight;
      recentEWMA, consecutiveFailures, generation := r.recentEWMA, r.consecutiveFailures, r.generation;
      recoveryState, quarantinedUntil, recoveryAttempts := r.recoveryState, r.quarantinedUntil, r.recoveryAttempts;
    }

    method StartDraining()
      modifies this
      ensures Value() == Drained(old(Value()))
    {
      state := Draining;
      if inFlight == 0 {
        state := Retired;
      }
    }

    method Reconcile(cfg: Config, now: int)
      modifies this
      ensures Value() == Reconciled(cfg, now, old(Value()))
    {
      if (state == Quarantined || state == Degraded) && !(quarantinedUntil > now) {
        if recoveryAttempts >= cfg.maxRecoveryAttempts {
          StartDraining();
          return;
        }
        recoveryAttempts := recoveryAttempts + 1;
        state := Probation;
        consecutiveFailures := 0;
      }
    }

    method Charge(cfg: Config, now: int, result: Result)
      requires successWeight >= 0.0 && failureWeight >= 0.0
      modifies this
      ensures Value() == Judged(cfg, now, Charged(cfg, old(Value()), result), result.classification) && profile == old(profile)
    {
      hide Charged, Judged;
      Book(cfg, result);
      Judge(cfg, now, result.classification);
    }

    method Book(cfg: Config, result: Result)
      requires successWeight >= 0.0 && failureWeight >= 0.0
      modifies this
      ensures Value() == Charged(cfg, old(Value()), result) && profile == old(profile)
      ensures successWeight >= 0.0 && failureWeight >= 0.0
    {
      effectiveSamples := effectiveSamples + 1;
      var observation := 0.0;
      if result.succeeded {
        successWeight := successWeight + 1.0;
        consecutiveFailures := 0;
        observation := 1.0;
      } else {
        failureWeight := failureWeight + FailureWeight(result.classification);
        consecutiveFailures := consecutiveFailures + 1;
      }
      var alpha := cfg.trust.recentAlpha;
      recentEWMA := alpha * observation + (1.0 - alpha) * recentEWMA;
    }

    method Judge(cfg: Config, now: int, classification: Classification)
      requires successWeight >= 0.0 && failureWeight >= 0.0
      modifies this`state, this`quarantinedUntil
      ensures Value() == Judged(cfg, now, old(Value()), classification)
    {
      if classification == Captcha || classification == RateLimited {
        state := Quarantined;
        quarantinedUntil := now + cfg.quarantineCooldown;
      } else if consecutiveFailures >= cfg.trust.maxConsecutiveFailures {
        state := Degraded;
        quarantinedUntil := now + cfg.degradedCooldown;
      } else if state == Probation && effectiveSamples >= cfg.trust.minSamples
                && SuccessRate(successWeight, failureWeight) >= cfg.trust.minSuccessRate
                && recentEWMA >= cfg.trust.minRecentEWMA {
        state := Trusted;
      }
    }

    /** Takes the slot back and books the result; `save` says whether the manifest has to be written. */
    method Settle(cfg: Config, now: int, result: Result) returns (save: bool)
      requires successWeight >= 0.0 && failureWeight >= 0.0
      modifies this
      ensures Value() == Released(cfg, now, old(Value()), result) && profile == old(profile)
      ensures save <==> SavesOnRelease(old(Value()), result)
    {
      if inFlight > 0 {
        inFlight := inFlight - 1;
      }
      if state == Draining && inFlight == 0 {
        state := Retired;
        return true;
      }
      var profileRelevant := result.succeeded || result.classification != ParseChanged;
      if !profileRelevant {
        return false;
      }
      Charge(cfg, now, result);
      return true;
    }

    method TakeSlot()
      modifies this
      ensures Value() == Granted(old(Value())) && profile == old(profile) && generation == old(generation)
    {
      inFlight := inFlight + 1;
    }

    method Retool(replacement: Profile)
      modifies this
      ensures Value() == Replaced(old(Value()), replacement) && profile == replacement
    {
      profile := replacement;
      state, recoveryState := Probation, Probation;
      inFlight, effectiveSamples := 0, 0;
      successWeight, failureWeight, recentEWMA := 0.0, 0.0, 1.0;
      consecutiveFailures, recoveryAttempts := 0, 0;
      generation := generation + 1;
    }
  }

  /** One exclusive reservation; `released` is its once-flag. */
  class Lease {
    const pool: Pool
    const entry: Entry
    var released: bool

    constructor (pool: Pool, entry: Entry)
      ensures this.pool == pool && this.entry == entry && !released
    {
      this.pool := pool;
      this.entry := entry;
      released := false;
    }

    /** Reports a result and returns the slot exactly once; `saved` is the outcome of a manifest write. */
    method Release(now: int, result: Result, saved: bool) returns (failed: bool)
      requires pool.Valid() && AllValid(pool.Records()) && entry in pool.profiles && (released <==> this !in pool.held)
      modifies this, pool`manifestHealthy, pool`held, entry
      ensures pool.Valid() && released && this !in pool.held
      ensures pool.State() == PoolModel.Release(pool.cfg, old(pool.State()), now, this, result, saved)
      ensures failed <==> !old(released) && pool.cfg.persistent && !saved && SavesOnRelease(old(entry.Value()), result)
    {
      hide Pool.Wired, Released, SavesOnRelease;
      failed := false;
      if !released {
        released := true;
        failed := pool.ReleaseEntry(entry, this, now, result, saved);
      }
    }
  }

  class Pool {
    const cfg: Config
    const provider: string
    const profiles: seq<Entry>
    const byID: map<string, Entry>
    var closed: bool
    var autoWaiters: int
    var explicitStreak: int
    var manifestHealthy: bool
    ghost var held: map<Lease, Slot>

    /** byID is the index of the listed entries; neither ever changes. */
    ghost predicate Wired() {
      && ValidConfig(cfg)
      && (forall i, j :: 0 <= i < j < |profiles| ==> profiles[i] != profiles[j])
      && (forall i :: 0 <= i < |profiles| ==> profiles[i].id in byID && byID[profiles[i].id] == profiles[i])
      && (forall id :: id in byID ==> byID[id] in profiles && byID[id].id == id)
    }

    ghost predicate Valid()
      reads this`held, profiles
    {
      && Wired()
      && (forall i :: 0 <= i < |profiles| ==> profiles[i].profile.id == profiles[i].id)
      && (forall l :: l in held ==> l.pool == this && held[l].index < |profiles| && l.entry == profiles[held[l].index])
    }

    ghost function Records(): (r: seq<Record>)
      reads profiles
      ensures |r| == |profiles|
      ensures forall i :: 0 <= i < |r| ==> r[i] == profiles[i].Value()
    {
      seq(|profiles|, i requires 0 <= i < |profiles| reads profiles => profiles[i].Value())
    }

    ghost function State(): PoolState<Lease>
      reads this, profiles
    {
      PoolState(provider, Records(), closed, manifestHealthy, autoWaiters, explicitStreak, held)
    }

    constructor (cfg: Config, provider: string, profiles: seq<Entry>, byID: map<string, Entry>)
      requires ValidConfig(cfg)
      ensures this.cfg == cfg && this.profiles == profiles && this.byID == byID
      ensures State() == PoolState(provider, Records(), false, true, 0, 0, map[])
    {
      this.cfg, this.provider, this.profiles, this.byID := cfg, provider, profiles, byID;
      closed, manifestHealthy, autoWaiters, explicitStreak := false, true, 0, 0;
      held := map[];
    }

    /** Validates homogeneous profiles and creates one provider pool; null reports the error. */
    static method New(profiles: seq<Profile>, config: Config, loads: seq<Loaded>) returns (pool: Pool?)
      requires |loads| == |profiles|
      ensures pool != null <==>
                && |profiles| > 0 && profiles[0].provider != ""
                && (forall i :: 0 <= i < |profiles| ==>
                      profiles[i].provider == profiles[0].provider && profiles[i].id != "" && profiles[i].capacity > 0)
                && (forall i, j :: 0 <= i < j < |profiles| ==> profiles[i].id != profiles[j].id)
                && (config.persistent ==> forall i :: 0 <= i < |loads| ==> !loads[i].LoadFailed?)
      ensures pool != null ==>
                && fresh(pool) && pool.cfg == NormalizedConfig(config) && pool.Valid()
                && pool.State() == InitialState(pool.cfg, profiles, loads)
    {
      pool := null;
      if |profiles| == 0 {
        return;
      }
      var cfg := NormalizedConfig(config);
      var provider := profiles[0].provider;
      if provider == "" {
        return;
      }
      var entries: seq<Entry>, byID: map<string, Entry> := [], map[];
      var i := 0;
      while i < |profiles|
        invariant 0 <= i <= |profiles| && |entries| == i
        invariant Listed(cfg, profiles, loads, provider, entries, byID)
      {
        var value := NewEntry(cfg, profiles, loads, provider, i, byID);
        if value == null {
          ListedIds(cfg, profiles, loads, provider, entries, byID, i);
          return;
        }
        ListedGrows(cfg, profiles, loads, provider, entries, byID, value);
        entries := entries + [value];
        byID := byID[profiles[i].id := value];
        i := i + 1;
      }
      pool := Assemble(cfg, profiles, loads, entries, byID);
    }

    static method Assemble(cfg: Config, profiles: seq<Profile>, loads: seq<Loaded>, entries: seq<Entry>, byID: map<string, Entry>)
      returns (pool: Pool)
      requires ValidConfig(cfg) && |entries| == |profiles| == |loads| > 0
      requires Listed(cfg, profiles, loads, profiles[0].provider, entries, byID)
      ensures forall j, k :: 0 <= j < k < |profiles| ==> profiles[j].id != profiles[k].id
      ensures fresh(pool) && pool.cfg == cfg && pool.Valid() && pool.State() == InitialState(cfg, profiles, loads)
    {
      ListedIds(cfg, profiles, loads, profiles[0].provider, entries, byID, 0);
      pool := new Pool(cfg, profiles[0].provider, entries, byID);
      assert pool.Records() == InitialState<Lease>(cfg, profiles, loads).entries;
    }

    /** Null when profile `i` is refused. */
    static method NewEntry(cfg: Config, profiles: seq<Profile>, loads: seq<Loaded>, provider: string, i: nat, byID: map<string, Entry>)
      returns (value: Entry?)
      requires i < |profiles| == |loads|
      ensures value != null <==> Fits(profiles[i], provider) && profiles[i].id !in byID && !(cfg.persistent && loads[i].LoadFailed?)
      ensures value != null ==>
                fresh(value) && value.Value() == InitialRecord(cfg, profiles[i], loads[i]) && value.id == profiles[i].id
    {
      value := null;
      var profile := profiles[i];
      if profile.provider != provider || profile.id == "" || profile.capacity <= 0 {
        return;
      }
      if profile.id in byID {
        return;
      }
      if cfg.persistent && loads[i] == LoadFailed {
        return;
      }
      value := new Entry(InitialRecord(cfg, profile, loads[i]));
    }

    /** The entries built so far, one for each profile in order, and their index by id. */
    static ghost predicate Listed(cfg: Config, profiles: seq<Profile>, loads: seq<Loaded>, provider: string,
                                  entries: seq<Entry>, byID: map<string, Entry>)
      requires |entries| <= |profiles| == |loads|
      reads entries
    {
      && (forall j :: 0 <= j < |entries| ==>
            && entries[j].Value() == InitialRecord(cfg, profiles[j], loads[j])
            && entries[j].id == profiles[j].id
            && Fits(profiles[j], provider)
            && !(cfg.persistent && loads[j].LoadFailed?))
      && (forall j :: 0 <= j < |entries| ==> entries[j].id in byID && byID[entries[j].id] == entries[j])
      && (forall id :: id in byID ==> byID[id] in entries && byID[id].id == id)
      && (forall j, k :: 0 <= j < k < |entries| ==> entries[j] != entries[k])
    }

    static lemma ListedGrows(cfg: Config, profiles: seq<Profile>, loads: seq<Loaded>, provider: string,
                             entries: seq<Entry>, byID: map<string, Entry>, value: Entry)
      requires |entries| < |profiles| == |loads| && Listed(cfg, profiles, loads, provider, entries, byID)
      requires var i := |entries|;
               && value.Value() == InitialRecord(cfg, profiles[i], loads[i]) && value.id == profiles[i].id
               && Fits(profiles[i], provider) && profiles[i].id !in byID && !(cfg.persistent && loads[i].LoadFailed?)
      ensures Listed(cfg, profiles, loads, provider, entries + [value], byID[value.id := value])
    {
    }

    /** Listed ids are distinct, and an id is indexed exactly when it is listed. */
    static lemma ListedIds(cfg: Config, profiles: seq<Profile>, loads: seq<Loaded>, provider: string,
                           entries: seq<Entry>, byID: map<string, Entry>, i: nat)
      requires |entries| <= |profiles| == |loads| && Listed(cfg, profiles, loads, provider, entries, byID)
      ensures forall j, k :: 0 <= j < k < |entries| ==> profiles[j].id != profiles[k].id
      ensures i < |profiles| && profiles[i].id in byID ==> exists j :: 0 <= j < |entries| && profiles[j].id == profiles[i].id
    {
      forall j, k | 0 <= j < k < |entries|
        ensures profiles[j].id != profiles[k].id
      {
        assert byID[entries[j].id] == entries[j] && byID[entries[k].id] == entries[k];
      }
      if i < |profiles| && profiles[i].id in byID {
        var j :| 0 <= j < |entries| && entries[j] == byID[profiles[i].id];
        assert profiles[j].id == profiles[i].id;
      }
    }

    method SaveManifest(saved: bool) returns (failed: bool)
      modifies this`manifestHealthy
      ensures manifestHealthy == AfterSave(cfg, old(manifestHealthy), saved)
      ensures failed <==> cfg.persistent && !saved
    {
      failed := false;
      if cfg.persistent {
        manifestHealthy := saved;
        failed := !saved;
      }
    }

    method SelectEntry(state: Lifecycle.State, excluded: string) returns (selected: Entry?, ghost at: Option<nat>)
      requires AllValid(Records()) && DistinctIds(Records())
      ensures at == Select(Records(), state, excluded)
      ensures at.None? <==> selected == null
      ensures at.Some? ==> selected == profiles[at.value]
    {
      selected := null;
      at := None;
      ghost var records := Records();
      var i := 0;
      while i < |profiles|
        invariant 0 <= i <= |profiles|
        invariant at.None? <==> selected == null
        invariant at.Some? ==> at.value < i && selected == profiles[at.value]
        invariant LeastSoFar(records, state, excluded, i, at)
      {
        var candidate := profiles[i];
        assert candidate.Value() == records[i];
        if candidate.profile.id == excluded || candidate.state != state || candidate.inFlight >= candidate.profile.capacity {
          LeastSoFarSkips(records, state, excluded, i, at);
        } else {
          var better := selected == null;
          if !better {
            assert selected.Value() == records[at.value];
            better := LessLoadedEntry(candidate, selected);
          }
          LeastSoFarTakes(records, state, excluded, i, at);
          if better {
            selected, at := candidate, Some(i);
          }
        }
        i := i + 1;
      }
      LeastSoFarIsSelection(records, state, excluded, at);
    }

    method TryAcquire(now: int, ask: Ask) returns (lease: Lease?)
      requires Valid() && AllValid(Records()) && DistinctIds(Records())
      modifies this, profiles
      ensures Valid()
      ensures lease != null <==> Leased(cfg, old(State()), now, ask).Some?
      ensures lease != null ==> fresh(lease) && !lease.released && lease in held
      ensures lease != null ==> State() == PoolModel.TryAcquire(cfg, old(State()), now, ask, lease)
      ensures lease == null ==>
                State() == if Refuses(old(State()), ask) then old(State())
                           else old(State()).(entries := ReconcileAll(cfg, now, old(Records())))
    {
      hide Wired, CutLease, NextStreak, DistinctIds, Reconciled, Entry.Value;
      lease := null;
      if closed || !manifestHealthy {
        return;
      }
      if ask.explicit && autoWaiters > 0 && explicitStreak >= 3 {
        return;
      }
      ghost var records := Records();
      ReconcileLocked(now);
      ReconcileAllValid(cfg, now, records);
      ReconcileKeepsIds(cfg, now, records);
      var preferred := Probation;
      if ask.bucket < cfg.trustedTrafficPercent {
        preferred := Trusted;
      }
      var selected, at := ChooseEntry(preferred, ask.excluded);
      if selected == null {
        return;
      }
      lease := Cut(selected, at.value, ask);
    }

    method ChooseEntry(preferred: Lifecycle.State, excluded: string) returns (selected: Entry?, ghost at: Option<nat>)
      requires AllValid(Records()) && DistinctIds(Records())
      ensures at == (if Select(Records(), preferred, excluded).Some? then Select(Records(), preferred, excluded)
                     else Select(Records(), Other(preferred), excluded))
      ensures at.None? <==> selected == null
      ensures at.Some? ==> selected == profiles[at.value]
    {
      selected, at := SelectEntry(preferred, excluded);
      if selected == null {
        var fallback := Trusted;
        if preferred == Trusted {
          fallback := Probation;
        }
        selected, at := SelectEntry(fallback, excluded);
      }
    }

    /** The granting half of an acquisition. */
    method Cut(selected: Entry, ghost i: nat, ask: Ask) returns (lease: Lease)
      requires Valid() && i < |profiles| && selected == profiles[i]
      modifies this`explicitStreak, this`held, selected
      ensures Valid() && fresh(lease) && !lease.released && lease in held
      ensures State() == CutLease(old(State()), i, ask, lease)
    {
      hide Wired, Granted, NextStreak, Records, Entry.Value;
      ghost var slot := Slot(i, Records()[i].generation);
      Reserve(selected, i, ask);
      ghost var records := Records();
      lease := new Lease(this, selected);
      assert Records() == records && lease !in held;
      held := held[lease := slot];
      assert Records() == records;
      assert Valid();
    }

    method Reserve(selected: Entry, ghost i: nat, ask: Ask)
      requires Valid() && i < |profiles| && selected == profiles[i]
      modifies this`explicitStreak, selected
      ensures Valid() && selected.generation == old(selected.generation)
      ensures explicitStreak == NextStreak(ask, old(explicitStreak))
      ensures Records() == old(Records())[i := Granted(old(Records())[i])]
    {
      hide Wired, Granted;
      selected.TakeSlot();
      OneEntryChanged(i);
      if ask.automatic {
        explicitStreak := 0;
      } else if ask.explicit {
        explicitStreak := explicitStreak + 1;
      }
    }

    method ReconcileLocked(now: int)
      requires Valid()
      modifies profiles
      ensures Valid()
      ensures State() == old(State()).(entries := ReconcileAll(cfg, now, old(Records())))
    {
      ghost var records := Records();
      var i := 0;
      while i < |profiles|
        invariant 0 <= i <= |profiles|
        invariant forall j :: 0 <= j < i ==> profiles[j].Value() == Reconciled(cfg, now, records[j])
        invariant forall j :: i <= j < |profiles| ==> profiles[j].Value() == records[j]
      {
        profiles[i].Reconcile(cfg, now);
        i := i + 1;
      }
      assert Records() == ReconcileAll(cfg, now, records);
    }

    method ReleaseEntry(value: Entry, ghost lease: Lease, now: int, result: Result, saved: bool) returns (failed: bool)
      requires Valid() && AllValid(Records()) && lease in held && value == lease.entry
      modifies this`manifestHealthy, this`held, value
      ensures Valid()
      ensures State() == PoolModel.Release(cfg, old(State()), now, lease, result, saved)
      ensures failed <==> cfg.persistent && !saved && SavesOnRelease(old(value.Value()), result)
    {
      hide Wired, Released, SavesOnRelease;
      failed := false;
      ghost var i := held[lease].index;
      assert Records()[i] == value.Value();
      var save := TakeBack(value, lease, i, now, result);
      if save {
        failed := SaveManifest(saved);
      }
    }

    method TakeBack(value: Entry, ghost lease: Lease, ghost i: nat, now: int, result: Result) returns (save: bool)
      requires Valid() && i < |profiles| && value == profiles[i] && value.successWeight >= 0.0 && value.failureWeight >= 0.0
      modifies this`held, value
      ensures Valid() && held == old(held) - {lease}
      ensures Records() == old(Records())[i := Released(cfg, now, old(value.Value()), result)]
      ensures save <==> SavesOnRelease(old(value.Value()), result)
    {
      hide Wired, Released, SavesOnRelease;
      held := held - {lease};
      assert Valid();
      save := value.Settle(cfg, now, result);
      OneEntryChanged(i);
    }

    method Drain(profileID: string, saved: bool) returns (failed: bool)
      requires Valid()
      modifies this`manifestHealthy, profiles
      ensures Valid()
      ensures State() == PoolModel.Drain(cfg, old(State()), profileID, saved)
      ensures failed <==> IndexOf(old(Records()), profileID).None? || (cfg.persistent && !saved)
    {
      hide Wired;
      ghost var found := Locate(profileID);
      if profileID !in byID {
        return true;
      }
      var value := byID[profileID];
      value.StartDraining();
      OneEntryChanged(found.value);
      failed := SaveManifest(saved);
    }

    method ReplaceRetired(profileID: string, replacement: Option<Profile>, closed: bool, saved: bool) returns (failed: bool)
      requires Valid()
      modifies this`manifestHealthy, profiles
      ensures Valid()
      ensures State() == PoolModel.Replace(cfg, old(State()), profileID, replacement, closed, saved)
      ensures failed <==> !Replaces(old(State()), profileID, replacement, closed) || (cfg.persistent && !saved)
    {
      hide Wired, Replaced;
      ghost var found := Locate(profileID);
      if profileID !in byID {
        return true;
      }
      var value := byID[profileID];
      if value.state != Retired {
        return true;
      }
      if replacement == None || replacement.value.id != profileID || replacement.value.provider != provider
         || replacement.value.capacity <= 0 {
        return true;
      }
      if !closed {
        return true;
      }
      value.Retool(replacement.value);
      OneEntryChanged(found.value);
      failed := SaveManifest(saved);
    }

    method Activate(unsaved: set<int>) returns (failed: bool)
      requires Valid()
      modifies this`manifestHealthy, profiles
      ensures Valid()
      ensures State() == ActivateFrom(cfg, old(State()), unsaved, 0)
      ensures failed <==> SaveFails(cfg, old(Records()), unsaved, 0)
    {
      hide Wired, Records, Activated, SaveFails;
      failed := false;
      ghost var goal, fails := ActivateFrom(cfg, State(), unsaved, 0), SaveFails(cfg, Records(), unsaved, 0);
      var i := 0;
      while i < |profiles|
        invariant 0 <= i <= |profiles|
        invariant Valid() && ActivateFrom(cfg, State(), unsaved, i) == goal
        invariant !failed && SaveFails(cfg, Records(), unsaved, i) == fails
      {
        var value := profiles[i];
        assert value.Value() == State().entries[i];
        SaveFailsNext(cfg, Records(), unsaved, i);
        if value.state == Warming {
          failed := ActivateEntry(value, i, i !in unsaved);
        }
        if failed {
          return;
        }
        i := i + 1;
      }
      NoSaveLeft(cfg, Records(), unsaved);
    }

    method ActivateEntry(value: Entry, ghost i: nat, saved: bool) returns (failed: bool)
      requires Valid() && i < |profiles| && value == profiles[i] && value.state == Warming
      modifies this`manifestHealthy, value
      ensures Valid()
      ensures var s := old(State());
              State() == s.(entries := s.entries[i := Activated(s.entries[i])],
                            manifestHealthy := AfterSave(cfg, s.manifestHealthy, saved))
      ensures failed <==> cfg.persistent && !saved
    {
      value.state := value.recoveryState;
      OneEntryChanged(i);
      failed := SaveManifest(saved);
    }

    /** Retires every entry; `closing` says which identities can be closed, and the first that cannot is reported. */
    method Close(closing: seq<bool>) returns (firstFailure: Option<nat>)
      requires Valid() && |closing| == |profiles|
      modifies this`closed, profiles
      ensures Valid()
      ensures State() == CloseAll(old(State()))
      ensures IsFirstFailure(closing, |closing|, firstFailure)
    {
      hide IsFirstFailure, Wired, RetireAll, Records;
      ghost var start, goal := State().(closed := true), RetireAll(Records());
      RetiresAll(Records(), 0);
      NoFailureYet(closing);
      closed := true;
      firstFailure := None;
      var i := 0;
      while i < |profiles|
        invariant 0 <= i <= |profiles| && Valid() && IsFirstFailure(closing, i, firstFailure)
        invariant State() == start.(entries := Records()) && RetireFrom(Records(), i) == goal
      {
        RetireEntry(profiles[i], i);
        FailureGrows(closing, i, firstFailure);
        if !closing[i] && firstFailure == None {
          firstFailure := Some(i);
        }
        i := i + 1;
      }
    }

    method RetireEntry(value: Entry, ghost i: nat)
      requires Valid() && i < |profiles| && value == profiles[i]
      modifies value
      ensures Valid() && Records() == old(Records())[i := old(Records())[i].(state := Retired)]
    {
      hide Wired;
      value.state := Retired;
      OneEntryChanged(i);
    }

    method WaiterIn()
      modifies this`autoWaiters
      ensures State() == old(State()).(autoWaiters := old(autoWaiters) + 1)
    {
      autoWaiters := autoWaiters + 1;
    }

    method WaiterOut()
      modifies this`autoWaiters
      ensures State() == old(State()).(autoWaiters := old(autoWaiters) - 1)
    {
      autoWaiters := autoWaiters - 1;
    }

    twostate lemma OneEntryChanged(i: nat)
      requires Wired() && i < |profiles|
      requires forall j :: 0 <= j < |profiles| && profiles[j] != profiles[i] ==> unchanged(profiles[j])
      ensures Records() == old(Records())[i := profiles[i].Value()]
    {
    }

    /** byID finds exactly the entries the pool lists. */
    lemma Locate(id: string) returns (found: Option<nat>)
      requires Valid()
      ensures found == IndexOf(Records(), id)
      ensures found.Some? <==> id in byID
      ensures found.Some? ==> profiles[found.value] == byID[id]
    {
      found := IndexOf(Records(), id);
      if id in byID {
        var i :| 0 <= i < |profiles| && profiles[i] == byID[id];
        assert Records()[i].profile.id == id;
      }
    }
  }

  /** An activation from `i` on meets a warming identity whose manifest cannot be saved. */
  ghost predicate SaveFails(cfg: Config, entries: seq<Record>, unsaved: set<int>, i: nat) {
    cfg.persistent && exists m: nat :: Warms(entries, i, m) && m in unsaved
  }

  lemma NoSaveLeft(cfg: Config, entries: seq<Record>, unsaved: set<int>)
    ensures !SaveFails(cfg, entries, unsaved, |entries|)
  {
  }

  lemma SaveFailsNext(cfg: Config, entries: seq<Record>, unsaved: set<int>, i: nat)
    requires i < |entries|
    ensures entries[i].state == Warming && cfg.persistent && i in unsaved ==> SaveFails(cfg, entries, unsaved, i)
    ensures entries[i].state == Warming && !(cfg.persistent && i in unsaved) ==>
              SaveFails(cfg, entries[i := Activated(entries[i])], unsaved, i + 1) == SaveFails(cfg, entries, unsaved, i)
    ensures entries[i].state != Warming ==> SaveFails(cfg, entries, unsaved, i + 1) == SaveFails(cfg, entries, unsaved, i)
  {
    var k, next := i + 1, entries[i := Activated(entries[i])];
    assert entries[i].state == Warming ==> Warms(entries, i, i);
    assert forall m: nat :: Warms(entries, i, m) && m != i <==> Warms(entries, k, m);
    assert forall m: nat :: Warms(entries, i, m) && m != i <==> Warms(next, k, m);
  }

  /** The entries from `i` on retired one after the other. */
  function RetireFrom(entries: seq<Record>, i: nat): seq<Record>
    requires i <= |entries|
    decreases |entries| - i
  {
    if i == |entries| then entries else RetireFrom(entries[i := entries[i].(state := Retired)], i + 1)
  }

  lemma {:induction false} RetiresAll(entries: seq<Record>, i: nat)
    requires i <= |entries|
    ensures RetireFrom(entries, i) == entries[..i] + RetireAll(entries[i..])
    ensures i == 0 ==> RetireFrom(entries, i) == RetireAll(entries)
    decreases |entries| - i
  {
    if i < |entries| {
      RetiresAll(entries[i := entries[i].(state := Retired)], i + 1);
    }
  }

  /** The first of the first `n` that cannot be closed, if any. */
  predicate IsFirstFailure(closing: seq<bool>, n: nat, r: Option<nat>)
    requires n <= |closing|
  {
    match r
    case None => forall i :: 0 <= i < n ==> closing[i]
    case Some(k) => k < n && !closing[k] && forall i :: 0 <= i < k ==> closing[i]
  }

  lemma NoFailureYet(closing: seq<bool>)
    ensures IsFirstFailure(closing, 0, None)
  {
  }

  lemma FailureGrows(closing: seq<bool>, n: nat, r: Option<nat>)
    requires n < |closing| && IsFirstFailure(closing, n, r)
    ensures IsFirstFailure(closing, n + 1, if !closing[n] && r == None then Some(n) else r)
  {
  }

  /** What the replacement factory answers for one retired identity, and how closing and saving go. */
  datatype Made = FactoryFailed | Made(profile: Option<Profile>, closed: bool, saved: bool)

  class Manager {
    const pool: Pool

    constructor (pool: Pool)
      ensures this.pool == pool
    {
      this.pool := pool;
    }

    /** Replaces the identities that a snapshot shows as retired, in order, up to the first failure. */
    method Reconcile(made: seq<Made>) returns (failed: bool)
      requires pool.Valid() && |made| == |pool.profiles|
      modifies pool`manifestHealthy, pool.profiles
      ensures pool.Valid()
      ensures (pool.State(), failed) == RenewFrom(pool.cfg, old(pool.State()), old(pool.State()).entries, made, 0)
    {
      hide Pool.Wired, Pool.Records, RenewAt;
      failed := false;
      ghost var records := pool.Records();
      ghost var goal := RenewFrom(pool.cfg, pool.State(), records, made, 0);
      var snapshot := seq(|pool.profiles|, i requires 0 <= i < |pool.profiles| reads pool.profiles => pool.profiles[i].state);
      var i := 0;
      while i < |snapshot|
        invariant 0 <= i <= |snapshot| && pool.Valid()
        invariant forall j :: 0 <= j < |snapshot| ==> snapshot[j] == records[j].state
        invariant RenewFrom(pool.cfg, pool.State(), records, made, i) == goal
      {
        if snapshot[i] == Retired {
          failed := ReplaceAt(i, made[i]);
          if failed {
            return;
          }
        }
        i := i + 1;
      }
    }

    method ReplaceAt(i: nat, made: Made) returns (failed: bool)
      requires pool.Valid() && i < |pool.profiles|
      modifies pool`manifestHealthy, pool.profiles
      ensures pool.Valid()
      ensures (pool.State(), failed) == RenewAt(pool.cfg, old(pool.State()), i, made)
    {
      if made.FactoryFailed? {
        return true;
      }
      failed := pool.ReplaceRetired(pool.profiles[i].profile.id, made.profile, made.closed, made.saved);
    }
  }

  /** One replacement, and whether it fails: the factory, a check, closing the old identity, or the manifest write. */
  ghost function RenewAt(cfg: Config, s: PoolState<Lease>, i: nat, made: Made): (PoolState<Lease>, bool)
    requires i < |s.entries|
  {
    if made.FactoryFailed? then (s, true)
    else
      var id := s.entries[i].profile.id;
      (PoolModel.Replace(cfg, s, id, made.profile, made.closed, made.saved),
       !Replaces(s, id, made.profile, made.closed) || (cfg.persistent && !made.saved))
  }

  /** The identities from `i` on that the snapshot shows as retired, one after the other until one fails. */
  ghost function RenewFrom(cfg: Config, s: PoolState<Lease>, snapshot: seq<Record>, made: seq<Made>, i: nat)
    : (r: (PoolState<Lease>, bool))
    requires |s.entries| == |snapshot| == |made| && i <= |made|
    decreases |made| - i
  {
    if i == |made| then (s, false)
    else if snapshot[i].state != Retired then RenewFrom(cfg, s, snapshot, made, i + 1)
    else
      var (s', failed) := RenewAt(cfg, s, i, made[i]);
      if failed then (s', true) else RenewFrom(cfg, s', snapshot, made, i + 1)
  }

  /** The factory makes a usable identity of the same id, the old one can be closed and the new one saved. */
  predicate CanRenew(cfg: Config, was: Profile, provider: string, made: Made) {
    && made.Made? && made.profile.Some? && made.closed && (cfg.persistent ==> made.saved)
    && made.profile.value.id == was.id && made.profile.value.provider == provider && made.profile.value.capacity >= 1
  }

  lemma RenewAtMeans(cfg: Config, s: PoolState<Lease>, i: nat, made: Made)
    requires i < |s.entries| && DistinctIds(s.entries)
    ensures var (s', failed) := RenewAt(cfg, s, i, made);
            && s'.provider == s.provider && s'.held == s.held && DistinctIds(s'.entries)
            && failed == !(s.entries[i].state == Retired && CanRenew(cfg, s.entries[i].profile, s.provider, made))
            && (s'.entries == s.entries
                || (made.Made? && made.profile.Some? && s'.entries == s.entries[i := Replaced(s.entries[i], made.profile.value)]))
            && (!failed ==> s'.entries == s.entries[i := Replaced(s.entries[i], made.profile.value)])
  {
    assert IndexOf(s.entries, s.entries[i].profile.id) == Some(i);
  }

  /**
   * A reconciliation replaces nothing but identities that the snapshot shows
   * as retired, and touches no lease. It fails exactly if it meets one of
   * them that is not retired any more or cannot be renewed; if it does not
   * fail, all of them are in their next generation.
   */
  lemma {:induction false} RenewedInOrder(cfg: Config, s: PoolState<Lease>, snapshot: seq<Record>, made: seq<Made>, i: nat, k: nat)
    requires |s.entries| == |snapshot| == |made| && i <= |made| && k < |made| && DistinctIds(s.entries)
    ensures var (s', failed) := RenewFrom(cfg, s, snapshot, made, i);
            && |s'.entries| == |s.entries| && s'.held == s.held
            && (s'.entries[k] == s.entries[k]
                || (k >= i && snapshot[k].state == Retired && made[k].Made? && made[k].profile.Some?
                    && s'.entries[k] == Replaced(s.entries[k], made[k].profile.value)))
            && (!failed && k >= i && snapshot[k].state == Retired ==>
                  && s'.entries[k].generation == s.entries[k].generation + 1
                  && s.entries[k].state == Retired && CanRenew(cfg, s.entries[k].profile, s.provider, made[k]))
            && (failed ==> exists j :: i <= j < |made| && snapshot[j].state == Retired
                             && !(s.entries[j].state == Retired && CanRenew(cfg, s.entries[j].profile, s.provider, made[j])))
    decreases |made| - i
  {
    hide AfterSave, PoolModel.Replace, RenewAt;
    if i < |made| {
      if snapshot[i].state != Retired {
        RenewedInOrder(cfg, s, snapshot, made, i + 1, k);
      } else {
        var (s', failed) := RenewAt(cfg, s, i, made[i]);
        RenewAtMeans(cfg, s, i, made[i]);
        if !failed {
          RenewedInOrder(cfg, s', snapshot, made, i + 1, k);
        }
      }
    }
  }

  method LessLoadedEntry(left: Entry, right: Entry) returns (less: bool)
    requires left.profile.capacity >= 1 && right.profile.capacity >= 1
    ensures less <==> LessLoaded(left.Value(), right.Value())
  {
    var leftLoad := left.inFlight as real / left.profile.capacity as real;
    var rightLoad := right.inFlight as real / right.profile.capacity as real;
    if leftLoad != rightLoad {
      return leftLoad < rightLoad;
    }
    return Less(left.profile.id, right.profile.id);
  }

  /** `m` is the least eligible entry among the first `i`. */
  ghost predicate LeastSoFar(records: seq<Record>, state: Lifecycle.State, excluded: string, i: int, m: Option<nat>)
    requires AllValid(records) && 0 <= i <= |records|
  {
    match m
    case None => forall j :: 0 <= j < i ==> !Eligible(records[j], state, excluded)
    case Some(k) =>
      && k < i
      && Eligible(records[k], state, excluded)
      && forall j :: 0 <= j < i && j != k && Eligible(records[j], state, excluded) ==> LessLoaded(records[k], records[j])
  }

  lemma LeastSoFarSkips(records: seq<Record>, state: Lifecycle.State, excluded: string, i: int, m: Option<nat>)
    requires AllValid(records) && 0 <= i < |records| && LeastSoFar(records, state, excluded, i, m)
    requires !Eligible(records[i], state, excluded)
    ensures LeastSoFar(records, state, excluded, i + 1, m)
  {
  }

  lemma LeastSoFarTakes(records: seq<Record>, state: Lifecycle.State, excluded: string, i: int, m: Option<nat>)
    requires AllValid(records) && DistinctIds(records) && 0 <= i < |records|
    requires LeastSoFar(records, state, excluded, i, m) && Eligible(records[i], state, excluded)
    ensures LeastSoFar(records, state, excluded, i + 1,
                       if m.None? || LessLoaded(records[i], records[m.value]) then Some(i) else m)
  {
    if m.Some? {
      LessLoadedTotal(records[i], records[m.value]);
      if LessLoaded(records[i], records[m.value]) {
        forall j | 0 <= j < i && Eligible(records[j], state, excluded)
          ensures LessLoaded(records[i], records[j])
        {
          if j != m.value {
            LessLoadedTransitive(records[i], records[m.value], records[j]);
          }
        }
      }
    }
  }

  lemma LeastSoFarIsSelection(records: seq<Record>, state: Lifecycle.State, excluded: string, m: Option<nat>)
    requires AllValid(records) && DistinctIds(records) && LeastSoFar(records, state, excluded, |records|, m)
    ensures m == Select(records, state, excluded)
  {
    SelectsWhenEligible(records, state, excluded);
    if m.Some? {
      assert IsLeast(records, state, excluded, m.value);
      LeastIsUnique(records, state, excluded, m.value, Select(records, state, excluded).value);
    }
  }
}
