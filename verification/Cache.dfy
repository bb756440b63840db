/** The bounded response cache, and the write log that it refines. */
module Cache {
  import opened Domain

  datatype Item<V> = Item(value: V, storedAt: int)

  datatype Write<V> = Write(key: string, value: V, at: int) {
    function Stored(): Item<V> { Item(value, at) }
  }

  // ------------------------------------------------------------------
  // Eviction and storing
  // ------------------------------------------------------------------

  /** An order in which the runtime may list the keys of a map. */
  ghost predicate Lists(order: seq<string>, keys: set<string>) {
    && (forall k :: k in order <==> k in keys)
    && (forall i, j :: 0 <= i < j < |order| ==> order[i] != order[j])
  }

  /** The running minimum of the eviction loop; the empty string stands for "none yet". */
  function Oldest<V>(entries: map<string, Item<V>>, order: seq<string>): (r: string)
    requires forall k :: k in order ==> k in entries
    ensures r == "" || r in order
  {
    if order == [] then ""
    else
      var n := |order| - 1;
      var previous := Oldest(entries, order[..n]);
      if previous == "" || entries[order[n]].storedAt < entries[previous].storedAt then order[n] else previous
  }

  function Evicted<V>(entries: map<string, Item<V>>, order: seq<string>): map<string, Item<V>>
    requires forall k :: k in order ==> k in entries
  {
    if Oldest(entries, order) == "" then entries else entries - {Oldest(entries, order)}
  }

  function Stored<V>(entries: map<string, Item<V>>, maxItems: nat, order: seq<string>, w: Write<V>): map<string, Item<V>>
    requires forall k :: k in order ==> k in entries
  {
    (if w.key !in entries && |entries| >= maxItems then Evicted(entries, order) else entries)[w.key := w.Stored()]
  }

  function Lookup<V>(entries: map<string, Item<V>>, key: string, ttl: int, now: int): Option<Item<V>> {
    if key !in entries || now - entries[key].storedAt > ttl then None else Some(entries[key])
  }

  /** Without the empty key the loop finds an entry that no other entry is older than. */
  lemma {:induction false} OldestIsMinimal<V>(entries: map<string, Item<V>>, order: seq<string>)
    requires order != [] && "" !in order && forall k :: k in order ==> k in entries
    ensures Oldest(entries, order) in order
    ensures forall k :: k in order ==> entries[Oldest(entries, order)].storedAt <= entries[k].storedAt
  {
    var n := |order| - 1;
    var rest := order[..n];
    assert forall k :: k in order <==> k in rest || k == order[n];
    if rest == [] {
      assert Oldest(entries, rest) == "";
    } else {
      OldestIsMinimal(entries, rest);
    }
  }

  ghost predicate EmptyKeyIsOldest<V>(entries: map<string, Item<V>>) {
    "" in entries && forall k :: k in entries && k != "" ==> entries[""].storedAt < entries[k].storedAt
  }

  /** A listing from which nothing is picked ends with the empty key. */
  lemma NothingPicked<V>(entries: map<string, Item<V>>, order: seq<string>)
    requires order != [] && (forall k :: k in order ==> k in entries) && Oldest(entries, order) == ""
    ensures order[|order| - 1] == ""
    ensures |order| > 1 ==> Oldest(entries, order[..|order| - 1]) == ""
                            || entries[""].storedAt < entries[Oldest(entries, order[..|order| - 1])].storedAt
  {
    var n := |order| - 1;
    assert Oldest(entries, order[..n]) == "" || Oldest(entries, order[..n]) in order[..n];
    if "" !in order {
      OldestIsMinimal(entries, order);
    }
  }

  /** The loop may come out with nothing to evict only if the empty key holds the oldest entry. */
  lemma {:induction false} NothingEvictedOnlyIf<V>(entries: map<string, Item<V>>, order: seq<string>)
    requires entries != map[] && Lists(order, entries.Keys) && Oldest(entries, order) == ""
    ensures EmptyKeyIsOldest(entries)
  {
    hide Oldest;
    var k :| k in entries;
    assert k in order;
    var n := |order| - 1;
    var rest := order[..n];
    NothingPicked(entries, order);
    assert "" !in rest;
    if rest != [] {
      OldestIsMinimal(entries, rest);
    }
    forall x | x in entries && x != "" ensures entries[""].storedAt < entries[x].storedAt {
      assert x in order && x in rest;
    }
  }

  /** When the empty key holds the oldest entry, the runtime can list the keys so that nothing is evicted. */
  lemma {:induction false} NothingEvictedIf<V>(entries: map<string, Item<V>>) returns (order: seq<string>)
    requires EmptyKeyIsOldest(entries)
    ensures Lists(order, entries.Keys) && Oldest(entries, order) == ""
  {
    var rest := SomeOrder(entries.Keys - {""});
    order := rest + [""];
    assert order[..|order| - 1] == rest;
    assert forall k :: k in order <==> k in entries.Keys;
    assert Oldest(entries, rest) == "" || Oldest(entries, rest) in rest;
  }

  lemma {:induction false} SomeOrder(keys: set<string>) returns (order: seq<string>)
    ensures Lists(order, keys)
  {
    if keys == {} {
      order := [];
    } else {
      var k :| k in keys;
      var rest := SomeOrder(keys - {k});
      order := [k] + rest;
      assert forall x :: x in order <==> x in keys;
    }
  }

  // ------------------------------------------------------------------
  // The write log
  // ------------------------------------------------------------------

  datatype Log<V> = Nil | Cons(head: Write<V>, tail: Log<V>)

  /** The last write of a key; the newest write comes first in a log. */
  function LastWrite<V>(log: Log<V>, key: string): Option<Write<V>> {
    match log
    case Nil => None
    case Cons(w, older) => if w.key == key then Some(w) else LastWrite(older, key)
  }

  /** The distinct keys written after the last write of this key. */
  function Newer<V>(log: Log<V>, key: string): set<string> {
    match log
    case Nil => {}
    case Cons(w, older) => if w.key == key then {} else {w.key} + Newer(older, key)
  }

  function Keys<V>(log: Log<V>): set<string> {
    match log
    case Nil => {}
    case Cons(w, older) => {w.key} + Keys(older)
  }

  /** Every write is later than all the writes before it. */
  ghost predicate Ascending<V>(log: Log<V>) {
    log.Cons? ==> Latest(log.tail, log.head.at) && Ascending(log.tail)
  }

  ghost predicate Latest<V>(log: Log<V>, at: int) {
    log.Cons? ==> log.head.at < at && Latest(log.tail, at)
  }

  function Without<V>(log: Log<V>, key: string): Log<V> {
    match log
    case Nil => Nil
    case Cons(w, older) => if w.key == key then older else Cons(w, Without(older, key))
  }

  /** The log with a key moved to the front whenever it is written. */
  function Recent<V>(log: Log<V>): Log<V> {
    match log
    case Nil => Nil
    case Cons(w, older) => Cons(w, Without(Recent(older), w.key))
  }

  function Take<V>(log: Log<V>, n: nat): Log<V> {
    if n == 0 || log == Nil then Nil else Cons(log.head, Take(log.tail, n - 1))
  }

  function Length<V>(log: Log<V>): nat {
    if log == Nil then 0 else 1 + Length(log.tail)
  }

  ghost predicate Distinct<V>(log: Log<V>) {
    log.Cons? ==> log.head.key !in Keys(log.tail) && Distinct(log.tail)
  }

  function ToMap<V>(log: Log<V>): map<string, Item<V>> {
    match log
    case Nil => map[]
    case Cons(w, older) => ToMap(older)[w.key := w.Stored()]
  }

  /** What the cache means: the last writes of the maxItems most recently written keys. */
  function Meaning<V>(log: Log<V>, maxItems: nat): map<string, Item<V>> {
    ToMap(Take(Recent(log), maxItems))
  }

  lemma {:induction false} WithoutKey<V>(log: Log<V>, key: string)
    requires Distinct(log)
    ensures Distinct(Without(log, key)) && Keys(Without(log, key)) == Keys(log) - {key}
  {
    if log.Cons? {
      WithoutKey(log.tail, key);
      assert log.head.key == key ==> Keys(log) - {key} == Keys(log.tail);
    }
  }

  lemma MinusThenPut<K, T>(m: map<K, T>, key: K, value: T)
    ensures (m - {key})[key := value] == m[key := value]
    ensures key !in m ==> m[key := value] - {key} == m
  {
  }

  lemma PutThenMinus<K, T>(m: map<K, T>, put: K, value: T, key: K)
    requires put != key
    ensures m[put := value] - {key} == (m - {key})[put := value]
  {
  }

  lemma {:induction false} WithoutMap<V>(log: Log<V>, key: string)
    requires Distinct(log)
    ensures ToMap(Without(log, key)) == ToMap(log) - {key}
  {
    if log.Cons? {
      var w := log.head;
      MapKeys(log.tail);
      if w.key == key {
        MinusThenPut(ToMap(log.tail), key, w.Stored());
      } else {
        PutThenMinus(ToMap(log.tail), w.key, w.Stored(), key);
        WithoutMap(log.tail, key);
      }
    }
  }

  lemma {:induction false} WithoutAscending<V>(log: Log<V>, key: string, at: int)
    requires Ascending(log)
    ensures Ascending(Without(log, key)) && (Latest(log, at) ==> Latest(Without(log, key), at))
  {
    if log.Cons? {
      WithoutAscending(log.tail, key, at);
      WithoutAscending(log.tail, key, log.head.at);
    }
  }

  lemma {:induction false} MapKeys<V>(log: Log<V>)
    ensures ToMap(log).Keys == Keys(log)
    ensures Distinct(log) ==> |Keys(log)| == Length(log)
  {
    if log.Cons? {
      MapKeys(log.tail);
    }
  }

  lemma {:induction false} TakeKeys<V>(log: Log<V>, n: nat)
    requires Distinct(log)
    ensures Distinct(Take(log, n)) && Keys(Take(log, n)) <= Keys(log)
    ensures Length(Take(log, n)) == Min(n, Length(log))
    ensures Length(log) <= n ==> Take(log, n) == log
  {
    if n > 0 && log.Cons? {
      TakeKeys(log.tail, n - 1);
    }
  }

  lemma {:induction false} TakeAscending<V>(log: Log<V>, n: nat, at: int)
    requires Ascending(log)
    ensures Ascending(Take(log, n)) && (Latest(log, at) ==> Latest(Take(log, n), at))
  {
    if n > 0 && log.Cons? {
      TakeAscending(log.tail, n - 1, at);
      TakeAscending(log.tail, n - 1, log.head.at);
    }
  }

  lemma {:induction false} RecentIsDistinct<V>(log: Log<V>)
    ensures Distinct(Recent(log)) && Keys(Recent(log)) == Keys(log)
  {
    if log.Cons? {
      RecentIsDistinct(log.tail);
      WithoutKey(Recent(log.tail), log.head.key);
    }
  }

  lemma {:induction false} RecentIsAscending<V>(log: Log<V>, at: int)
    requires Ascending(log)
    ensures Ascending(Recent(log)) && (Latest(log, at) ==> Latest(Recent(log), at))
  {
    if log.Cons? {
      RecentIsAscending(log.tail, at);
      RecentIsAscending(log.tail, log.head.at);
      WithoutAscending(Recent(log.tail), log.head.key, at);
      WithoutAscending(Recent(log.tail), log.head.key, log.head.at);
    }
  }

  // ------------------------------------------------------------------
  // Refinement
  // ------------------------------------------------------------------

  /** The writes that stay behind a new write of this key. */
  function Kept<V>(held: Log<V>, maxItems: nat, key: string): Log<V>
    requires maxItems > 0
  {
    if key in Keys(held) then Without(held, key) else Take(held, maxItems - 1)
  }

  lemma StoredOver<V>(held: Log<V>, maxItems: nat, order: seq<string>, w: Write<V>)
    requires Distinct(held) && w.key in Keys(held) && Lists(order, ToMap(held).Keys)
    ensures Stored(ToMap(held), maxItems, order, w) == ToMap(Without(held, w.key))[w.key := w.Stored()]
  {
    var m := ToMap(held);
    MapKeys(held);
    WithoutMap(held, w.key);
    MinusThenPut(m, w.key, w.Stored());
  }

  lemma StoredBeside<V>(held: Log<V>, maxItems: nat, order: seq<string>, w: Write<V>)
    requires Distinct(held) && Length(held) < maxItems && w.key !in Keys(held) && Lists(order, ToMap(held).Keys)
    ensures Stored(ToMap(held), maxItems, order, w) == ToMap(held)[w.key := w.Stored()]
  {
    MapKeys(held);
    assert |ToMap(held)| == |ToMap(held).Keys|;
  }

  lemma StoredInstead<V>(held: Log<V>, maxItems: nat, order: seq<string>, w: Write<V>)
    requires maxItems > 0 && Distinct(held) && Ascending(held) && "" !in Keys(held)
    requires Length(held) == maxItems && w.key !in Keys(held) && Lists(order, ToMap(held).Keys)
    ensures Stored(ToMap(held), maxItems, order, w) == ToMap(Take(held, maxItems - 1))[w.key := w.Stored()]
  {
    MapKeys(held);
    assert |ToMap(held)| == |ToMap(held).Keys|;
    EvictsLast(held, order);
  }

  lemma StoredKept<V>(held: Log<V>, maxItems: nat, order: seq<string>, w: Write<V>)
    requires maxItems > 0 && Distinct(held) && Ascending(held) && "" !in Keys(held)
    requires Lists(order, ToMap(held).Keys) && Length(held) <= maxItems
    ensures Stored(ToMap(held), maxItems, order, w) == ToMap(Kept(held, maxItems, w.key))[w.key := w.Stored()]
  {
    hide Stored;
    if w.key in Keys(held) {
      StoredOver(held, maxItems, order, w);
    } else if Length(held) < maxItems {
      TakeKeys(held, maxItems - 1);
      StoredBeside(held, maxItems, order, w);
    } else {
      StoredInstead(held, maxItems, order, w);
    }
  }

  lemma TakeKept<V>(all: Log<V>, maxItems: nat, key: string)
    requires maxItems > 0 && Distinct(all)
    ensures Take(Without(all, key), maxItems - 1) == Kept(Take(all, maxItems), maxItems, key)
  {
    if key in Keys(Take(all, maxItems)) {
      TakeReplaced(all, maxItems, key);
    } else {
      TakeAdded(all, maxItems, key);
      TakeTwice(all, maxItems);
    }
  }

  /** One Set keeps the cache equal to its meaning, whatever order the runtime lists the keys in. */
  lemma StoredRefines<V>(log: Log<V>, maxItems: nat, order: seq<string>, w: Write<V>)
    requires maxItems > 0 && WellUsed(Cons(w, log))
    requires Lists(order, Meaning(log, maxItems).Keys)
    ensures Stored(Meaning(log, maxItems), maxItems, order, w) == Meaning(Cons(w, log), maxItems)
  {
    var all := Recent(log);
    RecentIsDistinct(log);
    RecentIsAscending(log, w.at);
    TakeKeys(all, maxItems);
    TakeAscending(all, maxItems, w.at);
    StoredKept(Take(all, maxItems), maxItems, order, w);
    TakeKept(all, maxItems, w.key);
  }

  lemma {:induction false} TakeReplaced<V>(log: Log<V>, n: nat, key: string)
    requires n > 0 && Distinct(log) && key in Keys(Take(log, n))
    ensures Take(Without(log, key), n - 1) == Without(Take(log, n), key)
  {
    if log.head.key != key {
      TakeReplaced(log.tail, n - 1, key);
    }
  }

  lemma {:induction false} TakeAdded<V>(log: Log<V>, n: nat, key: string)
    requires n > 0 && key !in Keys(Take(log, n))
    ensures Take(Without(log, key), n - 1) == Take(log, n - 1)
  {
    if log.Cons? && n > 1 {
      TakeAdded(log.tail, n - 1, key);
    }
  }

  lemma {:induction false} TakeTwice<V>(log: Log<V>, n: nat)
    requires n > 0
    ensures Take(Take(log, n), n - 1) == Take(log, n - 1)
  {
    if log.Cons? && n > 1 {
      TakeTwice(log.tail, n - 1);
    }
  }

  /** A full cache evicts the last of the held writes, which is the oldest. */
  lemma EvictsLast<V>(held: Log<V>, order: seq<string>)
    requires held.Cons? && Distinct(held) && Ascending(held) && "" !in Keys(held)
    requires Lists(order, ToMap(held).Keys)
    ensures Evicted(ToMap(held), order) == ToMap(Take(held, Length(held) - 1))
  {
    MapKeys(held);
    assert held.head.key in order;
    OldestIsMinimal(ToMap(held), order);
    DropsLast(held, Oldest(ToMap(held), order));
  }

  lemma {:induction false} DropsLast<V>(held: Log<V>, key: string)
    requires held.Cons? && Distinct(held) && Ascending(held) && key in ToMap(held)
    requires forall k :: k in ToMap(held) ==> ToMap(held)[key].storedAt <= ToMap(held)[k].storedAt
    ensures ToMap(held) - {key} == ToMap(Take(held, Length(held) - 1))
  {
    MapKeys(held);
    var rest := held.tail;
    MapKeys(rest);
    if rest.Cons? {
      assert rest.head.key in ToMap(rest);
      assert key != held.head.key;
      assert forall k :: k in ToMap(rest) ==> ToMap(held)[k] == ToMap(rest)[k];
      DropsLast(rest, key);
    }
  }

  lemma {:induction false} NewerWithout<V>(log: Log<V>, other: string, key: string)
    requires key != other && Distinct(log) && key in Keys(log)
    ensures Newer(Without(log, other), key) == Newer(log, key) - {other}
    ensures LastWrite(Without(log, other), key) == LastWrite(log, key)
    ensures Newer(log, key) <= Keys(log)
  {
    if log.head.key != key {
      NewerWithout(log.tail, other, key);
    }
  }

  /** Moving keys to the front keeps each key's last write, behind the same keys. */
  lemma {:induction false} RecentKeepsOrder<V>(log: Log<V>, key: string)
    requires key in Keys(log)
    ensures Newer(Recent(log), key) == Newer(log, key) && LastWrite(Recent(log), key) == LastWrite(log, key)
  {
    if log.head.key != key {
      RecentKeepsOrder(log.tail, key);
      RecentIsDistinct(log.tail);
      NewerWithout(Recent(log.tail), log.head.key, key);
    }
  }

  lemma {:induction false} TakenExactlyWhen<V>(log: Log<V>, n: nat, key: string)
    requires Distinct(log) && key in Keys(log)
    ensures Newer(log, key) <= Keys(log)
    ensures key in ToMap(Take(log, n)) <==> |Newer(log, key)| < n
    ensures key in ToMap(Take(log, n)) ==> LastWrite(log, key).Some? && ToMap(Take(log, n))[key] == LastWrite(log, key).value.Stored()
  {
    if log.head.key != key {
      if n > 0 {
        TakenExactlyWhen(log.tail, n - 1, key);
      } else {
        TakenExactlyWhen(log.tail, n, key);
      }
      assert Newer(log, key) == {log.head.key} + Newer(log.tail, key);
    }
  }

  /**
   * A key is in the cache exactly when it has been written and fewer than
   * maxItems distinct keys have been written since; it then holds its last
   * write.
   */
  lemma HeldExactlyWhen<V>(log: Log<V>, maxItems: nat, key: string)
    ensures key in Meaning(log, maxItems) <==> key in Keys(log) && |Newer(log, key)| < maxItems
    ensures key in Meaning(log, maxItems) ==> LastWrite(log, key).Some? && Meaning(log, maxItems)[key] == LastWrite(log, key).value.Stored()
  {
    RecentIsDistinct(log);
    if key in Keys(log) {
      TakenExactlyWhen(Recent(log), maxItems, key);
      RecentKeepsOrder(log, key);
    } else {
      TakeKeys(Recent(log), maxItems);
      MapKeys(Take(Recent(log), maxItems));
    }
  }

  /** The cache is full as soon as maxItems distinct keys have been written, and never fuller. */
  lemma SizeOfMeaning<V>(log: Log<V>, maxItems: nat)
    ensures |Meaning(log, maxItems)| == Min(maxItems, |Keys(log)|)
  {
    RecentIsDistinct(log);
    MapKeys(Recent(log));
    TakeKeys(Recent(log), maxItems);
    MapKeys(Take(Recent(log), maxItems));
    assert |Meaning(log, maxItems)| == |Meaning(log, maxItems).Keys|;
  }

  // ------------------------------------------------------------------
  // The cache object
  // ------------------------------------------------------------------

  datatype Setting = InvalidSize | InvalidTTLs | ValidSetting

  function Settings(maxItems: int, freshTTL: int, staleTTL: int): Setting {
    if maxItems <= 0 then InvalidSize
    else if freshTTL <= 0 || staleTTL <= freshTTL then InvalidTTLs
    else ValidSetting
  }

  /** While every stored key is non-empty and the clock strictly increases, the cache refines its write log. */
  ghost predicate WellUsed<V>(log: Log<V>) {
    "" !in Keys(log) && Ascending(log)
  }

  class Memory<V> {
    const maxItems: nat
    const freshTTL: nat
    const staleTTL: nat
    var entries: map<string, Item<V>>
    ghost var log: Log<V>

    ghost predicate Valid()
      reads this
    {
      && Settings(maxItems, freshTTL, staleTTL) == ValidSetting
      && (WellUsed(log) ==> entries == Meaning(log, maxItems))
    }

    constructor (maxItems: nat, freshTTL: nat, staleTTL: nat)
      requires Settings(maxItems, freshTTL, staleTTL) == ValidSetting
      ensures Valid() && log == Nil && entries == map[]
      ensures this.maxItems == maxItems && this.freshTTL == freshTTL && this.staleTTL == staleTTL
    {
      this.maxItems, this.freshTTL, this.staleTTL := maxItems, freshTTL, staleTTL;
      entries, log := map[], Nil;
    }

    method Get(cancelled: bool, key: string, ttl: int, now: int) returns (r: Option<Item<V>>)
      ensures r == if cancelled then None else Lookup(entries, key, ttl, now)
      ensures r.Some? <==> !cancelled && key in entries && now - entries[key].storedAt <= ttl
      ensures r.Some? ==> r.value == entries[key]
    {
      if cancelled {
        return None;
      }
      if key !in entries || now - entries[key].storedAt > ttl {
        return None;
      }
      return Some(entries[key]);
    }

    /** A fresh hit is the same hit under the stale limit. */
    method GetFresh(cancelled: bool, key: string, now: int) returns (r: Option<Item<V>>)
      requires Valid()
      ensures r.Some? <==> !cancelled && key in entries && now - entries[key].storedAt <= freshTTL
      ensures r.Some? ==> r == Lookup(entries, key, staleTTL, now)
    {
      r := Get(cancelled, key, freshTTL, now);
    }

    method GetStale(cancelled: bool, key: string, now: int) returns (r: Option<Item<V>>)
      ensures r.Some? <==> !cancelled && key in entries && now - entries[key].storedAt <= staleTTL
      ensures r.Some? ==> r.value == entries[key]
    {
      r := Get(cancelled, key, staleTTL, now);
    }

    method Set(cancelled: bool, key: string, value: V, now: int) returns (ok: bool, ghost order: seq<string>)
      requires Valid()
      modifies this
      ensures Valid()
      ensures ok == !cancelled && Lists(order, old(entries).Keys)
      ensures cancelled ==> entries == old(entries) && log == old(log)
      ensures ok ==> log == Cons(Write(key, value, now), old(log))
      ensures ok ==> entries == Stored(old(entries), maxItems, order, Write(key, value, now))
    {
      order := SomeOrder(entries.Keys);
      if cancelled {
        return false, order;
      }
      ghost var w := Write(key, value, now);
      if key !in entries && |entries| >= maxItems {
        order := EvictOldest();
      }
      entries := entries[key := Item(value, now)];
      if WellUsed(Cons(w, log)) {
        StoredRefines(log, maxItems, order, w);
      }
      log := Cons(w, log);
      ok := true;
    }

    method EvictOldest() returns (ghost order: seq<string>)
      modifies this`entries
      ensures Lists(order, old(entries).Keys)
      ensures entries == Evicted(old(entries), order)
    {
      var rest, oldestKey, oldest := entries.Keys, "", 0;
      order := [];
      while rest != {}
        invariant rest <= entries.Keys && entries == old(entries)
        invariant Lists(order, entries.Keys - rest)
        invariant oldestKey == Oldest(entries, order)
        invariant oldestKey != "" ==> oldest == entries[oldestKey].storedAt
        decreases |rest|
      {
        var key :| key in rest;
        rest := rest - {key};
        if oldestKey == "" || entries[key].storedAt < oldest {
          oldestKey, oldest := key, entries[key].storedAt;
        }
        assert (order + [key])[..|order|] == order;
        order := order + [key];
      }
      if oldestKey != "" {
        entries := entries - {oldestKey};
      }
    }
  }

  /** Bad settings are refused; otherwise the cache starts empty. */
  method NewMemory<V>(maxItems: int, freshTTL: int, staleTTL: int) returns (setting: Setting, m: Memory?<V>)
    ensures setting == InvalidSize <==> maxItems <= 0
    ensures setting == InvalidTTLs <==> maxItems > 0 && !(0 < freshTTL < staleTTL)
    ensures setting == ValidSetting <==> m != null
    ensures m != null ==> fresh(m) && m.Valid() && m.entries == map[]
    ensures m != null ==> m.maxItems == maxItems && m.freshTTL == freshTTL && m.staleTTL == staleTTL
  {
    if maxItems <= 0 {
      return InvalidSize, null;
    }
    if freshTTL <= 0 || staleTTL <= freshTTL {
      return InvalidTTLs, null;
    }
    m := new Memory(maxItems, freshTTL, staleTTL);
    setting := ValidSetting;
  }
}
