/** The in-memory LRU result cache of `utils/cache_manager.py`. The cache is an ordered
    dictionary: `order` lists its keys from least to most recently used and `entries`
    maps each key to its record. Time is the `now` argument of each operation. */
module Cache {

  import opened Wrappers
  import Config

  /** A CacheEntry dataclass: value, creation time, time-to-live in seconds, hit count. */
  datatype CacheEntry<V> = CacheEntry(value: V, createdAt: real, ttl: int, hits: nat)

  /** `CacheEntry.is_expired`: the age strictly exceeds the time-to-live. */
  predicate IsExpired<V>(e: CacheEntry<V>, now: real) {
    now - e.createdAt > e.ttl as real
  }

  /** The observable state of a MemoryCache: key order, records, and the two counters. */
  datatype CacheState<V> = CacheState(order: seq<string>, entries: map<string, CacheEntry<V>>, hits: nat, misses: nat)

  predicate Distinct(s: seq<string>) {
    forall i, j :: 0 <= i < j < |s| ==> s[i] != s[j]
  }

  lemma DistinctCons(x: string, t: seq<string>)
    ensures Distinct([x] + t) <==> x !in t && Distinct(t)
  {
    var s := [x] + t;
    if x !in t && Distinct(t) {
      forall i, j | 0 <= i < j < |s| ensures s[i] != s[j] {
        if i == 0 { assert s[j] == t[j - 1]; } else { assert s[i] == t[i - 1] && s[j] == t[j - 1]; }
      }
    }
    if x in t {
      var j :| 0 <= j < |t| && t[j] == x;
      assert s[0] == s[j + 1];
    }
    if Distinct(s) {
      forall i, j | 0 <= i < j < |t| ensures t[i] != t[j] { assert t[i] == s[i + 1] && t[j] == s[j + 1]; }
    }
  }

  function Elems(s: seq<string>): set<string> {
    set x | x in s
  }

  /** The ordered dictionary is well formed: every key appears once in the order and has a record. */
  ghost predicate WellFormed<V>(st: CacheState<V>, maxSize: int) {
    && Distinct(st.order)
    && (forall k :: k in st.entries <==> k in st.order)
    && |st.order| <= maxSize
  }

  /** The records whose keys are in `keys`. */
  function Restrict<V>(m: map<string, CacheEntry<V>>, keys: seq<string>): map<string, CacheEntry<V>> {
    map k | k in m && k in keys :: m[k]
  }

  /** The order with `key` taken out. */
  function Without(s: seq<string>, key: string): (r: seq<string>)
    ensures forall x :: x in r <==> x in s && x != key
    ensures Distinct(s) ==> Distinct(r)
    ensures key in s && Distinct(s) ==> |r| == |s| - 1
    ensures key !in s ==> r == s
  {
    if s == [] then []
    else
      var rest := Without(s[1..], key);
      DistinctCons(s[0], s[1..]);
      assert s == [s[0]] + s[1..];
      if s[0] == key then rest
      else (DistinctCons(s[0], rest); [s[0]] + rest)
  }

  /** `OrderedDict.move_to_end(key)` */
  function MoveToEnd(s: seq<string>, key: string): seq<string> {
    Without(s, key) + [key]
  }

  /** `ttl or default_ttl`: an absent or zero ttl means the default. */
  function EffectiveTtl(ttl: Option<int>, defaultTtl: int): (r: int)
    ensures ttl == None || ttl == Some(0) ==> r == defaultTtl
    ensures ttl.Some? && ttl.value != 0 ==> r == ttl.value
  {
    match ttl
    case None => defaultTtl
    case Some(t) => if t == 0 then defaultTtl else t
  }

  /** How many oldest entries the `while len >= max_size: popitem(last=False)` loop removes. */
  function EvictCount(size: nat, maxSize: int): (n: nat)
    requires maxSize >= 1
    ensures n <= size
    ensures size - n < maxSize
    ensures size < maxSize ==> n == 0
  {
    if size >= maxSize then size - maxSize + 1 else 0
  }

  /** The effect and the answer of `MemoryCache.get`. */
  function GetSpec<V>(st: CacheState<V>, enabled: bool, key: string, now: real): (CacheState<V>, Option<V>) {
    if !enabled then (st, None)
    else if key in st.entries then
      var e := st.entries[key];
      if IsExpired(e, now) then
        (CacheState(Without(st.order, key), st.entries - {key}, st.hits, st.misses + 1), None)
      else
        (CacheState(MoveToEnd(st.order, key), st.entries[key := e.(hits := e.hits + 1)], st.hits + 1, st.misses), Some(e.value))
    else
      (st.(misses := st.misses + 1), None)
  }

  /** The state after `MemoryCache.set`: oldest entries popped until there is room, then the
      key written (a key still present keeps its place in the order). */
  function SetSpec<V>(st: CacheState<V>, enabled: bool, maxSize: int, defaultTtl: int,
                      key: string, value: V, ttl: Option<int>, now: real): CacheState<V>
    requires maxSize >= 1
  {
    if !enabled then st
    else
      var n := EvictCount(|st.order|, maxSize);
      var kept := st.order[n..];
      var ents := Restrict(st.entries, kept);
      CacheState(if key in kept then kept else kept + [key],
                 ents[key := CacheEntry(value, now, EffectiveTtl(ttl, defaultTtl), 0)],
                 st.hits, st.misses)
  }

  /** Aggregate statistics of `get_stats` (the formatted hit-rate percentage is not modelled). */
  datatype CacheStats = CacheStats(size: nat, maxSize: int, hits: nat, misses: nat)

  class MemoryCache<V> {
    var order: seq<string>
    var entries: map<string, CacheEntry<V>>
    var hits: nat
    var misses: nat
    const maxSize: int
    const defaultTtl: int
    /** CACHE_ENABLED */
    const enabled: bool

    function State(): CacheState<V>
      reads this
    {
      CacheState(order, entries, hits, misses)
    }

    ghost predicate Valid()
      reads this
    {
      maxSize >= 1 && WellFormed(State(), maxSize)
    }

    constructor (maxSize: int, defaultTtl: int, enabled: bool)
      requires maxSize >= 1
      ensures Valid()
      ensures State() == CacheState([], map[], 0, 0)
      ensures this.maxSize == maxSize && this.defaultTtl == defaultTtl && this.enabled == enabled
    {
      order, entries, hits, misses := [], map[], 0, 0;
      this.maxSize, this.defaultTtl, this.enabled := maxSize, defaultTtl, enabled;
    }

    method Get(key: string, now: real) returns (r: Option<V>)
      requires Valid()
      modifies this
      ensures Valid()
      ensures (State(), r) == GetSpec(old(State()), enabled, key, now)
    {
      if !enabled {
        return None;
      }
      GetKeepsWellFormed(State(), maxSize, key, now);
      if key in entries {
        var e := entries[key];
        if IsExpired(e, now) {
          order := Without(order, key);
          entries := entries - {key};
          misses := misses + 1;
          return None;
        }
        order := MoveToEnd(order, key);
        entries := entries[key := e.(hits := e.hits + 1)];
        hits := hits + 1;
        return Some(e.value);
      }
      misses := misses + 1;
      return None;
    }

    method Set(key: string, value: V, ttl: Option<int>, now: real)
      requires Valid()
      modifies this
      ensures Valid()
      ensures State() == SetSpec(old(State()), enabled, maxSize, defaultTtl, key, value, ttl, now)
    {
      if !enabled {
        return;
      }
      ghost var popped: nat := 0;
      while |order| >= maxSize
        invariant popped <= |old(order)|
        invariant order == old(order)[popped..]
        invariant entries == Restrict(old(entries), order)
        invariant popped > 0 ==> |order| >= maxSize - 1
        invariant popped <= EvictCount(|old(order)|, maxSize)
        invariant hits == old(hits) && misses == old(misses)
        decreases |order|
      {
        var oldest := order[0];
        EvictOldestStep(old(entries), old(order), popped);
        order := order[1..];
        entries := entries - {oldest};
        popped := popped + 1;
      }
      assert popped == EvictCount(|old(order)|, maxSize);
      SuffixMembers(old(order), popped);
      assert key in entries <==> key in order;
      ghost var kept := order;
      if key !in entries {
        order := order + [key];
      }
      entries := entries[key := CacheEntry(value, now, EffectiveTtl(ttl, defaultTtl), 0)];
      assert order == if key in kept then kept else kept + [key];
      SetKeepsWellFormed(old(State()), maxSize, defaultTtl, key, value, ttl, now);
    }

    /** `delete`: removes the key if present; the counters are untouched. */
    method Delete(key: string)
      requires Valid()
      modifies this
      ensures Valid()
      ensures State() == CacheState(Without(old(order), key), old(entries) - {key}, old(hits), old(misses))
    {
      if key in entries {
        order := Without(order, key);
        entries := entries - {key};
      }
    }

    /** `clear`: empties the cache; the counters are untouched. */
    method Clear()
      requires Valid()
      modifies this
      ensures Valid()
      ensures State() == CacheState([], map[], old(hits), old(misses))
    {
      order, entries := [], map[];
    }

    function Stats(): (s: CacheStats)
      reads this
      requires Valid()
      ensures s.size == |entries| && s.hits == hits && s.misses == misses && s.maxSize == maxSize
    {
      assert |entries| == |order| by {
        DistinctCard(order);
        assert entries.Keys == Elems(order);
      }
      CacheStats(|order|, maxSize, hits, misses)
    }
  }

  lemma {:induction false} DistinctCard(s: seq<string>)
    requires Distinct(s)
    ensures |Elems(s)| == |s|
  {
    if s != [] {
      assert Elems(s) == {s[0]} + Elems(s[1..]);
      assert s[0] !in Elems(s[1..]);
      DistinctCard(s[1..]);
    }
  }

  lemma DistinctSuffix(s: seq<string>, n: nat)
    requires n <= |s| && Distinct(s)
    ensures Distinct(s[n..])
  {
    forall i, j | 0 <= i < j < |s[n..]| ensures s[n..][i] != s[n..][j] {
      assert s[n..][i] == s[n + i] && s[n..][j] == s[n + j];
    }
  }

  lemma SetKeepsWellFormed<V>(st: CacheState<V>, maxSize: int, defaultTtl: int,
                              key: string, value: V, ttl: Option<int>, now: real)
    requires maxSize >= 1 && WellFormed(st, maxSize)
    ensures WellFormed(SetSpec(st, true, maxSize, defaultTtl, key, value, ttl, now), maxSize)
  {
    var n := EvictCount(|st.order|, maxSize);
    var kept := st.order[n..];
    DistinctSuffix(st.order, n);
    forall x | x in kept ensures x in st.order {
      var i :| 0 <= i < |kept| && kept[i] == x;
      assert st.order[n + i] == x;
    }
    if key !in kept {
      DistinctAppend(kept, key);
    }
  }

  lemma GetKeepsWellFormed<V>(st: CacheState<V>, maxSize: int, key: string, now: real)
    requires WellFormed(st, maxSize)
    ensures WellFormed(GetSpec(st, true, key, now).0, maxSize)
  {
    if key in st.entries {
      var w := Without(st.order, key);
      if !IsExpired(st.entries[key], now) {
        DistinctAppend(w, key);
      }
    }
  }

  lemma EvictOldestStep<V>(m: map<string, CacheEntry<V>>, s: seq<string>, n: nat)
    requires n < |s| && Distinct(s)
    ensures s[n + 1..] == s[n..][1..]
    ensures Restrict(m, s[n + 1..]) == Restrict(m, s[n..]) - {s[n]}
  {
    DistinctSuffix(s, n);
    var t := s[n..];
    DistinctCons(t[0], t[1..]);
    assert t == [t[0]] + t[1..];
  }

  lemma SuffixMembers(s: seq<string>, n: nat)
    requires n <= |s|
    ensures forall x :: x in s[n..] ==> x in s
  {
    forall x | x in s[n..] ensures x in s {
      var i :| 0 <= i < |s[n..]| && s[n..][i] == x;
      assert s[n + i] == x;
    }
  }

  lemma DistinctAppend(s: seq<string>, x: string)
    requires Distinct(s) && x !in s
    ensures Distinct(s + [x])
  {
    var t := s + [x];
    forall i, j | 0 <= i < j < |t| ensures t[i] != t[j] {
      assert t[i] == s[i];
      if j < |s| { assert t[j] == s[j]; }
    }
  }

  // ----- Properties of get and set -----

  /** A hit returns the stored value, moves the key to the most-recent end, bumps the entry's
      and the global hit counters, and leaves everything else alone. */
  lemma GetHit<V>(st: CacheState<V>, maxSize: int, key: string, now: real)
    requires WellFormed(st, maxSize)
    requires key in st.entries && !IsExpired(st.entries[key], now)
    ensures var (st', r) := GetSpec(st, true, key, now);
      && r == Some(st.entries[key].value)
      && |st'.order| == |st.order| && st'.order[|st'.order| - 1] == key
      && (forall k :: k in st'.order <==> k in st.order)
      && st'.entries[key].hits == st.entries[key].hits + 1
      && (forall k :: k in st.entries && k != key ==> k in st'.entries && st'.entries[k] == st.entries[k])
      && st'.hits == st.hits + 1 && st'.misses == st.misses
  {
  }

  /** An expired key is deleted and counted as one miss. */
  lemma GetExpired<V>(st: CacheState<V>, maxSize: int, key: string, now: real)
    requires WellFormed(st, maxSize)
    requires key in st.entries && IsExpired(st.entries[key], now)
    ensures var (st', r) := GetSpec(st, true, key, now);
      && r == None && key !in st'.entries && key !in st'.order
      && |st'.order| == |st.order| - 1
      && st'.hits == st.hits && st'.misses == st.misses + 1
  {
  }

  /** An absent key only counts one miss. */
  lemma GetAbsent<V>(st: CacheState<V>, key: string, now: real)
    requires key !in st.entries
    ensures GetSpec(st, true, key, now) == (st.(misses := st.misses + 1), None)
  {
  }

  /** With caching disabled, get answers None and set does nothing; neither touches the counters. */
  lemma Disabled<V>(st: CacheState<V>, maxSize: int, defaultTtl: int, key: string, value: V, ttl: Option<int>, now: real)
    requires maxSize >= 1
    ensures GetSpec(st, false, key, now) == (st, None)
    ensures SetSpec(st, false, maxSize, defaultTtl, key, value, ttl, now) == st
  {
  }

  /** After set the size is at most max_size and the key is present; what was removed is a
      prefix of the order (the least recently used entries), and the survivors keep their order. */
  lemma {:induction false} SetBounded<V>(st: CacheState<V>, maxSize: int, defaultTtl: int,
                                         key: string, value: V, ttl: Option<int>, now: real)
    requires maxSize >= 1 && WellFormed(st, maxSize)
    ensures var st' := SetSpec(st, true, maxSize, defaultTtl, key, value, ttl, now);
      && |st'.order| <= maxSize
      && key in st'.order && key in st'.entries
      && st'.entries[key] == CacheEntry(value, now, EffectiveTtl(ttl, defaultTtl), 0)
      && (exists n :: 0 <= n <= |st.order| &&
            (st'.order == st.order[n..] || st'.order == st.order[n..] + [key]) &&
            forall k :: k in st.order[n..] && k != key ==> st'.entries[k] == st.entries[k])
      && st'.hits == st.hits && st'.misses == st.misses
  {
    var n := EvictCount(|st.order|, maxSize);
    SetKeepsWellFormed(st, maxSize, defaultTtl, key, value, ttl, now);
    SuffixMembers(st.order, n);
  }

  /** When the cache is full and the key is new, exactly the least recently used entry goes,
      never the most recently used one. */
  lemma {:induction false} SetFullEvictsOldest<V>(st: CacheState<V>, maxSize: int, defaultTtl: int,
                                                  key: string, value: V, ttl: Option<int>, now: real)
    requires maxSize >= 2 && WellFormed(st, maxSize) && |st.order| == maxSize && key !in st.entries
    ensures var st' := SetSpec(st, true, maxSize, defaultTtl, key, value, ttl, now);
      && st'.order == st.order[1..] + [key]
      && st.order[0] !in st'.entries
      && st.order[maxSize - 1] in st'.entries
  {
    assert key !in st.order[1..] by { SuffixMembers(st.order, 1); }
    assert st.order[1..][maxSize - 2] == st.order[maxSize - 1];
    DistinctSuffix(st.order, 1);
    DistinctCons(st.order[0], st.order[1..]);
    assert st.order == [st.order[0]] + st.order[1..];
  }

  /** Re-setting a present key keeps its place in the order; when the cache is full an oldest
      entry is still evicted first, so the size drops to max_size - 1. */
  lemma {:induction false} ResetKeepsPosition<V>(st: CacheState<V>, maxSize: int, defaultTtl: int,
                                                 key: string, value: V, ttl: Option<int>, now: real, i: nat)
    requires maxSize >= 1 && WellFormed(st, maxSize)
    requires EvictCount(|st.order|, maxSize) <= i < |st.order| && st.order[i] == key
    ensures var st' := SetSpec(st, true, maxSize, defaultTtl, key, value, ttl, now);
      && st'.order == st.order[EvictCount(|st.order|, maxSize)..]
      && st'.order[i - EvictCount(|st.order|, maxSize)] == key
      && st'.entries[key].hits == 0 && st'.entries[key].createdAt == now
      && (|st.order| == maxSize ==> |st'.order| == maxSize - 1)
  {
    var n := EvictCount(|st.order|, maxSize);
    assert st.order[n..][i - n] == key;
  }

  /** `ttl or default_ttl`: set with no ttl or ttl 0 stores the default ttl. */
  lemma SetDefaultTtl<V>(st: CacheState<V>, maxSize: int, defaultTtl: int, key: string, value: V, now: real)
    requires maxSize >= 1
    ensures SetSpec(st, true, maxSize, defaultTtl, key, value, None, now).entries[key].ttl == defaultTtl
    ensures SetSpec(st, true, maxSize, defaultTtl, key, value, Some(0), now).entries[key].ttl == defaultTtl
  {
  }

  /** A set followed by a get at a time no later than ttl seconds afterwards returns the value;
      a get strictly later than that misses. */
  lemma {:induction false} SetThenGet<V>(st: CacheState<V>, maxSize: int, defaultTtl: int,
                                         key: string, value: V, ttl: Option<int>, now: real, later: real)
    requires maxSize >= 1 && WellFormed(st, maxSize)
    ensures var st' := SetSpec(st, true, maxSize, defaultTtl, key, value, ttl, now);
      var t := EffectiveTtl(ttl, defaultTtl) as real;
      && (later - now <= t ==> GetSpec(st', true, key, later).1 == Some(value))
      && (later - now > t ==> GetSpec(st', true, key, later).1 == None)
  {
    SetBounded(st, maxSize, defaultTtl, key, value, ttl, now);
  }

  /** `CacheManager`: the memoising layer over a MemoryCache. */
  class CacheManager<V> {
    const memory: MemoryCache<V>

    ghost predicate Valid()
      reads this, memory
    {
      memory.Valid()
    }

    constructor (enabled: bool)
      ensures Valid() && fresh(memory)
      ensures memory.State() == CacheState([], map[], 0, 0)
      ensures memory.maxSize == Config.CacheMaxSize && memory.defaultTtl == Config.CacheTtl
    {
      memory := new MemoryCache(Config.CacheMaxSize, Config.CacheTtl, enabled);
    }

    /** `get_or_set`: the lookup happens at `now`; on a miss the factory is consulted
        (`produced` is what it returns, or the exception it raises, which propagates) and a
        result other than None is stored at `storedAt`, the clock reading after the factory
        has run. */
    method GetOrSet(key: string, produced: Res<Option<V>>, ttl: Option<int>, now: real, storedAt: real)
      returns (r: Res<Option<V>>, factoryCalled: bool)
      requires Valid()
      modifies memory
      ensures Valid()
      ensures var (afterGet, hit) := GetSpec(old(memory.State()), memory.enabled, key, now);
        && factoryCalled == hit.None?
        && (hit.Some? ==> r == Ok(hit) && memory.State() == afterGet)
        && (hit.None? ==> r == produced)
        && (hit.None? && (produced.Raise? || produced.value.None?) ==> memory.State() == afterGet)
        && (hit.None? && produced.Ok? && produced.value.Some? ==>
              memory.State() == SetSpec(afterGet, memory.enabled, memory.maxSize, memory.defaultTtl, key, produced.value.value, ttl, storedAt))
    {
      var cached := memory.Get(key, now);
      if cached.Some? {
        return Ok(cached), false;
      }
      factoryCalled := true;
      r := produced;
      if r.Ok? && r.value.Some? {
        memory.Set(key, r.value.value, ttl, storedAt);
      }
    }
  }
}
