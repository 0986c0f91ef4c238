/** The tool execution cache (src/praxis_sdk/dsl/cache.py) as a function of its state.
    The class ToolExecutionCache in ToolExecutionCache.dfy is proved against these functions. */
module CacheModel {
  import opened Wrappers
  import opened DslTypes

  /** Clock readings are in microseconds, TTLs in seconds. */
  const SECOND := 1_000_000

  datatype Entry = Entry(value: Value, createdAt: int, accessedAt: int, accessCount: nat, ttl: int)

  datatype Stats = Stats(hits: nat, misses: nat, evictions: nat, sets: nat)

  const NO_STATS := Stats(0, 0, 0, 0)

  /** Successive readings of the system clock. */
  type Clock = nat -> int

  function Reading(clock: Clock, tick: nat): int {
    clock(tick)
  }

  /** The state of a cache: a dictionary with its insertion order, the statistics, and the
      number of clock readings made so far. */
  datatype Cache = Cache(
    maxSize: int,
    defaultTtl: int,
    order: seq<string>,
    table: map<string, Entry>,
    stats: Stats,
    ticks: nat)
  {
    /** The insertion order lists each key of the dictionary once. */
    ghost predicate WellFormed() {
      Lists(order, table.Keys)
    }
  }

  /** order lists exactly the given keys, each once. */
  ghost predicate Lists(order: seq<string>, keys: set<string>) {
    Elements(order) == keys && Distinct(order)
  }

  ghost function Elements(order: seq<string>): set<string> {
    if order == [] then {} else {order[0]} + Elements(order[1..])
  }

  ghost predicate Distinct(order: seq<string>) {
    order == [] || (order[0] !in Elements(order[1..]) && Distinct(order[1..]))
  }

  function Empty(maxSize: int, defaultTtl: int): Cache {
    Cache(maxSize, defaultTtl, [], map[], NO_STATS, 0)
  }

  predicate Expired(e: Entry, now: int) {
    now > e.createdAt + SECOND * e.ttl
  }

  function RemoveKey(order: seq<string>, key: string): seq<string> {
    if order == [] then []
    else if order[0] == key then order[1..]
    else [order[0]] + RemoveKey(order[1..], key)
  }

  /** del entries[key] */
  function Without(c: Cache, key: string): Cache {
    c.(order := RemoveKey(c.order, key), table := c.table - {key})
  }

  /** get_by_key. Null stands both for "not found" and for a cached None, as in the source. */
  function Get(clock: Clock, c: Cache, key: string): (Value, Cache) {
    if key !in c.table then
      (Null, c.(stats := c.stats.(misses := c.stats.misses + 1)))
    else
      var e := c.table[key];
      if Expired(e, Reading(clock, c.ticks)) then
        (Null, Without(c, key).(stats := c.stats.(misses := c.stats.misses + 1), ticks := c.ticks + 1))
      else
        var touched := e.(accessedAt := Reading(clock, c.ticks + 1), accessCount := e.accessCount + 1);
        (e.value, c.(table := c.table[key := touched],
                     stats := c.stats.(hits := c.stats.hits + 1), ticks := c.ticks + 2))
  }

  /** The key found by the argmin loop of _evict_lru over a dictionary in insertion order: the
      candidate so far is replaced only by a strictly older entry. */
  function Oldest(order: seq<string>, table: map<string, Entry>, candidate: string): (k: string)
    requires candidate in table && Elements(order) <= table.Keys
    ensures k in table
  {
    if order == [] then candidate
    else if table[order[0]].accessedAt < table[candidate].accessedAt then Oldest(order[1..], table, order[0])
    else Oldest(order[1..], table, candidate)
  }

  /** _evict_lru */
  function EvictLru(c: Cache): Cache
    requires Elements(c.order) <= c.table.Keys
  {
    if c.order == [] then c
    else Without(c, Oldest(c.order[1..], c.table, c.order[0])).(stats := c.stats.(evictions := c.stats.evictions + 1))
  }

  function MakeRoom(c: Cache): Cache
    requires Elements(c.order) <= c.table.Keys
  {
    if |c.order| >= c.maxSize then EvictLru(c) else c
  }

  /** entries[key] = entry */
  function Store(c: Cache, key: string, e: Entry): Cache {
    c.(order := if key in c.table then c.order else c.order + [key], table := c.table[key := e])
  }

  /** set_by_key */
  function Set(clock: Clock, c: Cache, key: string, value: Value, ttl: Option<int>): Cache
    requires Elements(c.order) <= c.table.Keys
  {
    var seconds := if ttl.Some? then ttl.value else c.defaultTtl;
    var entry := Entry(value, Reading(clock, c.ticks), Reading(clock, c.ticks + 1), 1, seconds);
    Store(MakeRoom(c), key, entry).(stats := MakeRoom(c).stats.(sets := c.stats.sets + 1), ticks := c.ticks + 2)
  }

  /** invalidate_by_key */
  function Invalidate(c: Cache, key: string): (bool, Cache) {
    if key in c.table then (true, Without(c, key)) else (false, c)
  }

  /** clear */
  function Clear(c: Cache): Cache {
    c.(order := [], table := map[], stats := NO_STATS)
  }

  /** The keys cleanup_expired collects: one clock reading per entry, in insertion order. */
  function ExpiredKeys(clock: Clock, order: seq<string>, table: map<string, Entry>, tick: nat): seq<string>
    requires Elements(order) <= table.Keys
  {
    if order == [] then []
    else
      var rest := ExpiredKeys(clock, order[1..], table, tick + 1);
      if Expired(table[order[0]], Reading(clock, tick)) then [order[0]] + rest else rest
  }

  function WithoutAll(c: Cache, keys: seq<string>): Cache
    decreases |keys|
  {
    if keys == [] then c else WithoutAll(Without(c, keys[0]), keys[1..])
  }

  /** cleanup_expired */
  function Cleanup(clock: Clock, c: Cache): (nat, Cache)
    requires Elements(c.order) <= c.table.Keys
  {
    var keys := ExpiredKeys(clock, c.order, c.table, c.ticks);
    (|keys|, WithoutAll(c, keys).(ticks := c.ticks + |c.order|))
  }

  // ---- Every operation keeps the dictionary well formed -------------------------------------

  lemma {:induction false} RemoveKeyLists(order: seq<string>, key: string)
    requires Distinct(order)
    ensures Lists(RemoveKey(order, key), Elements(order) - {key})
    ensures |RemoveKey(order, key)| == |order| - if key in Elements(order) then 1 else 0
  {
    if order != [] {
      RemoveKeyLists(order[1..], key);
      if order[0] != key {
        var r := RemoveKey(order[1..], key);
        assert ([order[0]] + r)[1..] == r;
      }
    }
  }

  lemma {:induction false} AppendLists(order: seq<string>, key: string)
    requires Distinct(order) && key !in Elements(order)
    ensures Lists(order + [key], Elements(order) + {key})
  {
    if order != [] {
      AppendLists(order[1..], key);
      assert (order + [key])[1..] == order[1..] + [key];
    }
  }

  lemma {:induction false} ElementAt(order: seq<string>, i: nat)
    requires i < |order|
    ensures order[i] in Elements(order)
    ensures Elements(order[i..]) <= Elements(order)
  {
    if i > 0 {
      ElementAt(order[1..], i - 1);
      assert order[1..][i - 1..] == order[i..];
    }
  }

  lemma WithoutWellFormed(c: Cache, key: string)
    requires c.WellFormed()
    ensures Without(c, key).WellFormed()
    ensures |Without(c, key).order| == |c.order| - if key in c.table then 1 else 0
  {
    RemoveKeyLists(c.order, key);
  }

  lemma MakeRoomWellFormed(c: Cache)
    requires c.WellFormed()
    ensures MakeRoom(c).WellFormed()
  {
    if c.order != [] {
      WithoutWellFormed(c, Oldest(c.order[1..], c.table, c.order[0]));
    }
  }

  lemma StoreWellFormed(c: Cache, key: string, e: Entry)
    requires c.WellFormed()
    ensures Store(c, key, e).WellFormed()
  {
    if key !in c.table {
      AppendLists(c.order, key);
    }
  }

  lemma SetWellFormed(clock: Clock, c: Cache, key: string, value: Value, ttl: Option<int>)
    requires c.WellFormed()
    ensures Set(clock, c, key, value, ttl).WellFormed()
  {
    MakeRoomWellFormed(c);
    var seconds := if ttl.Some? then ttl.value else c.defaultTtl;
    StoreWellFormed(MakeRoom(c), key, Entry(value, Reading(clock, c.ticks), Reading(clock, c.ticks + 1), 1, seconds));
  }

  lemma GetWellFormed(clock: Clock, c: Cache, key: string)
    requires c.WellFormed()
    ensures Get(clock, c, key).1.WellFormed()
  {
    WithoutWellFormed(c, key);
  }

  lemma {:induction false} WithoutAllWellFormed(c: Cache, keys: seq<string>)
    requires c.WellFormed()
    ensures WithoutAll(c, keys).WellFormed()
    ensures WithoutAll(c, keys).table == c.table - (set k | k in keys)
    ensures WithoutAll(c, keys) == c.(order := WithoutAll(c, keys).order, table := WithoutAll(c, keys).table)
    decreases |keys|
  {
    if keys != [] {
      WithoutWellFormed(c, keys[0]);
      WithoutAllWellFormed(Without(c, keys[0]), keys[1..]);
      assert (set k | k in keys) == {keys[0]} + set k | k in keys[1..];
    }
  }
}
