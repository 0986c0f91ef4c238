/** The tool execution cache as the source writes it: an object whose dictionary and statistics
    are updated in place (src/praxis_sdk/dsl/cache.py). Each method is proved against CacheModel. */
module ToolCache {
  import opened Wrappers
  import opened DslTypes
  import opened CacheModel
  import CacheRuns
  import Sequences

  class ToolExecutionCache {
    const maxSize: int
    const defaultTtl: int
    /** The system clock: the readings it will give, and how many have been taken. */
    const clock: Clock
    var ticks: nat
    /** The dictionary: its contents, and its keys in insertion order. */
    var entries: map<string, Entry>
    var order: seq<string>
    var stats: Stats

    ghost predicate Valid()
      reads this
    {
      Lists(order, entries.Keys)
    }

    ghost function View(): (c: Cache)
      reads this
      ensures c.WellFormed() == Valid()
    {
      Cache(maxSize, defaultTtl, order, entries, stats, ticks)
    }

    constructor (maxSize: int, defaultTtl: int, clock: Clock)
      ensures Valid() && this.clock == clock && View() == Empty(maxSize, defaultTtl)
    {
      this.maxSize, this.defaultTtl, this.clock := maxSize, defaultTtl, clock;
      ticks, entries, order, stats := 0, map[], [], NO_STATS;
    }

    /** datetime.now() */
    method Now() returns (t: int)
      modifies this`ticks
      ensures t == Reading(clock, old(ticks)) && ticks == old(ticks) + 1
    {
      t := Reading(clock, ticks);
      ticks := ticks + 1;
    }

    method IsExpired(entry: Entry) returns (expired: bool)
      modifies this`ticks
      ensures expired == Expired(entry, Reading(clock, old(ticks))) && ticks == old(ticks) + 1
    {
      var now := Now();
      expired := now > entry.createdAt + SECOND * entry.ttl;
    }

    /** del entries[key] */
    method Delete(key: string)
      requires Valid() && key in entries
      modifies this`entries, this`order
      ensures Valid() && View() == Without(old(View()), key)
    {
      WithoutWellFormed(View(), key);
      entries, order := entries - {key}, RemoveKey(order, key);
    }

    method GetByKey(key: string) returns (value: Value)
      requires Valid()
      modifies this
      ensures Valid() && (value, View()) == Get(clock, old(View()), key)
    {
      GetWellFormed(clock, View(), key);
      if key !in entries {
        stats := stats.(misses := stats.misses + 1);
        return Null;
      }
      var entry := entries[key];
      var expired := IsExpired(entry);
      if expired {
        Delete(key);
        stats := stats.(misses := stats.misses + 1);
        return Null;
      }
      var now := Now();
      entries := entries[key := entry.(accessedAt := now, accessCount := entry.accessCount + 1)];
      stats := stats.(hits := stats.hits + 1);
      value := entry.value;
    }

    method EvictLru()
      requires Valid()
      modifies this`entries, this`order, this`stats
      ensures Valid() && View() == CacheModel.EvictLru(old(View()))
    {
      if order == [] {
        return;
      }
      var oldestKey := None;
      var oldestTime := 0;
      for i := 0 to |order|
        invariant View() == old(View())
        invariant i == 0 <==> oldestKey == None
        invariant i > 0 ==>
          && oldestKey.value in entries
          && oldestTime == entries[oldestKey.value].accessedAt
          && Elements(order[i..]) <= entries.Keys
          && Oldest(order[1..], entries, order[0]) == Oldest(order[i..], entries, oldestKey.value)
      {
        ElementAt(order, i);
        Sequences.Unfold(order, i);
        var entry := entries[order[i]];
        if oldestKey.None? || entry.accessedAt < oldestTime {
          oldestKey := Some(order[i]);
          oldestTime := entry.accessedAt;
        }
      }
      Delete(oldestKey.value);
      stats := stats.(evictions := stats.evictions + 1);
    }

    method SetByKey(key: string, value: Value, ttl: Option<int>)
      requires Valid()
      modifies this
      ensures Valid() && View() == Set(clock, old(View()), key, value, ttl)
    {
      var seconds := if ttl.Some? then ttl.value else defaultTtl;
      if |order| >= maxSize {
        EvictLru();
      }
      assert View() == MakeRoom(old(View()));
      var created := Now();
      var accessed := Now();
      Put(key, Entry(value, created, accessed, 1, seconds));
      stats := stats.(sets := stats.sets + 1);
    }

    /** self.cache[key] = entry */
    method Put(key: string, entry: Entry)
      requires Valid()
      modifies this`entries, this`order
      ensures Valid() && View() == Store(old(View()), key, entry)
    {
      StoreWellFormed(View(), key, entry);
      if key !in entries {
        order := order + [key];
      }
      entries := entries[key := entry];
    }

    method InvalidateByKey(key: string) returns (found: bool)
      requires Valid()
      modifies this
      ensures Valid() && (found, View()) == Invalidate(old(View()), key)
      ensures found <==> key in old(entries)
      ensures entries == map k | k in old(entries) && k != key :: old(entries)[k]
    {
      found := key in entries;
      if found {
        Delete(key);
      }
    }

    method Clear()
      requires Valid()
      modifies this
      ensures Valid() && View() == CacheModel.Clear(old(View()))
    {
      entries, order := map[], [];
      stats := NO_STATS;
    }

    method CleanupExpired() returns (removed: nat)
      requires Valid()
      modifies this
      ensures Valid() && (removed, View()) == Cleanup(clock, old(View()))
      ensures removed == |old(entries)| - |entries|
    {
      ghost var before := View();
      ghost var cleaned := Cleaned(clock, before);
      var expiredKeys := CollectExpired();
      ExpiredKeysDistinct(clock, order, entries, before.ticks);
      hide *;
      DeleteAll(expiredKeys);
      WithoutAllTicks(before, expiredKeys, ticks);
      removed := |expiredKeys|;
    }

    method CollectExpired() returns (expiredKeys: seq<string>)
      requires Valid()
      modifies this`ticks
      ensures expiredKeys == ExpiredKeys(clock, order, entries, old(ticks))
      ensures ticks == old(ticks) + |order|
    {
      expiredKeys := [];
      for i := 0 to |order|
        invariant ticks == old(ticks) + i && Elements(order[i..]) <= entries.Keys
        invariant ExpiredKeys(clock, order, entries, old(ticks))
               == expiredKeys + ExpiredKeys(clock, order[i..], entries, ticks)
      {
        ExpiredKeysFrom(clock, order, entries, ticks, i);
        Sequences.Assoc(expiredKeys, IfExpired(clock, order[i], entries, ticks), ExpiredKeys(clock, order[i + 1..], entries, ticks + 1));
        ghost var before, now := expiredKeys, ticks;
        var expired := IsExpired(entries[order[i]]);
        if expired {
          expiredKeys := expiredKeys + [order[i]];
        }
        assert expiredKeys == before + IfExpired(clock, order[i], entries, now);
      }
    }

    method DeleteAll(keys: seq<string>)
      requires Valid() && DistinctIn(keys, entries.Keys)
      modifies this`entries, this`order
      ensures Valid() && View() == WithoutAll(old(View()), keys)
    {
      for i := 0 to |keys|
        invariant Valid() && DistinctIn(keys[i..], entries.Keys)
        invariant WithoutAll(View(), keys[i..]) == WithoutAll(old(View()), keys)
      {
        Sequences.Unfold(keys, i);
        Delete(keys[i]);
      }
    }
  }

  lemma Cleaned(clock: Clock, c: Cache) returns (cleaned: Cache)
    requires c.WellFormed()
    ensures var keys := ExpiredKeys(clock, c.order, c.table, c.ticks);
            && Cleanup(clock, c) == (|keys|, cleaned) && |keys| == |c.table| - |cleaned.table|
            && cleaned == WithoutAll(c, keys).(ticks := c.ticks + |c.order|)
  {
    cleaned := Cleanup(clock, c).1;
    CacheRuns.CleanupCounts(clock, c);
  }

  /** Deleting these keys one after the other never meets a missing key. */
  ghost predicate DistinctIn(keys: seq<string>, present: set<string>) {
    keys == [] || (keys[0] in present && DistinctIn(keys[1..], present - {keys[0]}))
  }

  lemma {:induction false} ExpiredKeysDistinct(clock: Clock, order: seq<string>, table: map<string, Entry>, tick: nat)
    requires Distinct(order) && Elements(order) <= table.Keys
    ensures DistinctIn(ExpiredKeys(clock, order, table, tick), Elements(order))
  {
    if order != [] {
      ExpiredKeysDistinct(clock, order[1..], table, tick + 1);
      var rest := ExpiredKeys(clock, order[1..], table, tick + 1);
      if Expired(table[order[0]], Reading(clock, tick)) {
        assert ([order[0]] + rest)[1..] == rest;
        assert Elements(order) - {order[0]} == Elements(order[1..]);
      } else {
        DistinctInMore(rest, Elements(order[1..]), Elements(order));
      }
    }
  }

  lemma {:induction false} DistinctInMore(keys: seq<string>, fewer: set<string>, more: set<string>)
    requires fewer <= more && DistinctIn(keys, fewer)
    ensures DistinctIn(keys, more)
  {
    if keys != [] {
      DistinctInMore(keys[1..], fewer - {keys[0]}, more - {keys[0]});
    }
  }

  ghost function IfExpired(clock: Clock, key: string, table: map<string, Entry>, tick: nat): seq<string>
    requires key in table
  {
    if Expired(table[key], Reading(clock, tick)) then [key] else []
  }

  lemma ExpiredKeysFrom(clock: Clock, order: seq<string>, table: map<string, Entry>, tick: nat, i: nat)
    requires i < |order| && Elements(order) <= table.Keys
    ensures order[i] in table && Elements(order[i..]) <= table.Keys && Elements(order[i + 1..]) <= table.Keys
    ensures ExpiredKeys(clock, order[i..], table, tick)
         == IfExpired(clock, order[i], table, tick) + ExpiredKeys(clock, order[i + 1..], table, tick + 1)
  {
    ElementAt(order, i);
    Sequences.Unfold(order, i);
  }

  lemma {:induction false} WithoutAllTicks(c: Cache, keys: seq<string>, ticks: nat)
    ensures WithoutAll(c.(ticks := ticks), keys) == WithoutAll(c, keys).(ticks := ticks)
    decreases |keys|
  {
    if keys != [] {
      WithoutAllTicks(Without(c, keys[0]), keys[1..], ticks);
    }
  }
}
