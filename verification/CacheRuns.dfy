/** Properties of every run of the cache: it stays within its size, evicts in recency order, and a
    hit returns what was last stored, within its TTL. */
module CacheRuns {
  import opened Wrappers
  import opened DslTypes
  import opened CacheModel

  datatype Op =
    | Lookup(key: string)
    | Put(key: string, value: Value, ttl: Option<int>)
    | Drop(key: string)
    | DropAll
    | Sweep

  ghost function Apply(clock: Clock, c: Cache, op: Op): (c': Cache)
    requires c.WellFormed()
    ensures c'.WellFormed() && c'.maxSize == c.maxSize && c'.defaultTtl == c.defaultTtl
  {
    match op
    case Lookup(key) => GetWellFormed(clock, c, key); Get(clock, c, key).1
    case Put(key, value, ttl) => SetWellFormed(clock, c, key, value, ttl); Set(clock, c, key, value, ttl)
    case Drop(key) => WithoutWellFormed(c, key); Invalidate(c, key).1
    case DropAll => Clear(c)
    case Sweep => WithoutAllWellFormed(c, ExpiredKeys(clock, c.order, c.table, c.ticks)); Cleanup(clock, c).1
  }

  /** The state after the given operations on a new cache. */
  ghost function After(clock: Clock, maxSize: int, defaultTtl: int, ops: seq<Op>): (c: Cache)
    ensures c.WellFormed() && c.maxSize == maxSize && c.defaultTtl == defaultTtl
    decreases |ops|
  {
    if ops == [] then Empty(maxSize, defaultTtl)
    else Apply(clock, After(clock, maxSize, defaultTtl, ops[..|ops| - 1]), ops[|ops| - 1])
  }

  // ---- Size ------------------------------------------------------------------------------------

  /** The number of entries, max_size permitting no more than it says, or 1 when it says less. */
  ghost predicate WithinBounds(c: Cache) {
    && |c.order| <= (if c.maxSize >= 1 then c.maxSize else 1)
    && |c.order| + c.stats.evictions <= c.stats.sets
  }

  lemma PutWithinBounds(clock: Clock, c: Cache, key: string, value: Value, ttl: Option<int>)
    requires c.WellFormed() && WithinBounds(c)
    ensures WithinBounds(Set(clock, c, key, value, ttl))
  {
    MakeRoomWellFormed(c);
    if |c.order| >= c.maxSize && c.order != [] {
      WithoutWellFormed(c, Oldest(c.order[1..], c.table, c.order[0]));
    }
  }

  lemma {:induction false} WithoutAllShrinks(c: Cache, keys: seq<string>)
    requires c.WellFormed()
    ensures |WithoutAll(c, keys).order| <= |c.order|
    decreases |keys|
  {
    if keys != [] {
      WithoutWellFormed(c, keys[0]);
      WithoutAllShrinks(Without(c, keys[0]), keys[1..]);
    }
  }

  lemma ApplyWithinBounds(clock: Clock, c: Cache, op: Op)
    requires c.WellFormed() && WithinBounds(c)
    ensures WithinBounds(Apply(clock, c, op))
  {
    match op {
      case Lookup(key) => WithoutWellFormed(c, key);
      case Put(key, value, ttl) => PutWithinBounds(clock, c, key, value, ttl);
      case Drop(key) => WithoutWellFormed(c, key);
      case DropAll =>
      case Sweep =>
        var keys := ExpiredKeys(clock, c.order, c.table, c.ticks);
        WithoutAllWellFormed(c, keys);
        WithoutAllShrinks(c, keys);
    }
  }

  /** In every reachable state of a cache with max_size >= 1 there are at most max_size entries (a
      smaller max_size still lets one in), and entries and evictions are paid for by sets. */
  lemma {:induction false} AlwaysWithinBounds(clock: Clock, maxSize: int, defaultTtl: int, ops: seq<Op>)
    ensures WithinBounds(After(clock, maxSize, defaultTtl, ops))
    decreases |ops|
  {
    if ops != [] {
      AlwaysWithinBounds(clock, maxSize, defaultTtl, ops[..|ops| - 1]);
      ApplyWithinBounds(clock, After(clock, maxSize, defaultTtl, ops[..|ops| - 1]), ops[|ops| - 1]);
    }
  }

  /** max_size bounds the entries of every run exactly when it is at least 1. */
  lemma SizeBoundExact(clock: Clock, maxSize: int, defaultTtl: int)
    ensures (forall ops: seq<Op> :: |After(clock, maxSize, defaultTtl, ops).order| <= maxSize) <==> maxSize >= 1
  {
    if maxSize >= 1 {
      forall ops: seq<Op> ensures |After(clock, maxSize, defaultTtl, ops).order| <= maxSize {
        AlwaysWithinBounds(clock, maxSize, defaultTtl, ops);
      }
    } else {
      var ops := [Put("", Null, None)];
      assert ops[..|ops| - 1] == [];
      assert |After(clock, maxSize, defaultTtl, ops).order| == 1;
    }
  }

  // ---- Cleanup -----------------------------------------------------------------------------------

  lemma {:induction false} ExpiredKeysExact(clock: Clock, order: seq<string>, table: map<string, Entry>, tick: nat, i: nat)
    requires i < |order| && Distinct(order) && Elements(order) <= table.Keys
    ensures order[i] in table
    ensures order[i] in ExpiredKeys(clock, order, table, tick) <==> Expired(table[order[i]], Reading(clock, tick + i))
  {
    ElementAt(order, i);
    var rest := ExpiredKeys(clock, order[1..], table, tick + 1);
    if i > 0 {
      ExpiredKeysExact(clock, order[1..], table, tick + 1, i - 1);
      ElementAt(order[1..], i - 1);
    } else if order[0] in rest {
      ExpiredKeysListed(clock, order[1..], table, tick + 1, order[0]);
    }
  }

  lemma {:induction false} ExpiredKeysListed(clock: Clock, order: seq<string>, table: map<string, Entry>, tick: nat, key: string)
    requires Elements(order) <= table.Keys && key in ExpiredKeys(clock, order, table, tick)
    ensures key in Elements(order)
  {
    if order != [] && key != order[0] {
      ExpiredKeysListed(clock, order[1..], table, tick + 1, key);
    }
  }

  /** cleanup_expired removes exactly the entries that are expired when their turn comes, whatever the
      clock does in between, and leaves the others untouched. */
  lemma CleanupExact(clock: Clock, c: Cache, i: nat)
    requires c.WellFormed() && i < |c.order|
    ensures var key, c' := c.order[i], Cleanup(clock, c).1;
            && key in c.table
            && (key in c'.table <==> !Expired(c.table[key], Reading(clock, c.ticks + i)))
            && (key in c'.table ==> c'.table[key] == c.table[key])
            && c'.table.Keys <= c.table.Keys
  {
    var keys := ExpiredKeys(clock, c.order, c.table, c.ticks);
    ExpiredKeysExact(clock, c.order, c.table, c.ticks, i);
    WithoutAllWellFormed(c, keys);
    assert Cleanup(clock, c).1.table == c.table - (set k | k in keys);
  }

  // ---- Statistics ------------------------------------------------------------------------------

  function LookupsSinceClear(ops: seq<Op>): nat
    decreases |ops|
  {
    if ops == [] then 0
    else
      var before := ops[..|ops| - 1];
      match ops[|ops| - 1]
      case Lookup(_) => LookupsSinceClear(before) + 1
      case DropAll => 0
      case _ => LookupsSinceClear(before)
  }

  lemma MakeRoomCounts(c: Cache)
    requires c.WellFormed()
    ensures MakeRoom(c).stats.hits == c.stats.hits && MakeRoom(c).stats.misses == c.stats.misses
  {
  }

  /** hits + misses is the number of lookups since the last clear. */
  lemma {:induction false} EveryLookupCounts(clock: Clock, maxSize: int, defaultTtl: int, ops: seq<Op>)
    ensures var s := After(clock, maxSize, defaultTtl, ops).stats; s.hits + s.misses == LookupsSinceClear(ops)
    decreases |ops|
  {
    if ops != [] {
      var c := After(clock, maxSize, defaultTtl, ops[..|ops| - 1]);
      EveryLookupCounts(clock, maxSize, defaultTtl, ops[..|ops| - 1]);
      MakeRoomCounts(c);
      WithoutAllWellFormed(c, ExpiredKeys(clock, c.order, c.table, c.ticks));
    }
  }

  /** How one operation other than a clear counts: a set is a set, and an eviction if the cache was full of
      something; a lookup is a hit while the TTL has not passed, and otherwise a miss. */
  lemma CountersExactly(clock: Clock, c: Cache, op: Op)
    requires c.WellFormed()
    ensures var live := op.Lookup? && op.key in c.table && clock(c.ticks) <= c.table[op.key].createdAt + 1_000_000 * c.table[op.key].ttl;
            var full := op.Put? && c.table != map[] && |c.order| >= c.maxSize;
            Apply(clock, c, op).stats ==
            if op.DropAll? then Stats(0, 0, 0, 0)
            else Stats(c.stats.hits + (if live then 1 else 0), c.stats.misses + (if op.Lookup? && !live then 1 else 0),
                       c.stats.evictions + (if full then 1 else 0), c.stats.sets + (if op.Put? then 1 else 0))
  {
    if op.Sweep? {
      WithoutAllWellFormed(c, ExpiredKeys(clock, c.order, c.table, c.ticks));
    }
    if c.order != [] {
      assert c.order[0] in c.table;
    }
  }

  /** invalidate_by_key tells whether the key was there, and takes out that key only. */
  lemma DropExactly(c: Cache, key: string)
    requires c.WellFormed()
    ensures var found, c' := Invalidate(c, key).0, Invalidate(c, key).1;
            && (found <==> key in c.table) && key !in c'.table && c'.stats == c.stats
            && forall k :: k in c.table && k != key ==> k in c'.table && c'.table[k] == c.table[k]
  {
  }

  /** cleanup_expired returns by how many entries it has made the cache smaller. */
  lemma CleanupCounts(clock: Clock, c: Cache)
    requires c.WellFormed()
    ensures Cleanup(clock, c).0 == |c.table| - |Cleanup(clock, c).1.table|
  {
    var keys := ExpiredKeys(clock, c.order, c.table, c.ticks);
    ExpiredKeysApart(clock, c.order, c.table, c.ticks);
    WithoutAllWellFormed(c, keys);
    ElementsSize(keys);
    var rest := Cleanup(clock, c).1.table;
    assert (set k | k in keys) == Elements(keys);
    assert rest.Keys == c.table.Keys - Elements(keys);
  }

  lemma {:induction false} ExpiredKeysApart(clock: Clock, order: seq<string>, table: map<string, Entry>, tick: nat)
    requires Distinct(order) && Elements(order) <= table.Keys
    ensures var keys := ExpiredKeys(clock, order, table, tick); Distinct(keys) && Elements(keys) <= Elements(order)
  {
    if order != [] {
      ExpiredKeysApart(clock, order[1..], table, tick + 1);
      var rest := ExpiredKeys(clock, order[1..], table, tick + 1);
      assert ([order[0]] + rest)[1..] == rest;
    }
  }

  lemma {:induction false} ElementsSize(order: seq<string>)
    requires Distinct(order)
    ensures |Elements(order)| == |order| && Elements(order) == set k | k in order
  {
    if order != [] {
      ElementsSize(order[1..]);
      assert order == [order[0]] + order[1..];
    }
  }

  // ---- Freshness -------------------------------------------------------------------------------

  datatype Stored = Stored(value: Value, at: int, ttl: int)

  /** What the history says was last stored under key, unless it has been invalidated since. */
  ghost function LastStored(clock: Clock, maxSize: int, defaultTtl: int, ops: seq<Op>, key: string): Option<Stored>
    decreases |ops|
  {
    if ops == [] then None
    else
      var before := ops[..|ops| - 1];
      match ops[|ops| - 1]
      case Put(k, value, ttl) =>
        if k == key then
          Some(Stored(value, Reading(clock, After(clock, maxSize, defaultTtl, before).ticks),
                      if ttl.Some? then ttl.value else defaultTtl))
        else LastStored(clock, maxSize, defaultTtl, before, key)
      case Drop(k) => if k == key then None else LastStored(clock, maxSize, defaultTtl, before, key)
      case DropAll => None
      case _ => LastStored(clock, maxSize, defaultTtl, before, key)
  }

  ghost predicate Holds(e: Entry, s: Option<Stored>) {
    s == Some(Stored(e.value, e.createdAt, e.ttl))
  }

  ghost predicate SameContent(e: Entry, f: Entry) {
    e.value == f.value && e.createdAt == f.createdAt && e.ttl == f.ttl
  }

  /** An entry present after an operation was put by it, with one use, or was there before with the same
      content, and was used once more exactly if the operation looked it up. */
  lemma EntryAfter(clock: Clock, c: Cache, op: Op, key: string)
    requires c.WellFormed() && key in Apply(clock, c, op).table
    ensures var e := Apply(clock, c, op).table[key];
            if op.Put? && op.key == key then
              e.value == op.value && e.createdAt == Reading(clock, c.ticks)
              && e.ttl == (if op.ttl.Some? then op.ttl.value else c.defaultTtl)
              && e.accessCount == 1 && e.accessedAt == clock(c.ticks + 1)
            else
              && key in c.table && SameContent(e, c.table[key]) && op != DropAll && op != Drop(key)
              && e.accessCount == c.table[key].accessCount + (if op == Lookup(key) then 1 else 0)
              && e.accessedAt == if op == Lookup(key) then clock(c.ticks + 1) else c.table[key].accessedAt
  {
    if op.Sweep? {
      WithoutAllWellFormed(c, ExpiredKeys(clock, c.order, c.table, c.ticks));
    }
  }

  lemma {:induction false} EntriesAreLastStored(clock: Clock, maxSize: int, defaultTtl: int, ops: seq<Op>, key: string)
    requires key in After(clock, maxSize, defaultTtl, ops).table
    ensures Holds(After(clock, maxSize, defaultTtl, ops).table[key], LastStored(clock, maxSize, defaultTtl, ops, key))
    decreases |ops|
  {
    if ops != [] {
      var before, op := ops[..|ops| - 1], ops[|ops| - 1];
      EntryAfter(clock, After(clock, maxSize, defaultTtl, before), op, key);
      if !(op.Put? && op.key == key) {
        EntriesAreLastStored(clock, maxSize, defaultTtl, before, key);
      }
    }
  }

  /** Whenever a lookup is a hit, it returns the value of the most recent set of that key since the
      key was last invalidated, and no more than that entry's TTL after it. A lookup is a hit exactly
      when the key is present and that time has not passed. */
  lemma HitIsFresh(clock: Clock, maxSize: int, defaultTtl: int, ops: seq<Op>, key: string)
    ensures var c := After(clock, maxSize, defaultTtl, ops);
            var (value, c') := Get(clock, c, key);
            var last := LastStored(clock, maxSize, defaultTtl, ops, key);
            && (c'.stats.hits == c.stats.hits + 1 ==>
                  last.Some? && value == last.value.value
                  && Reading(clock, c.ticks) <= last.value.at + 1_000_000 * last.value.ttl)
            && (c'.stats.hits == c.stats.hits + 1 <==>
                  key in c.table && last.Some? && Reading(clock, c.ticks) <= last.value.at + 1_000_000 * last.value.ttl)
            && (c'.stats.hits != c.stats.hits + 1 ==> value == Null && key !in c'.table)
  {
    if key in After(clock, maxSize, defaultTtl, ops).table {
      EntriesAreLastStored(clock, maxSize, defaultTtl, ops, key);
    }
  }

  // ---- LRU -------------------------------------------------------------------------------------

  /** Earlier than; or, for clocks that may repeat a reading, not later than. */
  predicate Earlier(strict: bool, a: int, b: int) {
    a < b || (!strict && a == b)
  }

  /** The clock never goes back; if strict, it moves between any two readings. */
  ghost predicate Advancing(clock: Clock, strict: bool) {
    forall i, j :: 0 <= i < j ==> Earlier(strict, Reading(clock, i), Reading(clock, j))
  }

  /** recency lists keys of the table once each, least recently used first. */
  ghost predicate Sorted(strict: bool, recency: seq<string>, table: map<string, Entry>) {
    recency == [] ||
    (&& recency[0] in table && recency[0] !in Elements(recency[1..]) && Elements(recency[1..]) <= table.Keys
     && (forall k :: k in Elements(recency[1..]) ==> Earlier(strict, table[recency[0]].accessedAt, table[k].accessedAt))
     && Sorted(strict, recency[1..], table))
  }

  ghost predicate ByRecency(strict: bool, clock: Clock, c: Cache, recency: seq<string>) {
    && Elements(recency) == c.table.Keys
    && Sorted(strict, recency, c.table)
    && forall k :: k in c.table ==> Earlier(strict, c.table[k].accessedAt, Reading(clock, c.ticks))
  }

  function Drops(recency: seq<string>, keys: seq<string>): seq<string>
    decreases |keys|
  {
    if keys == [] then recency else Drops(RemoveKey(recency, keys[0]), keys[1..])
  }

  /** The key the next eviction takes. */
  function Victim(c: Cache): (k: string)
    requires c.order != [] && Elements(c.order) <= c.table.Keys
    ensures k in c.table
  {
    Oldest(c.order[1..], c.table, c.order[0])
  }

  /** The keys of the cache in order of their last use: a hit or a set moves its key to the end, and a set
      into a full cache first drops the key the cache evicts. */
  ghost function UseOrder(clock: Clock, c: Cache, recency: seq<string>, op: Op): seq<string>
    requires c.WellFormed()
  {
    match op
    case Lookup(key) =>
      if key !in c.table then recency
      else if Expired(c.table[key], Reading(clock, c.ticks)) then RemoveKey(recency, key)
      else RemoveKey(recency, key) + [key]
    case Put(key, _, _) =>
      var room := if |c.order| >= c.maxSize && c.order != [] then RemoveKey(recency, Victim(c)) else recency;
      RemoveKey(room, key) + [key]
    case Drop(key) => RemoveKey(recency, key)
    case DropAll => []
    case Sweep => Drops(recency, ExpiredKeys(clock, c.order, c.table, c.ticks))
  }

  /** The same list as an LRU cache keeps it: a set into a full cache drops the head. */
  ghost function Recency(clock: Clock, c: Cache, recency: seq<string>, op: Op): seq<string>
    requires c.WellFormed()
  {
    match op
    case Put(key, _, _) =>
      var room := if |recency| >= c.maxSize && recency != [] then recency[1..] else recency;
      RemoveKey(room, key) + [key]
    case _ => UseOrder(clock, c, recency, op)
  }

  lemma {:induction false} SortedDistinct(strict: bool, recency: seq<string>, table: map<string, Entry>)
    requires Sorted(strict, recency, table)
    ensures Distinct(recency) && Elements(recency) <= table.Keys
  {
    if recency != [] {
      SortedDistinct(strict, recency[1..], table);
    }
  }

  lemma {:induction false} SameLength(a: seq<string>, b: seq<string>)
    requires Distinct(a) && Distinct(b) && Elements(a) == Elements(b)
    ensures |a| == |b|
    decreases |a|
  {
    if a != [] {
      RemoveKeyLists(b, a[0]);
      SameLength(a[1..], RemoveKey(b, a[0]));
    }
  }

  /** Sortedness looks only at access times of the listed keys. */
  lemma {:induction false} SortedRemove(strict: bool, recency: seq<string>, table: map<string, Entry>, key: string, table': map<string, Entry>)
    requires Sorted(strict, recency, table)
    requires forall k :: k in Elements(recency) && k != key ==> k in table' && table'[k].accessedAt == table[k].accessedAt
    ensures Sorted(strict, RemoveKey(recency, key), table')
    ensures Elements(RemoveKey(recency, key)) == Elements(recency) - {key}
  {
    SortedDistinct(strict, recency, table);
    RemoveKeyLists(recency, key);
    if recency != [] {
      var rest := recency[1..];
      SortedRemove(strict, rest, table, key, table');
      RemoveKeyLists(rest, key);
      if recency[0] == key {
        RemoveAbsent(rest, key);
      } else {
        var r := RemoveKey(rest, key);
        assert ([recency[0]] + r)[1..] == r;
      }
    }
  }

  lemma {:induction false} RemoveAbsent(order: seq<string>, key: string)
    requires key !in Elements(order)
    ensures RemoveKey(order, key) == order
  {
    if order != [] {
      RemoveAbsent(order[1..], key);
    }
  }

  lemma {:induction false} SortedAppend(strict: bool, recency: seq<string>, table: map<string, Entry>, key: string)
    requires Sorted(strict, recency, table) && key in table && key !in Elements(recency)
    requires forall k :: k in Elements(recency) ==> Earlier(strict, table[k].accessedAt, table[key].accessedAt)
    ensures Sorted(strict, recency + [key], table)
    ensures Elements(recency + [key]) == Elements(recency) + {key}
  {
    SortedDistinct(strict, recency, table);
    AppendLists(recency, key);
    if recency != [] {
      SortedAppend(strict, recency[1..], table, key);
      assert (recency + [key])[1..] == recency[1..] + [key];
    }
  }

  lemma {:induction false} OldestIsLeast(order: seq<string>, table: map<string, Entry>, candidate: string)
    requires candidate in table && Elements(order) <= table.Keys
    ensures var k := Oldest(order, table, candidate);
            && k in Elements(order) + {candidate}
            && table[k].accessedAt <= table[candidate].accessedAt
            && forall l :: l in Elements(order) ==> table[k].accessedAt <= table[l].accessedAt
  {
    if order != [] {
      OldestIsLeast(order[1..], table, if table[order[0]].accessedAt < table[candidate].accessedAt then order[0] else candidate);
    }
  }

  /** No entry was accessed before h. */
  ghost predicate LeastTime(table: map<string, Entry>, h: string)
    requires h in table
  {
    forall k :: k in table ==> table[h].accessedAt <= table[k].accessedAt
  }

  /** No other entry with the access time of h stands before it in insertion order. */
  predicate FirstOfItsTime(order: seq<string>, table: map<string, Entry>, h: string)
    requires Elements(order) <= table.Keys && h in table
  {
    order == [] || order[0] == h
    || (table[order[0]].accessedAt != table[h].accessedAt && FirstOfItsTime(order[1..], table, h))
  }

  lemma {:induction false} OldestExactly(order: seq<string>, table: map<string, Entry>, candidate: string, h: string)
    requires candidate in table && Elements(order) <= table.Keys && h in table && candidate !in Elements(order)
    requires Distinct(order)
    ensures Oldest(order, table, candidate) == h <==>
      && h in Elements(order) + {candidate}
      && (forall k :: k in Elements(order) + {candidate} ==> table[h].accessedAt <= table[k].accessedAt)
      && (h == candidate || (table[h].accessedAt != table[candidate].accessedAt && FirstOfItsTime(order, table, h)))
  {
    if order != [] {
      OldestExactly(order[1..], table, if table[order[0]].accessedAt < table[candidate].accessedAt then order[0] else candidate, h);
    }
  }

  /** Whatever the clock has done, the argmin eviction takes a key exactly when no entry was accessed before
      it, and none that was accessed at the same time was stored before it. */
  lemma VictimExactly(c: Cache, h: string)
    requires c.WellFormed() && c.order != [] && h in c.table
    ensures Victim(c) == h <==> LeastTime(c.table, h) && FirstOfItsTime(c.order, c.table, h)
  {
    OldestExactly(c.order[1..], c.table, c.order[0], h);
    assert c.table.Keys == Elements(c.order[1..]) + {c.order[0]};
  }

  /** When the keys are listed in order of their access times, the eviction takes the head exactly when no
      other entry with its access time was stored before it; always, when access times differ. */
  lemma EvictsTheHead(strict: bool, clock: Clock, c: Cache, recency: seq<string>)
    requires c.WellFormed() && ByRecency(strict, clock, c, recency) && c.order != []
    ensures recency != [] && recency[0] in c.table && |recency| == |c.order|
    ensures Victim(c) == recency[0] <==> FirstOfItsTime(c.order, c.table, recency[0])
    ensures strict ==> Victim(c) == recency[0]
  {
    SortedDistinct(strict, recency, c.table);
    SameLength(recency, c.order);
    assert recency[0] in Elements(recency);
    var h := recency[0];
    assert forall k :: k in c.table ==> k == h || k in Elements(recency[1..]);
    VictimExactly(c, h);
    OldestIsLeast(c.order[1..], c.table, c.order[0]);
    assert h in Elements(c.order);
  }

  /** Moving key to the end, for an entry whose access time is newer than all the others. */
  lemma TouchKeeps(strict: bool, clock: Clock, c: Cache, recency: seq<string>, key: string, e: Entry, ticks: nat, c': Cache)
    requires Advancing(clock, strict) && ByRecency(strict, clock, c, recency)
    requires e.accessedAt == Reading(clock, ticks) && c.ticks <= ticks
    requires c'.table == c.table[key := e] && c'.ticks == ticks + 1
    ensures ByRecency(strict, clock, c', RemoveKey(recency, key) + [key])
  {
    SortedRemove(strict, recency, c.table, key, c'.table);
    assert Earlier(strict, Reading(clock, ticks), Reading(clock, ticks + 1));
    assert c.ticks == ticks || Earlier(strict, Reading(clock, c.ticks), Reading(clock, ticks));
    SortedAppend(strict, RemoveKey(recency, key), c'.table, key);
  }

  lemma RemoveKeeps(strict: bool, clock: Clock, c: Cache, recency: seq<string>, key: string, c': Cache)
    requires Advancing(clock, strict) && ByRecency(strict, clock, c, recency)
    requires c'.table == c.table - {key} && c'.ticks >= c.ticks
    ensures ByRecency(strict, clock, c', RemoveKey(recency, key))
  {
    SortedRemove(strict, recency, c.table, key, c'.table);
    assert c.ticks == c'.ticks || Earlier(strict, Reading(clock, c.ticks), Reading(clock, c'.ticks));
  }

  lemma {:induction false} RemoveAllKeeps(strict: bool, clock: Clock, c: Cache, recency: seq<string>, keys: seq<string>)
    requires Advancing(clock, strict) && c.WellFormed() && ByRecency(strict, clock, c, recency)
    ensures ByRecency(strict, clock, WithoutAll(c, keys), Drops(recency, keys))
    decreases |keys|
  {
    if keys != [] {
      WithoutWellFormed(c, keys[0]);
      RemoveKeeps(strict, clock, c, recency, keys[0], Without(c, keys[0]));
      RemoveAllKeeps(strict, clock, Without(c, keys[0]), RemoveKey(recency, keys[0]), keys[1..]);
    }
  }

  lemma PutKeeps(strict: bool, clock: Clock, c: Cache, recency: seq<string>, key: string, value: Value, ttl: Option<int>)
    requires Advancing(clock, strict) && c.WellFormed() && ByRecency(strict, clock, c, recency)
    ensures ByRecency(strict, clock, Set(clock, c, key, value, ttl), UseOrder(clock, c, recency, Put(key, value, ttl)))
  {
    var full := |c.order| >= c.maxSize && c.order != [];
    var room := if full then RemoveKey(recency, Victim(c)) else recency;
    if full {
      RemoveKeeps(strict, clock, c, recency, Victim(c), MakeRoom(c));
    }
    assert ByRecency(strict, clock, MakeRoom(c), room);
    var c' := Set(clock, c, key, value, ttl);
    TouchKeeps(strict, clock, MakeRoom(c), room, key, c'.table[key], c.ticks + 1, c');
  }

  /** Every operation keeps the keys listed in order of their access times. */
  lemma ApplyKeeps(strict: bool, clock: Clock, c: Cache, recency: seq<string>, op: Op)
    requires Advancing(clock, strict) && c.WellFormed() && ByRecency(strict, clock, c, recency)
    ensures ByRecency(strict, clock, Apply(clock, c, op), UseOrder(clock, c, recency, op))
  {
    match op {
      case Lookup(key) =>
        if key in c.table {
          var c' := Get(clock, c, key).1;
          if Expired(c.table[key], Reading(clock, c.ticks)) {
            RemoveKeeps(strict, clock, c, recency, key, c');
          } else {
            TouchKeeps(strict, clock, c, recency, key, c'.table[key], c.ticks + 1, c');
          }
        }
      case Put(key, value, ttl) => PutKeeps(strict, clock, c, recency, key, value, ttl);
      case Drop(key) =>
        RemoveKeeps(strict, clock, c, recency, key, Without(c, key));
        if key !in c.table {
          RemoveAbsent(recency, key);
        }
      case DropAll =>
      case Sweep =>
        var keys := ExpiredKeys(clock, c.order, c.table, c.ticks);
        RemoveAllKeeps(strict, clock, c, recency, keys);
        WithoutAllWellFormed(c, keys);
        assert |c.order| == 0 || Earlier(strict, Reading(clock, c.ticks), Reading(clock, c.ticks + |c.order|));
    }
  }

  /** When the clock has moved between readings, one operation of the cache is one operation of the LRU list. */
  lemma UseOrderIsLru(clock: Clock, c: Cache, recency: seq<string>, op: Op)
    requires c.WellFormed() && ByRecency(true, clock, c, recency)
    ensures UseOrder(clock, c, recency, op) == Recency(clock, c, recency, op)
  {
    SortedDistinct(true, recency, c.table);
    SameLength(recency, c.order);
    if op.Put? && c.order != [] {
      EvictsTheHead(true, clock, c, recency);
    }
  }

  /** The keys in order of their last use, after a whole run. */
  ghost function UsesAfter(clock: Clock, maxSize: int, defaultTtl: int, ops: seq<Op>): seq<string>
    decreases |ops|
  {
    if ops == [] then []
    else
      var before := ops[..|ops| - 1];
      UseOrder(clock, After(clock, maxSize, defaultTtl, before), UsesAfter(clock, maxSize, defaultTtl, before), ops[|ops| - 1])
  }

  /** The LRU list after a whole run. */
  ghost function RecencyAfter(clock: Clock, maxSize: int, defaultTtl: int, ops: seq<Op>): seq<string>
    decreases |ops|
  {
    if ops == [] then []
    else
      var before := ops[..|ops| - 1];
      Recency(clock, After(clock, maxSize, defaultTtl, before), RecencyAfter(clock, maxSize, defaultTtl, before), ops[|ops| - 1])
  }

  lemma {:induction false} RunKeepsUses(strict: bool, clock: Clock, maxSize: int, defaultTtl: int, ops: seq<Op>)
    requires Advancing(clock, strict)
    ensures ByRecency(strict, clock, After(clock, maxSize, defaultTtl, ops), UsesAfter(clock, maxSize, defaultTtl, ops))
    decreases |ops|
  {
    if ops != [] {
      var before := ops[..|ops| - 1];
      RunKeepsUses(strict, clock, maxSize, defaultTtl, before);
      ApplyKeeps(strict, clock, After(clock, maxSize, defaultTtl, before), UsesAfter(clock, maxSize, defaultTtl, before), ops[|ops| - 1]);
    }
  }

  lemma {:induction false} DropsLists(recency: seq<string>, keys: seq<string>)
    requires Distinct(recency)
    ensures Lists(Drops(recency, keys), Elements(recency) - set k | k in keys)
    decreases |keys|
  {
    if keys != [] {
      RemoveKeyLists(recency, keys[0]);
      DropsLists(RemoveKey(recency, keys[0]), keys[1..]);
      assert (set k | k in keys) == {keys[0]} + set k | k in keys[1..];
    }
  }

  lemma UseOrderLists(clock: Clock, c: Cache, recency: seq<string>, op: Op)
    requires c.WellFormed() && Lists(recency, c.table.Keys)
    ensures Lists(UseOrder(clock, c, recency, op), Apply(clock, c, op).table.Keys)
  {
    match op {
      case Lookup(key) =>
        RemoveKeyLists(recency, key);
        if key in c.table {
          AppendLists(RemoveKey(recency, key), key);
        }
      case Put(key, _, _) =>
        var room := recency;
        if |c.order| >= c.maxSize && c.order != [] {
          room := RemoveKey(recency, Victim(c));
          RemoveKeyLists(recency, Victim(c));
        }
        assert Lists(room, MakeRoom(c).table.Keys);
        RemoveKeyLists(room, key);
        AppendLists(RemoveKey(room, key), key);
      case Drop(key) =>
        RemoveKeyLists(recency, key);
      case DropAll =>
      case Sweep =>
        DropsLists(recency, ExpiredKeys(clock, c.order, c.table, c.ticks));
        WithoutAllWellFormed(c, ExpiredKeys(clock, c.order, c.table, c.ticks));
    }
  }

  lemma {:induction false} UsesAreListed(clock: Clock, maxSize: int, defaultTtl: int, ops: seq<Op>)
    ensures Lists(UsesAfter(clock, maxSize, defaultTtl, ops), After(clock, maxSize, defaultTtl, ops).table.Keys)
    decreases |ops|
  {
    if ops != [] {
      var before := ops[..|ops| - 1];
      UsesAreListed(clock, maxSize, defaultTtl, before);
      UseOrderLists(clock, After(clock, maxSize, defaultTtl, before), UsesAfter(clock, maxSize, defaultTtl, before), ops[|ops| - 1]);
    }
  }

  /** Over every run and for every clock, the next eviction takes the key used longest ago exactly when no
      entry has an earlier access time, and no other entry with the same one was stored before it. */
  lemma EvictsLeastRecentExactly(clock: Clock, maxSize: int, defaultTtl: int, ops: seq<Op>)
    ensures var c, uses := After(clock, maxSize, defaultTtl, ops), UsesAfter(clock, maxSize, defaultTtl, ops);
            && Lists(uses, c.table.Keys)
            && (c.order != [] ==> uses != [] && uses[0] in c.table)
            && (c.order != [] ==> (Victim(c) == uses[0] <==> LeastTime(c.table, uses[0]) && FirstOfItsTime(c.order, c.table, uses[0])))
  {
    var c, uses := After(clock, maxSize, defaultTtl, ops), UsesAfter(clock, maxSize, defaultTtl, ops);
    UsesAreListed(clock, maxSize, defaultTtl, ops);
    if c.order != [] {
      SameLength(uses, c.order);
      assert uses[0] in Elements(uses);
      VictimExactly(c, uses[0]);
    }
  }

  /** With a clock that never goes back, exactly when no other entry with the same access time was stored
      before it. */
  lemma EvictsLeastRecent(clock: Clock, maxSize: int, defaultTtl: int, ops: seq<Op>)
    requires Advancing(clock, false)
    ensures var c, uses := After(clock, maxSize, defaultTtl, ops), UsesAfter(clock, maxSize, defaultTtl, ops);
            && Sorted(false, uses, c.table)
            && (c.order != [] ==> uses != [] && uses[0] in c.table)
            && (c.order != [] ==> (Victim(c) == uses[0] <==> FirstOfItsTime(c.order, c.table, uses[0])))
  {
    RunKeepsUses(false, clock, maxSize, defaultTtl, ops);
    if After(clock, maxSize, defaultTtl, ops).order != [] {
      EvictsTheHead(false, clock, After(clock, maxSize, defaultTtl, ops), UsesAfter(clock, maxSize, defaultTtl, ops));
    }
  }

  lemma {:induction false} UsesAreLru(clock: Clock, maxSize: int, defaultTtl: int, ops: seq<Op>)
    requires Advancing(clock, true)
    ensures UsesAfter(clock, maxSize, defaultTtl, ops) == RecencyAfter(clock, maxSize, defaultTtl, ops)
    decreases |ops|
  {
    if ops != [] {
      var before := ops[..|ops| - 1];
      UsesAreLru(clock, maxSize, defaultTtl, before);
      RunKeepsUses(true, clock, maxSize, defaultTtl, before);
      UseOrderIsLru(clock, After(clock, maxSize, defaultTtl, before), UsesAfter(clock, maxSize, defaultTtl, before), ops[|ops| - 1]);
    }
  }

  /** LRU refinement: over every run with a strictly increasing clock, the cache holds the keys of the
      LRU list, in the order of their access times, and the next eviction takes its head. */
  lemma RefinesLru(clock: Clock, maxSize: int, defaultTtl: int, ops: seq<Op>)
    requires Advancing(clock, true)
    ensures var c, recency := After(clock, maxSize, defaultTtl, ops), RecencyAfter(clock, maxSize, defaultTtl, ops);
            && ByRecency(true, clock, c, recency)
            && (c.order != [] ==> recency != [] && Victim(c) == recency[0])
  {
    RunKeepsUses(true, clock, maxSize, defaultTtl, ops);
    UsesAreLru(clock, maxSize, defaultTtl, ops);
    if After(clock, maxSize, defaultTtl, ops).order != [] {
      EvictsTheHead(true, clock, After(clock, maxSize, defaultTtl, ops), UsesAfter(clock, maxSize, defaultTtl, ops));
    }
  }

  const STOPPED: Clock := i => 0

  lemma OnePut()
    ensures var ops := [Put("a", Null, None)];
            && After(STOPPED, 2, 300, ops) == Cache(2, 300, ["a"], map["a" := Entry(Null, 0, 0, 1, 300)], Stats(0, 0, 0, 1), 2)
            && RecencyAfter(STOPPED, 2, 300, ops) == UsesAfter(STOPPED, 2, 300, ops) == ["a"]
  {
    var ops := [Put("a", Null, None)];
    assert ops[..0] == [] && After(STOPPED, 2, 300, []) == Empty(2, 300);
    assert [] + ["a"] == ["a"];
  }

  lemma TwoPuts()
    ensures var ops := [Put("a", Null, None), Put("b", Null, None)];
            var c := After(STOPPED, 2, 300, ops);
            && c.order == ["a", "b"] && c.table == map["a" := Entry(Null, 0, 0, 1, 300), "b" := Entry(Null, 0, 0, 1, 300)]
            && RecencyAfter(STOPPED, 2, 300, ops) == UsesAfter(STOPPED, 2, 300, ops) == ["a", "b"]
  {
    var ops := [Put("a", Null, None), Put("b", Null, None)];
    assert ops[..1] == [Put("a", Null, None)];
    OnePut();
    assert ["a"] + ["b"] == ["a", "b"] && RemoveKey(["a"], "b") == ["a"];
  }

  /** Where the condition fails: with readings that repeat, the eviction takes the key that was stored first
      although it was used last. */
  lemma RepeatedReadingsBreakLru()
    ensures Advancing(STOPPED, false)
    ensures var ops := [Put("a", Null, None), Put("b", Null, None), Lookup("a")];
            var c, uses := After(STOPPED, 2, 300, ops), UsesAfter(STOPPED, 2, 300, ops);
            && c.order == ["a", "b"] && Victim(c) == "a"
            && uses == RecencyAfter(STOPPED, 2, 300, ops) == ["b", "a"]
  {
    var ops := [Put("a", Null, None), Put("b", Null, None), Lookup("a")];
    assert ops[..2] == [Put("a", Null, None), Put("b", Null, None)];
    TwoPuts();
    var c := After(STOPPED, 2, 300, ops);
    assert c.order[1..] == ["b"] && ["b"][1..] == [];
    assert RemoveKey(["a", "b"], "a") == ["b"] && ["b"] + ["a"] == ["b", "a"];
  }
}
