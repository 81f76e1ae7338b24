/** Types shared by the cache tiers of app/core/caching.py. */
module CacheTypes {
  import opened Prelude

  datatype Key = Key(name: string)
  datatype Tag = Tag(name: string)

  /** A Python object. None can be stored, but a tier returns it for a miss as well. */
  datatype PyValue = PyNone | PyObj(id: int)

  /** `ttl or default_ttl`: both a missing TTL and a TTL of 0 mean the default. */
  function EffectiveTtl(ttl: Option<int>, defaultTtl: int): int {
    if ttl.None? || ttl.value == 0 then defaultTtl else ttl.value
  }

  predicate SharesTag(a: seq<Tag>, b: seq<Tag>) {
    exists i :: 0 <= i < |a| && a[i] in b
  }
}

/** The in-process tier: a dict and a recency list kept in step. */
module MemoryTier {
  import opened Prelude
  import opened CacheTypes

  datatype Entry = Entry(value: PyValue, createdAt: int, expiresAt: Option<int>,
                         accessCount: nat, lastAccessed: int, tags: seq<Tag>)

  predicate Expired(e: Entry, now: int) {
    e.expiresAt.Some? && now > e.expiresAt.value
  }

  /** The whole state of a MemoryCache. */
  datatype Mem = Mem(cache: map<Key, Entry>, order: seq<Key>, maxSize: nat, defaultTtl: int)

  function MemInit(maxSize: nat, defaultTtl: int): Mem {
    Mem(map[], [], maxSize, defaultTtl)
  }

  // ---------- What each operation does to the state ----------

  function Touch(order: seq<Key>, key: Key): seq<Key> {
    RemoveFirst(order, key) + [key]
  }

  function MemRemove(s: Mem, key: Key): Mem {
    if key in s.cache then s.(cache := s.cache - {key}, order := RemoveFirst(s.order, key)) else s
  }

  function Accessed(e: Entry, now: int): Entry {
    e.(accessCount := e.accessCount + 1, lastAccessed := now)
  }

  function MemGet(s: Mem, key: Key, now: int): (Mem, PyValue) {
    if key !in s.cache then (s, PyNone)
    else if Expired(s.cache[key], now) then (MemRemove(s, key), PyNone)
    else
      var e := s.cache[key];
      (MemInsert(s, key, Accessed(e, now)), e.value)
  }

  function NewEntry(s: Mem, value: PyValue, ttl: Option<int>, tags: seq<Tag>, now: int): Entry {
    var t := EffectiveTtl(ttl, s.defaultTtl);
    Entry(value, now, if t > 0 then Some(now + t) else None, 0, now, tags)
  }

  function MemInsert(s: Mem, key: Key, e: Entry): Mem {
    s.(cache := s.cache[key := e], order := Touch(s.order, key))
  }

  function Restrict(cache: map<Key, Entry>, keys: seq<Key>): map<Key, Entry> {
    map k | k in cache && k in keys :: cache[k]
  }

  /** The maxSize most recently used keys and their entries. */
  function MemEvicted(s: Mem): Mem {
    var kept := Last(s.order, s.maxSize);
    s.(cache := Restrict(s.cache, kept), order := kept)
  }

  function MemSet(s: Mem, key: Key, value: PyValue, ttl: Option<int>, tags: seq<Tag>, now: int): Mem {
    MemEvicted(MemInsert(s, key, NewEntry(s, value, ttl, tags, now)))
  }

  function MemDrop(s: Mem, gone: set<Key>): Mem {
    s.(cache := s.cache - gone, order := FilterOut(s.order, gone))
  }

  function Tagged(s: Mem, tags: seq<Tag>): set<Key> {
    set k | k in s.cache && SharesTag(tags, s.cache[k].tags)
  }

  function Lapsed(s: Mem, now: int): set<Key> {
    set k | k in s.cache && Expired(s.cache[k], now)
  }

  function MemClear(s: Mem, tags: seq<Tag>): Mem {
    MemDrop(s, Tagged(s, tags))
  }

  function MemCleanup(s: Mem, now: int): Mem {
    MemDrop(s, Lapsed(s, now))
  }

  // ---------- The representation invariant ----------

  /** The list holds each of the keys, and nothing else, once. */
  ghost predicate Lists(order: seq<Key>, keys: set<Key>) {
    NoDup(order) && forall k :: k in order <==> k in keys
  }

  /** Least recently accessed first. */
  ghost predicate Ascending(cache: map<Key, Entry>, order: seq<Key>)
    requires forall k :: k in order ==> k in cache
  {
    forall i, j :: 0 <= i < j < |order| ==> cache[order[i]].lastAccessed <= cache[order[j]].lastAccessed
  }

  ghost predicate UsedBy(cache: map<Key, Entry>, now: int) {
    forall k :: k in cache ==> cache[k].lastAccessed <= now
  }

  ghost predicate InStep(s: Mem, now: int) {
    Lists(s.order, s.cache.Keys) && Ascending(s.cache, s.order) && UsedBy(s.cache, now)
  }

  /** List and dict are in step and the capacity is respected. */
  ghost predicate MemInv(s: Mem, now: int) {
    InStep(s, now) && |s.cache| <= s.maxSize
  }

  lemma ListsSize(order: seq<Key>, keys: set<Key>)
    requires Lists(order, keys)
    ensures |order| == |keys|
  {
    NoDupSize(order, keys);
  }

  lemma ListsTouch(order: seq<Key>, keys: set<Key>, key: Key)
    requires Lists(order, keys)
    ensures Lists(Touch(order, key), keys + {key})
  {
    RemoveFirstNoDup(order, key);
    var rest := RemoveFirst(order, key);
    forall k ensures k in rest + [key] <==> k in keys + {key} {
      assert k in rest + [key] <==> k in rest || k == key;
    }
  }

  lemma InsertLists(s: Mem, key: Key, e: Entry)
    requires Lists(s.order, s.cache.Keys)
    ensures Lists(MemInsert(s, key, e).order, MemInsert(s, key, e).cache.Keys)
  {
    ListsTouch(s.order, s.cache.Keys, key);
    assert s.cache[key := e].Keys == s.cache.Keys + {key};
  }

  lemma AscendingTouch(cache: map<Key, Entry>, order: seq<Key>, key: Key, e: Entry)
    requires Lists(order, cache.Keys) && Ascending(cache, order) && UsedBy(cache, e.lastAccessed)
    ensures forall k :: k in Touch(order, key) ==> k in cache[key := e]
    ensures Ascending(cache[key := e], Touch(order, key))
  {
    RemoveFirstNoDup(order, key);
    if key in order {
      var i := RemoveFirstSplit(order, key);
      AscendingWithout(cache, order, i);
    } else {
      RemoveFirstAbsent(order, key);
    }
    AscendingAppend(cache, RemoveFirst(order, key), key, e);
  }

  lemma AscendingAppend(cache: map<Key, Entry>, rest: seq<Key>, key: Key, e: Entry)
    requires forall k :: k in rest ==> k in cache && k != key
    requires Ascending(cache, rest) && UsedBy(cache, e.lastAccessed)
    ensures forall k :: k in rest + [key] ==> k in cache[key := e]
    ensures Ascending(cache[key := e], rest + [key])
  {
    var t := rest + [key];
    forall i, j | 0 <= i < j < |t|
      ensures t[i] in cache && cache[key := e][t[i]].lastAccessed <= cache[key := e][t[j]].lastAccessed
    {
      assert t[i] == rest[i] && rest[i] in rest;
      if j < |rest| {
        assert t[j] == rest[j] && rest[j] in rest;
      }
    }
  }

  lemma AscendingWithout(cache: map<Key, Entry>, order: seq<Key>, i: nat)
    requires i < |order| && forall k :: k in order ==> k in cache
    requires Ascending(cache, order)
    ensures forall k :: k in order[..i] + order[i + 1..] ==> k in cache
    ensures Ascending(cache, order[..i] + order[i + 1..])
  {
    var r := order[..i] + order[i + 1..];
    forall a, b | 0 <= a < b < |r| ensures cache[r[a]].lastAccessed <= cache[r[b]].lastAccessed {
      assert r[a] == order[if a < i then a else a + 1];
      assert r[b] == order[if b < i then b else b + 1];
    }
  }

  lemma {:induction false} AscendingFilterOut(cache: map<Key, Entry>, order: seq<Key>, gone: set<Key>)
    requires forall k :: k in order ==> k in cache
    requires Ascending(cache, order)
    ensures Ascending(cache, FilterOut(order, gone))
  {
    if order != [] {
      AscendingFilterOut(cache, order[1..], gone);
      var r := FilterOut(order[1..], gone);
      forall j | 0 <= j < |r| ensures cache[order[0]].lastAccessed <= cache[r[j]].lastAccessed {
        assert r[j] in order[1..];
      }
    }
  }

  /** Writing an entry at the recent end keeps list and dict in step. */
  lemma InsertKeepsInStep(s: Mem, key: Key, e: Entry, clock: int, now: int)
    requires InStep(s, clock) && clock <= now && e.lastAccessed == now
    ensures InStep(MemInsert(s, key, e), now)
  {
    InsertLists(s, key, e);
    AscendingTouch(s.cache, s.order, key, e);
  }

  lemma DropKeepsInStep(s: Mem, gone: set<Key>, clock: int, now: int)
    requires InStep(s, clock) && clock <= now
    ensures InStep(MemDrop(s, gone), now)
  {
    FilterOutNoDup(s.order, gone);
    AscendingFilterOut(s.cache, s.order, gone);
  }

  lemma {:induction false} DropKeepsInv(s: Mem, gone: set<Key>, clock: int, now: int)
    requires MemInv(s, clock) && clock <= now
    ensures MemInv(MemDrop(s, gone), now)
  {
    DropKeepsInStep(s, gone, clock, now);
    SubsetSize((s.cache - gone).Keys, s.cache.Keys);
  }

  lemma {:induction false} SubsetSize(a: set<Key>, b: set<Key>)
    requires a <= b
    ensures |a| <= |b|
  {
    if a != {} {
      var x :| x in a;
      SubsetSize(a - {x}, b - {x});
    }
  }

  lemma RemoveIsDrop(s: Mem, key: Key, now: int)
    requires InStep(s, now)
    ensures MemRemove(s, key) == MemDrop(s, {key} * s.cache.Keys)
  {
    FilterOutNothing(s.order);
    if key in s.cache {
      assert {key} * s.cache.Keys == {} + {key};
      FilterOutOneMore(s.order, {}, key);
    } else {
      DropNothing(s);
      assert {key} * s.cache.Keys == {};
    }
  }

  lemma DropNothing(s: Mem)
    ensures MemDrop(s, {}) == s
  {
    FilterOutNothing(s.order);
    assert s.cache - {} == s.cache;
  }

  lemma LastAscending(cache: map<Key, Entry>, order: seq<Key>, n: nat)
    requires NoDup(order) && forall k :: k in order ==> k in cache
    requires Ascending(cache, order)
    ensures NoDup(Last(order, n))
    ensures forall k :: k in Last(order, n) ==> k in cache
    ensures Ascending(cache, Last(order, n))
  {
    var r := Last(order, n);
    var cut := |order| - |r|;
    forall i | 0 <= i < |r| ensures r[i] == order[cut + i] && r[i] in cache {
      assert order[cut + i] in order;
    }
  }

  lemma EvictedKeys(s: Mem, now: int)
    requires InStep(s, now)
    ensures MemEvicted(s).cache.Keys == set k | k in MemEvicted(s).order
  {
    LastAscending(s.cache, s.order, s.maxSize);
  }

  lemma EvictionKeepsInv(s: Mem, now: int)
    requires InStep(s, now)
    ensures MemInv(MemEvicted(s), now)
    ensures |MemEvicted(s).cache| == if |s.cache| <= s.maxSize then |s.cache| else s.maxSize
  {
    LastAscending(s.cache, s.order, s.maxSize);
    EvictedKeys(s, now);
    var s' := MemEvicted(s);
    assert Ascending(s'.cache, s'.order);
    ListsSize(s.order, s.cache.Keys);
    ListsSize(s'.order, s'.cache.Keys);
    assert |s'.cache| == |s'.cache.Keys|;
  }

  // ---------- The eviction loop ----------

  /** One turn: `pop(0)`, then `_remove_key`. */
  function PopOldest(s: Mem): Mem
    requires s.order != []
  {
    MemRemove(s.(order := s.order[1..]), s.order[0])
  }

  /** The whole loop. */
  function EvictLoop(s: Mem): Mem
    decreases |s.order|
  {
    if |s.cache| <= s.maxSize || s.order == [] then s
    else
      RemoveFirstShrinks(s.order[1..], s.order[0]);
      EvictLoop(PopOldest(s))
  }

  lemma {:induction false} RemoveFirstShrinks(order: seq<Key>, key: Key)
    ensures |RemoveFirst(order, key)| <= |order|
  {
    if order != [] {
      RemoveFirstShrinks(order[1..], key);
    }
  }

  lemma ListsPop(order: seq<Key>, keys: set<Key>)
    requires Lists(order, keys) && order != []
    ensures Lists(order[1..], keys - {order[0]}) && order[0] !in order[1..]
  {
    assert order == [order[0]] + order[1..];
  }

  lemma MinusOne(cache: map<Key, Entry>, key: Key)
    requires key in cache
    ensures |cache - {key}| == |cache| - 1
  {
    assert (cache - {key}).Keys == cache.Keys - {key};
    assert |cache - {key}| == |(cache - {key}).Keys|;
  }

  lemma PopKeepsLists(s: Mem)
    requires Lists(s.order, s.cache.Keys) && s.order != []
    ensures PopOldest(s) == s.(cache := s.cache - {s.order[0]}, order := s.order[1..])
    ensures Lists(PopOldest(s).order, PopOldest(s).cache.Keys)
    ensures |PopOldest(s).cache| == |s.cache| - 1
  {
    var key := s.order[0];
    assert key in s.order;
    ListsPop(s.order, s.cache.Keys);
    RemoveFirstAbsent(s.order[1..], key);
    assert (s.cache - {key}).Keys == s.cache.Keys - {key};
    MinusOne(s.cache, key);
  }

  /** The loop leaves exactly the maxSize most recently used keys. */
  lemma {:induction false} EvictLoopKeepsMostRecent(s: Mem)
    requires Lists(s.order, s.cache.Keys)
    ensures EvictLoop(s) == MemEvicted(s)
    decreases |s.order|
  {
    ListsSize(s.order, s.cache.Keys);
    if |s.cache| <= s.maxSize {
      assert Restrict(s.cache, s.order) == s.cache;
    } else {
      PopKeepsLists(s);
      EvictLoopKeepsMostRecent(PopOldest(s));
      EvictionIgnoresOldest(s);
    }
  }

  lemma EvictionIgnoresOldest(s: Mem)
    requires Lists(s.order, s.cache.Keys) && |s.order| > s.maxSize
    ensures var s' := s.(cache := s.cache - {s.order[0]}, order := s.order[1..]);
            MemEvicted(s') == MemEvicted(s)
  {
    assert Last(s.order[1..], s.maxSize) == Last(s.order, s.maxSize);
    assert s.order[0] !in Last(s.order, s.maxSize);
  }

  lemma LastSeparates(order: seq<Key>, n: nat, gone: Key, kept: Key) returns (i: nat, j: nat)
    requires gone in order && gone !in Last(order, n) && kept in Last(order, n)
    ensures i < j < |order| && order[i] == gone && order[j] == kept
  {
    var r := Last(order, n);
    var cut := |order| - |r|;
    assert order == order[..cut] + r;
    assert gone in order[..cut];
    i :| 0 <= i < cut && order[i] == gone;
    var j' :| 0 <= j' < |r| && r[j'] == kept;
    j := cut + j';
  }

  /** Eviction drops the least recently used keys only: what goes was used no later than what stays. */
  lemma {:induction false} EvictionDropsLeastRecent(s: Mem, now: int, gone: Key, kept: Key)
    requires InStep(s, now)
    requires gone in s.cache && gone !in MemEvicted(s).cache && kept in MemEvicted(s).cache
    ensures s.cache[gone].lastAccessed <= s.cache[kept].lastAccessed
  {
    EvictedKeys(s, now);
    var _, _ := LastSeparates(s.order, s.maxSize, gone, kept);
  }

  lemma {:induction false} GetKeepsInv(s: Mem, key: Key, clock: int, now: int)
    requires MemInv(s, clock) && clock <= now
    ensures MemInv(MemGet(s, key, now).0, now)
  {
    if key in s.cache && Expired(s.cache[key], now) {
      RemoveIsDrop(s, key, clock);
      DropKeepsInv(s, {key} * s.cache.Keys, clock, now);
    } else if key in s.cache {
      var s' := MemGet(s, key, now).0;
      InsertKeepsInStep(s, key, s'.cache[key], clock, now);
      assert s'.cache.Keys == s.cache.Keys;
      assert |s'.cache.Keys| == |s.cache.Keys|;
    }
  }

  lemma SetKeepsInv(s: Mem, key: Key, value: PyValue, ttl: Option<int>, tags: seq<Tag>, clock: int, now: int)
    requires MemInv(s, clock) && clock <= now
    ensures MemInv(MemSet(s, key, value, ttl, tags, now), now)
  {
    var e := NewEntry(s, value, ttl, tags, now);
    InsertKeepsInStep(s, key, e, clock, now);
    EvictionKeepsInv(MemInsert(s, key, e), now);
  }

  // ---------- What the operations mean ----------

  /** A read finds exactly what is there and has not expired; what has expired leaves. */
  lemma GetMeaning(s: Mem, key: Key, now: int)
    requires key in s.cache
    ensures var (s', value) := MemGet(s, key, now);
            var e := s.cache[key];
            if e.expiresAt.None? || now <= e.expiresAt.value
            then value == e.value && s'.order == RemoveFirst(s.order, key) + [key]
                 && s'.cache == s.cache[key := e.(accessCount := e.accessCount + 1, lastAccessed := now)]
            else value == PyNone && s'.order == RemoveFirst(s.order, key) && s'.cache == s.cache - {key}
  {
  }

  /** The new entry, expiring after the given TTL or the default one; the others are as they were. */
  lemma SetMeaning(s: Mem, key: Key, value: PyValue, ttl: Option<int>, tags: seq<Tag>, now: int)
    requires s.maxSize > 0
    ensures var s' := MemSet(s, key, value, ttl, tags, now);
            var seconds := if ttl.None? || ttl.value == 0 then s.defaultTtl else ttl.value;
            && key in s'.cache
            && s'.cache[key] == Entry(value, now, if seconds > 0 then Some(now + seconds) else None, 0, now, tags)
            && forall k :: k in s'.cache && k != key ==> k in s.cache && s'.cache[k] == s.cache[k]
  {
    var order := Touch(s.order, key);
    assert Last(order, s.maxSize)[|Last(order, s.maxSize)| - 1] == key;
  }

  /** Nothing else is lost before the cache is full, and then one key. */
  lemma SetSize(s: Mem, key: Key, value: PyValue, ttl: Option<int>, tags: seq<Tag>, clock: int, now: int)
    requires MemInv(s, clock) && clock <= now && s.maxSize > 0
    ensures |MemSet(s, key, value, ttl, tags, now).cache|
            == if key !in s.cache && |s.cache| < s.maxSize then |s.cache| + 1 else |s.cache|
  {
    var e := NewEntry(s, value, ttl, tags, now);
    InsertKeepsInStep(s, key, e, clock, now);
    EvictionKeepsInv(MemInsert(s, key, e), now);
    InsertSize(s.cache, key, e);
  }

  lemma InsertSize(cache: map<Key, Entry>, key: Key, e: Entry)
    ensures |cache[key := e]| == if key in cache then |cache| else |cache| + 1
  {
    assert cache[key := e].Keys == cache.Keys + {key};
    assert |cache[key := e]| == |cache.Keys + {key}| && |cache.Keys| == |cache|;
  }

  /** Exactly the entries that carry none of the tags stay, and they stay as they were. */
  lemma ClearMeaning(s: Mem, tags: seq<Tag>)
    ensures forall k :: k in MemClear(s, tags).cache <==> k in s.cache && forall t :: t in tags ==> t !in s.cache[k].tags
    ensures forall k :: k in MemClear(s, tags).cache ==> MemClear(s, tags).cache[k] == s.cache[k]
  {
    forall k | k in s.cache ensures SharesTag(tags, s.cache[k].tags) <==> exists t :: t in tags && t in s.cache[k].tags {
      if t :| t in tags && t in s.cache[k].tags {
        var i :| 0 <= i < |tags| && tags[i] == t;
      }
    }
  }

  /** Exactly the entries without an expiry, or with one that has not passed, stay. */
  lemma CleanupMeaning(s: Mem, now: int)
    ensures forall k :: k in MemCleanup(s, now).cache <==>
              k in s.cache && (s.cache[k].expiresAt.None? || now <= s.cache[k].expiresAt.value)
    ensures forall k :: k in MemCleanup(s, now).cache ==> MemCleanup(s, now).cache[k] == s.cache[k]
  {
  }

  /** Removal leaves the recency order of the rest. */
  lemma DropKeepsOrder(s: Mem, gone: set<Key>, a: Key, b: Key)
    requires Precedes(s.order, a, b) && a !in gone && b !in gone
    ensures Precedes(MemDrop(s, gone).order, a, b)
  {
    FilterOutKeepsOrder(s.order, gone, a, b);
  }

  /** A written value is read back exactly until its TTL has passed, or for ever when the TTL is negative. */
  lemma SetThenGet(s: Mem, key: Key, value: PyValue, ttl: Option<int>, tags: seq<Tag>, at: int, now: int)
    requires s.maxSize > 0 && value.PyObj?
    ensures var t := if ttl.None? || ttl.value == 0 then s.defaultTtl else ttl.value;
            MemGet(MemSet(s, key, value, ttl, tags, at), key, now).1 == (if t <= 0 || now <= at + t then value else PyNone)
  {
    var order := Touch(s.order, key);
    assert Last(order, s.maxSize)[|Last(order, s.maxSize)| - 1] == key;
    assert key in MemSet(s, key, value, ttl, tags, at).cache;
  }

  lemma DropOneMore(s: Mem, gone: set<Key>, key: Key)
    requires NoDup(s.order) && key in s.cache && key !in gone
    ensures MemRemove(MemDrop(s, gone), key) == MemDrop(s, gone + {key})
  {
    FilterOutOneMore(s.order, gone, key);
    assert (s.cache - gone) - {key} == s.cache - (gone + {key});
  }

  // ---------- The class ----------

  class MemoryCache {
    const maxSize: nat
    const defaultTtl: int
    var cache: map<Key, Entry>
    var accessOrder: seq<Key>
    ghost var clock: int // the latest clock reading

    function State(): Mem
      reads this
    {
      Mem(cache, accessOrder, maxSize, defaultTtl)
    }

    ghost predicate Valid()
      reads this
    {
      MemInv(State(), clock)
    }

    constructor (maxSize: nat := 1000, defaultTtl: int := 300)
      ensures State() == MemInit(maxSize, defaultTtl) && Valid()
    {
      this.maxSize := maxSize;
      this.defaultTtl := defaultTtl;
      cache := map[];
      accessOrder := [];
    }

    method RemoveKey(key: Key) returns (removed: bool)
      modifies this`cache, this`accessOrder
      ensures State() == MemRemove(old(State()), key)
      ensures cache == old(cache) - {key} && removed == (key in old(cache))
    {
      assert key !in cache ==> cache - {key} == cache;
      if key in cache {
        cache := cache - {key};
        if key in accessOrder {
          accessOrder := RemoveFirst(accessOrder, key);
        } else {
          RemoveFirstAbsent(accessOrder, key);
        }
        return true;
      }
      return false;
    }

    /** The recency update that reading and writing share. */
    method MoveToEnd(key: Key)
      modifies this`accessOrder
      ensures accessOrder == Touch(old(accessOrder), key)
    {
      if key in accessOrder {
        accessOrder := RemoveFirst(accessOrder, key);
      } else {
        RemoveFirstAbsent(accessOrder, key);
      }
      accessOrder := accessOrder + [key];
    }

    method Store(key: Key, entry: Entry)
      modifies this`cache, this`accessOrder
      ensures State() == MemInsert(old(State()), key, entry)
    {
      cache := cache[key := entry];
      MoveToEnd(key);
    }

    method EvictIfNecessary()
      requires Lists(accessOrder, cache.Keys)
      modifies this`cache, this`accessOrder
      ensures State() == MemEvicted(old(State()))
    {
      EvictLoopKeepsMostRecent(State());
      while |cache| > maxSize
        invariant Lists(accessOrder, cache.Keys)
        invariant EvictLoop(State()) == EvictLoop(old(State()))
        decreases |accessOrder|
      {
        ListsSize(accessOrder, cache.Keys);
        if accessOrder != [] {
          PopKeepsLists(State());
          var lruKey := accessOrder[0];
          accessOrder := accessOrder[1..];
          var _ := RemoveKey(lruKey);
        }
      }
    }

    method StoreAndEvict(key: Key, entry: Entry)
      requires Lists(accessOrder, cache.Keys)
      modifies this`cache, this`accessOrder
      ensures State() == MemEvicted(MemInsert(old(State()), key, entry))
    {
      InsertLists(State(), key, entry);
      Store(key, entry);
      EvictIfNecessary();
    }

    method Get(key: Key, now: int) returns (value: PyValue)
      requires Valid() && clock <= now
      modifies this
      ensures Valid() && clock == now
      ensures (State(), value) == MemGet(old(State()), key, now)
    {
      ghost var before := State();
      GetKeepsInv(before, key, clock, now);
      if key !in cache {
        clock := now;
        return PyNone;
      }
      var entry := cache[key];
      if Expired(entry, now) {
        var _ := RemoveKey(key);
        clock := now;
        return PyNone;
      }
      Store(key, Accessed(entry, now));
      clock := now;
      return entry.value;
    }

    method Set(key: Key, value: PyValue, ttl: Option<int>, tags: seq<Tag>, now: int)
      requires Valid() && clock <= now
      modifies this
      ensures Valid() && clock == now
      ensures State() == MemSet(old(State()), key, value, ttl, tags, now)
    {
      SetKeepsInv(State(), key, value, ttl, tags, clock, now);
      StoreAndEvict(key, NewEntry(State(), value, ttl, tags, now));
      clock := now;
    }

    method Delete(key: Key) returns (removed: bool)
      requires Valid()
      modifies this
      ensures Valid() && clock == old(clock)
      ensures State() == MemRemove(old(State()), key)
      ensures cache == old(cache) - {key} && removed == (key in old(cache))
    {
      RemoveIsDrop(State(), key, clock);
      DropKeepsInv(State(), {key} * cache.Keys, clock, clock);
      removed := RemoveKey(key);
    }

    /** Removes a set of cached keys one after another. */
    method RemoveKeys(keys: set<Key>)
      requires NoDup(accessOrder) && keys <= cache.Keys
      modifies this`cache, this`accessOrder
      ensures State() == MemDrop(old(State()), keys)
    {
      ghost var before := State();
      var todo := keys;
      FilterOutNothing(accessOrder);
      assert cache - (keys - todo) == cache && keys - todo == {};
      while todo != {}
        invariant todo <= keys
        invariant State() == MemDrop(before, keys - todo)
        decreases todo
      {
        var key :| key in todo;
        DropOneMore(before, keys - todo, key);
        assert keys - (todo - {key}) == (keys - todo) + {key};
        var _ := RemoveKey(key);
        todo := todo - {key};
      }
      assert keys - todo == keys;
    }

    method ClearByTags(tags: seq<Tag>)
      requires Valid()
      modifies this
      ensures Valid() && clock == old(clock)
      ensures State() == MemClear(old(State()), tags)
      ensures forall k :: k in cache <==> k in old(cache) && forall t :: t in tags ==> t !in old(cache)[k].tags
      ensures forall k :: k in cache ==> cache[k] == old(cache)[k]
    {
      ClearMeaning(State(), tags);
      var keys := set k | k in cache && SharesTag(tags, cache[k].tags);
      DropKeepsInv(State(), keys, clock, clock);
      RemoveKeys(keys);
    }

    /** One round of the background task. */
    method CleanupExpired(now: int)
      requires Valid() && clock <= now
      modifies this
      ensures Valid() && clock == now
      ensures State() == MemCleanup(old(State()), now)
      ensures forall k :: k in cache <==> k in old(cache) && (old(cache)[k].expiresAt.None? || now <= old(cache)[k].expiresAt.value)
    {
      CleanupMeaning(State(), now);
      var keys := set k | k in cache && Expired(cache[k], now);
      DropKeepsInv(State(), keys, clock, now);
      RemoveKeys(keys);
      clock := now;
    }
  }
}
