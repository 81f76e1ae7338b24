/**
 * The `cached` decorator. Any number of wrapper calls run at once; each step below is
 * one locked region of the memory tier or one exchange with Redis, and deletions,
 * tag clears, clean-ups and losses in Redis come in between at will.
 */
module Memoisation {
  import opened Prelude
  import opened CacheTypes
  import opened MemoryTier
  import opened RedisTier
  import MultiTier

  /** Where a wrapper call stands. */
  datatype Progress =
    | Begun
    | MissedMemory
    | FoundInRedis(value: PyValue)
    | Missed
    | Computed(value: PyValue)
    | MemoryDone(value: PyValue)
    | Returned(value: PyValue)

  datatype Call = Call(key: Key, progress: Progress)

  datatype System = System(mem: Mem, redis: Redis, calls: map<nat, Call>)

  datatype Action =
    | Begin(id: nat, key: Key)
    | ReadMemory(id: nat, at: int)
    | ReadRedis(id: nat, at: int)
    | Promote(id: nat, at: int)
    | Compute(id: nat)
    | StoreMemory(id: nat, ttl: Option<int>, tags: seq<Tag>, levels: seq<MultiTier.Level>, at: int)
    | StoreRedis(id: nat, ttl: Option<int>, tags: seq<Tag>, levels: seq<MultiTier.Level>, at: int)
    | DeleteFromMemory(key: Key)
    | DeleteFromRedis(key: Key)
    | ClearMemory(tags: seq<Tag>)
    | ClearRedis(tags: seq<Tag>, at: int)
    | CleanUp(at: int)
    | RedisLoses(keys: set<Key>)

  function Advance(s: System, id: nat, progress: Progress): System
    requires id in s.calls
  {
    s.(calls := s.calls[id := s.calls[id].(progress := progress)])
  }

  /** One action; it changes nothing when its call is not at that point. */
  function Act(f: Key -> PyValue, s: System, a: Action): System {
    match a
    case Begin(id, key) =>
      if id in s.calls then s else s.(calls := s.calls[id := Call(key, Begun)])
    case ReadMemory(id, at) =>
      if id in s.calls && s.calls[id].progress.Begun? then
        var (mem, value) := MemGet(s.mem, s.calls[id].key, at);
        Advance(s.(mem := mem), id, if value.PyObj? then Returned(value) else MissedMemory)
      else s
    case ReadRedis(id, at) =>
      if id in s.calls && s.calls[id].progress.MissedMemory? then
        var value := RedisGet(s.redis, s.calls[id].key, at);
        Advance(s, id, if value.PyObj? then FoundInRedis(value) else Missed)
      else s
    case Promote(id, at) =>
      if id in s.calls && s.calls[id].progress.FoundInRedis? then
        var value := s.calls[id].progress.value;
        Advance(s.(mem := MemSet(s.mem, s.calls[id].key, value, Some(MultiTier.PROMOTION_TTL), [], at)), id, Returned(value))
      else s
    case Compute(id) =>
      if id in s.calls && s.calls[id].progress.Missed? then Advance(s, id, Computed(f(s.calls[id].key))) else s
    case StoreMemory(id, ttl, tags, levels, at) =>
      if id in s.calls && s.calls[id].progress.Computed? then
        var value := s.calls[id].progress.value;
        var mem := if MultiTier.MEMORY in MultiTier.Targets(levels)
                   then MemSet(s.mem, s.calls[id].key, value, ttl, tags, at) else s.mem;
        Advance(s.(mem := mem), id, MemoryDone(value))
      else s
    case StoreRedis(id, ttl, tags, levels, at) =>
      if id in s.calls && s.calls[id].progress.MemoryDone? then
        var value := s.calls[id].progress.value;
        var redis := if MultiTier.REDIS in MultiTier.Targets(levels)
                     then RedisSet(s.redis, s.calls[id].key, value, ttl, tags, at) else s.redis;
        Advance(s.(redis := redis), id, Returned(value))
      else s
    case DeleteFromMemory(key) => s.(mem := MemRemove(s.mem, key))
    case DeleteFromRedis(key) => s.(redis := RedisDelete(s.redis, key))
    case ClearMemory(tags) => s.(mem := MemClear(s.mem, tags))
    case ClearRedis(tags, at) => s.(redis := RedisClear(s.redis, tags, at))
    case CleanUp(at) => s.(mem := MemCleanup(s.mem, at))
    case RedisLoses(keys) => s.(redis := s.redis.(data := s.redis.data - keys))
  }

  function RunActions(f: Key -> PyValue, s: System, actions: seq<Action>): System {
    if actions == [] then s
    else Act(f, RunActions(f, s, actions[..|actions| - 1]), actions[|actions| - 1])
  }

  /** The server may hold what the decorator stored in earlier processes. */
  function Start(maxSize: nat, redis: Redis): System {
    System(MemInit(maxSize, 300), redis, map[])
  }

  // ---------- Transparency ----------

  ghost predicate MemoryHolds(f: Key -> PyValue, mem: Mem) {
    forall k :: k in mem.cache ==> mem.cache[k].value == f(k)
  }

  ghost predicate RedisHolds(f: Key -> PyValue, redis: Redis) {
    forall k :: k in redis.data ==> redis.data[k].value == f(k)
  }

  predicate CallHolds(f: Key -> PyValue, c: Call) {
    c.progress.Begun? || c.progress.MissedMemory? || c.progress.Missed? || c.progress.value == f(c.key)
  }

  ghost predicate CallsHold(f: Key -> PyValue, calls: map<nat, Call>) {
    forall id :: id in calls ==> CallHolds(f, calls[id])
  }

  lemma ActKeepsMemory(f: Key -> PyValue, s: System, a: Action)
    requires MemoryHolds(f, s.mem) && CallsHold(f, s.calls)
    ensures MemoryHolds(f, Act(f, s, a).mem)
  {
    match a {
      case ReadMemory(id, at) =>
        if id in s.calls {
          MultiTier.MemGetEntries(s.mem, s.calls[id].key, at);
        }
      case Promote(id, at) =>
        if id in s.calls && s.calls[id].progress.FoundInRedis? {
          assert CallHolds(f, s.calls[id]);
          MultiTier.MemSetEntries(s.mem, s.calls[id].key, s.calls[id].progress.value, Some(MultiTier.PROMOTION_TTL), [], at);
        }
      case StoreMemory(id, ttl, tags, _, at) =>
        if id in s.calls && s.calls[id].progress.Computed? {
          assert CallHolds(f, s.calls[id]);
          MultiTier.MemSetEntries(s.mem, s.calls[id].key, s.calls[id].progress.value, ttl, tags, at);
        }
      case _ =>
    }
  }

  lemma ActKeepsRedis(f: Key -> PyValue, s: System, a: Action)
    requires RedisHolds(f, s.redis) && CallsHold(f, s.calls)
    ensures RedisHolds(f, Act(f, s, a).redis)
  {
    match a {
      case StoreRedis(id, _, _, _, _) =>
        if id in s.calls && s.calls[id].progress.MemoryDone? {
          assert CallHolds(f, s.calls[id]);
        }
      case ClearRedis(tags, at) =>
        ClearAllMeaning(s.redis, tags, at);
      case _ =>
    }
  }

  lemma ActKeepsCalls(f: Key -> PyValue, s: System, a: Action)
    requires MemoryHolds(f, s.mem) && RedisHolds(f, s.redis) && CallsHold(f, s.calls)
    ensures CallsHold(f, Act(f, s, a).calls)
  {
    var s' := Act(f, s, a);
    forall id | id in s'.calls ensures CallHolds(f, s'.calls[id]) {
      if id in s.calls {
        assert CallHolds(f, s.calls[id]);
      }
    }
  }

  lemma {:induction false} RunHolds(f: Key -> PyValue, maxSize: nat, redis: Redis, actions: seq<Action>)
    requires RedisHolds(f, redis)
    ensures var s := RunActions(f, Start(maxSize, redis), actions);
            MemoryHolds(f, s.mem) && RedisHolds(f, s.redis) && CallsHold(f, s.calls)
  {
    if actions != [] {
      var init, a := actions[..|actions| - 1], actions[|actions| - 1];
      RunHolds(f, maxSize, redis, init);
      var s := RunActions(f, Start(maxSize, redis), init);
      ActKeepsMemory(f, s, a);
      ActKeepsRedis(f, s, a);
      ActKeepsCalls(f, s, a);
    }
  }

  /** In every interleaving, a wrapper call that has returned has returned the function's own result. */
  lemma DecoratorIsTransparent(f: Key -> PyValue, maxSize: nat, redis: Redis, actions: seq<Action>, id: nat)
    requires RedisHolds(f, redis)
    requires var s := RunActions(f, Start(maxSize, redis), actions);
             id in s.calls && s.calls[id].progress.Returned?
    ensures var c := RunActions(f, Start(maxSize, redis), actions).calls[id]; c.progress.value == f(c.key)
  {
    RunHolds(f, maxSize, redis, actions);
    assert CallHolds(f, RunActions(f, Start(maxSize, redis), actions).calls[id]);
  }

  // ---------- The wrapper, when nothing comes in between ----------

  lemma GetHolds(f: Key -> PyValue, s: MultiTier.Tiers, key: Key, now: int)
    requires MemoryHolds(f, s.mem) && RedisHolds(f, s.redis)
    ensures var (s', value) := MultiTier.TiersGet(s, key, now);
            MemoryHolds(f, s'.mem) && RedisHolds(f, s'.redis) && (value.PyObj? ==> value == f(key))
  {
    MultiTier.MemGetEntries(s.mem, key, now);
    MultiTier.MemSetEntries(MemGet(s.mem, key, now).0, key, RedisGet(s.redis, key, now),
                            Some(MultiTier.PROMOTION_TTL), [], now);
  }

  lemma SetHolds(f: Key -> PyValue, s: MultiTier.Tiers, key: Key, ttl: Option<int>, tags: seq<Tag>,
                 levels: seq<MultiTier.Level>, now: int)
    requires MemoryHolds(f, s.mem) && RedisHolds(f, s.redis)
    ensures var s' := MultiTier.TiersSet(s, key, f(key), ttl, tags, levels, now);
            MemoryHolds(f, s'.mem) && RedisHolds(f, s'.redis)
  {
    MultiTier.MemSetEntries(s.mem, key, f(key), ttl, tags, now);
  }

  /** One wrapper call: it returns the function's result and leaves the tiers holding results only. */
  method CallCached(cache: MultiTier.MultiTierCache, f: Key -> PyValue, key: Key, ttl: Option<int>, tags: seq<Tag>,
                    levels: seq<MultiTier.Level>, readAt: int, writeAt: int) returns (result: PyValue)
    requires cache.Valid() && cache.memory.clock <= readAt <= writeAt
    requires MemoryHolds(f, cache.State().mem) && RedisHolds(f, cache.State().redis)
    modifies cache, cache.memory, cache.redis
    ensures cache.Valid() && MemoryHolds(f, cache.State().mem) && RedisHolds(f, cache.State().redis)
    ensures result == f(key)
    ensures var s := MultiTier.TiersGet(old(cache.State()), key, readAt);
            cache.State() == if s.1.PyObj? then s.0 else MultiTier.TiersSet(s.0, key, f(key), ttl, tags, levels, writeAt)
  {
    GetHolds(f, cache.State(), key, readAt);
    var found := cache.Get(key, readAt);
    if found.PyObj? {
      return found;
    }
    result := f(key);
    SetHolds(f, cache.State(), key, ttl, tags, levels, writeAt);
    cache.Set(key, result, ttl, tags, levels, writeAt);
  }

  /** The steps of one wrapper call with nothing in between; those that do not apply change nothing. */
  function CallAlone(f: Key -> PyValue, s: System, id: nat, key: Key, ttl: Option<int>, tags: seq<Tag>,
                     levels: seq<MultiTier.Level>, readAt: int, writeAt: int): System {
    var s := Act(f, Act(f, Act(f, Act(f, s, Begin(id, key)), ReadMemory(id, readAt)), ReadRedis(id, readAt)), Promote(id, readAt));
    Act(f, Act(f, Act(f, s, Compute(id)), StoreMemory(id, ttl, tags, levels, writeAt)), StoreRedis(id, ttl, tags, levels, writeAt))
  }

  /** By itself a call does to the tiers what reading them, and on a miss writing the function's result, does. */
  lemma CallAloneMeaning(f: Key -> PyValue, s: System, hits: MultiTier.HitStats, id: nat, key: Key, ttl: Option<int>,
                         tags: seq<Tag>, levels: seq<MultiTier.Level>, readAt: int, writeAt: int)
    requires id !in s.calls
    ensures var s' := CallAlone(f, s, id, key, ttl, tags, levels, readAt, writeAt);
            var (t, value) := MultiTier.TiersGet(MultiTier.Tiers(s.mem, s.redis, hits), key, readAt);
            && id in s'.calls
            && if value.PyObj? then s'.mem == t.mem && s'.redis == t.redis && s'.calls[id] == Call(key, Returned(value))
               else
                 var t' := MultiTier.TiersSet(t, key, f(key), ttl, tags, levels, writeAt);
                 s'.mem == t'.mem && s'.redis == t'.redis && s'.calls[id] == Call(key, Returned(f(key)))
  {
    var s1 := Act(f, s, Begin(id, key));
    var s2 := Act(f, s1, ReadMemory(id, readAt));
    var s3 := Act(f, s2, ReadRedis(id, readAt));
    var s4 := Act(f, s3, Promote(id, readAt));
    var s5 := Act(f, s4, Compute(id));
    var s6 := Act(f, s5, StoreMemory(id, ttl, tags, levels, writeAt));
    assert CallAlone(f, s, id, key, ttl, tags, levels, readAt, writeAt) == Act(f, s6, StoreRedis(id, ttl, tags, levels, writeAt));
  }
}
