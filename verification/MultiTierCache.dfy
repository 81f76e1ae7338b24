/** Memory in front of Redis: reads promote, writes and invalidations go to both. */
module MultiTier {
  import opened Prelude
  import opened CacheTypes
  import opened MemoryTier
  import opened RedisTier
  import LruStack

  const PROMOTION_TTL := 300

  datatype Level = MEMORY | REDIS | DATABASE

  datatype HitStats = HitStats(memoryHits: nat, redisHits: nat, misses: nat)

  datatype Tiers = Tiers(mem: Mem, redis: Redis, hits: HitStats)

  function TiersInit(maxSize: nat, connected: bool): Tiers {
    Tiers(MemInit(maxSize, 300), RedisInit(connected), HitStats(0, 0, 0))
  }

  // ---------- Operations, each run to completion ----------

  function TiersGet(s: Tiers, key: Key, now: int): (Tiers, PyValue) {
    var (mem, value) := MemGet(s.mem, key, now);
    if value.PyObj? then
      (s.(mem := mem, hits := s.hits.(memoryHits := s.hits.memoryHits + 1)), value)
    else TiersGetBehind(s.(mem := mem), key, now)
  }

  /** After a miss in memory. */
  function TiersGetBehind(s: Tiers, key: Key, now: int): (Tiers, PyValue) {
    var value := RedisGet(s.redis, key, now);
    if value.PyObj? then
      (s.(mem := MemSet(s.mem, key, value, Some(PROMOTION_TTL), [], now),
          hits := s.hits.(redisHits := s.hits.redisHits + 1)), value)
    else
      (s.(hits := s.hits.(misses := s.hits.misses + 1)), PyNone)
  }

  function Targets(levels: seq<Level>): seq<Level> {
    if levels == [] then [MEMORY, REDIS] else levels
  }

  function TiersSet(s: Tiers, key: Key, value: PyValue, ttl: Option<int>, tags: seq<Tag>,
                    levels: seq<Level>, now: int): Tiers {
    s.(mem := if MEMORY in Targets(levels) then MemSet(s.mem, key, value, ttl, tags, now) else s.mem,
       redis := if REDIS in Targets(levels) then RedisSet(s.redis, key, value, ttl, tags, now) else s.redis)
  }

  function TiersDelete(s: Tiers, key: Key): Tiers {
    s.(mem := MemRemove(s.mem, key), redis := RedisDelete(s.redis, key))
  }

  function TiersClear(s: Tiers, tags: seq<Tag>, now: int): Tiers {
    s.(mem := MemClear(s.mem, tags), redis := RedisClear(s.redis, tags, now))
  }

  // ---------- Runs ----------

  datatype Op =
    | Get(key: Key, at: int)
    | Set(key: Key, value: PyValue, ttl: Option<int>, tags: seq<Tag>, at: int)
    | Delete(key: Key, at: int)
    | Clear(tags: seq<Tag>, at: int)
    | Cleanup(at: int)
    | Restart(at: int) // the process starts again: memory is empty, the server keeps what it has

  function Step(s: Tiers, op: Op): Tiers {
    match op
    case Get(key, at) => TiersGet(s, key, at).0
    case Set(key, value, ttl, tags, at) => TiersSet(s, key, value, ttl, tags, [], at)
    case Delete(key, _) => TiersDelete(s, key)
    case Clear(tags, at) => TiersClear(s, tags, at)
    case Cleanup(at) => s.(mem := MemCleanup(s.mem, at))
    case Restart(_) => s.(mem := MemInit(s.mem.maxSize, 300), hits := HitStats(0, 0, 0))
  }

  function Run(s: Tiers, ops: seq<Op>): Tiers {
    if ops == [] then s else Step(Run(s, ops[..|ops| - 1]), ops[|ops| - 1])
  }

  /** The value a read at `now` returns after the operations. */
  function ReadAfter(maxSize: nat, connected: bool, ops: seq<Op>, key: Key, now: int): PyValue {
    TiersGet(Run(TiersInit(maxSize, connected), ops), key, now).1
  }

  // ---------- The reference: the latest write, read off the history ----------

  datatype Written = Written(value: PyValue, at: int, ttl: int, tags: seq<Tag>)

  function LastWrite(ops: seq<Op>, key: Key): Option<Written> {
    if ops == [] then None
    else
      var init, op := ops[..|ops| - 1], ops[|ops| - 1];
      match op
      case Set(k, value, ttl, tags, at) =>
        if k == key then Some(Written(value, at, EffectiveTtl(ttl, 300), tags)) else LastWrite(init, key)
      case Delete(k, _) => if k == key then None else LastWrite(init, key)
      case _ => LastWrite(init, key)
  }

  ghost predicate PositiveTtls(ops: seq<Op>) {
    forall i :: 0 <= i < |ops| && ops[i].Set? ==> EffectiveTtl(ops[i].ttl, 300) > 0
  }

  // ---------- Freshness ----------

  /** A copy held in memory carries the last write and expires in time. */
  predicate FreshEntry(e: Entry, last: Option<Written>) {
    && last.Some? && e.value == last.value.value
    && e.expiresAt.Some? && e.expiresAt.value <= last.value.at + last.value.ttl + 300
  }

  predicate FreshStored(r: Stored, last: Option<Written>) {
    last.Some? && r.value == last.value.value && r.expiresAt == last.value.at + last.value.ttl
  }

  ghost predicate FreshMemory(mem: Mem, ops: seq<Op>) {
    forall k :: k in mem.cache ==> FreshEntry(mem.cache[k], LastWrite(ops, k))
  }

  ghost predicate FreshRedis(redis: Redis, ops: seq<Op>) {
    && (!redis.connected ==> redis.data == map[])
    && forall k :: k in redis.data ==> FreshStored(redis.data[k], LastWrite(ops, k))
  }

  lemma MemSetEntries(m: Mem, key: Key, value: PyValue, ttl: Option<int>, tags: seq<Tag>, now: int)
    ensures var m' := MemSet(m, key, value, ttl, tags, now);
            && m'.defaultTtl == m.defaultTtl
            && forall k :: k in m'.cache ==>
                 if k == key then m'.cache[k] == NewEntry(m, value, ttl, tags, now)
                 else k in m.cache && m'.cache[k] == m.cache[k]
  {
  }

  /** Reading leaves values, expiries and tags of what it keeps. */
  lemma MemGetEntries(m: Mem, key: Key, now: int)
    ensures var m' := MemGet(m, key, now).0;
            && m'.defaultTtl == m.defaultTtl
            && forall k :: k in m'.cache ==>
                 k in m.cache && m'.cache[k].value == m.cache[k].value
                 && m'.cache[k].expiresAt == m.cache[k].expiresAt && m'.cache[k].tags == m.cache[k].tags
  {
  }

  lemma LastWriteAppend(ops: seq<Op>, op: Op, key: Key)
    ensures LastWrite(ops + [op], key) ==
            if op.Set? && op.key == key then Some(Written(op.value, op.at, EffectiveTtl(op.ttl, 300), op.tags))
            else if op.Delete? && op.key == key then None
            else LastWrite(ops, key)
  {
    assert (ops + [op])[..|ops|] == ops;
  }

  lemma MemoryStaysFresh(s: Tiers, ops: seq<Op>, op: Op)
    requires FreshMemory(s.mem, ops) && FreshRedis(s.redis, ops) && s.mem.defaultTtl == 300
    requires op.Set? ==> EffectiveTtl(op.ttl, 300) > 0
    ensures FreshMemory(Step(s, op).mem, ops + [op]) && Step(s, op).mem.defaultTtl == 300
  {
    var m' := Step(s, op).mem;
    if op.Get? {
      MemGetEntries(s.mem, op.key, op.at);
      MemSetEntries(MemGet(s.mem, op.key, op.at).0, op.key, RedisGet(s.redis, op.key, op.at),
                    Some(PROMOTION_TTL), [], op.at);
    } else if op.Set? {
      MemSetEntries(s.mem, op.key, op.value, op.ttl, op.tags, op.at);
    }
    forall k | k in m'.cache ensures FreshEntry(m'.cache[k], LastWrite(ops + [op], k)) {
      LastWriteAppend(ops, op, k);
      if k in s.mem.cache {
        assert FreshEntry(s.mem.cache[k], LastWrite(ops, k));
      }
      if k in s.redis.data {
        assert FreshStored(s.redis.data[k], LastWrite(ops, k));
      }
    }
  }

  lemma RedisStaysFresh(s: Tiers, ops: seq<Op>, op: Op)
    requires FreshRedis(s.redis, ops) && s.redis.defaultTtl == 300
    requires op.Set? ==> EffectiveTtl(op.ttl, 300) > 0
    ensures FreshRedis(Step(s, op).redis, ops + [op]) && Step(s, op).redis.defaultTtl == 300
  {
    var r' := Step(s, op).redis;
    if op.Clear? {
      ClearAllMeaning(s.redis, op.tags, op.at);
    }
    forall k | k in r'.data ensures FreshStored(r'.data[k], LastWrite(ops + [op], k)) {
      LastWriteAppend(ops, op, k);
      if k in s.redis.data {
        assert FreshStored(s.redis.data[k], LastWrite(ops, k));
      }
    }
  }

  lemma {:induction false} RunFresh(maxSize: nat, connected: bool, ops: seq<Op>)
    requires PositiveTtls(ops)
    ensures var s := Run(TiersInit(maxSize, connected), ops);
            FreshMemory(s.mem, ops) && FreshRedis(s.redis, ops) && s.mem.defaultTtl == 300 && s.redis.defaultTtl == 300
  {
    if ops != [] {
      var init, op := ops[..|ops| - 1], ops[|ops| - 1];
      assert ops == init + [op];
      RunFresh(maxSize, connected, init);
      var s := Run(TiersInit(maxSize, connected), init);
      MemoryStaysFresh(s, init, op);
      RedisStaysFresh(s, init, op);
    }
  }

  /**
   * A read returns the value of the last write and never one deleted since, at most
   * 300 seconds after that write's TTL: the slack a promotion adds.
   */
  lemma {:induction false} ReadsAreFresh(maxSize: nat, connected: bool, ops: seq<Op>, key: Key, now: int)
    requires PositiveTtls(ops)
    requires ReadAfter(maxSize, connected, ops, key, now).PyObj?
    ensures var last := LastWrite(ops, key);
            && last.Some? && last.value.value == ReadAfter(maxSize, connected, ops, key, now)
            && now <= last.value.at + last.value.ttl + 300
  {
    RunFresh(maxSize, connected, ops);
    var s := Run(TiersInit(maxSize, connected), ops);
    if MemGet(s.mem, key, now).1.PyObj? {
      assert FreshEntry(s.mem.cache[key], LastWrite(ops, key));
    } else {
      assert FreshStored(s.redis.data[key], LastWrite(ops, key));
    }
  }

  /** A write to both tiers is read back exactly until its TTL has passed. */
  lemma SetThenRead(s: Tiers, key: Key, value: PyValue, ttl: Option<int>, tags: seq<Tag>, at: int, now: int)
    requires s.mem.maxSize > 0 && s.mem.defaultTtl == s.redis.defaultTtl && value.PyObj?
    requires !s.redis.connected ==> s.redis.data == map[]
    requires (if ttl.None? || ttl.value == 0 then s.mem.defaultTtl else ttl.value) > 0
    ensures var seconds := if ttl.None? || ttl.value == 0 then s.mem.defaultTtl else ttl.value;
            TiersGet(TiersSet(s, key, value, ttl, tags, [], at), key, now).1
            == if now <= at + seconds then value else PyNone
  {
    SetThenGet(s.mem, key, value, ttl, tags, at, now);
  }

  /** A deleted key is gone from both tiers. */
  lemma DeleteThenRead(s: Tiers, key: Key, now: int)
    ensures TiersGet(TiersDelete(s, key), key, now).1 == PyNone
  {
    assert key !in MemRemove(s.mem, key).cache;
  }

  /** Deleting a key leaves every other key readable as before. */
  lemma DeleteLeavesOthers(s: Tiers, key: Key, other: Key, now: int)
    requires other != key
    ensures TiersGet(TiersDelete(s, key), other, now).1 == TiersGet(s, other, now).1
  {
    assert other in MemRemove(s.mem, key).cache <==> other in s.mem.cache;
  }

  /** The background task empties memory of what has expired, and no later read can tell. */
  lemma CleanupIsInvisible(s: Tiers, at: int, key: Key, now: int)
    requires at <= now
    ensures TiersGet(Step(s, Cleanup(at)), key, now).1 == TiersGet(s, key, now).1
    ensures var m := Step(s, Cleanup(at)).mem;
            forall k :: k in m.cache ==> m.cache[k].expiresAt.None? || at <= m.cache[k].expiresAt.value
  {
    CleanupMeaning(s.mem, at);
  }

  /** A write reaches the levels named, and both when none is named. */
  lemma LevelsMeaning(s: Tiers, key: Key, value: PyValue, ttl: Option<int>, tags: seq<Tag>, levels: seq<Level>, now: int)
    ensures var s' := TiersSet(s, key, value, ttl, tags, levels, now);
            && s'.mem == (if levels == [] || MEMORY in levels then MemSet(s.mem, key, value, ttl, tags, now) else s.mem)
            && s'.redis == (if levels == [] || REDIS in levels then RedisSet(s.redis, key, value, ttl, tags, now) else s.redis)
            && s'.hits == s.hits
  {
  }

  /** Each read is counted once: as a miss exactly when it returns None, as a memory hit exactly when memory had the value. */
  lemma GetCounts(s: Tiers, key: Key, now: int)
    ensures var (s', value) := TiersGet(s, key, now);
            var m, n := s.hits, s'.hits;
            && n.memoryHits + n.redisHits + n.misses == m.memoryHits + m.redisHits + m.misses + 1
            && (n.misses == m.misses + 1 <==> value.PyNone?)
            && (n.memoryHits == m.memoryHits + 1 <==> MemGet(s.mem, key, now).1.PyObj?)
            && n.misses >= m.misses && n.memoryHits >= m.memoryHits && n.redisHits >= m.redisHits
  {
  }

  // ---------- The bound is attained ----------

  lemma RunAppend(s: Tiers, ops: seq<Op>, op: Op)
    ensures Run(s, ops + [op]) == Step(Run(s, ops), op)
  {
    assert (ops + [op])[..|ops|] == ops;
  }

  const HELD := Key("a")

  function FillerKey(i: nat): Key {
    Key(seq(i + 2, _ => 'x'))
  }

  lemma FillerKeysDiffer(i: nat, j: nat)
    ensures FillerKey(i) != HELD && (FillerKey(i) == FillerKey(j) ==> i == j)
  {
    assert |FillerKey(i).name| == i + 2 && |FillerKey(j).name| == j + 2 && |HELD.name| == 1;
  }

  /** A write of the held key and then of n other keys. */
  function PushOut(n: nat, ttl: int, tags: seq<Tag>): seq<Op> {
    if n == 0 then [Set(HELD, PyObj(1), Some(ttl), tags, 0)]
    else PushOut(n - 1, ttl, tags) + [Set(FillerKey(n - 1), PyObj(0), Some(ttl), [], 0)]
  }

  function WrittenKeys(n: nat): seq<Key> {
    if n == 0 then [HELD] else WrittenKeys(n - 1) + [FillerKey(n - 1)]
  }

  lemma {:induction false} WrittenKeysAre(n: nat)
    ensures |WrittenKeys(n)| == n + 1 && WrittenKeys(n)[0] == HELD
    ensures forall i :: 0 <= i < n ==> WrittenKeys(n)[i + 1] == FillerKey(i)
  {
    if n > 0 {
      WrittenKeysAre(n - 1);
    }
  }

  lemma FillerIsNew(n: nat)
    ensures FillerKey(n) !in WrittenKeys(n)
  {
    WrittenKeysAre(n);
    forall i | 0 <= i < n ensures FillerKey(i) != FillerKey(n) {
      FillerKeysDiffer(i, n);
    }
    FillerKeysDiffer(n, n);
    assert forall i :: 0 <= i < n + 1 ==> i == 0 || WrittenKeys(n)[i] == FillerKey(i - 1);
  }

  lemma SetNewKey(m: Mem, key: Key, value: PyValue, ttl: Option<int>, tags: seq<Tag>, at: int)
    requires Lists(m.order, m.cache.Keys) && key !in m.order
    ensures var m' := MemSet(m, key, value, ttl, tags, at);
            && m'.order == Last(m.order + [key], m.maxSize) && Lists(m'.order, m'.cache.Keys)
            && m'.maxSize == m.maxSize && m'.defaultTtl == m.defaultTtl
  {
    var e := NewEntry(m, value, ttl, tags, at);
    RemoveFirstAbsent(m.order, key);
    InsertLists(m, key, e);
    LruStack.EvictedLists(MemInsert(m, key, e));
  }

  /** The held key goes down the recency list and stays in Redis. */
  ghost predicate Pushed(s: Tiers, n: nat, maxSize: nat, ttl: int, tags: seq<Tag>) {
    && s.mem.order == Last(WrittenKeys(n), maxSize) && Lists(s.mem.order, s.mem.cache.Keys)
    && s.mem.maxSize == maxSize && s.mem.defaultTtl == 300
    && s.redis.connected && s.redis.defaultTtl == 300
    && HELD in s.redis.data && s.redis.data[HELD] == NewStored(PyObj(1), tags, ttl, 0)
  }

  lemma PushStep(s: Tiers, n: nat, maxSize: nat, ttl: int, tags: seq<Tag>)
    requires Pushed(s, n, maxSize, ttl, tags) && n < maxSize
    ensures Pushed(Step(s, Set(FillerKey(n), PyObj(0), Some(ttl), [], 0)), n + 1, maxSize, ttl, tags)
  {
    WrittenKeysAre(n);
    FillerIsNew(n);
    FillerKeysDiffer(n, n);
    SetNewKey(s.mem, FillerKey(n), PyObj(0), Some(ttl), [], 0);
  }

  lemma {:induction false} PushRun(n: nat, maxSize: nat, ttl: int, tags: seq<Tag>)
    requires n <= maxSize && maxSize >= 1 && ttl > 0
    ensures Pushed(Run(TiersInit(maxSize, true), PushOut(n, ttl, tags)), n, maxSize, ttl, tags)
  {
    var s := TiersInit(maxSize, true);
    if n == 0 {
      assert PushOut(0, ttl, tags)[..0] == [];
      assert Run(s, PushOut(0, ttl, tags)) == Step(s, PushOut(0, ttl, tags)[0]);
      SetNewKey(s.mem, HELD, PyObj(1), Some(ttl), tags, 0);
      assert [] + [HELD] == [HELD];
    } else {
      PushRun(n - 1, maxSize, ttl, tags);
      PushStep(Run(s, PushOut(n - 1, ttl, tags)), n - 1, maxSize, ttl, tags);
      RunAppend(s, PushOut(n - 1, ttl, tags), Set(FillerKey(n - 1), PyObj(0), Some(ttl), [], 0));
    }
  }

  lemma HeldIsOut(s: Tiers, maxSize: nat, ttl: int, tags: seq<Tag>)
    requires Pushed(s, maxSize, maxSize, ttl, tags)
    ensures HELD !in s.mem.cache
  {
    WrittenKeysAre(maxSize);
    forall i | 0 <= i < |s.mem.order| ensures s.mem.order[i] != HELD {
      FillerKeysDiffer(i, i);
    }
  }

  /** Pushed out by as many other keys as there is room for, and promoted by the next read. */
  function LateReads(maxSize: nat, ttl: int, tags: seq<Tag>, at: int): seq<Op> {
    PushOut(maxSize, ttl, tags) + [Get(HELD, at)]
  }

  lemma PromotionOf(maxSize: nat, ttl: int, tags: seq<Tag>, at: int)
    requires maxSize >= 1 && ttl > 0 && at <= ttl
    ensures var s, s' := Run(TiersInit(maxSize, true), PushOut(maxSize, ttl, tags)),
                         Run(TiersInit(maxSize, true), LateReads(maxSize, ttl, tags, at));
            s.mem.maxSize == maxSize && s'.mem == MemSet(s.mem, HELD, PyObj(1), Some(PROMOTION_TTL), [], at)
  {
    var s := Run(TiersInit(maxSize, true), PushOut(maxSize, ttl, tags));
    PushRun(maxSize, maxSize, ttl, tags);
    HeldIsOut(s, maxSize, ttl, tags);
    RunAppend(TiersInit(maxSize, true), PushOut(maxSize, ttl, tags), Get(HELD, at));
  }

  lemma {:induction false} HeldLastWrite(n: nat, ttl: int, tags: seq<Tag>)
    requires ttl > 0
    ensures LastWrite(PushOut(n, ttl, tags), HELD) == Some(Written(PyObj(1), 0, ttl, tags))
    ensures PositiveTtls(PushOut(n, ttl, tags))
  {
    if n > 0 {
      HeldLastWrite(n - 1, ttl, tags);
      FillerKeysDiffer(n - 1, n - 1);
      LastWriteAppend(PushOut(n - 1, ttl, tags), Set(FillerKey(n - 1), PyObj(0), Some(ttl), [], 0), HELD);
    }
  }

  /** At every capacity and for every TTL some read comes exactly 300 seconds after the TTL has passed. */
  lemma SlackIsReached(maxSize: nat, ttl: int)
    requires maxSize >= 1 && ttl > 0
    ensures var ops := LateReads(maxSize, ttl, [], ttl);
            && PositiveTtls(ops) && LastWrite(ops, HELD) == Some(Written(PyObj(1), 0, ttl, []))
            && ReadAfter(maxSize, true, ops, HELD, ttl + 300) == PyObj(1)
  {
    var s := Run(TiersInit(maxSize, true), PushOut(maxSize, ttl, []));
    HeldLastWrite(maxSize, ttl, []);
    LastWriteAppend(PushOut(maxSize, ttl, []), Get(HELD, ttl), HELD);
    PromotionOf(maxSize, ttl, [], ttl);
    SetThenGet(s.mem, HELD, PyObj(1), Some(PROMOTION_TTL), [], ttl, ttl + PROMOTION_TTL);
  }

  // ---------- A negative TTL leaves an old value behind ----------

  /** SETEX refuses a negative TTL, so the old Redis copy outlives the write that should replace it. */
  function NegativeOverPositive(positive: int, negative: int): seq<Op> {
    [Set(HELD, PyObj(1), Some(positive), [], 0), Set(HELD, PyObj(2), Some(negative), [Tag("t")], 0), Clear([Tag("t")], 0)]
  }

  lemma RunThree(s: Tiers, a: Op, b: Op, c: Op)
    ensures Run(s, [a, b, c]) == Step(Step(Step(s, a), b), c)
  {
    RunAppend(s, [], a);
    RunAppend(s, [a], b);
    RunAppend(s, [a, b], c);
    assert [] + [a] == [a] && [a] + [b] == [a, b] && [a, b] + [c] == [a, b, c];
  }

  lemma SecondWriteCounts(a: Op, b: Op, c: Op)
    requires a.Set? && b.Set? && a.key == b.key && c.Clear?
    ensures LastWrite([a, b, c], b.key) == Some(Written(b.value, b.at, EffectiveTtl(b.ttl, 300), b.tags))
  {
    LastWriteAppend([a, b], c, b.key);
    LastWriteAppend([a], b, b.key);
    assert [a] + [b] == [a, b] && [a, b] + [c] == [a, b, c];
  }

  lemma NegativeLeavesRedis(r: Redis, first: Op, second: Op, third: Op)
    requires r == RedisInit(true) && first.Set? && second.Set? && third.Clear?
    requires EffectiveTtl(first.ttl, 300) > 0 > EffectiveTtl(second.ttl, 300) && first.tags == []
    ensures var r1 := RedisSet(r, first.key, first.value, first.ttl, first.tags, first.at);
            var r2 := RedisSet(r1, second.key, second.value, second.ttl, second.tags, second.at);
            RedisGet(RedisClear(r2, third.tags, third.at), first.key, first.at) == first.value
  {
    var r1 := RedisSet(r, first.key, first.value, first.ttl, first.tags, first.at);
    assert r1.index == map[];
    ClearAllMeaning(r1, third.tags, third.at);
    assert forall t :: Members(r1.index, t, third.at) == {};
  }

  lemma ClearedFromMemory(m: Mem, second: Op, third: Op)
    requires second.Set? && third.Clear? && SharesTag(third.tags, second.tags)
    ensures second.key !in MemClear(MemSet(m, second.key, second.value, second.ttl, second.tags, second.at), third.tags).cache
  {
    MemSetEntries(m, second.key, second.value, second.ttl, second.tags, second.at);
  }

  lemma StaleAfterNegativeTtl(maxSize: nat, positive: int, negative: int)
    requires positive > 0 && negative < 0
    ensures ReadAfter(maxSize, true, NegativeOverPositive(positive, negative), HELD, 0) == PyObj(1)
    ensures LastWrite(NegativeOverPositive(positive, negative), HELD) == Some(Written(PyObj(2), 0, negative, [Tag("t")]))
  {
    var first := Set(HELD, PyObj(1), Some(positive), [], 0);
    var second := Set(HELD, PyObj(2), Some(negative), [Tag("t")], 0);
    var third := Clear([Tag("t")], 0);
    var s := TiersInit(maxSize, true);
    assert NegativeOverPositive(positive, negative) == [first, second, third];
    RunThree(s, first, second, third);
    SecondWriteCounts(first, second, third);
    assert third.tags[0] in second.tags;
    ClearedFromMemory(Step(s, first).mem, second, third);
    NegativeLeavesRedis(s.redis, first, second, third);
  }

  // ---------- Which TTLs may be mixed ----------

  ghost predicate SetsUse(ops: seq<Op>, ttls: iset<int>) {
    forall i :: 0 <= i < |ops| && ops[i].Set? ==> EffectiveTtl(ops[i].ttl, 300) in ttls
  }

  /** No run of a cache of this capacity whose writes use these TTLs ever reads anything but the last write. */
  ghost predicate NeverStale(maxSize: nat, ttls: iset<int>) {
    forall ops, key, now :: SetsUse(ops, ttls) ==> ReadsLastWrite(maxSize, ops, key, now)
  }

  ghost predicate ReadsLastWrite(maxSize: nat, ops: seq<Op>, key: Key, now: int) {
    var value := ReadAfter(maxSize, true, ops, key, now);
    value.PyObj? ==> LastWrite(ops, key).Some? && LastWrite(ops, key).value.value == value
  }

  ghost predicate SameSign(ttls: iset<int>) {
    forall a, b :: a in ttls && b in ttls ==> !(a > 0 > b)
  }

  ghost predicate LatestInMemory(mem: Mem, ops: seq<Op>) {
    forall k :: k in mem.cache ==>
      LastWrite(ops, k).Some? && mem.cache[k].value == LastWrite(ops, k).value.value
  }

  /** With negative TTLs only, Redis stays empty and memory alone holds the last writes. */
  lemma {:induction false} NegativeTtlsStayInMemory(maxSize: nat, ops: seq<Op>)
    requires forall i :: 0 <= i < |ops| && ops[i].Set? ==> EffectiveTtl(ops[i].ttl, 300) < 0
    ensures var s := Run(TiersInit(maxSize, true), ops);
            s.redis.data == map[] && s.redis.defaultTtl == 300 && LatestInMemory(s.mem, ops)
  {
    if ops != [] {
      var init, op := ops[..|ops| - 1], ops[|ops| - 1];
      NegativeTtlsStayInMemory(maxSize, init);
      var s := Run(TiersInit(maxSize, true), init);
      if op.Get? {
        MemGetEntries(s.mem, op.key, op.at);
      } else if op.Set? {
        MemSetEntries(s.mem, op.key, op.value, op.ttl, op.tags, op.at);
      } else if op.Clear? {
        ClearAllMeaning(s.redis, op.tags, op.at);
      }
      assert ops == init + [op];
      forall k | k in Step(s, op).mem.cache
        ensures LastWrite(ops, k).Some? && Step(s, op).mem.cache[k].value == LastWrite(ops, k).value.value
      {
        LastWriteAppend(init, op, k);
      }
    }
  }

  lemma SameSignReadsLastWrite(maxSize: nat, ttls: iset<int>, ops: seq<Op>, key: Key, now: int)
    requires SameSign(ttls) && SetsUse(ops, ttls)
    ensures ReadsLastWrite(maxSize, ops, key, now)
  {
    if ReadAfter(maxSize, true, ops, key, now).PyObj? {
      if PositiveTtls(ops) {
        ReadsAreFresh(maxSize, true, ops, key, now);
      } else {
        NegativeTtlsStayInMemory(maxSize, ops);
      }
    }
  }

  /** At every capacity TTLs can be mixed without stale reads exactly when no positive one meets a negative one. */
  lemma SameSignIsExact(maxSize: nat, ttls: iset<int>)
    ensures NeverStale(maxSize, ttls) <==> SameSign(ttls)
  {
    if SameSign(ttls) {
      forall ops, key, now | SetsUse(ops, ttls) ensures ReadsLastWrite(maxSize, ops, key, now) {
        SameSignReadsLastWrite(maxSize, ttls, ops, key, now);
      }
    } else {
      var a, b :| a in ttls && b in ttls && a > 0 > b;
      StaleAfterNegativeTtl(maxSize, a, b);
      assert SetsUse(NegativeOverPositive(a, b), ttls);
      assert !ReadsLastWrite(maxSize, NegativeOverPositive(a, b), HELD, 0);
    }
  }

  // ---------- How far an invalidation reaches ----------

  /** The operations as Redis sees them. */
  function Project(ops: seq<Op>): seq<RedisOp> {
    if ops == [] then []
    else
      var op, before := ops[|ops| - 1], Project(ops[..|ops| - 1]);
      match op
      case Set(key, value, ttl, tags, at) => before + [RSet(key, value, ttl, tags, at)]
      case Delete(key, at) => before + [RDelete(key, at)]
      case Clear(tags, at) => before + [RClear(tags, at)]
      case _ => before
  }

  lemma {:induction false} RedisSeesProjection(maxSize: nat, ops: seq<Op>)
    ensures Run(TiersInit(maxSize, true), ops).redis == RunRedis(RedisInit(true), Project(ops))
  {
    if ops != [] {
      var init, op := ops[..|ops| - 1], ops[|ops| - 1];
      RedisSeesProjection(maxSize, init);
      var p, q := Project(init), Project(ops);
      if !(op.Get? || op.Cleanup? || op.Restart?) {
        assert q[..|q| - 1] == p;
      }
    }
  }

  /** A live memory copy that carries none of the tags, as promotion leaves it. */
  predicate Untagged(m: Mem, key: Key, tags: seq<Tag>, now: int) {
    && key in m.cache && m.cache[key].value.PyObj?
    && (m.cache[key].expiresAt.None? || now <= m.cache[key].expiresAt.value)
    && forall i :: 0 <= i < |tags| ==> tags[i] !in m.cache[key].tags
  }

  /** Such a copy is read after the clear as it is before. */
  lemma UntaggedIsRead(s: Tiers, tags: seq<Tag>, at: int, key: Key, now: int)
    requires Untagged(s.mem, key, tags, now)
    ensures TiersGet(s, key, now).1 == s.mem.cache[key].value
    ensures TiersGet(TiersClear(s, tags, at), key, now).1 == s.mem.cache[key].value
  {
    ClearMeaning(s.mem, tags);
  }

  /**
   * Clearing a tag of a key's last write makes the next read miss unless, and only
   * unless, memory holds a copy without the tag.
   */
  lemma ClearMissesOnlyUntagged(maxSize: nat, ops: seq<Op>, tags: seq<Tag>, key: Key, now: int, tag: Tag)
    requires Ordered(Project(ops), now) && SpreadWithinGrace(Project(ops))
    requires tag in tags && TaggedBy(Project(ops), key, tag)
    ensures var s := Run(TiersInit(maxSize, true), ops);
            TiersGet(TiersClear(s, tags, now), key, now).1.PyObj? <==> Untagged(s.mem, key, tags, now)
  {
    var s := Run(TiersInit(maxSize, true), ops);
    RedisSeesProjection(maxSize, ops);
    ClearRemovesTagged(Project(ops), tags, now, key, tag);
    ClearMeaning(s.mem, tags);
    if Untagged(s.mem, key, tags, now) {
      UntaggedIsRead(s, tags, now, key, now);
    }
  }

  // ---------- Where a memory copy comes from ----------

  /** What last put a copy of a key into memory, if anything since its last deletion. */
  datatype Origin = Nothing | AWrite | APromotion

  predicate Promotes(s: Tiers, op: Op) {
    op.Get? && MemGet(s.mem, op.key, op.at).1.PyNone? && RedisGet(s.redis, op.key, op.at).PyObj?
  }

  function OriginOf(maxSize: nat, connected: bool, ops: seq<Op>, key: Key): Origin {
    if ops == [] then Nothing
    else
      var init, op := ops[..|ops| - 1], ops[|ops| - 1];
      var before := OriginOf(maxSize, connected, init, key);
      match op
      case Set(k, _, _, _, _) => if k == key then AWrite else before
      case Get(k, _) => if k == key && Promotes(Run(TiersInit(maxSize, connected), init), op) then APromotion else before
      case Delete(k, _) => if k == key then Nothing else before
      case Restart(_) => Nothing
      case _ => before
  }

  /** The tags a memory copy of this origin carries: those of the last write, or none. */
  predicate TagsFit(e: Entry, origin: Origin, last: Option<Written>) {
    match origin
    case Nothing => false
    case AWrite => last.Some? && e.tags == last.value.tags
    case APromotion => e.tags == []
  }

  ghost predicate MemoryTagsFit(maxSize: nat, connected: bool, ops: seq<Op>, mem: Mem) {
    forall k :: k in mem.cache ==> TagsFit(mem.cache[k], OriginOf(maxSize, connected, ops, k), LastWrite(ops, k))
  }

  lemma OriginAppend(maxSize: nat, connected: bool, ops: seq<Op>, op: Op, key: Key)
    ensures OriginOf(maxSize, connected, ops + [op], key) ==
            if op.Set? && op.key == key then AWrite
            else if op.Get? && op.key == key && Promotes(Run(TiersInit(maxSize, connected), ops), op) then APromotion
            else if (op.Delete? && op.key == key) || op.Restart? then Nothing
            else OriginOf(maxSize, connected, ops, key)
  {
    assert (ops + [op])[..|ops|] == ops;
  }

  /** In every run each memory copy carries the tags of its key's last write, or, left by a later promotion, none. */
  lemma {:induction false} RunTagsFit(maxSize: nat, connected: bool, ops: seq<Op>)
    ensures MemoryTagsFit(maxSize, connected, ops, Run(TiersInit(maxSize, connected), ops).mem)
  {
    if ops != [] {
      var init, op := ops[..|ops| - 1], ops[|ops| - 1];
      assert ops == init + [op];
      RunTagsFit(maxSize, connected, init);
      StepTagsFit(maxSize, connected, init, op);
    }
  }

  lemma StepTagsFit(maxSize: nat, connected: bool, ops: seq<Op>, op: Op)
    requires MemoryTagsFit(maxSize, connected, ops, Run(TiersInit(maxSize, connected), ops).mem)
    ensures MemoryTagsFit(maxSize, connected, ops + [op], Step(Run(TiersInit(maxSize, connected), ops), op).mem)
  {
    var s := Run(TiersInit(maxSize, connected), ops);
    var m' := Step(s, op).mem;
    if op.Get? {
      MemGetEntries(s.mem, op.key, op.at);
      MemSetEntries(MemGet(s.mem, op.key, op.at).0, op.key, RedisGet(s.redis, op.key, op.at),
                    Some(PROMOTION_TTL), [], op.at);
    } else if op.Set? {
      MemSetEntries(s.mem, op.key, op.value, op.ttl, op.tags, op.at);
    }
    forall k | k in m'.cache
      ensures TagsFit(m'.cache[k], OriginOf(maxSize, connected, ops + [op], k), LastWrite(ops + [op], k))
    {
      LastWriteAppend(ops, op, k);
      OriginAppend(maxSize, connected, ops, op, k);
      if k in s.mem.cache {
        assert TagsFit(s.mem.cache[k], OriginOf(maxSize, connected, ops, k), LastWrite(ops, k));
      }
    }
  }

  lemma {:induction false} LastWriteIsWrite(ops: seq<Op>, key: Key)
    ensures LastWrite(ops, key).Some? ==>
              exists i :: 0 <= i < |ops| && ops[i].Set? && ops[i].key == key && ops[i].tags == LastWrite(ops, key).value.tags
  {
    if ops != [] {
      var init, op := ops[..|ops| - 1], ops[|ops| - 1];
      LastWriteIsWrite(init, key);
      if LastWrite(ops, key).Some? && !(op.Set? && op.key == key) {
        var i :| 0 <= i < |init| && init[i].Set? && init[i].key == key && init[i].tags == LastWrite(init, key).value.tags;
        assert ops[i] == init[i];
      } else if op.Set? {
        assert ops[|ops| - 1] == op;
      }
    }
  }

  lemma {:induction false} ProjectGivesNone(ops: seq<Op>, key: Key, tag: Tag)
    requires forall i :: 0 <= i < |ops| && ops[i].Set? && ops[i].key == key ==> tag !in ops[i].tags
    ensures forall i :: 0 <= i < |Project(ops)| ==> !Gave(Project(ops)[i], key, tag)
  {
    if ops != [] {
      ProjectGivesNone(ops[..|ops| - 1], key, tag);
    }
  }

  /** In every run a clear leaves the read of a key unchanged when no write ever gave the key one of the cleared tags. */
  lemma ClearLeavesOthers(maxSize: nat, ops: seq<Op>, tags: seq<Tag>, at: int, key: Key, now: int)
    requires forall i, t :: 0 <= i < |ops| && ops[i].Set? && ops[i].key == key && t in tags ==> t !in ops[i].tags
    ensures var s := Run(TiersInit(maxSize, true), ops);
            TiersGet(TiersClear(s, tags, at), key, now).1 == TiersGet(s, key, now).1
  {
    var s := Run(TiersInit(maxSize, true), ops);
    forall i, t | 0 <= i < |Project(ops)| && t in tags ensures !Gave(Project(ops)[i], key, t) {
      ProjectGivesNone(ops, key, t);
    }
    RedisSeesProjection(maxSize, ops);
    ClearLeavesUntagged(true, Project(ops), tags, at, key, now);
    ClearMeaning(s.mem, tags);
    RunTagsFit(maxSize, true, ops);
    LastWriteIsWrite(ops, key);
    if key in s.mem.cache {
      assert TagsFit(s.mem.cache[key], OriginOf(maxSize, true, ops, key), LastWrite(ops, key));
      assert key in MemClear(s.mem, tags).cache;
    }
  }

  /** With positive TTLs both histories agree on the last write. */
  lemma {:induction false} ProjectKeepsLast(ops: seq<Op>, key: Key)
    requires PositiveTtls(ops)
    ensures var w, r := LastWrite(ops, key), LastStored(Project(ops), key);
            && (w.Some? <==> r.Some?)
            && (w.Some? ==> r.value.RSet? && r.value.tags == w.value.tags)
  {
    if ops != [] {
      var init, op := ops[..|ops| - 1], ops[|ops| - 1];
      ProjectKeepsLast(init, key);
      var p, q := Project(init), Project(ops);
      if !(op.Get? || op.Cleanup? || op.Restart?) {
        assert q[..|q| - 1] == p;
      }
    }
  }

  /**
   * Clearing a tag of a key's last write makes the next read miss, except exactly when memory
   * still had a copy to read and a promotion had put it there.
   */
  lemma ClearMissesOnlyPromoted(maxSize: nat, ops: seq<Op>, tags: seq<Tag>, key: Key, now: int, tag: Tag)
    requires Ordered(Project(ops), now) && SpreadWithinGrace(Project(ops)) && PositiveTtls(ops)
    requires LastWrite(ops, key).Some? && tag in tags && tag in LastWrite(ops, key).value.tags
    ensures var s := Run(TiersInit(maxSize, true), ops);
            TiersGet(TiersClear(s, tags, now), key, now).1.PyObj?
            <==> OriginOf(maxSize, true, ops, key).APromotion? && MemGet(s.mem, key, now).1.PyObj?
  {
    var s := Run(TiersInit(maxSize, true), ops);
    ProjectKeepsLast(ops, key);
    ClearMissesOnlyUntagged(maxSize, ops, tags, key, now, tag);
    RunTagsFit(maxSize, true, ops);
    if key in s.mem.cache {
      var i :| 0 <= i < |tags| && tags[i] == tag;
      assert TagsFit(s.mem.cache[key], OriginOf(maxSize, true, ops, key), LastWrite(ops, key));
    }
  }

  lemma UntaggedSurvives(m: Mem, key: Key, tags: seq<Tag>, now: int)
    requires key in m.cache && m.cache[key].tags == []
    ensures MemGet(MemClear(m, tags), key, now).1 == MemGet(m, key, now).1
  {
    assert key !in Tagged(m, tags);
  }

  lemma ReadAfterClear(s: Tiers, tags: seq<Tag>, key: Key, now: int, value: PyValue)
    requires key in s.mem.cache && s.mem.cache[key].tags == []
    requires MemGet(s.mem, key, now).1 == value && value.PyObj?
    ensures TiersGet(Step(s, Clear(tags, now)), key, now).1 == value
  {
    UntaggedSurvives(s.mem, key, tags, now);
  }

  /** At every capacity a promoted copy is read after a clear of the tag its last write carries. */
  lemma PromotedCopySurvivesClear(maxSize: nat, ttl: int, tag: Tag)
    requires maxSize >= 1 && ttl > 0
    ensures var ops := LateReads(maxSize, ttl, [tag], 0);
            && PositiveTtls(ops) && LastWrite(ops, HELD) == Some(Written(PyObj(1), 0, ttl, [tag]))
            && ReadAfter(maxSize, true, ops + [Clear([tag], 0)], HELD, 0) == PyObj(1)
  {
    var ops := LateReads(maxSize, ttl, [tag], 0);
    var s := Run(TiersInit(maxSize, true), PushOut(maxSize, ttl, [tag]));
    HeldLastWrite(maxSize, ttl, [tag]);
    LastWriteAppend(PushOut(maxSize, ttl, [tag]), Get(HELD, 0), HELD);
    PromotionOf(maxSize, ttl, [tag], 0);
    SetThenGet(s.mem, HELD, PyObj(1), Some(PROMOTION_TTL), [], 0, 0);
    MemSetEntries(s.mem, HELD, PyObj(1), Some(PROMOTION_TTL), [], 0);
    ReadAfterClear(Run(TiersInit(maxSize, true), ops), [tag], HELD, 0, PyObj(1));
    RunAppend(TiersInit(maxSize, true), ops, Clear([tag], 0));
  }

  // ---------- The class ----------

  class MultiTierCache {
    const memory: MemoryCache
    const redis: RedisCache
    var hits: HitStats

    function State(): Tiers
      reads this, memory, redis
    {
      Tiers(memory.State(), redis.State(), hits)
    }

    ghost predicate Valid()
      reads memory
    {
      memory.Valid()
    }

    constructor (connected: bool, data: map<Key, Stored>, index: Index)
      ensures Valid() && fresh(memory) && fresh(redis)
      ensures State() == TiersInit(1000, connected).(redis := Redis(connected, data, index, 300))
    {
      memory := new MemoryCache(1000, 300);
      redis := new RedisCache(connected, data, index);
      hits := HitStats(0, 0, 0);
    }

    method Get(key: Key, now: int) returns (value: PyValue)
      requires Valid() && memory.clock <= now
      modifies this, memory
      ensures Valid() && memory.clock == now
      ensures State() == TiersGet(old(State()), key, now).0
      ensures value == TiersGet(old(State()), key, now).1
    {
      value := memory.Get(key, now);
      if value.PyObj? {
        hits := hits.(memoryHits := hits.memoryHits + 1);
        return;
      }
      value := GetBehind(key, now);
    }

    method Promote(key: Key, value: PyValue, now: int)
      requires Valid() && memory.clock <= now
      modifies memory
      ensures Valid() && memory.clock == now
      ensures memory.State() == MemSet(old(memory.State()), key, value, Some(PROMOTION_TTL), [], now)
    {
      memory.Set(key, value, Some(PROMOTION_TTL), [], now);
    }

    method GetBehind(key: Key, now: int) returns (value: PyValue)
      requires Valid() && memory.clock == now
      modifies this, memory
      ensures Valid() && memory.clock == now
      ensures State() == TiersGetBehind(old(State()), key, now).0
      ensures value == TiersGetBehind(old(State()), key, now).1
    {
      value := redis.Get(key, now);
      if value.PyObj? {
        hits := hits.(redisHits := hits.redisHits + 1);
        Promote(key, value, now);
        return;
      }
      hits := hits.(misses := hits.misses + 1);
      return PyNone;
    }

    method Set(key: Key, value: PyValue, ttl: Option<int>, tags: seq<Tag>, levels: seq<Level>, now: int)
      requires Valid() && memory.clock <= now
      modifies memory, redis
      ensures Valid() && memory.clock <= now
      ensures State() == TiersSet(old(State()), key, value, ttl, tags, levels, now)
    {
      var targets := Targets(levels);
      if MEMORY in targets {
        memory.Set(key, value, ttl, tags, now);
      }
      if REDIS in targets {
        redis.Set(key, value, ttl, tags, now);
      }
    }

    method Delete(key: Key, now: int)
      requires Valid()
      modifies memory, redis
      ensures Valid() && memory.clock == old(memory.clock)
      ensures State() == TiersDelete(old(State()), key)
    {
      var _ := memory.Delete(key);
      var _ := redis.Delete(key, now);
    }

    method ClearByTags(tags: seq<Tag>, now: int)
      requires Valid()
      modifies memory, redis
      ensures Valid() && memory.clock == old(memory.clock)
      ensures State() == TiersClear(old(State()), tags, now)
      ensures forall k :: k in memory.cache <==>
                k in old(memory.cache) && forall t :: t in tags ==> t !in old(memory.cache)[k].tags
    {
      memory.ClearByTags(tags);
      redis.ClearByTags(tags, now);
    }
  }
}
