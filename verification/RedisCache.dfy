/**
 * The Redis tier: cached values with an expiry, and for each tag a set of keys
 * with an expiry of its own, pushed to ttl + 3600 seconds by every tagged write.
 */
module RedisTier {
  import opened Prelude
  import opened CacheTypes

  const TAG_GRACE := 3600

  datatype Stored = Stored(value: PyValue, tags: seq<Tag>, createdAt: int, expiresAt: int)
  datatype TagSet = TagSet(keys: set<Key>, expiresAt: Option<int>)

  type Index = map<Tag, TagSet>

  datatype Redis = Redis(connected: bool, data: map<Key, Stored>, index: Index, defaultTtl: int)

  function RedisInit(connected: bool): Redis {
    Redis(connected, map[], map[], 300)
  }

  // ---------- Server commands ----------

  predicate Alive(expiresAt: int, now: int) {
    now <= expiresAt
  }

  predicate LiveSet(index: Index, tag: Tag, now: int) {
    tag in index && (index[tag].expiresAt.Some? ==> Alive(index[tag].expiresAt.value, now))
  }

  /** SMEMBERS */
  function Members(index: Index, tag: Tag, now: int): set<Key> {
    if LiveSet(index, tag, now) then index[tag].keys else {}
  }

  /** SADD; a set that has expired starts afresh, without an expiry. */
  function Sadd(index: Index, tag: Tag, key: Key, now: int): Index {
    index[tag := if LiveSet(index, tag, now) then index[tag].(keys := index[tag].keys + {key})
                 else TagSet({key}, None)]
  }

  /** EXPIRE; it does nothing to a missing set and deletes the set when the time is not positive. */
  function Expire(index: Index, tag: Tag, seconds: int, now: int): Index {
    if !LiveSet(index, tag, now) then index
    else if seconds <= 0 then index - {tag}
    else index[tag := index[tag].(expiresAt := Some(now + seconds))]
  }

  // ---------- Operations ----------

  function RedisGet(s: Redis, key: Key, now: int): PyValue {
    if s.connected && key in s.data && Alive(s.data[key].expiresAt, now) then s.data[key].value else PyNone
  }

  function IndexOne(index: Index, key: Key, tag: Tag, ttl: int, now: int): Index {
    Expire(Sadd(index, tag, key, now), tag, ttl + TAG_GRACE, now)
  }

  function IndexAll(index: Index, key: Key, tags: seq<Tag>, ttl: int, now: int): Index {
    if tags == [] then index
    else IndexOne(IndexAll(index, key, tags[..|tags| - 1], ttl, now), key, tags[|tags| - 1], ttl, now)
  }

  function NewStored(value: PyValue, tags: seq<Tag>, ttl: int, now: int): Stored {
    Stored(value, tags, now, now + ttl)
  }

  /** SETEX refuses a TTL that is not positive, and the error leaves everything as it was. */
  function RedisSet(s: Redis, key: Key, value: PyValue, ttl: Option<int>, tags: seq<Tag>, now: int): Redis {
    var t := EffectiveTtl(ttl, s.defaultTtl);
    if !s.connected || t <= 0 then s
    else s.(data := s.data[key := NewStored(value, tags, t, now)], index := IndexAll(s.index, key, tags, t, now))
  }

  function RedisDelete(s: Redis, key: Key): Redis {
    if s.connected then s.(data := s.data - {key}) else s
  }

  function ClearOne(s: Redis, tag: Tag, now: int): Redis {
    var keys := Members(s.index, tag, now);
    if keys == {} then s else s.(data := s.data - keys, index := s.index - {tag})
  }

  function ClearAll(s: Redis, tags: seq<Tag>, now: int): Redis {
    if tags == [] then s else ClearOne(ClearAll(s, tags[..|tags| - 1], now), tags[|tags| - 1], now)
  }

  function RedisClear(s: Redis, tags: seq<Tag>, now: int): Redis {
    if s.connected then ClearAll(s, tags, now) else s
  }

  // ---------- What the loops over tags amount to ----------

  lemma {:induction false} IndexAllMembers(index: Index, key: Key, tags: seq<Tag>, ttl: int, now: int, tag: Tag)
    requires ttl > 0
    ensures var r := IndexAll(index, key, tags, ttl, now);
            if tag in tags then
              tag in r && r[tag] == TagSet(Members(index, tag, now) + {key}, Some(now + ttl + TAG_GRACE))
            else
              (tag in r <==> tag in index) && (tag in r ==> r[tag] == index[tag])
  {
    if tags != [] {
      var init, last := tags[..|tags| - 1], tags[|tags| - 1];
      assert tags == init + [last];
      IndexAllMembers(index, key, init, ttl, now, tag);
    }
  }

  /** Each tag's set gains the key and lives 3600 seconds longer than it; what it held stays unless it had expired. */
  lemma IndexAllMeaning(index: Index, key: Key, tags: seq<Tag>, ttl: int, now: int, tag: Tag)
    requires ttl > 0
    ensures var r := IndexAll(index, key, tags, ttl, now);
            var live := tag in index && (index[tag].expiresAt.None? || now <= index[tag].expiresAt.value);
            if tag in tags then
              tag in r && r[tag] == TagSet((if live then index[tag].keys else {}) + {key}, Some(now + ttl + 3600))
            else
              (tag in r <==> tag in index) && (tag in r ==> r[tag] == index[tag])
  {
    IndexAllMembers(index, key, tags, ttl, now, tag);
  }

  lemma {:induction false} ClearAllMeaning(s: Redis, tags: seq<Tag>, now: int)
    ensures var r := ClearAll(s, tags, now);
            && r.connected == s.connected && r.defaultTtl == s.defaultTtl
            && r.data.Keys <= s.data.Keys && (forall k :: k in r.data ==> r.data[k] == s.data[k])
            && r.index.Keys <= s.index.Keys && (forall t :: t in r.index ==> r.index[t] == s.index[t])
    ensures forall t, k :: t in tags && k in Members(s.index, t, now) ==> k !in ClearAll(s, tags, now).data
    ensures forall k :: k in s.data && k !in ClearAll(s, tags, now).data
              ==> exists t :: t in tags && k in Members(s.index, t, now)
    ensures forall t :: t in s.index && t !in ClearAll(s, tags, now).index
              ==> forall k :: k in Members(s.index, t, now) ==> k !in ClearAll(s, tags, now).data
    ensures forall t :: t in s.index && !LiveSet(s.index, t, now) ==> t in ClearAll(s, tags, now).index
    ensures forall t :: t in s.index && t !in tags ==> t in ClearAll(s, tags, now).index
  {
    if tags != [] {
      var init, last := tags[..|tags| - 1], tags[|tags| - 1];
      assert tags == init + [last];
      ClearAllMeaning(s, init, now);
      var mid, r := ClearAll(s, init, now), ClearAll(s, tags, now);
      forall k | k in s.data && k !in r.data ensures exists t :: t in tags && k in Members(s.index, t, now) {
        if k in mid.data {
          assert last in tags && k in Members(s.index, last, now);
        }
      }
    }
  }

  // ---------- Runs ----------

  datatype RedisOp =
    | RSet(key: Key, value: PyValue, ttl: Option<int>, tags: seq<Tag>, at: int)
    | RDelete(key: Key, at: int)
    | RClear(tags: seq<Tag>, at: int)

  function RedisStep(s: Redis, op: RedisOp): Redis {
    match op
    case RSet(key, value, ttl, tags, at) => RedisSet(s, key, value, ttl, tags, at)
    case RDelete(key, at) => RedisDelete(s, key)
    case RClear(tags, at) => RedisClear(s, tags, at)
  }

  function RunRedis(s: Redis, ops: seq<RedisOp>): Redis {
    if ops == [] then s else RedisStep(RunRedis(s, ops[..|ops| - 1]), ops[|ops| - 1])
  }

  /** The clock never runs backwards, and `now` is no earlier than the last operation. */
  ghost predicate Ordered(ops: seq<RedisOp>, now: int) {
    (forall i, j :: 0 <= i < j < |ops| ==> ops[i].at <= ops[j].at) && forall i :: 0 <= i < |ops| ==> ops[i].at <= now
  }

  predicate Writes(op: RedisOp, tag: Tag) {
    op.RSet? && tag in op.tags && EffectiveTtl(op.ttl, 300) > 0
  }

  /** TTLs written under one tag differ by at most 3600 seconds. */
  ghost predicate SpreadWithinGrace(ops: seq<RedisOp>) {
    forall i, j, tag :: 0 <= i < |ops| && 0 <= j < |ops| && Writes(ops[i], tag) && Writes(ops[j], tag)
      ==> EffectiveTtl(ops[i].ttl, 300) <= EffectiveTtl(ops[j].ttl, 300) + 3600
  }

  /** The last write of a key that SETEX accepted and no deletion followed, read off the history. */
  function LastStored(ops: seq<RedisOp>, key: Key): Option<RedisOp> {
    if ops == [] then None
    else
      var init, op := ops[..|ops| - 1], ops[|ops| - 1];
      match op
      case RSet(k, _, ttl, _, _) => if k == key && EffectiveTtl(ttl, 300) > 0 then Some(op) else LastStored(init, key)
      case RDelete(k, _) => if k == key then None else LastStored(init, key)
      case RClear(_, _) => LastStored(init, key)
  }

  ghost predicate TaggedBy(ops: seq<RedisOp>, key: Key, tag: Tag) {
    LastStored(ops, key).Some? && LastStored(ops, key).value.RSet? && tag in LastStored(ops, key).value.tags
  }

  /** Every live key is in the live set of every tag of its last write. */
  ghost predicate IndexComplete(ops: seq<RedisOp>, now: int) {
    var s := RunRedis(RedisInit(true), ops);
    forall k, t :: k in s.data && Alive(s.data[k].expiresAt, now) && TaggedBy(ops, k, t)
      ==> k in Members(s.index, t, now)
  }

  // ---------- Completeness of the tag index ----------

  /** A live key is indexed under a tag at least until it expires. */
  ghost predicate Covered(s: Redis, k: Key, t: Tag, now: int)
    requires k in s.data
  {
    Alive(s.data[k].expiresAt, now) ==>
      t in s.index && k in s.index[t].keys && s.index[t].expiresAt.Some? &&
      s.data[k].expiresAt <= s.index[t].expiresAt.value
  }

  ghost predicate AllCovered(s: Redis, now: int) {
    forall k, t :: k in s.data && t in s.data[k].tags ==> Covered(s, k, t, now)
  }

  /** Operation i wrote what is stored under k. */
  ghost predicate WrittenBy(s: Redis, k: Key, op: RedisOp)
    requires k in s.data
  {
    && op.RSet? && op.key == k && op.tags == s.data[k].tags && op.at == s.data[k].createdAt
    && EffectiveTtl(op.ttl, 300) > 0 && s.data[k].expiresAt == op.at + EffectiveTtl(op.ttl, 300)
    && op.value == s.data[k].value
  }

  ghost predicate AllWritten(s: Redis, ops: seq<RedisOp>) {
    forall k :: k in s.data ==> exists i :: 0 <= i < |ops| && WrittenBy(s, k, ops[i])
  }

  lemma {:induction false} RunKeepsSettings(connected: bool, ops: seq<RedisOp>)
    ensures var s := RunRedis(RedisInit(connected), ops); s.connected == connected && s.defaultTtl == 300
  {
    if ops != [] {
      RunKeepsSettings(connected, ops[..|ops| - 1]);
      var s := RunRedis(RedisInit(connected), ops[..|ops| - 1]);
      if ops[|ops| - 1].RClear? {
        ClearAllMeaning(s, ops[|ops| - 1].tags, ops[|ops| - 1].at);
      }
    }
  }

  /** Whatever is stored was put there by some write of the run. */
  lemma {:induction false} StoredWasWritten(connected: bool, ops: seq<RedisOp>)
    ensures AllWritten(RunRedis(RedisInit(connected), ops), ops)
  {
    if ops != [] {
      var init, op := ops[..|ops| - 1], ops[|ops| - 1];
      StoredWasWritten(connected, init);
      RunKeepsSettings(connected, init);
      var s := RunRedis(RedisInit(connected), init);
      var s' := RunRedis(RedisInit(connected), ops);
      if op.RClear? {
        ClearAllMeaning(s, op.tags, op.at);
      }
      forall k | k in s'.data ensures exists i :: 0 <= i < |ops| && WrittenBy(s', k, ops[i]) {
        if k in s.data && s'.data[k] == s.data[k] {
          var i :| 0 <= i < |init| && WrittenBy(s, k, init[i]);
          assert WrittenBy(s', k, ops[i]);
        } else {
          assert WrittenBy(s', k, ops[|ops| - 1]);
        }
      }
    }
  }

  lemma {:induction false} NothingWithoutConnection(ops: seq<RedisOp>)
    ensures RunRedis(RedisInit(false), ops) == RedisInit(false)
  {
    if ops != [] {
      NothingWithoutConnection(ops[..|ops| - 1]);
    }
  }

  /** What is stored under a key is its last write. */
  lemma {:induction false} StoredIsLast(connected: bool, ops: seq<RedisOp>, k: Key)
    requires k in RunRedis(RedisInit(connected), ops).data
    ensures LastStored(ops, k).Some? && WrittenBy(RunRedis(RedisInit(connected), ops), k, LastStored(ops, k).value)
  {
    if !connected {
      NothingWithoutConnection(ops);
    } else if ops != [] {
      var init, op := ops[..|ops| - 1], ops[|ops| - 1];
      var s := RunRedis(RedisInit(connected), init);
      RunKeepsSettings(connected, init);
      if op.RClear? {
        ClearAllMeaning(s, op.tags, op.at);
      }
      if k in s.data {
        StoredIsLast(connected, init, k);
      }
    }
  }

  lemma CoveredLater(s: Redis, clock: int, now: int)
    requires AllCovered(s, clock) && clock <= now
    ensures AllCovered(s, now)
  {
  }

  lemma CoveredAfterSet(s: Redis, op: RedisOp, ops: seq<RedisOp>)
    requires op.RSet? && s.connected && s.defaultTtl == 300
    requires AllCovered(s, op.at) && AllWritten(s, ops)
    requires Ordered(ops, op.at) && SpreadWithinGrace(ops + [op])
    ensures AllCovered(RedisStep(s, op), op.at)
  {
    var ttl := EffectiveTtl(op.ttl, 300);
    if ttl > 0 {
      var s' := RedisStep(s, op);
      forall k, t | k in s'.data && t in s'.data[k].tags ensures Covered(s', k, t, op.at) {
        IndexAllMeaning(s.index, op.key, op.tags, ttl, op.at, t);
        if k != op.key && t in op.tags && Alive(s'.data[k].expiresAt, op.at) {
          assert Covered(s, k, t, op.at);
          var i :| 0 <= i < |ops| && WrittenBy(s, k, ops[i]);
          var all := ops + [op];
          assert Writes(all[i], t) && Writes(all[|ops|], t);
        } else if k != op.key {
          assert Covered(s, k, t, op.at);
        }
      }
    }
  }

  lemma CoveredAfterClear(s: Redis, tags: seq<Tag>, now: int)
    requires AllCovered(s, now)
    ensures AllCovered(ClearAll(s, tags, now), now)
  {
    ClearAllMeaning(s, tags, now);
    var s' := ClearAll(s, tags, now);
    forall k, t | k in s'.data && t in s'.data[k].tags ensures Covered(s', k, t, now) {
      assert Covered(s, k, t, now);
      if Alive(s.data[k].expiresAt, now) {
        assert k in Members(s.index, t, now);
      }
    }
  }

  lemma {:induction false} RunCovered(ops: seq<RedisOp>, now: int)
    requires Ordered(ops, now) && SpreadWithinGrace(ops)
    ensures AllCovered(RunRedis(RedisInit(true), ops), now)
  {
    if ops != [] {
      var init, op := ops[..|ops| - 1], ops[|ops| - 1];
      RunCovered(init, op.at);
      StoredWasWritten(true, init);
      RunKeepsSettings(true, init);
      var s := RunRedis(RedisInit(true), init);
      match op {
        case RSet(_, _, _, _, _) =>
          assert init + [op] == ops;
          CoveredAfterSet(s, op, init);
        case RDelete(key, _) =>
          forall k, t | k in RedisDelete(s, key).data && t in RedisDelete(s, key).data[k].tags
            ensures Covered(RedisDelete(s, key), k, t, op.at)
          {
            assert Covered(s, k, t, op.at);
          }
        case RClear(tags, _) =>
          CoveredAfterClear(s, tags, op.at);
      }
      CoveredLater(RunRedis(RedisInit(true), ops), op.at, now);
    }
  }

  /** While the TTLs under each tag stay within the grace period the index never misses a live key. */
  lemma IndexIsComplete(ops: seq<RedisOp>, now: int)
    requires Ordered(ops, now) && SpreadWithinGrace(ops)
    ensures IndexComplete(ops, now)
  {
    RunCovered(ops, now);
    var s := RunRedis(RedisInit(true), ops);
    forall k, t | k in s.data && Alive(s.data[k].expiresAt, now) && TaggedBy(ops, k, t)
      ensures k in Members(s.index, t, now)
    {
      StoredIsLast(true, ops, k);
      assert Covered(s, k, t, now);
    }
  }

  /** So clearing any tag of its last write removes a key, in every such run. */
  lemma ClearRemovesTagged(ops: seq<RedisOp>, tags: seq<Tag>, now: int, key: Key, tag: Tag)
    requires Ordered(ops, now) && SpreadWithinGrace(ops)
    requires tag in tags && TaggedBy(ops, key, tag)
    ensures RedisGet(RedisClear(RunRedis(RedisInit(true), ops), tags, now), key, now) == PyNone
  {
    IndexIsComplete(ops, now);
    RunKeepsSettings(true, ops);
    ClearAllMeaning(RunRedis(RedisInit(true), ops), tags, now);
  }

  // ---------- A clear removes nothing else ----------

  ghost predicate Gave(op: RedisOp, key: Key, tag: Tag) {
    op.RSet? && op.key == key && tag in op.tags
  }

  ghost predicate IndexWritten(s: Redis, ops: seq<RedisOp>) {
    forall t, k :: t in s.index && k in s.index[t].keys ==> exists i :: 0 <= i < |ops| && Gave(ops[i], k, t)
  }

  /** A tag set holds only keys that some write of the run gave the tag. */
  lemma {:induction false} IndexWasWritten(connected: bool, ops: seq<RedisOp>)
    ensures IndexWritten(RunRedis(RedisInit(connected), ops), ops)
  {
    if ops != [] {
      var init, op := ops[..|ops| - 1], ops[|ops| - 1];
      assert ops == init + [op];
      IndexWasWritten(connected, init);
      StepIndexWritten(RunRedis(RedisInit(connected), init), init, op);
    }
  }

  lemma StepIndexWritten(s: Redis, ops: seq<RedisOp>, op: RedisOp)
    requires IndexWritten(s, ops)
    ensures IndexWritten(RedisStep(s, op), ops + [op])
  {
    var s', all := RedisStep(s, op), ops + [op];
    forall t, k | t in s'.index && k in s'.index[t].keys ensures exists i :: 0 <= i < |all| && Gave(all[i], k, t) {
      if op.RSet? && s' != s {
        IndexAllMeaning(s.index, op.key, op.tags, EffectiveTtl(op.ttl, s.defaultTtl), op.at, t);
      } else if op.RClear? {
        ClearAllMeaning(s, op.tags, op.at);
      }
      if t in s.index && k in s.index[t].keys {
        var i :| 0 <= i < |ops| && Gave(ops[i], k, t);
        assert Gave(all[i], k, t);
      } else {
        assert Gave(all[|ops|], k, t);
      }
    }
  }

  /** In every run a clear leaves alone every key to which no write ever gave one of the cleared tags. */
  lemma ClearLeavesUntagged(connected: bool, ops: seq<RedisOp>, tags: seq<Tag>, at: int, key: Key, now: int)
    requires forall i, t :: 0 <= i < |ops| && t in tags ==> !Gave(ops[i], key, t)
    ensures var s := RunRedis(RedisInit(connected), ops);
            RedisGet(RedisClear(s, tags, at), key, now) == RedisGet(s, key, now)
  {
    IndexWasWritten(connected, ops);
    ClearAllMeaning(RunRedis(RedisInit(connected), ops), tags, at);
  }

  // ---------- The bound on the spread is exact ----------

  ghost predicate OnlyTtls(ops: seq<RedisOp>, ttls: iset<int>) {
    forall i :: 0 <= i < |ops| && ops[i].RSet? ==> EffectiveTtl(ops[i].ttl, 300) in ttls
  }

  /** No run whose writes use these TTLs ever misses a key. */
  ghost predicate NeverMisses(ttls: iset<int>) {
    forall ops, now :: Ordered(ops, now) && OnlyTtls(ops, ttls) ==> IndexComplete(ops, now)
  }

  ghost predicate WithinGrace(ttls: iset<int>) {
    forall a, b :: a in ttls && b in ttls && a > 0 && b > 0 ==> a <= b + 3600
  }

  /** A long-lived key and a short-lived one under the same tag. */
  function LongThenShort(long: int, short: int): seq<RedisOp> {
    [RSet(Key("long"), PyObj(0), Some(long), [Tag("t")], 0),
     RSet(Key("short"), PyObj(1), Some(short), [Tag("t")], 0)]
  }

  lemma LongKeyIsMissed(long: int, short: int)
    requires short > 0 && long > short + 3600
    ensures var ops := LongThenShort(long, short);
            !IndexComplete(ops, long) && TaggedBy(ops, Key("long"), Tag("t"))
            && RedisGet(RedisClear(RunRedis(RedisInit(true), ops), [Tag("t")], long), Key("long"), long) == PyObj(0)
  {
    var ops := LongThenShort(long, short);
    var tag := Tag("t");
    var s0 := RedisInit(true);
    assert ops[..1][..0] == [];
    var s1 := RedisStep(s0, ops[0]);
    var s2 := RedisStep(s1, ops[1]);
    assert RunRedis(s0, ops[..1]) == s1 by { assert ops[..1][0] == ops[0]; }
    assert RunRedis(s0, ops) == s2;
    IndexAllMeaning(s0.index, Key("long"), [tag], long, 0, tag);
    IndexAllMeaning(s1.index, Key("short"), [tag], short, 0, tag);
    assert Key("long") in s2.data && Alive(s2.data[Key("long")].expiresAt, long);
    assert !LiveSet(s2.index, tag, long);
    LongIsTagged(long, short);
    ClearAllMeaning(s2, [tag], long);
  }

  lemma LongIsTagged(long: int, short: int)
    requires long > 0 && short > 0
    ensures TaggedBy(LongThenShort(long, short), Key("long"), Tag("t"))
  {
    var ops := LongThenShort(long, short);
    assert Key("short") != Key("long") by { assert |"short"| != |"long"|; }
    assert ops[..1][0] == ops[0];
  }

  /** TTLs can be mixed freely, in every run, exactly when any two positive ones differ by at most 3600 seconds. */
  lemma SpreadBoundIsExact(ttls: iset<int>)
    ensures NeverMisses(ttls) <==> WithinGrace(ttls)
  {
    if WithinGrace(ttls) {
      forall ops, now | Ordered(ops, now) && OnlyTtls(ops, ttls) ensures IndexComplete(ops, now) {
        IndexIsComplete(ops, now);
      }
    } else {
      var long, short :| long in ttls && short in ttls && long > 0 && short > 0 && long > short + 3600;
      LongKeyIsMissed(long, short);
      assert Ordered(LongThenShort(long, short), long) && OnlyTtls(LongThenShort(long, short), ttls);
    }
  }

  // ---------- The class ----------

  class RedisCache {
    const connected: bool
    const defaultTtl := 300
    var data: map<Key, Stored>
    var index: Index

    function State(): Redis
      reads this
    {
      Redis(connected, data, index, defaultTtl)
    }

    /** The server may hold what earlier processes stored. */
    constructor (connected: bool, data: map<Key, Stored>, index: Index)
      ensures State() == Redis(connected, data, index, 300)
    {
      this.connected := connected;
      this.data := data;
      this.index := index;
    }

    method Get(key: Key, now: int) returns (value: PyValue)
      ensures value == RedisGet(State(), key, now)
      ensures value == if connected && key in data && now <= data[key].expiresAt then data[key].value else PyNone
    {
      if !connected {
        return PyNone;
      }
      if key !in data || !Alive(data[key].expiresAt, now) {
        return PyNone;
      }
      return data[key].value;
    }

    method IndexUnder(tag: Tag, key: Key, ttl: int, now: int)
      modifies this`index
      ensures index == IndexOne(old(index), key, tag, ttl, now)
    {
      index := Sadd(index, tag, key, now);
      index := Expire(index, tag, ttl + TAG_GRACE, now);
    }

    method IndexUnderAll(tags: seq<Tag>, key: Key, ttl: int, now: int)
      modifies this`index
      ensures index == IndexAll(old(index), key, tags, ttl, now)
    {
      var i := 0;
      while i < |tags|
        invariant i <= |tags|
        invariant index == IndexAll(old(index), key, tags[..i], ttl, now)
      {
        IndexUnder(tags[i], key, ttl, now);
        assert tags[..i + 1][..i] == tags[..i];
        i := i + 1;
      }
      assert tags[..i] == tags;
    }

    method Set(key: Key, value: PyValue, ttl: Option<int>, tags: seq<Tag>, now: int)
      modifies this
      ensures State() == RedisSet(old(State()), key, value, ttl, tags, now)
      ensures var seconds := if ttl.None? || ttl.value == 0 then 300 else ttl.value;
              data == if connected && seconds > 0 then old(data)[key := Stored(value, tags, now, now + seconds)] else old(data)
    {
      if !connected {
        return;
      }
      var seconds := EffectiveTtl(ttl, defaultTtl);
      if seconds <= 0 {
        return; // SETEX raised and the error was logged
      }
      data := data[key := NewStored(value, tags, seconds, now)];
      IndexUnderAll(tags, key, seconds, now);
    }

    method Delete(key: Key, now: int) returns (removed: bool)
      modifies this
      ensures State() == RedisDelete(old(State()), key)
      ensures index == old(index) && data == if connected then old(data) - {key} else old(data)
      ensures removed == (connected && key in old(data) && Alive(old(data)[key].expiresAt, now))
    {
      if !connected {
        return false;
      }
      removed := key in data && Alive(data[key].expiresAt, now);
      data := data - {key};
    }

    method ClearByTags(tags: seq<Tag>, now: int)
      modifies this
      ensures State() == RedisClear(old(State()), tags, now)
    {
      if !connected {
        return;
      }
      var i := 0;
      while i < |tags|
        invariant i <= |tags|
        invariant State() == ClearAll(old(State()), tags[..i], now)
      {
        var keys := Members(index, tags[i], now);
        if keys != {} {
          data := data - keys;
          index := index - {tags[i]};
        }
        assert tags[..i + 1][..i] == tags[..i];
        i := i + 1;
      }
      assert tags[..i] == tags;
    }
  }
}
