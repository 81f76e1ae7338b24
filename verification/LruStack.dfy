/**
 * The memory tier driven the way the decorator drives it: read a key and, on a
 * miss, write it. For every clock and every TTL the tier holds exactly the most
 * recently used keys, so a smaller capacity always holds part of a larger one.
 */
module LruStack {
  import opened Prelude
  import opened CacheTypes
  import opened MemoryTier

  datatype Use = Use(key: Key, value: PyValue, ttl: Option<int>, tags: seq<Tag>, readAt: int, writeAt: int)

  function UseCache(s: Mem, u: Use): Mem {
    var (s', found) := MemGet(s, u.key, u.readAt);
    if found.PyNone? then MemSet(s', u.key, u.value, u.ttl, u.tags, u.writeAt) else s'
  }

  function RunUses(s: Mem, uses: seq<Use>): Mem {
    if uses == [] then s
    else UseCache(RunUses(s, uses[..|uses| - 1]), uses[|uses| - 1])
  }

  // ---------- The reference: keys by the position of their last use ----------

  /** The position of the last use of a key, -1 when it has not been used. */
  function LastUse(uses: seq<Use>, key: Key): int {
    if uses == [] then -1
    else if uses[|uses| - 1].key == key then |uses| - 1
    else LastUse(uses[..|uses| - 1], key)
  }

  /** The used keys without repetition, least recently used first. */
  function Mru(uses: seq<Use>): seq<Key> {
    if uses == [] then [] else Touch(Mru(uses[..|uses| - 1]), uses[|uses| - 1].key)
  }

  /** No later use is of the key. */
  lemma {:induction false} LastUseIsLast(uses: seq<Use>, key: Key)
    ensures -1 <= LastUse(uses, key) < |uses|
    ensures LastUse(uses, key) >= 0 ==> uses[LastUse(uses, key)].key == key
    ensures forall i :: LastUse(uses, key) < i < |uses| ==> uses[i].key != key
  {
    if uses != [] {
      LastUseIsLast(uses[..|uses| - 1], key);
    }
  }

  ghost predicate ByLastUse(uses: seq<Use>, order: seq<Key>) {
    forall i, j :: 0 <= i < j < |order| ==> LastUse(uses, order[i]) < LastUse(uses, order[j])
  }

  lemma ByLastUseWithout(uses: seq<Use>, order: seq<Key>, at: nat)
    requires at < |order| && ByLastUse(uses, order)
    ensures ByLastUse(uses, order[..at] + order[at + 1..])
  {
    var rest := order[..at] + order[at + 1..];
    assert forall i :: 0 <= i < |rest| ==> rest[i] == order[if i < at then i else i + 1];
  }

  lemma ByLastUseAppend(uses: seq<Use>, rest: seq<Key>)
    requires uses != [] && uses[|uses| - 1].key !in rest && ByLastUse(uses[..|uses| - 1], rest)
    ensures ByLastUse(uses, rest + [uses[|uses| - 1].key])
  {
    var init := uses[..|uses| - 1];
    forall i | 0 <= i < |rest| ensures LastUse(uses, rest[i]) == LastUse(init, rest[i]) < |init| {
      assert rest[i] in rest;
      LastUseIsLast(init, rest[i]);
    }
  }

  lemma ByLastUseTouch(uses: seq<Use>, order: seq<Key>)
    requires uses != [] && NoDup(order) && ByLastUse(uses[..|uses| - 1], order)
    ensures ByLastUse(uses, Touch(order, uses[|uses| - 1].key))
  {
    var key := uses[|uses| - 1].key;
    RemoveFirstNoDup(order, key);
    if key in order {
      var at := RemoveFirstSplit(order, key);
      ByLastUseWithout(uses[..|uses| - 1], order, at);
    } else {
      RemoveFirstAbsent(order, key);
    }
    ByLastUseAppend(uses, RemoveFirst(order, key));
  }

  /** Mru holds exactly the used keys, each once, in the order of their last uses. */
  lemma {:induction false} MruIsLastUseOrder(uses: seq<Use>)
    ensures NoDup(Mru(uses))
    ensures forall k :: k in Mru(uses) <==> LastUse(uses, k) >= 0
    ensures ByLastUse(uses, Mru(uses))
  {
    if uses != [] {
      var init, key := uses[..|uses| - 1], uses[|uses| - 1].key;
      MruIsLastUseOrder(init);
      var m := Mru(init);
      var members := set k | k in m :: k;
      ListsTouch(m, members, key);
      ByLastUseTouch(uses, m);
      forall k ensures k in Mru(uses) <==> LastUse(uses, k) >= 0 {
        assert k in Touch(m, key) <==> k in members + {key};
      }
    }
  }

  // ---------- The stack theorem ----------

  lemma LastOfConcat<T>(p: seq<T>, q: seq<T>, n: nat)
    requires n <= |q|
    ensures Last(p + q, n) == Last(q, n)
  {
  }

  lemma TouchConcat(p: seq<Key>, q: seq<Key>, key: Key)
    ensures key in p ==> Touch(p + q, key) == RemoveFirst(p, key) + (q + [key])
    ensures key !in p ==> Touch(p + q, key) == p + Touch(q, key)
  {
    RemoveFirstConcat(p, q, key);
    if key in p {
      assert RemoveFirst(p, key) + q + [key] == RemoveFirst(p, key) + (q + [key]);
    } else {
      assert p + RemoveFirst(q, key) + [key] == p + (RemoveFirst(q, key) + [key]);
    }
  }

  /** Touching commutes with cutting to the last m. */
  lemma TouchLast(all: seq<Key>, m: nat, key: Key)
    requires NoDup(all)
    ensures Last(Touch(Last(all, m), key), m) == Last(Touch(all, key), m)
  {
    var q := Last(all, m);
    var p := all[..|all| - |q|];
    assert all == p + q;
    if p != [] {
      TouchConcat(p, q, key);
      RemoveFirstNoDup(q, key);
      if key in p {
        assert key !in q;
        RemoveFirstAbsent(q, key);
        LastOfConcat(RemoveFirst(p, key), q + [key], m);
      } else {
        LastOfConcat(p, Touch(q, key), m);
      }
    }
  }

  lemma TouchTwice(order: seq<Key>, key: Key)
    requires NoDup(order)
    ensures Touch(Touch(order, key), key) == Touch(order, key)
    ensures Touch(RemoveFirst(order, key), key) == Touch(order, key)
    ensures |Touch(order, key)| == if key in order then |order| else |order| + 1
  {
    RemoveFirstNoDup(order, key);
    RemoveFirstConcat(RemoveFirst(order, key), [key], key);
    RemoveFirstAbsent(RemoveFirst(order, key), key);
  }

  /** Hit, expired entry, cached None or miss: the recency list changes in the same way. */
  lemma UseTouches(s: Mem, u: Use)
    requires Lists(s.order, s.cache.Keys) && |s.order| <= s.maxSize
    ensures UseCache(s, u).order == Last(Touch(s.order, u.key), s.maxSize)
    ensures UseCache(s, u).maxSize == s.maxSize
  {
    TouchTwice(s.order, u.key);
    if u.key !in s.cache {
      assert u.key !in s.order;
    } else {
      assert u.key in s.order;
    }
  }

  lemma UseKeepsLists(s: Mem, u: Use)
    requires Lists(s.order, s.cache.Keys)
    ensures Lists(UseCache(s, u).order, UseCache(s, u).cache.Keys)
  {
    var s' := MemGet(s, u.key, u.readAt).0;
    if u.key in s.cache {
      if Expired(s.cache[u.key], u.readAt) {
        RemoveFirstNoDup(s.order, u.key);
        assert s'.cache.Keys == s.cache.Keys - {u.key};
      } else {
        InsertLists(s, u.key, Accessed(s.cache[u.key], u.readAt));
      }
    }
    var e := NewEntry(s', u.value, u.ttl, u.tags, u.writeAt);
    InsertLists(s', u.key, e);
    EvictedLists(MemInsert(s', u.key, e));
  }

  lemma EvictedLists(s: Mem)
    requires Lists(s.order, s.cache.Keys)
    ensures Lists(MemEvicted(s).order, MemEvicted(s).cache.Keys)
  {
    var r := Last(s.order, s.maxSize);
    assert s.order == s.order[..|s.order| - |r|] + r;
  }

  /** The recency list of a cache of capacity m is the last m entries of the Mru list. */
  lemma {:induction false} StackTheorem(uses: seq<Use>, m: nat, defaultTtl: int)
    ensures var s := RunUses(MemInit(m, defaultTtl), uses);
            s.order == Last(Mru(uses), m) && s.maxSize == m && Lists(s.order, s.cache.Keys)
  {
    if uses != [] {
      var init, u := uses[..|uses| - 1], uses[|uses| - 1];
      StackTheorem(init, m, defaultTtl);
      var s := RunUses(MemInit(m, defaultTtl), init);
      UseTouches(s, u);
      UseKeepsLists(s, u);
      MruIsLastUseOrder(init);
      TouchLast(Mru(init), m, u.key);
    }
  }

  /** Inclusion: whatever the entries and clocks, capacity m <= n holds a tail of what n holds. */
  lemma {:induction false} SmallerCapacityIsTail(uses: seq<Use>, uses': seq<Use>, m: nat, n: nat, ttl: int, ttl': int)
    requires m <= n && |uses| == |uses'|
    requires forall i :: 0 <= i < |uses| ==> uses[i].key == uses'[i].key
    ensures var small, large := RunUses(MemInit(m, ttl), uses), RunUses(MemInit(n, ttl'), uses');
            small.order == Last(large.order, m) && small.cache.Keys <= large.cache.Keys
  {
    StackTheorem(uses, m, ttl);
    StackTheorem(uses', n, ttl');
    MruDependsOnKeys(uses, uses');
    var all := Mru(uses);
    assert Last(Last(all, n), m) == Last(all, m);
    LastIsPart(Last(all, n), m);
    ListedKeys(RunUses(MemInit(m, ttl), uses), RunUses(MemInit(n, ttl'), uses'));
  }

  lemma ListedKeys(small: Mem, large: Mem)
    requires Lists(small.order, small.cache.Keys) && Lists(large.order, large.cache.Keys)
    requires forall k :: k in small.order ==> k in large.order
    ensures small.cache.Keys <= large.cache.Keys
  {
    forall k | k in small.cache.Keys ensures k in large.cache.Keys {
      assert k in small.order;
    }
  }

  lemma LastIsPart(order: seq<Key>, n: nat)
    ensures forall k :: k in Last(order, n) ==> k in order
  {
  }

  lemma {:induction false} MruDependsOnKeys(uses: seq<Use>, uses': seq<Use>)
    requires |uses| == |uses'| && forall i :: 0 <= i < |uses| ==> uses[i].key == uses'[i].key
    ensures Mru(uses) == Mru(uses')
  {
    if uses != [] {
      MruDependsOnKeys(uses[..|uses| - 1], uses'[..|uses'| - 1]);
    }
  }

  /** The same without the Mru list: what stays was used after all that went, and nothing goes early. */
  lemma KeepsMostRecentlyUsed(uses: seq<Use>, m: nat, defaultTtl: int, kept: Key, gone: Key)
    requires var s := RunUses(MemInit(m, defaultTtl), uses);
             kept in s.cache && gone !in s.cache && LastUse(uses, gone) >= 0
    ensures LastUse(uses, gone) < LastUse(uses, kept)
    ensures |RunUses(MemInit(m, defaultTtl), uses).order| == m
  {
    StackTheorem(uses, m, defaultTtl);
    MruIsLastUseOrder(uses);
    var all := Mru(uses);
    assert kept in Last(all, m) && gone in all && gone !in Last(all, m);
    var _, _ := LastSeparates(all, m, gone, kept);
  }
}
