/**
 * BulkOperationManager: each batch is flushed inside a savepoint, and a batch that
 * violates a constraint is retried record by record.
 */
module BulkInsert {
  import opened Prelude

  /**
   * A record may be fine, violate a constraint by itself, raise another error when it is flushed,
   * or be refused by the model's constructor.
   */
  datatype Kind = Sound | Unacceptable | Unstorable | Malformed

  datatype Record = Record(key: int, payload: int, kind: Kind)

  type Table = map<int, int>

  /** How RELEASE SAVEPOINT ends after a successful flush. */
  datatype Release = Released | ReleaseViolation | ReleaseError

  /** What the n-th savepoint of the session does on release. */
  type Releases = nat -> Release

  /** The session's table and the counters; blocks numbers the savepoints, lost counts failed releases. */
  datatype Tally = Tally(table: Table, successful: int, failed: int, errors: nat, blocks: nat, lost: nat)

  // ---------- One savepoint ----------

  predicate Insertable(t: Table, r: Record) {
    r.kind.Sound? && r.key !in t
  }

  /** A flush stores every record, or ends with the error of the first one that does not go in. */
  datatype Flush = Flushed(table: Table) | Conflict | Refused

  function InsertAll(t: Table, batch: seq<Record>): Flush
    decreases |batch|
  {
    if batch == [] then Flushed(t)
    else if Insertable(t, batch[0]) then InsertAll(t[batch[0].key := batch[0].payload], batch[1..])
    else if RaisesOther(batch[0]) then Refused
    else Conflict
  }

  /** The record raises something else than an integrity error. */
  predicate RaisesOther(r: Record) {
    r.kind.Malformed? || r.kind.Unstorable?
  }

  predicate AnyMalformed(batch: seq<Record>) {
    exists i :: 0 <= i < |batch| && batch[i].kind.Malformed?
  }

  predicate OnlyConflicts(data: seq<Record>) {
    forall i :: 0 <= i < |data| ==> data[i].kind.Sound? || data[i].kind.Unacceptable?
  }

  datatype Block = Committed(table: Table) | Violation(flushed: bool) | Failure(flushed: bool)

  /** The savepoint block; anything but a commit rolls the table back. */
  function RunBlock(t: Table, batch: seq<Record>, release: Release): Block {
    if AnyMalformed(batch) then Failure(false)
    else
      match InsertAll(t, batch)
      case Conflict => Violation(false)
      case Refused => Failure(false)
      case Flushed(t') =>
        match release
        case Released => Committed(t')
        case ReleaseViolation => Violation(true)
        case ReleaseError => Failure(true)
  }

  /** The table and the success count move as soon as the flush has succeeded; a failed release is noted. */
  function AfterBlock(s: Tally, b: Block, size: nat): Tally {
    var flushed := b.Committed? || b.flushed;
    s.(table := if b.Committed? then b.table else s.table,
       successful := if flushed then s.successful + size else s.successful,
       blocks := s.blocks + 1,
       lost := if flushed && !b.Committed? then s.lost + 1 else s.lost)
  }

  // ---------- Operations ----------

  function InsertOne(env: Releases, s: Tally, r: Record): Tally {
    var b := RunBlock(s.table, [r], env(s.blocks));
    var s' := AfterBlock(s, b, 1);
    if b.Committed? then s' else s'.(failed := s'.failed + 1)
  }

  function InsertEach(env: Releases, s: Tally, batch: seq<Record>): Tally {
    if batch == [] then s
    else InsertOne(env, InsertEach(env, s, batch[..|batch| - 1]), batch[|batch| - 1])
  }

  function InsertBatch(env: Releases, s: Tally, batch: seq<Record>, ignoreConflicts: bool): Tally {
    var b := RunBlock(s.table, batch, env(s.blocks));
    var s' := AfterBlock(s, b, |batch|);
    if b.Committed? then s'
    else if b.Violation? && !ignoreConflicts then InsertEach(env, s'.(errors := s'.errors + 1), batch)
    else s'.(failed := s'.failed + |batch|, errors := s'.errors + 1)
  }

  /** The loop over `range(0, total, batch_size)`, which is empty for a negative size. */
  function Bulk(env: Releases, s: Tally, data: seq<Record>, batchSize: int, ignoreConflicts: bool): Tally
    decreases |data|
  {
    if data == [] || batchSize < 1 then s
    else
      var n := if |data| < batchSize then |data| else batchSize;
      Bulk(env, InsertBatch(env, s, data[..n], ignoreConflicts), data[n..], batchSize, ignoreConflicts)
  }

  function Fresh(t: Table): Tally {
    Tally(t, 0, 0, 0, 0, 0)
  }

  // ---------- The reference: insert in order, skip what cannot go in ----------

  datatype Plain = Plain(table: Table, successful: int, failed: int)

  function PlainOne(p: Plain, r: Record): Plain {
    if r.kind.Sound? && r.key !in p.table then p.(table := p.table[r.key := r.payload], successful := p.successful + 1)
    else p.(failed := p.failed + 1)
  }

  function PlainLoop(p: Plain, data: seq<Record>): Plain
    decreases |data|
  {
    if data == [] then p else PlainLoop(PlainOne(p, data[0]), data[1..])
  }

  function View(s: Tally): Plain {
    Plain(s.table, s.successful, s.failed)
  }

  lemma {:induction false} PlainConcat(p: Plain, a: seq<Record>, b: seq<Record>)
    ensures PlainLoop(p, a + b) == PlainLoop(PlainLoop(p, a), b)
    decreases |a|
  {
    if a == [] {
      assert a + b == b;
    } else {
      assert (a + b)[1..] == a[1..] + b && (a + b)[0] == a[0];
      PlainConcat(PlainOne(p, a[0]), a[1..], b);
    }
  }

  /** A flush that succeeds is the plain loop in which every record goes in. */
  lemma {:induction false} FlushIsPlain(p: Plain, batch: seq<Record>)
    requires InsertAll(p.table, batch).Flushed?
    ensures PlainLoop(p, batch) == Plain(InsertAll(p.table, batch).table, p.successful + |batch|, p.failed)
    decreases |batch|
  {
    if batch != [] {
      FlushIsPlain(PlainOne(p, batch[0]), batch[1..]);
    }
  }

  ghost predicate NeverFails(env: Releases) {
    forall n :: env(n).Released?
  }

  lemma OneIsPlain(env: Releases, s: Tally, r: Record)
    requires NeverFails(env)
    ensures View(InsertOne(env, s, r)) == PlainOne(View(s), r) && InsertOne(env, s, r).lost == s.lost
  {
    var t := s.table[r.key := r.payload];
    assert InsertAll(t, [r][1..]) == Flushed(t);
    assert [r][0] == r;
    assert AnyMalformed([r]) <==> r.kind.Malformed?;
  }

  lemma {:induction false} EachIsPlain(env: Releases, s: Tally, batch: seq<Record>)
    requires NeverFails(env)
    ensures View(InsertEach(env, s, batch)) == PlainLoop(View(s), batch)
  {
    if batch != [] {
      var init, r := batch[..|batch| - 1], batch[|batch| - 1];
      EachIsPlain(env, s, init);
      OneIsPlain(env, InsertEach(env, s, init), r);
      PlainConcat(View(s), init, [r]);
      assert init + [r] == batch;
      var p := PlainLoop(View(s), init);
      assert PlainLoop(p, [r]) == PlainLoop(PlainOne(p, r), [r][1..]) == PlainOne(p, r);
    }
  }

  lemma {:induction false} ConflictsOnly(t: Table, batch: seq<Record>)
    requires OnlyConflicts(batch)
    ensures !InsertAll(t, batch).Refused? && !AnyMalformed(batch)
    decreases |batch|
  {
    if batch != [] && Insertable(t, batch[0]) {
      ConflictsOnly(t[batch[0].key := batch[0].payload], batch[1..]);
    }
  }

  lemma BatchIsPlain(env: Releases, s: Tally, batch: seq<Record>)
    requires NeverFails(env) && OnlyConflicts(batch)
    ensures View(InsertBatch(env, s, batch, false)) == PlainLoop(View(s), batch)
  {
    ConflictsOnly(s.table, batch);
    if InsertAll(s.table, batch).Flushed? {
      FlushIsPlain(View(s), batch);
    } else {
      var s' := AfterBlock(s, Violation(false), |batch|);
      EachIsPlain(env, s'.(errors := s'.errors + 1), batch);
    }
  }

  /** For every batch size the final table and both counters are those of the plain loop. */
  lemma {:induction false} BulkRefinesPlainLoop(env: Releases, s: Tally, data: seq<Record>, batchSize: int)
    requires NeverFails(env) && batchSize >= 1 && OnlyConflicts(data)
    ensures View(Bulk(env, s, data, batchSize, false)) == PlainLoop(View(s), data)
    decreases |data|
  {
    if data != [] {
      var n := if |data| < batchSize then |data| else batchSize;
      BatchIsPlain(env, s, data[..n]);
      BulkRefinesPlainLoop(env, InsertBatch(env, s, data[..n], false), data[n..], batchSize);
      PlainConcat(View(s), data[..n], data[n..]);
      assert data[..n] + data[n..] == data;
    }
  }

  // ---------- What a flush stores ----------

  /** Every record is sound, and its key neither stored nor met twice. */
  ghost predicate Storable(t: Table, batch: seq<Record>) {
    && (forall i :: 0 <= i < |batch| ==> batch[i].kind.Sound? && batch[i].key !in t)
    && forall i, j :: 0 <= i < j < |batch| ==> batch[i].key != batch[j].key
  }

  lemma StorableRest(t: Table, batch: seq<Record>)
    requires batch != []
    ensures Storable(t, batch) <==>
            batch[0].kind.Sound? && batch[0].key !in t && Storable(t[batch[0].key := batch[0].payload], batch[1..])
  {
    var t', rest := t[batch[0].key := batch[0].payload], batch[1..];
    if Storable(t, batch) {
      assert forall i :: 0 <= i < |rest| ==> rest[i] == batch[i + 1];
    } else if batch[0].kind.Sound? && batch[0].key !in t && Storable(t', rest) {
      assert forall i :: 1 <= i < |batch| ==> batch[i] == rest[i - 1];
      assert Storable(t, batch);
    }
  }

  /** A flush goes through exactly when every record is sound and no key is taken. */
  lemma {:induction false} FlushExactly(t: Table, batch: seq<Record>)
    ensures InsertAll(t, batch).Flushed? <==> Storable(t, batch)
    decreases |batch|
  {
    if batch != [] {
      StorableRest(t, batch);
      FlushExactly(t[batch[0].key := batch[0].payload], batch[1..]);
    }
  }

  /** Old rows stay as they are, and every new one is that of a sound record. */
  ghost predicate Grows(t: Table, t': Table, data: seq<Record>) {
    && (forall k :: k in t ==> k in t' && t'[k] == t[k])
    && forall k :: k in t' && k !in t ==> exists i :: 0 <= i < |data| && IsRow(data[i], k, t'[k])
  }

  predicate IsRow(r: Record, key: int, payload: int) {
    r.kind.Sound? && r.key == key && r.payload == payload
  }

  lemma GrowsConcat(t: Table, t1: Table, t2: Table, a: seq<Record>, b: seq<Record>)
    requires Grows(t, t1, a) && Grows(t1, t2, b)
    ensures Grows(t, t2, a + b)
  {
    var all := a + b;
    forall k | k in t2 && k !in t ensures exists i :: 0 <= i < |all| && IsRow(all[i], k, t2[k]) {
      if k in t1 {
        var i :| 0 <= i < |a| && IsRow(a[i], k, t1[k]);
        assert all[i] == a[i];
      } else {
        var i :| 0 <= i < |b| && IsRow(b[i], k, t2[k]);
        assert all[|a| + i] == b[i];
      }
    }
  }

  lemma {:induction false} FlushGrows(t: Table, batch: seq<Record>)
    requires InsertAll(t, batch).Flushed?
    ensures Grows(t, InsertAll(t, batch).table, batch)
    ensures |InsertAll(t, batch).table| == |t| + |batch|
    decreases |batch|
  {
    if batch != [] {
      var t1 := t[batch[0].key := batch[0].payload];
      FlushGrows(t1, batch[1..]);
      assert IsRow([batch[0]][0], batch[0].key, batch[0].payload);
      assert Grows(t, t1, [batch[0]]);
      GrowsConcat(t, t1, InsertAll(t, batch).table, [batch[0]], batch[1..]);
      assert [batch[0]] + batch[1..] == batch;
      assert t1.Keys == t.Keys + {batch[0].key} && |t1| == |t1.Keys| && |t| == |t.Keys|;
    }
  }

  lemma BlockGrows(s: Tally, batch: seq<Record>, release: Release)
    ensures var s' := AfterBlock(s, RunBlock(s.table, batch, release), |batch|);
            && Grows(s.table, s'.table, batch)
            && (release.Released? ==> s'.successful - s.successful == |s'.table| - |s.table|)
  {
    if RunBlock(s.table, batch, release).Committed? {
      FlushGrows(s.table, batch);
    }
  }

  /** What a call has done to the table, and, when every release succeeds, to the count of successes. */
  ghost predicate Stores(env: Releases, s: Tally, s': Tally, data: seq<Record>) {
    && Grows(s.table, s'.table, data)
    && (NeverFails(env) ==> s'.successful - s.successful == |s'.table| - |s.table|)
  }

  lemma {:induction false} EachStores(env: Releases, s: Tally, batch: seq<Record>)
    ensures Stores(env, s, InsertEach(env, s, batch), batch)
  {
    if batch != [] {
      var init, r := batch[..|batch| - 1], batch[|batch| - 1];
      var s1 := InsertEach(env, s, init);
      EachStores(env, s, init);
      BlockGrows(s1, [r], env(s1.blocks));
      GrowsConcat(s.table, s1.table, InsertEach(env, s, batch).table, init, [r]);
      assert init + [r] == batch;
    }
  }

  lemma BatchStores(env: Releases, s: Tally, batch: seq<Record>, ignoreConflicts: bool)
    ensures Stores(env, s, InsertBatch(env, s, batch, ignoreConflicts), batch)
  {
    var b := RunBlock(s.table, batch, env(s.blocks));
    BlockGrows(s, batch, env(s.blocks));
    if b.Violation? && !ignoreConflicts {
      var s' := AfterBlock(s, b, |batch|);
      EachStores(env, s'.(errors := s'.errors + 1), batch);
    }
  }

  /**
   * In every session and setting: rows already stored stay as they are, every new row is that of a
   * sound record, and, when releases succeed, the successes are the rows gained.
   */
  lemma {:induction false} BulkStores(env: Releases, s: Tally, data: seq<Record>, batchSize: int, ignoreConflicts: bool)
    ensures Stores(env, s, Bulk(env, s, data, batchSize, ignoreConflicts), data)
    decreases |data|
  {
    if data != [] && batchSize >= 1 {
      var n := if |data| < batchSize then |data| else batchSize;
      var s1 := InsertBatch(env, s, data[..n], ignoreConflicts);
      BatchStores(env, s, data[..n], ignoreConflicts);
      BulkStores(env, s1, data[n..], batchSize, ignoreConflicts);
      GrowsConcat(s.table, s1.table, Bulk(env, s, data, batchSize, ignoreConflicts).table, data[..n], data[n..]);
      assert data[..n] + data[n..] == data;
    }
  }

  lemma {:induction false} PlainKeeps(p: Plain, data: seq<Record>, key: int)
    requires key in p.table
    ensures key in PlainLoop(p, data).table && PlainLoop(p, data).table[key] == p.table[key]
    decreases |data|
  {
    if data != [] {
      PlainKeeps(PlainOne(p, data[0]), data[1..], key);
    }
  }

  /** The first sound record with its key. */
  ghost predicate FirstSound(t: Table, data: seq<Record>, i: nat)
    requires i < |data|
  {
    && data[i].kind.Sound? && data[i].key !in t
    && forall j :: 0 <= j < i && data[j].kind.Sound? ==> data[j].key != data[i].key
  }

  lemma {:induction false} PlainFirstWins(p: Plain, data: seq<Record>, i: nat)
    requires i < |data| && FirstSound(p.table, data, i)
    ensures var t := PlainLoop(p, data).table; data[i].key in t && t[data[i].key] == data[i].payload
    decreases |data|
  {
    if i == 0 {
      PlainKeeps(PlainOne(p, data[0]), data[1..], data[0].key);
    } else {
      PlainFirstWins(PlainOne(p, data[0]), data[1..], i - 1);
    }
  }

  /** With conflicts as the only errors, and not ignored, each new key gets the payload of the first sound record with it. */
  lemma FirstSoundWins(env: Releases, s: Tally, data: seq<Record>, batchSize: int, i: nat)
    requires NeverFails(env) && batchSize >= 1 && OnlyConflicts(data)
    requires i < |data| && FirstSound(s.table, data, i)
    ensures var t := Bulk(env, s, data, batchSize, false).table; data[i].key in t && t[data[i].key] == data[i].payload
  {
    BulkRefinesPlainLoop(env, s, data, batchSize);
    PlainFirstWins(View(s), data, i);
  }

  // ---------- When batches of any records agree with the plain loop ----------

  lemma SingleIsPlain(env: Releases, s: Tally, r: Record, ignoreConflicts: bool)
    requires NeverFails(env)
    ensures View(InsertBatch(env, s, [r], ignoreConflicts)) == PlainOne(View(s), r)
  {
    var t := s.table[r.key := r.payload];
    assert InsertAll(t, [r][1..]) == Flushed(t);
    assert [r][0] == r;
    assert AnyMalformed([r]) <==> r.kind.Malformed?;
    assert PlainLoop(View(s), [r]) == PlainLoop(PlainOne(View(s), r), [r][1..]) == PlainOne(View(s), r);
    var b := RunBlock(s.table, [r], env(s.blocks));
    if b.Violation? && !ignoreConflicts {
      var s' := AfterBlock(s, b, 1);
      EachIsPlain(env, s'.(errors := s'.errors + 1), [r]);
    }
  }

  lemma {:induction false} OneByOneIsPlain(env: Releases, s: Tally, data: seq<Record>, ignoreConflicts: bool)
    requires NeverFails(env)
    ensures View(Bulk(env, s, data, 1, ignoreConflicts)) == PlainLoop(View(s), data)
    decreases |data|
  {
    if data != [] {
      assert data[..1] == [data[0]];
      SingleIsPlain(env, s, data[0], ignoreConflicts);
      OneByOneIsPlain(env, InsertBatch(env, s, [data[0]], ignoreConflicts), data[1..], ignoreConflicts);
    }
  }

  ghost predicate EndsPlain(env: Releases, t: Table, data: seq<Record>, batchSize: int, ignoreConflicts: bool) {
    View(Bulk(env, Fresh(t), data, batchSize, ignoreConflicts)) == PlainLoop(Plain(t, 0, 0), data)
  }

  /** Every input, with or without records that raise other errors than conflicts, ends as in the plain loop. */
  ghost predicate AlwaysPlain(batchSize: int, ignoreConflicts: bool, othersToo: bool) {
    forall env, t, data :: NeverFails(env) && (othersToo || OnlyConflicts(data)) ==>
      EndsPlain(env, t, data, batchSize, ignoreConflicts)
  }

  /** A batch of two loses its good record with the bad one. */
  lemma PairIsLost(env: Releases, bad: Record, batchSize: int, ignoreConflicts: bool)
    requires NeverFails(env) && batchSize >= 2
    requires bad.kind.Malformed? || bad.kind.Unstorable? || (bad.kind.Unacceptable? && ignoreConflicts)
    ensures var data := [Record(0, 0, Sound), bad];
            && 0 !in Bulk(env, Fresh(map[]), data, batchSize, ignoreConflicts).table
            && 0 in PlainLoop(Plain(map[], 0, 0), data).table
            && (OnlyConflicts(data) <==> bad.kind.Unacceptable?)
  {
    var data := [Record(0, 0, Sound), bad];
    PairPlain(bad);
    PairFlush(bad);
    assert data[..2] == data && data[2..] == [];
    assert OnlyConflicts(data) <==> data[1].kind.Unacceptable?;
    assert AnyMalformed(data) <==> data[1].kind.Malformed?;
    var s := InsertBatch(env, Fresh(map[]), data, ignoreConflicts);
    assert s.table == map[];
    assert Bulk(env, Fresh(map[]), data, batchSize, ignoreConflicts) == Bulk(env, s, [], batchSize, ignoreConflicts) == s;
  }

  lemma PairPlain(bad: Record)
    requires !bad.kind.Sound?
    ensures 0 in PlainLoop(Plain(map[], 0, 0), [Record(0, 0, Sound), bad]).table
  {
    var data, p := [Record(0, 0, Sound), bad], Plain(map[0 := 0], 1, 0);
    assert data[1..] == [bad] && [bad][1..] == [];
    assert PlainLoop(Plain(map[], 0, 0), data) == PlainLoop(p, [bad]) == PlainLoop(PlainOne(p, bad), []);
  }

  lemma PairFlush(bad: Record)
    requires !bad.kind.Sound?
    ensures InsertAll(map[], [Record(0, 0, Sound), bad]) == if RaisesOther(bad) then Refused else Conflict
  {
    var data := [Record(0, 0, Sound), bad];
    assert data[1..] == [bad];
    assert InsertAll(map[], data) == InsertAll(map[][0 := 0], [bad]);
  }

  lemma SettingsThatAgree(batchSize: int, ignoreConflicts: bool, othersToo: bool)
    requires batchSize == 1 || (batchSize > 1 && !ignoreConflicts && !othersToo)
    ensures AlwaysPlain(batchSize, ignoreConflicts, othersToo)
  {
    forall env, t, data | NeverFails(env) && (othersToo || OnlyConflicts(data))
      ensures EndsPlain(env, t, data, batchSize, ignoreConflicts)
    {
      if batchSize == 1 {
        OneByOneIsPlain(env, Fresh(t), data, ignoreConflicts);
      } else {
        BulkRefinesPlainLoop(env, Fresh(t), data, batchSize);
      }
    }
  }

  lemma PairDisagrees(batchSize: int, ignoreConflicts: bool, othersToo: bool)
    requires batchSize > 1 && (ignoreConflicts || othersToo)
    ensures !AlwaysPlain(batchSize, ignoreConflicts, othersToo)
  {
    var env: Releases := _ => Released;
    var bad := Record(1, 0, if othersToo then Malformed else Unacceptable);
    PairIsLost(env, bad, batchSize, ignoreConflicts);
    assert !EndsPlain(env, map[], [Record(0, 0, Sound), bad], batchSize, ignoreConflicts);
  }

  lemma NoBatchesDisagree(batchSize: int, ignoreConflicts: bool, othersToo: bool)
    requires batchSize < 1
    ensures !AlwaysPlain(batchSize, ignoreConflicts, othersToo)
  {
    var env: Releases := _ => Released;
    var data := [Record(0, 0, Sound)];
    assert OnlyConflicts(data) && data[1..] == [];
    assert PlainLoop(Plain(map[], 0, 0), data) == PlainLoop(Plain(map[0 := 0], 1, 0), []);
    assert !EndsPlain(env, map[], data, batchSize, ignoreConflicts);
  }

  /**
   * Agreement with the plain loop on every input holds exactly for batches of one, and for any
   * larger batch size when conflicts are not ignored and no record raises another error.
   */
  lemma AgreementIsExact(batchSize: int, ignoreConflicts: bool, othersToo: bool)
    ensures AlwaysPlain(batchSize, ignoreConflicts, othersToo)
            <==> batchSize == 1 || (batchSize > 1 && !ignoreConflicts && !othersToo)
  {
    if batchSize < 1 {
      NoBatchesDisagree(batchSize, ignoreConflicts, othersToo);
    } else if batchSize == 1 || (!ignoreConflicts && !othersToo) {
      SettingsThatAgree(batchSize, ignoreConflicts, othersToo);
    } else {
      PairDisagrees(batchSize, ignoreConflicts, othersToo);
    }
  }

  // ---------- Errors ----------

  lemma {:induction false} PlainNeverUnfails(p: Plain, data: seq<Record>)
    ensures PlainLoop(p, data).failed >= p.failed
    decreases |data|
  {
    if data != [] {
      PlainNeverUnfails(PlainOne(p, data[0]), data[1..]);
    }
  }

  /** A batch that cannot be flushed holds a record the plain loop skips. */
  lemma {:induction false} RefusedBatchSkips(p: Plain, batch: seq<Record>)
    requires !InsertAll(p.table, batch).Flushed?
    ensures PlainLoop(p, batch).failed > p.failed
    decreases |batch|
  {
    if Insertable(p.table, batch[0]) {
      RefusedBatchSkips(PlainOne(p, batch[0]), batch[1..]);
    } else {
      PlainNeverUnfails(PlainOne(p, batch[0]), batch[1..]);
    }
  }

  /** Errors and failures come together, and neither ever goes down. */
  ghost predicate ErrorsMatch(before: Tally, after: Tally) {
    && after.errors >= before.errors && after.failed >= before.failed
    && (after.errors == before.errors <==> after.failed == before.failed)
  }

  lemma BatchErrors(env: Releases, s: Tally, batch: seq<Record>, ignoreConflicts: bool)
    requires NeverFails(env) && batch != []
    ensures ErrorsMatch(s, InsertBatch(env, s, batch, ignoreConflicts))
  {
    var b := RunBlock(s.table, batch, env(s.blocks));
    if b.Violation? && !ignoreConflicts {
      var s' := AfterBlock(s, b, |batch|).(errors := s.errors + 1);
      EachIsPlain(env, s', batch);
      RefusedBatchSkips(View(s), batch);
      EachKeepsErrors(env, s', batch);
    }
  }

  lemma {:induction false} EachKeepsErrors(env: Releases, s: Tally, batch: seq<Record>)
    ensures InsertEach(env, s, batch).errors == s.errors
  {
    if batch != [] {
      EachKeepsErrors(env, s, batch[..|batch| - 1]);
    }
  }

  /** An error is reported exactly when some record was not inserted. */
  lemma {:induction false} ErrorsExactlyOnFailure(env: Releases, s: Tally, data: seq<Record>, batchSize: int, ignoreConflicts: bool)
    requires NeverFails(env)
    ensures ErrorsMatch(s, Bulk(env, s, data, batchSize, ignoreConflicts))
    decreases |data|
  {
    if data != [] && batchSize >= 1 {
      var n := if |data| < batchSize then |data| else batchSize;
      BatchErrors(env, s, data[..n], ignoreConflicts);
      ErrorsExactlyOnFailure(env, InsertBatch(env, s, data[..n], ignoreConflicts), data[n..], batchSize, ignoreConflicts);
    }
  }

  // ---------- Accounting, whatever happens ----------

  /** Each failed release counts at least one record twice. */
  ghost predicate Accounted(before: Tally, after: Tally, records: nat) {
    var counted := after.successful + after.failed - before.successful - before.failed;
    && after.lost >= before.lost
    && counted >= records + (after.lost - before.lost)
    && (after.lost == before.lost ==> counted == records)
  }

  lemma {:induction false} EachAccounted(env: Releases, s: Tally, batch: seq<Record>)
    ensures Accounted(s, InsertEach(env, s, batch), |batch|)
  {
    if batch != [] {
      EachAccounted(env, s, batch[..|batch| - 1]);
    }
  }

  lemma BatchAccounted(env: Releases, s: Tally, batch: seq<Record>, ignoreConflicts: bool)
    requires batch != []
    ensures Accounted(s, InsertBatch(env, s, batch, ignoreConflicts), |batch|)
  {
    var b := RunBlock(s.table, batch, env(s.blocks));
    if b.Violation? && !ignoreConflicts {
      var s' := AfterBlock(s, b, |batch|);
      EachAccounted(env, s'.(errors := s'.errors + 1), batch);
    }
  }

  lemma {:induction false} BulkAccounted(env: Releases, s: Tally, data: seq<Record>, batchSize: int, ignoreConflicts: bool)
    requires batchSize >= 1
    ensures Accounted(s, Bulk(env, s, data, batchSize, ignoreConflicts), |data|)
    decreases |data|
  {
    if data != [] {
      var n := if |data| < batchSize then |data| else batchSize;
      BatchAccounted(env, s, data[..n], ignoreConflicts);
      BulkAccounted(env, InsertBatch(env, s, data[..n], ignoreConflicts), data[n..], batchSize, ignoreConflicts);
    }
  }

  /** The two counters add up to the number of records exactly when no release failed after its flush. */
  lemma LostIsMiscounted(env: Releases, t: Table, data: seq<Record>, batchSize: int, ignoreConflicts: bool)
    requires batchSize >= 1
    ensures var s := Bulk(env, Fresh(t), data, batchSize, ignoreConflicts);
            s.successful + s.failed == |data| <==> s.lost == 0
  {
    BulkAccounted(env, Fresh(t), data, batchSize, ignoreConflicts);
  }

  lemma {:induction false} EachLosesNothing(env: Releases, s: Tally, batch: seq<Record>)
    requires NeverFails(env)
    ensures InsertEach(env, s, batch).lost == s.lost
  {
    if batch != [] {
      EachLosesNothing(env, s, batch[..|batch| - 1]);
      OneIsPlain(env, InsertEach(env, s, batch[..|batch| - 1]), batch[|batch| - 1]);
    }
  }

  lemma {:induction false} BulkLosesNothing(env: Releases, s: Tally, data: seq<Record>, batchSize: int, ignoreConflicts: bool)
    requires NeverFails(env)
    ensures Bulk(env, s, data, batchSize, ignoreConflicts).lost == s.lost
    decreases |data|
  {
    if data != [] && batchSize >= 1 {
      var n := if |data| < batchSize then |data| else batchSize;
      var s' := AfterBlock(s, RunBlock(s.table, data[..n], env(s.blocks)), n);
      EachLosesNothing(env, s'.(errors := s'.errors + 1), data[..n]);
      BulkLosesNothing(env, InsertBatch(env, s, data[..n], ignoreConflicts), data[n..], batchSize, ignoreConflicts);
    }
  }

  /** The first savepoint whose release does not succeed. */
  lemma {:induction false} FirstFailure(env: Releases, n: nat) returns (m: nat)
    requires !env(n).Released?
    ensures m <= n && !env(m).Released? && forall i :: 0 <= i < m ==> env(i).Released?
  {
    if i: nat :| i < n && !env(i).Released? {
      m := FirstFailure(env, i);
    } else {
      m := n;
    }
  }

  ghost predicate NewKeys(t: Table, data: seq<Record>) {
    && (forall i :: 0 <= i < |data| ==> data[i].kind.Sound? && data[i].key !in t)
    && forall i, j :: 0 <= i < j < |data| ==> data[i].key != data[j].key
  }

  lemma SoundSingle(env: Releases, s: Tally, r: Record)
    requires Insertable(s.table, r)
    ensures var s' := InsertBatch(env, s, [r], true);
            if env(s.blocks).Released?
            then s'.table == s.table[r.key := r.payload] && s'.blocks == s.blocks + 1 && s'.lost == s.lost
            else s'.lost == s.lost + 1
  {
    var t := s.table[r.key := r.payload];
    assert InsertAll(t, [r][1..]) == Flushed(t);
    assert [r][0] == r;
  }

  /** Sound records one by one reach the release that fails. */
  lemma {:induction false} SoundReachFailure(env: Releases, s: Tally, data: seq<Record>)
    requires data != [] && NewKeys(s.table, data) && s.lost == 0
    requires forall i :: s.blocks <= i < s.blocks + |data| - 1 ==> env(i).Released?
    requires !env(s.blocks + |data| - 1).Released?
    ensures Bulk(env, s, data, 1, true).lost > 0
    decreases |data|
  {
    assert data[..1] == [data[0]];
    SoundSingle(env, s, data[0]);
    var s' := InsertBatch(env, s, [data[0]], true);
    if |data| == 1 {
      assert Bulk(env, s, data, 1, true) == Bulk(env, s', data[1..], 1, true) == s';
    } else {
      SoundReachFailure(env, s', data[1..]);
    }
  }

  ghost predicate AlwaysAddsUp(env: Releases) {
    forall t, data, batchSize: int, ignoreConflicts :: batchSize >= 1 ==>
      AddsUp(Bulk(env, Fresh(t), data, batchSize, ignoreConflicts), |data|)
  }

  predicate AddsUp(s: Tally, total: nat) {
    s.successful + s.failed == total
  }

  /** For all tables, data and settings the two counters add up exactly when no release in the session ever fails. */
  lemma CountersAddUp(env: Releases)
    ensures AlwaysAddsUp(env) <==> NeverFails(env)
  {
    if NeverFails(env) {
      forall t, data, batchSize: int, ignoreConflicts | batchSize >= 1
        ensures AddsUp(Bulk(env, Fresh(t), data, batchSize, ignoreConflicts), |data|)
      {
        BulkLosesNothing(env, Fresh(t), data, batchSize, ignoreConflicts);
        LostIsMiscounted(env, t, data, batchSize, ignoreConflicts);
      }
    } else {
      var n: nat :| !env(n).Released?;
      var m := FirstFailure(env, n);
      var data := seq(m + 1, (i: nat) => Record(i, 0, Sound));
      SoundReachFailure(env, Fresh(map[]), data);
      LostIsMiscounted(env, map[], data, 1, true);
      assert !AddsUp(Bulk(env, Fresh(map[]), data, 1, true), |data|);
    }
  }

  // ---------- The class ----------

  /** What `bulk_insert` returns, or the error of its `range`. */
  datatype Report = ValueError | Report(total: nat, successful: int, failed: int, errors: nat)

  /** A session on one table, and the manager's loops over it. */
  class BulkOperationManager {
    const batchSize: int
    const env: Releases
    var table: Table
    var blocks: nat
    ghost var lost: nat

    constructor (batchSize: int := 100, env: Releases, table: Table)
      ensures this.batchSize == batchSize && this.env == env
      ensures this.table == table && blocks == 0 && lost == 0
    {
      this.batchSize := batchSize;
      this.env := env;
      this.table := table;
      blocks := 0;
      lost := 0;
    }

    /** The state together with the counters of the running call. */
    ghost function At(successful: int, failed: int, errors: nat): Tally
      reads this
    {
      Tally(table, successful, failed, errors, blocks, lost)
    }

    /** One savepoint block: on any error the table is as before. */
    method Savepoint(batch: seq<Record>) returns (b: Block)
      modifies this
      ensures b == RunBlock(old(table), batch, env(old(blocks)))
      ensures b.Committed? <==> Storable(old(table), batch) && env(old(blocks)).Released?
      ensures !b.Committed? ==> table == old(table)
      ensures forall n: int, f: int, e: nat ::
                AfterBlock(old(At(n, f, e)), b, |batch|) == At(if b.Committed? || b.flushed then n + |batch| else n, f, e)
    {
      FlushExactly(table, batch);
      b := RunBlock(table, batch, env(blocks));
      if b.Committed? {
        table := b.table;
      } else if b.flushed {
        lost := lost + 1;
      }
      blocks := blocks + 1;
    }

    method HandleIndividualInserts(batch: seq<Record>, ghost n: int, ghost f: int, ghost e: nat)
      returns (successful: nat, failed: nat)
      modifies this
      ensures At(n + successful, f + failed, e) == InsertEach(env, old(At(n, f, e)), batch)
    {
      successful, failed := 0, 0;
      var i := 0;
      while i < |batch|
        invariant i <= |batch|
        invariant At(n + successful, f + failed, e) == InsertEach(env, old(At(n, f, e)), batch[..i])
      {
        ghost var s := At(n + successful, f + failed, e);
        var b := Savepoint([batch[i]]);
        if b.Committed? || b.flushed {
          successful := successful + 1;
        }
        if !b.Committed? {
          failed := failed + 1;
        }
        assert At(n + successful, f + failed, e) == InsertOne(env, s, batch[i]);
        assert batch[..i + 1][..i] == batch[..i];
        i := i + 1;
      }
      assert batch[..i] == batch;
    }

    method InsertBatchOf(batch: seq<Record>, ignoreConflicts: bool, n: int, f: int, e: nat)
      returns (successful: int, failed: int, errors: nat)
      modifies this
      ensures At(successful, failed, errors) == InsertBatch(env, old(At(n, f, e)), batch, ignoreConflicts)
    {
      successful, failed, errors := n, f, e;
      var b := Savepoint(batch);
      if b.Committed? || b.flushed {
        successful := successful + |batch|;
      }
      if b.Committed? {
        return;
      }
      failed := failed + |batch|;
      errors := errors + 1;
      if b.Violation? && !ignoreConflicts {
        ghost var s := At(successful, f, errors);
        var more, bad := HandleIndividualInserts(batch, successful, f, errors);
        successful := successful + more;
        failed := failed - |batch| + bad;
      }
    }

    /** A batch size of 0 makes `range` raise before anything is done. */
    method Insert(data: seq<Record>, ignoreConflicts: bool) returns (report: Report)
      modifies this
      ensures report.ValueError? <==> batchSize == 0
      ensures report.ValueError? ==> At(0, 0, 0) == old(At(0, 0, 0))
      ensures report.Report? ==> report.total == |data|
      ensures report.Report? ==> At(report.successful, report.failed, report.errors)
                                 == Bulk(env, old(At(0, 0, 0)), data, batchSize, ignoreConflicts)
      ensures Grows(old(table), table, data)
      ensures report.Report? && NeverFails(env) ==> report.successful == |table| - |old(table)|
    {
      BulkStores(env, At(0, 0, 0), data, batchSize, ignoreConflicts);
      if batchSize == 0 {
        return ValueError;
      }
      var successful, failed, errors := 0, 0, 0;
      var i := 0;
      while batchSize > 0 && i < |data|
        invariant i <= |data|
        invariant Bulk(env, At(successful, failed, errors), data[i..], batchSize, ignoreConflicts)
          == Bulk(env, old(At(0, 0, 0)), data, batchSize, ignoreConflicts)
        decreases |data| - i
      {
        var n := if |data| - i < batchSize then |data| - i else batchSize;
        assert data[i..][..n] == data[i..i + n] && data[i..][n..] == data[i + n..];
        successful, failed, errors := InsertBatchOf(data[i..i + n], ignoreConflicts, successful, failed, errors);
        i := i + n;
      }
      return Report(|data|, successful, failed, errors);
    }
  }
}
