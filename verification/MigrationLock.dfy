/**
 * acquire_migration_lock: a lock kept as a row with an expiry. Several processes run the
 * context manager at once; each SQL statement is atomic and they interleave freely.
 */
module MigrationLock {
  import opened Prelude

  datatype Name = Name(operation: string)

  /** owner is the process that inserted the row; the code itself only records user@host. */
  datatype Row = Row(owner: nat, expiresAt: int)

  type Locks = map<Name, Row>

  // ---------- The SQL statements ----------

  /** DELETE ... WHERE expires_at < NOW() */
  function DeleteExpired(t: Locks, now: int): Locks {
    map n | n in t && !(t[n].expiresAt < now) :: t[n]
  }

  /** INSERT; None is the IntegrityError of the primary key. */
  function InsertRow(t: Locks, name: Name, row: Row): Option<Locks> {
    if name in t then None else Some(t[name := row])
  }

  /** DELETE ... WHERE lock_name = %s */
  function DeleteByName(t: Locks, name: Name): Locks {
    t - {name}
  }

  // ---------- The processes ----------

  /** The next statement of a process, or how it ended. */
  datatype Stage =
    | Connected   // about to delete expired locks
    | Cleaned     // about to insert
    | Conflicted  // the insert failed; about to select
    | Forcing     // saw an expired row; about to delete it
    | Removed     // about to insert again
    | InBody      // yielded, up to and including the release statement
    | Failed
    | Released
    | Crashed

  datatype Process = Process(name: Name, expiresAt: int, stage: Stage)

  datatype System = System(clock: int, locks: Locks, procs: map<nat, Process>)

  datatype Step =
    | Tick(to: int)
    | Arrive(id: nat, name: Name, timeout: int)
    | Execute(id: nat)
    | Crash(id: nat)

  /** Rows that earlier processes left behind come from the runs in which these crash. */
  function Init(): System {
    System(0, map[], map[])
  }

  function Move(s: System, id: nat, locks: Locks, stage: Stage): System
    requires id in s.procs
  {
    s.(locks := locks, procs := s.procs[id := s.procs[id].(stage := stage)])
  }

  /** The next statement of a process, with the branch the code takes on its result. */
  function Advance(s: System, id: nat): System
    requires id in s.procs
  {
    var p := s.procs[id];
    var row := Row(id, p.expiresAt);
    match p.stage
    case Connected => Move(s, id, DeleteExpired(s.locks, s.clock), Cleaned)
    case Cleaned =>
      var t := InsertRow(s.locks, p.name, row);
      if t.Some? then Move(s, id, t.value, InBody) else Move(s, id, s.locks, Conflicted)
    case Conflicted =>
      if p.name !in s.locks then Move(s, id, s.locks, InBody)
      else if s.locks[p.name].expiresAt > s.clock then Move(s, id, s.locks, Failed)
      else Move(s, id, s.locks, Forcing)
    case Forcing => Move(s, id, DeleteByName(s.locks, p.name), Removed)
    case Removed =>
      var t := InsertRow(s.locks, p.name, row);
      if t.Some? then Move(s, id, t.value, InBody) else Move(s, id, s.locks, Failed)
    case InBody => Move(s, id, DeleteByName(s.locks, p.name), Released)
    case _ => s
  }

  function Apply(s: System, step: Step): System {
    match step
    case Tick(to) => if to >= s.clock then s.(clock := to) else s
    case Arrive(id, name, timeout) =>
      if id in s.procs then s else s.(procs := s.procs[id := Process(name, s.clock + timeout, Connected)])
    case Execute(id) => if id in s.procs then Advance(s, id) else s
    case Crash(id) => if id in s.procs then Move(s, id, s.locks, Crashed) else s
  }

  /** A run: the states it passes through and the steps between them. */
  datatype Trace = Trace(states: seq<System>, steps: seq<Step>)

  ghost predicate Valid(tr: Trace) {
    && |tr.states| == |tr.steps| + 1 && tr.states[0] == Init()
    && forall i :: 0 <= i < |tr.steps| ==> tr.states[i + 1] == Apply(tr.states[i], tr.steps[i])
  }

  // ---------- What is wanted, and under which conditions ----------

  predicate Inside(s: System, id: nat) {
    id in s.procs && s.procs[id].stage.InBody?
  }

  /** At most one process per lock name is in the body. */
  ghost predicate Exclusive(s: System) {
    forall i, j :: Inside(s, i) && Inside(s, j) && s.procs[i].name == s.procs[j].name ==> i == j
  }

  predicate Owns(s: System, id: nat) {
    id in s.procs && s.procs[id].name in s.locks && s.locks[s.procs[id].name] == Row(id, s.procs[id].expiresAt)
  }

  /** Everyone in the body has its own row in the table. */
  ghost predicate Owned(s: System) {
    forall i :: Inside(s, i) ==> Owns(s, i)
  }

  /** Nobody is still in the body when its expiry comes. */
  ghost predicate InTime(s: System) {
    forall i :: Inside(s, i) ==> s.clock < s.procs[i].expiresAt
  }

  ghost predicate Timely(tr: Trace) {
    forall i :: 0 <= i < |tr.states| ==> InTime(tr.states[i])
  }

  /** A process whose insert failed looks the row up. */
  predicate Selects(s: System, step: Step) {
    step.Execute? && step.id in s.procs && s.procs[step.id].stage.Conflicted?
  }

  /** The row is there and has not expired: MigrationLockError. */
  predicate Refused(s: System, step: Step) {
    Selects(s, step) && s.procs[step.id].name in s.locks && s.locks[s.procs[step.id].name].expiresAt > s.clock
  }

  /** The row is gone, and the code goes on to yield without one. */
  predicate FallsThrough(s: System, step: Step) {
    Selects(s, step) && s.procs[step.id].name !in s.locks
  }

  ghost predicate ConflictsRefused(tr: Trace)
    requires Valid(tr)
  {
    forall i :: 0 <= i < |tr.steps| && Selects(tr.states[i], tr.steps[i]) ==> Refused(tr.states[i], tr.steps[i])
  }

  // ---------- Mutual exclusion when every conflict is refused ----------

  ghost predicate NeverForcing(s: System) {
    forall i :: i in s.procs ==> !s.procs[i].stage.Forcing? && !s.procs[i].stage.Removed?
  }

  lemma OwnedIsExclusive(s: System)
    requires Owned(s)
    ensures Exclusive(s)
  {
    forall i, j | Inside(s, i) && Inside(s, j) && s.procs[i].name == s.procs[j].name ensures i == j {
      assert Owns(s, i) && Owns(s, j);
    }
  }

  lemma StepKeepsOwned(s: System, step: Step)
    requires Owned(s) && NeverForcing(s) && InTime(s)
    requires Selects(s, step) ==> Refused(s, step)
    ensures Owned(Apply(s, step)) && NeverForcing(Apply(s, step))
  {
    var s' := Apply(s, step);
    forall i | Inside(s', i) ensures Owns(s', i) {
      if Inside(s, i) {
        assert Owns(s, i);
        if step.Execute? && Inside(s, step.id) && step.id != i {
          assert Owns(s, step.id);
        }
      }
    }
  }

  lemma {:induction false} RefusingRunsOwned(tr: Trace, n: nat)
    requires Valid(tr) && Timely(tr) && ConflictsRefused(tr) && n < |tr.states|
    ensures Owned(tr.states[n]) && NeverForcing(tr.states[n])
  {
    if n > 0 {
      RefusingRunsOwned(tr, n - 1);
      StepKeepsOwned(tr.states[n - 1], tr.steps[n - 1]);
    }
  }

  /** In time and with every conflict refused: one process in the body, and each release deletes the releaser's own row. */
  lemma MutualExclusion(tr: Trace, n: nat, id: nat)
    requires Valid(tr) && Timely(tr) && ConflictsRefused(tr) && n < |tr.states|
    ensures Exclusive(tr.states[n])
    ensures Inside(tr.states[n], id) ==>
              && Owns(tr.states[n], id)
              && Apply(tr.states[n], Execute(id)).locks == tr.states[n].locks - {tr.states[n].procs[id].name}
  {
    RefusingRunsOwned(tr, n);
    OwnedIsExclusive(tr.states[n]);
    if Inside(tr.states[n], id) {
      assert Owns(tr.states[n], id);
    }
  }

  // ---------- The exact condition for runs without crashes ----------

  ghost predicate CrashFree(tr: Trace) {
    forall i :: 0 <= i < |tr.steps| ==> !tr.steps[i].Crash?
  }

  /** Every row belongs to a process in the body. */
  ghost predicate RowsInUse(s: System) {
    forall n :: n in s.locks ==>
      var o := s.locks[n].owner; Inside(s, o) && s.procs[o].name == n && Owns(s, o)
  }

  lemma RowsOutlast(s: System, step: Step)
    requires RowsInUse(s) && InTime(s) && Selects(s, step) && !FallsThrough(s, step)
    ensures Refused(s, step)
  {
    var o := s.locks[s.procs[step.id].name].owner;
    assert Inside(s, o) && Owns(s, o);
  }

  lemma StepKeepsRowsInUse(s: System, step: Step)
    requires RowsInUse(s) && Owned(s) && NeverForcing(s) && !step.Crash?
    ensures RowsInUse(Apply(s, step))
  {
    var s' := Apply(s, step);
    forall n | n in s'.locks
      ensures var o := s'.locks[n].owner; Inside(s', o) && s'.procs[o].name == n && Owns(s', o)
    {
      if n in s.locks {
        var o := s.locks[n].owner;
        assert Inside(s, o) && s.procs[o].name == n && Owns(s, o);
      }
    }
  }

  lemma {:induction false} RowsOwnedUntilFallThrough(tr: Trace, n: nat)
    requires Valid(tr) && Timely(tr) && CrashFree(tr) && n < |tr.states|
    requires forall i :: 0 <= i < n ==> !FallsThrough(tr.states[i], tr.steps[i])
    ensures Owned(tr.states[n]) && NeverForcing(tr.states[n]) && RowsInUse(tr.states[n])
  {
    if n > 0 {
      var s, step := tr.states[n - 1], tr.steps[n - 1];
      RowsOwnedUntilFallThrough(tr, n - 1);
      if Selects(s, step) {
        RowsOutlast(s, step);
      }
      StepKeepsOwned(s, step);
      StepKeepsRowsInUse(s, step);
    }
  }

  /**
   * In a timely run without crashes everyone in the body always owns its row exactly when
   * no process falls through a select that finds nothing.
   */
  lemma OwnershipIsExact(tr: Trace)
    requires Valid(tr) && Timely(tr) && CrashFree(tr)
    ensures (forall i :: 0 <= i < |tr.states| ==> Owned(tr.states[i]))
            <==> (forall i :: 0 <= i < |tr.steps| ==> !FallsThrough(tr.states[i], tr.steps[i]))
  {
    if forall i :: 0 <= i < |tr.steps| ==> !FallsThrough(tr.states[i], tr.steps[i]) {
      forall i | 0 <= i < |tr.states| ensures Owned(tr.states[i]) {
        RowsOwnedUntilFallThrough(tr, i);
      }
    } else {
      var i :| 0 <= i < |tr.steps| && FallsThrough(tr.states[i], tr.steps[i]);
      var s' := tr.states[i + 1];
      assert s' == Apply(tr.states[i], tr.steps[i]);
      assert Inside(s', tr.steps[i].id) && !Owns(s', tr.steps[i].id);
    }
  }

  // ---------- Each condition is needed ----------

  function End(tr: Trace): System
    requires tr.states != []
  {
    tr.states[|tr.states| - 1]
  }

  /** Which conditions a run is asked to meet. */
  datatype Rules = Rules(timely: bool, crashFree: bool, noFallThrough: bool, conflictsRefused: bool)

  ghost predicate Allowed(r: Rules, s: System, step: Step) {
    && (r.timely ==> InTime(Apply(s, step)))
    && (r.crashFree ==> !step.Crash?)
    && (r.noFallThrough ==> !FallsThrough(s, step))
    && (r.conflictsRefused && Selects(s, step) ==> Refused(s, step))
  }

  ghost predicate Obeys(r: Rules, tr: Trace)
    requires Valid(tr)
  {
    forall i :: 0 <= i < |tr.steps| ==> Allowed(r, tr.states[i], tr.steps[i])
  }

  ghost predicate Reached(r: Rules, s: System) {
    exists tr :: Valid(tr) && Obeys(r, tr) && End(tr) == s
  }

  lemma InitReached(r: Rules)
    ensures Reached(r, Init())
  {
    var tr := Trace([Init()], []);
    assert Valid(tr) && Obeys(r, tr) && End(tr) == Init();
  }

  lemma Do(r: Rules, s: System, step: Step) returns (s': System)
    requires Reached(r, s) && Allowed(r, s, step)
    ensures s' == Apply(s, step) && Reached(r, s')
  {
    s' := Apply(s, step);
    var tr :| Valid(tr) && Obeys(r, tr) && End(tr) == s;
    var tr' := Trace(tr.states + [s'], tr.steps + [step]);
    assert Valid(tr') && Obeys(r, tr') && End(tr') == s';
  }

  /** The rules are the conditions of the theorems above. */
  lemma RulesMeaning(r: Rules, tr: Trace)
    requires Valid(tr) && Obeys(r, tr)
    ensures r.timely ==> Timely(tr)
    ensures r.crashFree ==> CrashFree(tr)
    ensures r.conflictsRefused ==> ConflictsRefused(tr)
    ensures r.noFallThrough ==> forall i :: 0 <= i < |tr.steps| ==> !FallsThrough(tr.states[i], tr.steps[i])
  {
    assert forall i :: 0 <= i < |tr.steps| ==> Allowed(r, tr.states[i], tr.steps[i]);
    if r.timely {
      forall i | 0 <= i < |tr.states| ensures InTime(tr.states[i]) {
        if i > 0 {
          assert tr.states[i] == Apply(tr.states[i - 1], tr.steps[i - 1]);
        }
      }
    }
  }

  /** A process arrives, cleans up and inserts; what stands under the name decides how that ends. */
  lemma Arriving(r: Rules, s: System, id: nat, name: Name) returns (s': System)
    requires Reached(r, s) && id !in s.procs && (r.timely ==> InTime(s))
    ensures Reached(r, s') && s'.clock == s.clock && (r.timely ==> InTime(s'))
    ensures var left := DeleteExpired(s.locks, s.clock);
            if name in left
            then s'.locks == left && s'.procs == s.procs[id := Process(name, s.clock + 10, Conflicted)]
            else s'.locks == left[name := Row(id, s.clock + 10)] && s'.procs == s.procs[id := Process(name, s.clock + 10, InBody)]
  {
    var s1 := Do(r, s, Arrive(id, name, 10));
    s' := CleanAndInsert(r, s1, id);
  }

  lemma CleanAndInsert(r: Rules, s: System, id: nat) returns (s': System)
    requires Reached(r, s) && id in s.procs && s.procs[id].stage.Connected?
    requires (r.timely ==> InTime(s)) && s.clock < s.procs[id].expiresAt
    ensures Reached(r, s') && s'.clock == s.clock && (r.timely ==> InTime(s'))
    ensures var left, p := DeleteExpired(s.locks, s.clock), s.procs[id];
            if p.name in left then s'.locks == left && s'.procs == s.procs[id := p.(stage := Conflicted)]
            else s'.locks == left[p.name := Row(id, p.expiresAt)] && s'.procs == s.procs[id := p.(stage := InBody)]
  {
    var s1 := Do(r, s, Execute(id));
    s' := Do(r, s1, Execute(id));
  }

  /** A row that goes between a failed insert and its select lets two processes in. */
  lemma FallThroughBreaksExclusion()
    ensures exists s :: Reached(Rules(true, true, false, false), s) && !Exclusive(s)
  {
    var name, r := Name("migration"), Rules(true, true, false, false);
    InitReached(r);
    var held := Arriving(r, Init(), 0, name);
    var waiting := Arriving(r, held, 1, name);
    var freed := Do(r, waiting, Execute(0));
    var fallen := Do(r, freed, Execute(1));
    var both := Arriving(r, fallen, 2, name);
    assert Inside(both, 1) && Inside(both, 2);
  }

  /** A holder that outstays its expiry loses its row to the next one's clean-up. */
  lemma LateHolderBreaksExclusion()
    ensures exists s :: Reached(Rules(false, true, true, true), s) && !Exclusive(s)
  {
    var name, r := Name("migration"), Rules(false, true, true, true);
    InitReached(r);
    var held := Arriving(r, Init(), 0, name);
    var late := Do(r, held, Tick(11));
    var both := Arriving(r, late, 1, name);
    assert Inside(both, 0) && Inside(both, 1);
  }

  /** A holder dies and leaves its row. */
  lemma HolderDies(r: Rules, name: Name) returns (s: System)
    requires r == Rules(true, false, true, false)
    ensures Reached(r, s) && s == System(5, map[name := Row(0, 10)], map[0 := Process(name, 10, Crashed)])
  {
    InitReached(r);
    s := Arriving(r, Init(), 0, name);
    s := Do(r, s, Crash(0));
    s := Do(r, s, Tick(5));
  }

  /** The row expires while two processes wait on it. */
  lemma TwoWaitOnDeadHolder(r: Rules, name: Name) returns (s: System)
    requires r == Rules(true, false, true, false)
    ensures Reached(r, s) && s.clock == 11 && name in s.locks && s.locks[name].expiresAt == 10
    ensures s.procs == map[0 := Process(name, 10, Crashed), 1 := Process(name, 15, Conflicted), 2 := Process(name, 15, Conflicted)]
  {
    s := HolderDies(r, name);
    s := Arriving(r, s, 1, name);
    s := Arriving(r, s, 2, name);
    s := Do(r, s, Tick(11));
  }

  /** A process that waits on an expired row takes it over by force. */
  lemma Forced(r: Rules, s: System, id: nat) returns (s': System)
    requires r == Rules(true, false, true, false) && Reached(r, s) && InTime(s)
    requires id in s.procs && s.procs[id].stage.Forcing? && s.clock < s.procs[id].expiresAt
    ensures Reached(r, s') && InTime(s') && s'.clock == s.clock
    ensures s'.procs == s.procs[id := s.procs[id].(stage := InBody)]
  {
    var s1 := Do(r, s, Execute(id));
    s' := Do(r, s1, Execute(id));
  }

  /** Two forced takeovers of one expired row let two processes in, though nobody is late or falls through. */
  lemma ForcedTakeoverBreaksExclusion()
    ensures exists s :: Reached(Rules(true, false, true, false), s) && !Exclusive(s)
  {
    var name, r := Name("migration"), Rules(true, false, true, false);
    var s := TwoWaitOnDeadHolder(r, name);
    s := Do(r, s, Execute(1));
    s := Do(r, s, Execute(2));
    s := Forced(r, s, 1);
    s := Forced(r, s, 2);
    assert Inside(s, 1) && Inside(s, 2);
  }

  // ---------- Which conditions are enough ----------

  /** Whatever a asks for, b asks for. */
  predicate AsksLess(a: Rules, b: Rules) {
    && (a.timely ==> b.timely) && (a.crashFree ==> b.crashFree)
    && (a.noFallThrough ==> b.noFallThrough) && (a.conflictsRefused ==> b.conflictsRefused)
  }

  lemma ReachedAskingLess(a: Rules, b: Rules, s: System)
    requires AsksLess(a, b) && Reached(b, s)
    ensures Reached(a, s)
  {
    var tr :| Valid(tr) && Obeys(b, tr) && End(tr) == s;
    assert Obeys(a, tr) by {
      forall i | 0 <= i < |tr.steps| ensures Allowed(a, tr.states[i], tr.steps[i]) {
        assert Allowed(b, tr.states[i], tr.steps[i]);
      }
    }
  }

  ghost predicate AlwaysExclusive(r: Rules) {
    forall s :: Reached(r, s) ==> Exclusive(s)
  }

  predicate Enough(r: Rules) {
    r.timely && (r.conflictsRefused || (r.crashFree && r.noFallThrough))
  }

  lemma EnoughIsExclusive(r: Rules, s: System)
    requires Enough(r) && Reached(r, s)
    ensures Exclusive(s)
  {
    var tr :| Valid(tr) && Obeys(r, tr) && End(tr) == s;
    RulesMeaning(r, tr);
    if r.conflictsRefused {
      MutualExclusion(tr, |tr.states| - 1, 0);
    } else {
      RowsOwnedUntilFallThrough(tr, |tr.states| - 1);
      OwnedIsExclusive(s);
    }
  }

  lemma BrokenAskingLess(a: Rules, b: Rules)
    requires AsksLess(a, b) && exists s :: Reached(b, s) && !Exclusive(s)
    ensures !AlwaysExclusive(a)
  {
    var s :| Reached(b, s) && !Exclusive(s);
    ReachedAskingLess(a, b, s);
  }

  /**
   * For every choice of conditions: no reachable state has two processes in the body of one lock
   * exactly when holders leave in time and either every conflict is refused, or nobody crashes
   * and nobody falls through.
   */
  lemma ExclusionIsExact(r: Rules)
    ensures AlwaysExclusive(r) <==> Enough(r)
  {
    if Enough(r) {
      forall s | Reached(r, s) ensures Exclusive(s) {
        EnoughIsExclusive(r, s);
      }
    } else if !r.timely {
      LateHolderBreaksExclusion();
      BrokenAskingLess(r, Rules(false, true, true, true));
    } else if !r.crashFree {
      ForcedTakeoverBreaksExclusion();
      BrokenAskingLess(r, Rules(true, false, true, false));
    } else {
      FallThroughBreaksExclusion();
      BrokenAskingLess(r, Rules(true, true, false, false));
    }
  }

  // ---------- A process by itself ----------

  predicate Settled(s: System, id: nat)
    requires id in s.procs
  {
    s.procs[id].stage.InBody? || s.procs[id].stage.Failed?
  }

  /** The process runs while nobody else does, until it is in the body or refused. */
  function Alone(s: System, id: nat, steps: nat): (s': System)
    requires id in s.procs
    ensures id in s'.procs
    decreases steps
  {
    if steps == 0 || Settled(s, id) then s else Alone(Advance(s, id), id, steps - 1)
  }

  /** The unexpired rows of other names, and those only, are still there. */
  ghost predicate OthersKept(before: Locks, after: Locks, name: Name, now: int) {
    forall n :: n != name ==>
      (n in after <==> n in before && before[n].expiresAt >= now) && (n in after ==> after[n] == before[n])
  }

  lemma AloneAfterConflict(s: System, id: nat)
    requires id in s.procs && s.procs[id].stage.Conflicted? && s.procs[id].name in s.locks
    ensures var p, s' := s.procs[id], Alone(s, id, 3);
            if s.locks[p.name].expiresAt > s.clock
            then s' == s.(procs := s.procs[id := p.(stage := Failed)])
            else s' == s.(locks := s.locks[p.name := Row(id, p.expiresAt)], procs := s.procs[id := p.(stage := InBody)])
  {
    var p := s.procs[id];
    var s1 := Advance(s, id);
    if s.locks[p.name].expiresAt <= s.clock {
      var s2 := Advance(s1, id);
      var s3 := Advance(s2, id);
      assert s.locks - {p.name} + map[p.name := Row(id, p.expiresAt)] == s.locks[p.name := Row(id, p.expiresAt)];
      assert Alone(s, id, 3) == Alone(s1, id, 2) == Alone(s2, id, 1) == Alone(s3, id, 0) == s3;
    } else {
      assert Alone(s, id, 3) == Alone(s1, id, 2) == s1;
    }
  }

  /**
   * It gets into the body exactly when no unexpired row has its name, and then the row is its own;
   * otherwise it fails and the row stays. The rows of other names go exactly when they have expired.
   */
  lemma AloneAcquires(s: System, id: nat)
    requires id in s.procs && s.procs[id].stage.Connected?
    ensures var p, s' := s.procs[id], Alone(s, id, 5);
            && (Inside(s', id) <==> !(p.name in s.locks && s.locks[p.name].expiresAt > s.clock))
            && (Inside(s', id) ==> Owns(s', id))
            && (!Inside(s', id) ==> s'.procs[id].stage.Failed? && p.name in s'.locks && s'.locks[p.name] == s.locks[p.name])
            && OthersKept(s.locks, s'.locks, p.name, s.clock)
  {
    var s1 := Advance(s, id);
    var s2 := Advance(s1, id);
    assert Alone(s, id, 5) == Alone(s1, id, 4) == Alone(s2, id, 3);
    if s2.procs[id].stage.Conflicted? {
      AloneAfterConflict(s2, id);
    }
  }

  // ---------- The context manager, when nobody interferes ----------

  /** The table and the code's statements against it; the clock is read once per call. */
  class MigrationManager {
    const lockTimeout: int
    var locks: Locks

    /** The table holds whatever rows earlier processes have left. */
    constructor (lockTimeout: int, locks: Locks)
      ensures this.locks == locks && this.lockTimeout == lockTimeout
    {
      this.lockTimeout := lockTimeout;
      this.locks := locks;
    }

    method Insert(name: Name, row: Row) returns (inserted: bool)
      modifies this
      ensures inserted <==> name !in old(locks)
      ensures locks == if inserted then old(locks)[name := row] else old(locks)
    {
      inserted := name !in locks;
      if inserted {
        locks := locks[name := row];
      }
    }

    /**
     * Up to the yield: it is refused exactly when an unexpired row stands under the name, and
     * otherwise the row is this process's own.
     */
    method Acquire(id: nat, name: Name, now: int) returns (acquired: bool)
      modifies this
      ensures acquired <==> !(name in old(locks) && old(locks)[name].expiresAt > now)
      ensures acquired ==> name in locks && locks[name] == Row(id, now + lockTimeout)
      ensures !acquired ==> name in locks && locks[name] == old(locks)[name]
      ensures OthersKept(old(locks), locks, name, now)
    {
      var row := Row(id, now + lockTimeout);
      locks := DeleteExpired(locks, now);
      acquired := Insert(name, row);
      if !acquired {
        if locks[name].expiresAt > now {
          return false;
        }
        locks := DeleteByName(locks, name);
        acquired := Insert(name, row);
      }
    }

    method Release(name: Name)
      modifies this
      ensures locks == old(locks) - {name}
    {
      locks := DeleteByName(locks, name);
    }
  }
}
