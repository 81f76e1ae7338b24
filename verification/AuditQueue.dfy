/**
 * SecurityEventQueue: a bounded deque that drops its oldest event when full, drained in
 * batches by background tasks. A step below runs from one await to the next; the model
 * lets a task be suspended at the lock as well as while its batch is being stored.
 */
module AuditQueue {
  import opened Prelude

  const BATCH_SIZE := 10

  type Event = int

  /** What the queue object holds, the tasks that exist, and what storage has been handed. */
  datatype Queue = Queue(
    maxSize: nat,
    events: seq<Event>,
    processing: bool,
    spawned: nat,              // tasks created and not yet started
    waiting: nat,              // tasks that have set the flag and wait for the lock
    storing: seq<seq<Event>>,  // batches being stored
    stored: seq<Event>,        // batches storage is done with, in order
    enqueued: seq<Event>,      // every event ever enqueued
    dropped: set<int>          // positions, in enqueued, of the events dropped
  )

  function Init(maxSize: nat): Queue {
    Queue(maxSize, [], false, 0, 0, [], [], [], {})
  }

  // ---------- Steps ----------

  /** deque.append: a full deque loses its oldest element, and one of size 0 the new one. */
  function Append(events: seq<Event>, e: Event, maxSize: nat): seq<Event> {
    Last(events + [e], maxSize)
  }

  /** `len >= batch_size or len > maxlen * 0.8` */
  predicate Ready(length: nat, maxSize: nat) {
    length >= BATCH_SIZE || 10 * length > 8 * maxSize
  }

  function EnqueueEvent(q: Queue, e: Event): Queue {
    var events := Append(q.events, e, q.maxSize);
    q.(events := events,
       spawned := if Ready(|events|, q.maxSize) && !q.processing then q.spawned + 1 else q.spawned,
       enqueued := q.enqueued + [e],
       dropped := if |q.events| == q.maxSize then q.dropped + {|q.enqueued| - |q.events|} else q.dropped)
  }

  function StartTask(q: Queue): Queue {
    if q.spawned == 0 then q
    else if q.processing then q.(spawned := q.spawned - 1)
    else q.(spawned := q.spawned - 1, processing := true, waiting := q.waiting + 1)
  }

  function BatchOf(events: seq<Event>): seq<Event> {
    if |events| < BATCH_SIZE then events else events[..BATCH_SIZE]
  }

  /** Inside the lock: take a batch, and start storing it unless it is empty. */
  function TakeBatch(q: Queue): Queue {
    if q.waiting == 0 then q
    else
      var batch := BatchOf(q.events);
      var q := q.(waiting := q.waiting - 1, events := q.events[|batch|..]);
      if batch == [] then q.(processing := false) else q.(storing := q.storing + [batch])
  }

  /** Storage is done with batch i, by success or by its fallback; the task clears the flag. */
  function FinishTask(q: Queue, i: nat): Queue {
    if i >= |q.storing| then q
    else q.(storing := q.storing[..i] + q.storing[i + 1..], stored := q.stored + q.storing[i], processing := false)
  }

  datatype Step = Enqueued(event: Event) | Started | Took | Finished(which: nat)

  function Apply(q: Queue, step: Step): Queue {
    match step
    case Enqueued(e) => EnqueueEvent(q, e)
    case Started => StartTask(q)
    case Took => TakeBatch(q)
    case Finished(i) => FinishTask(q, i)
  }

  function Run(maxSize: nat, steps: seq<Step>): Queue {
    if steps == [] then Init(maxSize) else Apply(Run(maxSize, steps[..|steps| - 1]), steps[|steps| - 1])
  }

  // ---------- The reference ----------

  /** The history without the events at the dropped positions. */
  function Keep(history: seq<Event>, dropped: set<int>): seq<Event> {
    if history == [] then []
    else
      var n := |history| - 1;
      Keep(history[..n], dropped) + if n in dropped then [] else [history[n]]
  }

  function Flatten(batches: seq<seq<Event>>): seq<Event> {
    if batches == [] then [] else batches[0] + Flatten(batches[1..])
  }

  lemma {:induction false} KeepAppend(a: seq<Event>, b: seq<Event>, dropped: set<int>)
    requires forall i :: |a| <= i < |a| + |b| ==> i !in dropped
    ensures Keep(a + b, dropped) == Keep(a, dropped) + b
  {
    if b == [] {
      assert a + b == a;
    } else {
      var n := |b| - 1;
      assert (a + b)[..|a| + n] == a + b[..n];
      KeepAppend(a, b[..n], dropped);
      assert b == b[..n] + [b[n]];
    }
  }

  lemma {:induction false} KeepIgnoresLater(a: seq<Event>, dropped: set<int>, i: nat)
    requires i >= |a|
    ensures Keep(a, dropped + {i}) == Keep(a, dropped)
  {
    if a != [] {
      KeepIgnoresLater(a[..|a| - 1], dropped, i);
    }
  }

  // ---------- The invariant ----------

  /** How many events have left the queue. */
  function Gone(q: Queue): int {
    |q.enqueued| - |q.events|
  }

  ghost predicate OneWorker(q: Queue) {
    q.waiting + |q.storing| == (if q.processing then 1 else 0)
  }

  ghost predicate InOrder(q: Queue) {
    && |q.events| <= q.maxSize && 0 <= Gone(q)
    && q.events == q.enqueued[Gone(q)..]
    && (forall i :: i in q.dropped ==> i < Gone(q))
    && q.stored + Flatten(q.storing) == Keep(q.enqueued[..Gone(q)], q.dropped)
  }

  ghost predicate SmallBatches(q: Queue) {
    forall i :: 0 <= i < |q.storing| ==> 1 <= |q.storing[i]| <= 10
  }

  lemma EnqueueKeepsOrder(q: Queue, e: Event)
    requires InOrder(q)
    ensures InOrder(EnqueueEvent(q, e))
  {
    var q' := EnqueueEvent(q, e);
    var g := Gone(q);
    assert (q.enqueued + [e])[g..] == q.events + [e];
    if |q.events| == q.maxSize {
      assert Gone(q') == g + 1;
      assert q'.enqueued[..g + 1] == q.enqueued[..g] + [q'.enqueued[g]];
      assert q'.enqueued[..g + 1][..g] == q.enqueued[..g];
      KeepIgnoresLater(q.enqueued[..g], q.dropped, g);
    } else {
      assert q'.enqueued[..g] == q.enqueued[..g];
    }
  }

  lemma FlattenOne(batch: seq<Event>)
    ensures Flatten([batch]) == batch
  {
    assert [batch][1..] == [];
    assert batch + [] == batch;
  }

  lemma TakeKeepsOrder(q: Queue)
    requires InOrder(q) && OneWorker(q)
    ensures InOrder(TakeBatch(q))
  {
    if q.waiting > 0 {
      var batch, q' := BatchOf(q.events), TakeBatch(q);
      KeepSlice(q.enqueued, Gone(q), batch, q.dropped);
      assert q.storing == [];
      assert q'.stored + Flatten(q'.storing) == q.stored + batch by {
        assert [] + [batch] == [batch];
        FlattenOne(batch);
      }
      assert q.stored + Flatten(q.storing) == q.stored;
      assert Gone(q') == Gone(q) + |batch|;
    }
  }

  lemma KeepSlice(history: seq<Event>, g: nat, batch: seq<Event>, dropped: set<int>)
    requires g + |batch| <= |history| && batch == history[g..g + |batch|]
    requires forall i :: i in dropped ==> i < g
    ensures Keep(history[..g + |batch|], dropped) == Keep(history[..g], dropped) + batch
    ensures history[g..][|batch|..] == history[g + |batch|..]
  {
    assert history[..g + |batch|] == history[..g] + batch;
    KeepAppend(history[..g], batch, dropped);
  }

  lemma FinishKeepsOrder(q: Queue, i: nat)
    requires InOrder(q) && OneWorker(q)
    ensures InOrder(FinishTask(q, i))
  {
    if i < |q.storing| {
      assert q.storing == [q.storing[0]];
      FlattenOne(q.storing[0]);
      assert FinishTask(q, i).storing == [];
    }
  }

  lemma StepKeepsOrder(q: Queue, step: Step)
    requires InOrder(q) && OneWorker(q)
    ensures InOrder(Apply(q, step)) && Apply(q, step).maxSize == q.maxSize
  {
    match step {
      case Enqueued(e) => EnqueueKeepsOrder(q, e);
      case Started =>
      case Took => TakeKeepsOrder(q);
      case Finished(i) => FinishKeepsOrder(q, i);
    }
  }

  lemma StepKeepsWorker(q: Queue, step: Step)
    requires OneWorker(q) && SmallBatches(q)
    ensures OneWorker(Apply(q, step)) && SmallBatches(Apply(q, step))
  {
  }

  lemma {:induction false} RunKeepsInvariant(maxSize: nat, steps: seq<Step>)
    ensures var q := Run(maxSize, steps); InOrder(q) && OneWorker(q) && SmallBatches(q) && q.maxSize == maxSize
  {
    if steps != [] {
      var q, step := Run(maxSize, steps[..|steps| - 1]), steps[|steps| - 1];
      RunKeepsInvariant(maxSize, steps[..|steps| - 1]);
      StepKeepsOrder(q, step);
      StepKeepsWorker(q, step);
    }
  }

  // ---------- The theorems ----------

  /** At most one batch is in flight, and it has between 1 and 10 events. */
  lemma OneBatchInFlight(maxSize: nat, steps: seq<Step>)
    ensures var q := Run(maxSize, steps);
            |q.storing| <= 1 && |q.events| <= maxSize && (|q.storing| == 1 ==> 1 <= |q.storing[0]| <= 10)
  {
    RunKeepsInvariant(maxSize, steps);
  }

  /** Stored, in flight and queued together are the history, in order, without the dropped events. */
  lemma {:induction false} NothingLostNorReordered(maxSize: nat, steps: seq<Step>)
    ensures var q := Run(maxSize, steps); q.stored + Flatten(q.storing) + q.events == Keep(q.enqueued, q.dropped)
  {
    RunKeepsInvariant(maxSize, steps);
    var q := Run(maxSize, steps);
    KeepAppend(q.enqueued[..Gone(q)], q.events, q.dropped);
    assert q.enqueued == q.enqueued[..Gone(q)] + q.events;
  }

  lemma TakeMeaning(q: Queue)
    requires OneWorker(q) && q.waiting > 0
    ensures var q', n := TakeBatch(q), if |q.events| < 10 then |q.events| else 10;
            && q'.events == q.events[n..] && q'.waiting == 0
            && (if n == 0 then q'.storing == [] && !q'.processing else q'.storing == [q.events[..n]] && q'.processing)
  {
    var n := if |q.events| < 10 then |q.events| else 10;
    assert q.events[..n] == BatchOf(q.events);
    assert q.storing == [];
    assert [] + [BatchOf(q.events)] == [BatchOf(q.events)];
  }

  /** In every run a task at the lock takes the oldest ten events, or all there are, and stores them or ends. */
  lemma TookTakes(maxSize: nat, steps: seq<Step>)
    requires Run(maxSize, steps).waiting > 0
    ensures var q, q' := Run(maxSize, steps), Run(maxSize, steps + [Took]);
            var n := if |q.events| < 10 then |q.events| else 10;
            && q'.events == q.events[n..] && q'.waiting == 0
            && (if n == 0 then q'.storing == [] && !q'.processing else q'.storing == [q.events[..n]] && q'.processing)
  {
    RunKeepsInvariant(maxSize, steps);
    assert (steps + [Took])[..|steps|] == steps;
    TakeMeaning(Run(maxSize, steps));
  }

  /** A task that starts goes to the lock unless another is at work, and one that ends hands over its batch. */
  lemma TasksMeaning(q: Queue, i: nat)
    requires OneWorker(q)
    ensures q.spawned > 0 && !q.processing ==> StartTask(q) == q.(spawned := q.spawned - 1, processing := true, waiting := 1)
    ensures q.spawned > 0 && q.processing ==> StartTask(q) == q.(spawned := q.spawned - 1)
    ensures i < |q.storing| ==> FinishTask(q, i) == q.(storing := [], stored := q.stored + q.storing[0], processing := false)
  {
  }

  /** An event is appended, a full queue loses its oldest, and a task is spawned exactly when a batch is ready and nobody is at work. */
  lemma EnqueueMeaning(q: Queue, e: Event)
    requires |q.events| <= q.maxSize
    ensures var q' := EnqueueEvent(q, e);
            && q'.events == (if q.maxSize == 0 then [] else if |q.events| == q.maxSize then q.events[1..] + [e] else q.events + [e])
            && q'.spawned == (if !q.processing && (|q'.events| >= 10 || 10 * |q'.events| > 8 * q.maxSize) then q.spawned + 1 else q.spawned)
            && q'.processing == q.processing && q'.waiting == q.waiting && q'.storing == q.storing && q'.stored == q.stored
  {
    assert |q.events| == q.maxSize > 0 ==> (q.events + [e])[1..] == q.events[1..] + [e];
  }

  /** What an event that meets a full queue pushes out: the oldest queued one, itself when the size is 0. */
  function Oldest(q: Queue, e: Event): Event {
    if q.events == [] then e else q.events[0]
  }

  /** The dropped positions after a step, and what stands at the new one. */
  ghost predicate DropsExactly(q: Queue, step: Step, q': Queue) {
    if step.Enqueued? && |q.events| == q.maxSize
    then q'.dropped == q.dropped + {Gone(q)} && Gone(q) !in q.dropped
         && 0 <= Gone(q) < |q'.enqueued| && q'.enqueued[Gone(q)] == Oldest(q, step.event)
    else q'.dropped == q.dropped
  }

  lemma EnqueueDrops(q: Queue, e: Event)
    requires InOrder(q)
    ensures DropsExactly(q, Enqueued(e), EnqueueEvent(q, e))
  {
    assert q.events != [] ==> q.events[0] == q.enqueued[Gone(q)];
  }

  lemma StepDrops(q: Queue, step: Step)
    requires InOrder(q)
    ensures DropsExactly(q, step, Apply(q, step))
  {
    match step {
      case Enqueued(e) => EnqueueDrops(q, e);
      case Started =>
      case Took => assert TakeBatch(q).dropped == q.dropped;
      case Finished(i) => assert FinishTask(q, i).dropped == q.dropped;
    }
  }

  /** A drop takes the oldest event still queued, and happens exactly when an event meets a full queue. */
  lemma DropsOldestWhenFull(maxSize: nat, steps: seq<Step>, step: Step)
    ensures var q := Run(maxSize, steps); q.maxSize == maxSize && DropsExactly(q, step, Apply(q, step))
  {
    RunKeepsInvariant(maxSize, steps);
    StepDrops(Run(maxSize, steps), step);
  }

  // ---------- When a ready queue is left without a task ----------

  /** Enough events for a batch, and neither a task at work nor one about to start. */
  predicate Stuck(q: Queue) {
    !q.processing && q.spawned == 0 && (|q.events| >= 10 || 10 * |q.events| > 8 * q.maxSize)
  }

  /** A batch ends with nobody to follow it, and enough events have come in meanwhile. */
  predicate EndsAlone(q: Queue, step: Step) {
    && step.Finished? && step.which < |q.storing| && q.spawned == 0
    && (|q.events| >= 10 || 10 * |q.events| > 8 * q.maxSize)
  }

  lemma StepStuck(q: Queue, step: Step)
    requires OneWorker(q) && SmallBatches(q) && |q.events| <= q.maxSize
    ensures Stuck(Apply(q, step)) <==> (Stuck(q) && Apply(q, step) == q) || EndsAlone(q, step)
  {
    match step {
      case Enqueued(e) =>
      case Started =>
      case Took => assert !Ready(0, q.maxSize);
      case Finished(i) =>
    }
  }

  /** In every run it gets stuck only where a batch ends alone, and stays so while nothing changes. */
  lemma StuckExactly(maxSize: nat, steps: seq<Step>, step: Step)
    ensures var q := Run(maxSize, steps);
            var q' := Apply(q, step);
            Stuck(q') <==> (Stuck(q) && q' == q) || EndsAlone(q, step)
  {
    RunKeepsInvariant(maxSize, steps);
    StepStuck(Run(maxSize, steps), step);
  }

  /** The next event always spawns a task for a stuck queue. */
  lemma EnqueueMovesOn(maxSize: nat, steps: seq<Step>, e: Event)
    requires Stuck(Run(maxSize, steps))
    ensures Run(maxSize, steps + [Enqueued(e)]).spawned == 1
  {
    RunKeepsInvariant(maxSize, steps);
    assert (steps + [Enqueued(e)])[..|steps|] == steps;
    StuckSpawns(Run(maxSize, steps), e);
  }

  lemma StuckSpawns(q: Queue, e: Event)
    requires Stuck(q) && |q.events| <= q.maxSize
    ensures EnqueueEvent(q, e).spawned == 1
  {
    assert |Append(q.events, e, q.maxSize)| >= |q.events|;
  }

  ghost predicate Reachable(q: Queue) {
    exists steps :: Run(q.maxSize, steps) == q
  }

  lemma Do(q: Queue, step: Step) returns (q': Queue)
    requires Reachable(q)
    ensures q' == Apply(q, step) && Reachable(q') && q'.maxSize == q.maxSize
  {
    var steps :| Run(q.maxSize, steps) == q;
    q' := Apply(q, step);
    assert (steps + [step])[..|steps|] == steps;
    assert Run(q.maxSize, steps + [step]) == q';
  }

  /** A burst fills the queue, whatever the worker is doing. */
  lemma {:induction false} Burst(q: Queue, n: nat) returns (q': Queue)
    requires Reachable(q) && |q.events| + n == q.maxSize
    ensures Reachable(q') && q'.maxSize == q.maxSize && |q'.events| == q.maxSize
    ensures q'.processing == q.processing && q'.waiting == q.waiting && q'.storing == q.storing
    ensures q.processing ==> q'.spawned == q.spawned
    ensures !q.processing && n > 0 ==> q'.spawned > 0
    decreases n
  {
    q' := q;
    if n > 0 {
      q' := Do(q, Enqueued(0));
      if n > 1 {
        q' := Burst(q', n - 1);
      }
    }
  }

  /** The first spawned task sets the flag and the others return. */
  lemma {:induction false} StartAll(q: Queue) returns (q': Queue)
    requires Reachable(q) && (q.spawned > 0 || q.processing)
    requires q.waiting == (if q.processing then 1 else 0)
    ensures Reachable(q') && q' == q.(spawned := 0, processing := true, waiting := 1)
    decreases q.spawned
  {
    q' := q;
    if q.spawned > 0 {
      q' := Do(q, Started);
      q' := StartAll(q');
    }
  }

  /** A burst, its task, a second burst while the batch is stored: the task ends and leaves a full queue. */
  lemma LeaveTail(maxSize: nat) returns (q: Queue)
    requires maxSize >= 1
    ensures Reachable(q) && q.maxSize == maxSize && Stuck(q) && |q.events| == maxSize
  {
    assert Run(maxSize, []) == Init(maxSize);
    q := Burst(Init(maxSize), maxSize);
    q := StartAll(q);
    q := Do(q, Took);
    q := Burst(q, maxSize - |q.events|);
    q := Do(q, Finished(0));
  }

  /** A burst can leave a whole queue of events with no task to take them, for every size but 0. */
  lemma BurstLeavesTail(maxSize: nat)
    ensures (exists q :: Reachable(q) && q.maxSize == maxSize && Stuck(q) && |q.events| == maxSize) <==> maxSize >= 1
  {
    if maxSize >= 1 {
      var q := LeaveTail(maxSize);
    }
  }

  // ---------- The class ----------

  class SecurityEventQueue {
    const maxSize: nat
    var events: seq<Event>
    var processing: bool
    var spawned: nat
    ghost var waiting: nat
    ghost var storing: seq<seq<Event>>
    ghost var stored: seq<Event>
    ghost var enqueued: seq<Event>
    ghost var dropped: set<int>

    ghost function State(): Queue
      reads this
    {
      Queue(maxSize, events, processing, spawned, waiting, storing, stored, enqueued, dropped)
    }

    constructor (maxSize: nat := 1000)
      ensures State() == Init(maxSize)
    {
      this.maxSize := maxSize;
      events, processing, spawned := [], false, 0;
      waiting, storing, stored, enqueued, dropped := 0, [], [], [], {};
    }

    method Enqueue(e: Event)
      modifies this
      ensures State() == EnqueueEvent(old(State()), e)
      ensures spawned == if !processing && (|events| >= 10 || 10 * |events| > 8 * maxSize) then old(spawned) + 1 else old(spawned)
    {
      if |events| == maxSize {
        dropped := dropped + {|enqueued| - |events|};
      }
      enqueued := enqueued + [e];
      events := Append(events, e, maxSize);
      if |events| >= BATCH_SIZE || 10 * |events| > 8 * maxSize {
        if !processing {
          spawned := spawned + 1;
        }
      }
    }

    /** A spawned task up to the lock; it returns at once when another is processing. */
    method Begin() returns (goesOn: bool)
      requires spawned > 0
      modifies this
      ensures State() == StartTask(old(State()))
      ensures goesOn == !old(processing) && processing && spawned == old(spawned) - 1
    {
      spawned := spawned - 1;
      if processing {
        return false;
      }
      processing := true;
      waiting := waiting + 1;
      return true;
    }

    /** The locked part of the task; an empty batch ends it. */
    method Extract() returns (batch: seq<Event>)
      requires waiting > 0
      modifies this
      ensures State() == TakeBatch(old(State()))
      ensures batch + events == old(events) && |batch| <= 10 && (|batch| == 10 || events == [])
    {
      var size := if |events| < BATCH_SIZE then |events| else BATCH_SIZE;
      batch := [];
      ghost var before := events;
      while |batch| < size
        invariant |batch| <= size && batch == before[..|batch|] && events == before[|batch|..]
        invariant unchanged(this`processing, this`spawned, this`waiting, this`storing, this`stored, this`enqueued, this`dropped)
        decreases size - |batch|
      {
        batch := batch + [events[0]];
        events := events[1..];
      }
      assert batch == BatchOf(before);
      waiting := waiting - 1;
      if batch == [] {
        processing := false;
      } else {
        storing := storing + [batch];
      }
    }

    /** The end of the task, once storage is done with its batch. */
    method End(ghost i: nat)
      requires i < |storing|
      modifies this
      ensures State() == FinishTask(old(State()), i)
      ensures stored == old(stored) + old(storing)[i] && !processing
    {
      stored := stored + storing[i];
      storing := storing[..i] + storing[i + 1..];
      processing := false;
    }
  }
}
