/**
 The maintenance task queue, its single worker, and the budget job that feeds it.

 A task is a row whose id is its position. Every commit of the worker is one event, so
 that crashes, restarts and sweeps of stale tasks can fall between any two of them.
 */
module Maintenance {

  import opened Prelude

  datatype Status = Inactive | Pending | Working | Completed | Error

  /** `orgIds` is the payload of a budget task. */
  datatype Processor = Budget(orgIds: seq<string>) | Other

  datatype Task = Task(status: Status, processor: Processor, createdAt: int, startedAt: Option<int>)

  const STALE_AFTER: int := 3600
  const NUM_RETRIES: int := 3
  const BATCH_SIZE: int := 25

  // ----- the queue as a step system -----

  datatype Queue = Queue(
    tasks: seq<Task>,
    running: Option<nat>,        // the task the worker is processing
    started: seq<nat>)           // every task start, in order

  datatype Event =
    | Enqueue(task: Task)
    | Start(id: nat, now: int)
    | Finish(ok: bool)
    | Crash
    | Sweep(now: int)

  ghost predicate IsOldestPending(tasks: seq<Task>, id: int) {
    && 0 <= id < |tasks| && tasks[id].status == Pending
    && forall j :: 0 <= j < |tasks| && tasks[j].status == Pending ==> tasks[id].createdAt <= tasks[j].createdAt
  }

  ghost predicate Enabled(q: Queue, e: Event) {
    match e
    case Enqueue(task) => task.status == Pending
    case Start(id, _) => q.running.None? && IsOldestPending(q.tasks, id)
    case Finish(_) => q.running.Some? && q.running.value < |q.tasks|
    case Crash => true
    case Sweep(_) => true
  }

  /** A task that has been working for more than an hour is taken for dead. */
  predicate Stale(t: Task, now: int) {
    t.status == Working && t.startedAt.Some? && t.startedAt.value < now - STALE_AFTER
  }

  function Swept(tasks: seq<Task>, now: int): (swept: seq<Task>)
    ensures |swept| == |tasks|
  {
    seq(|tasks|, i requires 0 <= i < |tasks| => if Stale(tasks[i], now) then tasks[i].(status := Error) else tasks[i])
  }

  ghost function Apply(q: Queue, e: Event): Queue
    requires Enabled(q, e)
  {
    match e
    case Enqueue(task) => q.(tasks := q.tasks + [task])
    case Start(id, now) =>
      q.(tasks := q.tasks[id := q.tasks[id].(status := Working, startedAt := Some(now))],
         running := Some(id), started := q.started + [id])
    case Finish(ok) =>
      var id := q.running.value;
      q.(tasks := q.tasks[id := q.tasks[id].(status := if ok then Completed else Error)], running := None)
    case Crash => q.(running := None)
    case Sweep(now) => q.(tasks := Swept(q.tasks, now))
  }

  ghost predicate Runs(q: Queue, events: seq<Event>, r: Queue)
    decreases |events|
  {
    if events == [] then q == r
    else Enabled(q, events[0]) && Runs(Apply(q, events[0]), events[1..], r)
  }

  predicate Distinct<T(==)>(xs: seq<T>) {
    forall i, j :: 0 <= i < j < |xs| ==> xs[i] != xs[j]
  }

  /** What was started is no longer waiting, and was started once. */
  ghost predicate Sound(q: Queue) {
    && Distinct(q.started)
    && (forall k :: 0 <= k < |q.started| ==>
          q.started[k] < |q.tasks| && q.tasks[q.started[k]].status in {Working, Completed, Error})
    && (q.running.Some? ==> q.running.value in q.started)
  }

  ghost predicate NeverBackToPending(q: Queue, r: Queue) {
    && |q.tasks| <= |r.tasks|
    && forall i :: 0 <= i < |q.tasks| && q.tasks[i].status != Pending ==> r.tasks[i].status != Pending
  }

  lemma EventKeepsSound(q: Queue, e: Event)
    requires Sound(q) && Enabled(q, e)
    ensures Sound(Apply(q, e)) && NeverBackToPending(q, Apply(q, e)) && q.started <= Apply(q, e).started
  {
    if e.Start? {
      assert forall k :: 0 <= k < |q.started| ==> q.started[k] != e.id;
    }
  }

  /**
   Across any sequence of starts, finishes, crashes, restarts and sweeps, no task returns
   to PENDING and none is started twice.
   */
  lemma {:induction false} StartedAtMostOnce(q: Queue, events: seq<Event>, r: Queue)
    requires Sound(q) && Runs(q, events, r)
    ensures Sound(r) && Distinct(r.started) && NeverBackToPending(q, r) && q.started <= r.started
    decreases |events|
  {
    if events != [] {
      EventKeepsSound(q, events[0]);
      StartedAtMostOnce(Apply(q, events[0]), events[1..], r);
    }
  }

  lemma {:induction false} RunThen(q: Queue, events: seq<Event>, r: Queue, e: Event)
    requires Runs(q, events, r) && Enabled(r, e)
    ensures Runs(q, events + [e], Apply(r, e))
    decreases |events|
  {
    if events == [] {
      assert ([e])[1..] == [];
    } else {
      RunThen(Apply(q, events[0]), events[1..], r, e);
      assert (events + [e])[1..] == events[1..] + [e];
    }
  }

  // ----- the worker -----

  /** How a task's processing goes; `Undecodable` fails before the processor is called. */
  datatype Outcome = Succeeds | Fails | Undecodable

  function PendingCount(tasks: seq<Task>): nat {
    if tasks == [] then 0
    else PendingCount(tasks[..|tasks| - 1]) + if tasks[|tasks| - 1].status == Pending then 1 else 0
  }

  lemma {:induction false} OneFewerPending(tasks: seq<Task>, id: nat, t: Task)
    requires id < |tasks| && tasks[id].status == Pending && t.status != Pending
    ensures PendingCount(tasks[id := t]) == PendingCount(tasks) - 1
  {
    var n := |tasks| - 1;
    if id == n {
      assert tasks[id := t][..n] == tasks[..n];
    } else {
      OneFewerPending(tasks[..n], id, t);
      assert tasks[id := t][..n] == tasks[..n][id := t];
    }
  }

  function Finished(t: Task, now: int, o: Outcome): Task {
    t.(status := if o == Succeeds then Completed else Error, startedAt := Some(now))
  }

  /** The processor calls made for the tasks started in this order. */
  function CallsFor(tasks: seq<Task>, order: seq<nat>, outcome: nat -> Outcome): seq<Processor>
    requires forall k :: 0 <= k < |order| ==> order[k] < |tasks|
  {
    if order == [] then []
    else
      var id := order[|order| - 1];
      CallsFor(tasks, order[..|order| - 1], outcome) +
      if outcome(id) == Undecodable then [] else [tasks[id].processor]
  }

  /** `order` takes some waiting tasks, each once, oldest first, and leaves none older waiting. */
  ghost predicate TakesOldestFirst(tasks: seq<Task>, order: seq<nat>) {
    && (forall k :: 0 <= k < |order| ==> order[k] < |tasks| && tasks[order[k]].status == Pending)
    && Distinct(order)
    && (forall a, b :: 0 <= a < b < |order| ==> tasks[order[a]].createdAt <= tasks[order[b]].createdAt)
    && (forall a, j :: 0 <= a < |order| && 0 <= j < |tasks| && tasks[j].status == Pending && j !in order ==>
          tasks[order[a]].createdAt <= tasks[j].createdAt)
  }

  /** The tasks after the worker went through `order`. */
  ghost predicate WorkedOff(tasks: seq<Task>, order: seq<nat>, outcome: nat -> Outcome, tasks': seq<Task>) {
    && |tasks'| == |tasks|
    && forall j :: 0 <= j < |tasks| ==>
         if j in order
         then tasks'[j].startedAt.Some? && tasks'[j] == Finished(tasks[j], tasks'[j].startedAt.value, outcome(j))
         else tasks'[j] == tasks[j]
  }

  lemma OneMoreTaken(tasks: seq<Task>, order: seq<nat>, outcome: nat -> Outcome, tasks': seq<Task>, id: nat, now: int)
    requires TakesOldestFirst(tasks, order) && WorkedOff(tasks, order, outcome, tasks') && IsOldestPending(tasks', id)
    ensures id !in order && tasks'[id] == tasks[id]
    ensures TakesOldestFirst(tasks, order + [id])
    ensures WorkedOff(tasks, order + [id], outcome, tasks'[id := Finished(tasks[id], now, outcome(id))])
    ensures CallsFor(tasks, order + [id], outcome) ==
            CallsFor(tasks, order, outcome) + if outcome(id) == Undecodable then [] else [tasks[id].processor]
  {
    var more := order + [id];
    assert more[..|order|] == order;
    assert forall j :: 0 <= j < |tasks| ==> (j in more <==> j in order || j == id);
  }

  lemma NoneLeft(tasks: seq<Task>, order: seq<nat>, outcome: nat -> Outcome, tasks': seq<Task>)
    requires WorkedOff(tasks, order, outcome, tasks')
    requires forall j :: 0 <= j < |tasks'| ==> tasks'[j].status != Pending
    ensures forall j :: 0 <= j < |tasks| && tasks[j].status == Pending ==> j in order
  {
  }

  class TaskRunner {
    var tasks: seq<Task>
    var calls: seq<Processor>        // every processor call, in order
    ghost var started: seq<nat>      // every task start, in order

    ghost function State(): Queue
      reads this
    {
      Queue(tasks, None, started)
    }

    constructor (tasks: seq<Task>)
      ensures this.tasks == tasks && calls == [] && started == []
    {
      this.tasks, this.calls, this.started := tasks, [], [];
    }

    method SetStaleTaskError(now: int)
      modifies `tasks
      ensures tasks == Swept(old(tasks), now) && State() == Apply(old(State()), Sweep(now))
    {
      for i := 0 to |tasks|
        invariant |tasks| == |old(tasks)|
        invariant forall j :: 0 <= j < i ==> tasks[j] == Swept(old(tasks), now)[j]
        invariant forall j :: i <= j < |tasks| ==> tasks[j] == old(tasks)[j]
      {
        if Stale(tasks[i], now) {
          tasks := tasks[i := tasks[i].(status := Error)];
        }
      }
    }

    /** The query: the waiting task created first. */
    method OldestPending() returns (id: Option<nat>)
      ensures id.Some? ==> IsOldestPending(tasks, id.value)
      ensures id.None? ==> forall j :: 0 <= j < |tasks| ==> tasks[j].status != Pending
    {
      id := None;
      for i := 0 to |tasks|
        invariant id.Some? ==> IsOldestPending(tasks[..i], id.value)
        invariant id.None? ==> forall j :: 0 <= j < i ==> tasks[j].status != Pending
      {
        if tasks[i].status == Pending && (id.None? || tasks[i].createdAt < tasks[id.value].createdAt) {
          id := Some(i);
        }
      }
    }

    method NextTask() returns (id: Option<nat>)
      ensures id.Some? ==> IsOldestPending(tasks, id.value)
      ensures id.None? ==> forall j :: 0 <= j < |tasks| ==> tasks[j].status != Pending
    {
      var retries := NUM_RETRIES;
      while true
        invariant retries >= 0
        decreases retries
      {
        id := OldestPending();
        if id.Some? {
          return;
        }
        retries := retries - 1;
        if retries < 0 {
          return;
        }
      }
    }

    /** Starts a task, calls its processor and records how it went. */
    method Process(id: nat, now: int, o: Outcome, ghost from: Queue, ghost before: seq<Event>)
      returns (ghost events: seq<Event>)
      requires IsOldestPending(tasks, id) && Runs(from, before, State())
      modifies this
      ensures tasks == old(tasks)[id := Finished(old(tasks)[id], now, o)] && started == old(started) + [id]
      ensures calls == old(calls) + if o == Undecodable then [] else [old(tasks)[id].processor]
      ensures Runs(from, events, State())
    {
      RunThen(from, before, State(), Start(id, now));
      ghost var working := Apply(State(), Start(id, now));
      RunThen(from, before + [Start(id, now)], working, Finish(o == Succeeds));
      events := before + [Start(id, now)] + [Finish(o == Succeeds)];
      tasks := tasks[id := tasks[id].(status := Working, startedAt := Some(now))];
      started := started + [id];
      if o != Undecodable {
        calls := calls + [tasks[id].processor];
      }
      tasks := tasks[id := tasks[id].(status := if o == Succeeds then Completed else Error)];
      assert State() == Apply(working, Finish(o == Succeeds));
    }

    /** The worker: no task is left waiting, each was started once, oldest first, with its outcome recorded. */
    method RunTasks(outcome: nat -> Outcome, clock: nat -> int)
      returns (ghost events: seq<Event>, ghost order: seq<nat>)
      modifies this
      ensures forall j :: 0 <= j < |tasks| ==> tasks[j].status != Pending
      ensures TakesOldestFirst(old(tasks), order) && WorkedOff(old(tasks), order, outcome, tasks)
      ensures forall j :: 0 <= j < |old(tasks)| && old(tasks)[j].status == Pending ==> j in order
      ensures started == old(started) + order && calls == old(calls) + CallsFor(old(tasks), order, outcome)
      ensures Runs(old(State()), events, State())
    {
      events, order := [], [];
      var turn := 0;
      while true
        invariant TakesOldestFirst(old(tasks), order) && WorkedOff(old(tasks), order, outcome, tasks)
        invariant started == old(started) + order && calls == old(calls) + CallsFor(old(tasks), order, outcome)
        invariant Runs(old(State()), events, State())
        decreases PendingCount(tasks)
      {
        var next := NextTask();
        if next.None? {
          NoneLeft(old(tasks), order, outcome, tasks);
          return;
        }
        var id := next.value;
        OneMoreTaken(old(tasks), order, outcome, tasks, id, clock(turn));
        OneFewerPending(tasks, id, Finished(tasks[id], clock(turn), outcome(id)));
        AppendIsAssociative(old(started), order, [id]);
        AppendIsAssociative(old(calls), CallsFor(old(tasks), order, outcome),
                            if outcome(id) == Undecodable then [] else [tasks[id].processor]);
        events := Process(id, clock(turn), outcome(id), old(State()), events);
        order := order + [id];
        turn := turn + 1;
      }
    }

    /** Counts the waiting and working budget tasks. */
    method CountOpenBudgetTasks() returns (open: nat)
      ensures open > 0 <==> HasOpenBudget(tasks)
    {
      open := 0;
      for i := 0 to |tasks|
        invariant open > 0 <==> exists j :: 0 <= j < i && OpenBudget(tasks[j])
      {
        if OpenBudget(tasks[i]) {
          open := open + 1;
        }
      }
    }

    /** Queues one task per batch, unless budget work is already queued. */
    method EnqueueBudgetTasks(orgIds: seq<string>, batchSize: int, now: int) returns (total: nat)
      requires batchSize > 0
      modifies `tasks
      ensures HasOpenBudget(old(tasks)) ==> total == 0 && tasks == old(tasks)
      ensures !HasOpenBudget(old(tasks)) ==>
                total == |orgIds| && tasks == old(tasks) + BudgetTasks(Chunked(orgIds, batchSize), now)
    {
      var existing := CountOpenBudgetTasks();
      if existing > 0 {
        return 0;
      }
      if orgIds == [] {
        return 0;
      }
      var batches := Chunked(orgIds, batchSize);
      for c := 0 to |batches|
        invariant tasks == old(tasks) + BudgetTasks(batches, now)[..c]
      {
        tasks := tasks + [Task(Pending, Budget(batches[c]), now, None)];
      }
      total := |orgIds|;
    }

    /**
     The budget job: enqueue, sweep, work off the queue. With no budget task open before,
     every organisation goes to exactly one of the processor calls it makes, in a batch of
     1 to 25.
     */
    method BudgetMaintenance(orgIds: seq<string>, now: int, outcome: nat -> Outcome, clock: nat -> int)
      returns (ghost made: seq<Processor>)
      requires !HasOpenBudget(tasks) && Distinct(orgIds)
      requires forall i :: i >= |tasks| ==> outcome(i) != Undecodable
      modifies this
      ensures calls == old(calls) + made
      ensures forall j :: 0 <= j < |tasks| ==> tasks[j].status != Pending
      ensures forall o :: o in orgIds ==> CallsWith(made, o) == 1
      ensures forall p :: p in made && p.Budget? ==> IsBatchOf(p.orgIds, orgIds)
    {
      var total := EnqueueBudgetTasks(orgIds, BATCH_SIZE, now);
      SetStaleTaskError(now);
      ghost var queued := tasks;
      ghost var events, order;
      events, order := RunTasks(outcome, clock);
      made := CallsFor(queued, order, outcome);
      SweepKeepsBatches(old(tasks), orgIds, now);
      forall o | o in orgIds ensures CallsWith(made, o) == 1 {
        ReachedOnce(old(tasks), orgIds, queued, order, outcome, o);
      }
      forall p | p in made && p.Budget? ensures IsBatchOf(p.orgIds, orgIds) {
        CallsAreBatches(old(tasks), orgIds, queued, order, outcome, p);
      }
    }
  }

  predicate OpenBudget(t: Task) {
    t.processor.Budget? && (t.status == Pending || t.status == Working)
  }

  predicate HasOpenBudget(tasks: seq<Task>) {
    exists i :: 0 <= i < |tasks| && OpenBudget(tasks[i])
  }

  // ----- batches -----

  function Chunked(values: seq<string>, size: int): (chunks: seq<seq<string>>)
    requires size > 0
    decreases |values|
  {
    if values == [] then []
    else if |values| <= size then [values]
    else [values[..size]] + Chunked(values[size..], size)
  }

  function Concat(chunks: seq<seq<string>>): seq<string> {
    if chunks == [] then [] else chunks[0] + Concat(chunks[1..])
  }

  /** The batches are non-empty, at most `size` long, full except for the last, and in order make up the input. */
  lemma {:induction false} ChunksCover(values: seq<string>, size: int)
    requires size > 0
    ensures Concat(Chunked(values, size)) == values
    ensures forall c :: 0 <= c < |Chunked(values, size)| ==> 1 <= |Chunked(values, size)[c]| <= size
    ensures forall c :: 0 <= c < |Chunked(values, size)| - 1 ==> |Chunked(values, size)[c]| == size
    decreases |values|
  {
    if |values| > size {
      var chunks, rest := Chunked(values, size), Chunked(values[size..], size);
      ChunksCover(values[size..], size);
      assert chunks[1..] == rest && forall c :: 0 < c < |chunks| ==> chunks[c] == rest[c - 1];
    } else if values != [] {
      assert Chunked(values, size)[1..] == [];
    }
  }

  lemma {:induction false} ChunkElements(values: seq<string>, size: int, c: nat, x: string)
    requires size > 0 && c < |Chunked(values, size)| && x in Chunked(values, size)[c]
    ensures x in values
    decreases |values|
  {
    if |values| > size && c > 0 {
      ChunkElements(values[size..], size, c - 1, x);
    }
  }

  /** Distinct values land in one batch each. */
  lemma {:induction false} OwnChunk(values: seq<string>, size: int, x: string) returns (c: nat)
    requires size > 0 && Distinct(values) && x in values
    ensures c < |Chunked(values, size)| && x in Chunked(values, size)[c]
    ensures forall d :: 0 <= d < |Chunked(values, size)| && d != c ==> x !in Chunked(values, size)[d]
    decreases |values|
  {
    if |values| <= size {
      c := 0;
    } else {
      var chunks, rest := Chunked(values, size), Chunked(values[size..], size);
      assert values == values[..size] + values[size..];
      if x in values[..size] {
        c := 0;
        assert x !in values[size..];
        forall d | 0 < d < |chunks| ensures x !in chunks[d] {
          assert chunks[d] == rest[d - 1];
          if x in rest[d - 1] {
            ChunkElements(values[size..], size, d - 1, x);
          }
        }
      } else {
        c := OwnChunk(values[size..], size, x);
        c := c + 1;
      }
    }
  }

  function BudgetTasks(batches: seq<seq<string>>, now: int): seq<Task> {
    seq(|batches|, c requires 0 <= c < |batches| => Task(Pending, Budget(batches[c]), now, None))
  }

  predicate Contains(p: Processor, org: string) {
    p.Budget? && org in p.orgIds
  }

  function CallsWith(calls: seq<Processor>, org: string): nat {
    if calls == [] then 0
    else CallsWith(calls[..|calls| - 1], org) + if Contains(calls[|calls| - 1], org) then 1 else 0
  }

  lemma CallsWithLast(calls: seq<Processor>, p: Processor, org: string)
    ensures CallsWith(calls + [p], org) == CallsWith(calls, org) + if Contains(p, org) then 1 else 0
  {
    assert (calls + [p])[..|calls|] == calls;
  }

  /** If one task alone carries the organisation, it is handed out as often as that task is taken. */
  lemma {:induction false} HandedOutByOneTask(tasks: seq<Task>, order: seq<nat>, outcome: nat -> Outcome,
                                              org: string, id: nat)
    requires forall k :: 0 <= k < |order| ==> order[k] < |tasks|
    requires Distinct(order) && id < |tasks| && outcome(id) != Undecodable
    requires forall k :: 0 <= k < |order| ==> (Contains(tasks[order[k]].processor, org) <==> order[k] == id)
    ensures CallsWith(CallsFor(tasks, order, outcome), org) == if id in order then 1 else 0
  {
    if order != [] {
      var n := |order| - 1;
      var init, last := order[..n], order[n];
      assert order == init + [last];
      HandedOutByOneTask(tasks, init, outcome, org, id);
      assert CallsFor(tasks, init, outcome) + [] == CallsFor(tasks, init, outcome);
      CallsWithLast(CallsFor(tasks, init, outcome), tasks[last].processor, org);
    }
  }

  lemma {:induction false} CallsAreTaken(tasks: seq<Task>, order: seq<nat>, outcome: nat -> Outcome, p: Processor)
    requires forall k :: 0 <= k < |order| ==> order[k] < |tasks|
    requires p in CallsFor(tasks, order, outcome)
    ensures exists k :: 0 <= k < |order| && tasks[order[k]].processor == p
  {
    var n := |order| - 1;
    if p in CallsFor(tasks, order[..n], outcome) {
      CallsAreTaken(tasks, order[..n], outcome, p);
      var k :| 0 <= k < n && tasks[order[..n][k]].processor == p;
      assert tasks[order[k]].processor == p;
    } else {
      assert tasks[order[n]].processor == p;
    }
  }

  predicate IsBatchOf(batch: seq<string>, orgIds: seq<string>) {
    1 <= |batch| <= BATCH_SIZE && forall o :: o in batch ==> o in orgIds
  }

  /** `queued` is the table after the enqueue and the sweep. */
  ghost predicate QueuedFrom(tasks: seq<Task>, orgIds: seq<string>, queued: seq<Task>) {
    var batches := Chunked(orgIds, BATCH_SIZE);
    && |queued| == |tasks| + |batches|
    && (forall j :: 0 <= j < |tasks| ==> queued[j].status == Pending ==> queued[j].processor.Other?)
    && (forall j :: |tasks| <= j < |queued| ==>
          queued[j].status == Pending && queued[j].processor == Budget(batches[j - |tasks|]))
  }

  lemma SweepKeepsBatches(tasks: seq<Task>, orgIds: seq<string>, now: int)
    requires !HasOpenBudget(tasks)
    ensures QueuedFrom(tasks, orgIds, Swept(tasks + BudgetTasks(Chunked(orgIds, BATCH_SIZE), now), now))
  {
  }

  lemma ReachedOnce(tasks: seq<Task>, orgIds: seq<string>, queued: seq<Task>, order: seq<nat>,
                    outcome: nat -> Outcome, o: string)
    requires QueuedFrom(tasks, orgIds, queued) && Distinct(orgIds) && o in orgIds
    requires TakesOldestFirst(queued, order)
    requires forall j :: 0 <= j < |queued| && queued[j].status == Pending ==> j in order
    requires forall i :: i >= |tasks| ==> outcome(i) != Undecodable
    ensures CallsWith(CallsFor(queued, order, outcome), o) == 1
  {
    var c := OwnChunk(orgIds, BATCH_SIZE, o);
    HandedOutByOneTask(queued, order, outcome, o, |tasks| + c);
  }

  lemma CallsAreBatches(tasks: seq<Task>, orgIds: seq<string>, queued: seq<Task>, order: seq<nat>,
                        outcome: nat -> Outcome, p: Processor)
    requires QueuedFrom(tasks, orgIds, queued) && TakesOldestFirst(queued, order)
    requires p in CallsFor(queued, order, outcome) && p.Budget?
    ensures IsBatchOf(p.orgIds, orgIds)
  {
    CallsAreTaken(queued, order, outcome, p);
    var k :| 0 <= k < |order| && queued[order[k]].processor == p;
    var c := order[k] - |tasks|;
    ChunksCover(orgIds, BATCH_SIZE);
    forall o | o in p.orgIds ensures o in orgIds {
      ChunkElements(orgIds, BATCH_SIZE, c, o);
    }
  }
}
