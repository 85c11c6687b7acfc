/** The queues, the pool and the column scheduler as objects updated in place. The interleaving
    lives in the transition system; here a worker's turn runs to its end, and which worker takes
    the next turn is left open. */
module SchedulerClasses {
  import opened Mmio
  import opened TaskPool
  import opened PlatformClasses
  import Results = SchedulerResults

  class WorkStealingTaskQueue {
    var threadQueue: seq<Cell>

    constructor ()
      ensures threadQueue == []
    {
      threadQueue := [];
    }

    method Push(val: Cell)
      modifies this
      ensures threadQueue == [val] + old(threadQueue)
    {
      threadQueue := [val] + threadQueue;
    }

    method TryPop() returns (found: bool, val: Cell)
      modifies this
      ensures found <==> old(threadQueue) != []
      ensures found ==> [val] + threadQueue == old(threadQueue)
      ensures !found ==> val == Shell && threadQueue == old(threadQueue)
    {
      found, val := threadQueue != [], Shell;
      if found {
        val := threadQueue[0];
        threadQueue := threadQueue[1..];
      }
    }

    /** Moves the front out and then pops the back: right only when front and back are one entry. */
    method TrySteal() returns (found: bool, val: Cell)
      modifies this
      ensures found <==> old(threadQueue) != []
      ensures found ==> val == old(threadQueue)[0] && threadQueue == AfterSteal(old(threadQueue))
      ensures found ==> |threadQueue| == |old(threadQueue)| - 1 && (threadQueue != [] ==> threadQueue[0] == Shell)
                        && forall i :: 1 <= i < |threadQueue| ==> threadQueue[i] == old(threadQueue)[i]
      ensures !found ==> val == Shell && threadQueue == old(threadQueue)
    {
      found, val := threadQueue != [], Shell;
      if found {
        val := threadQueue[0];
        threadQueue := threadQueue[0 := Shell];
        threadQueue := threadQueue[..|threadQueue| - 1];
      }
    }
  }

  class TaskQueue {
    var threadQueue: seq<nat>

    constructor ()
      ensures threadQueue == []
    {
      threadQueue := [];
    }

    method Push(val: nat)
      modifies this
      ensures threadQueue == old(threadQueue) + [val]
    {
      threadQueue := threadQueue + [val];
    }

    method TryPop() returns (found: bool, val: nat)
      modifies this
      ensures found <==> old(threadQueue) != []
      ensures found ==> [val] + threadQueue == old(threadQueue)
      ensures !found ==> threadQueue == old(threadQueue)
    {
      found, val := threadQueue != [], 0;
      if found {
        val := threadQueue[0];
        threadQueue := threadQueue[1..];
      }
    }
  }

  class ThreadPool {
    const globalWorkerQueue: TaskQueue
    const queues: seq<WorkStealingTaskQueue>

    predicate Valid() {
      && queues != []
      && forall i, j :: 0 <= i < j < |queues| ==> queues[i] != queues[j]
    }

    constructor (workers: nat)
      requires workers > 0
      ensures Valid() && |queues| == workers
      ensures fresh(globalWorkerQueue) && globalWorkerQueue.threadQueue == []
      ensures forall i :: 0 <= i < |queues| ==> fresh(queues[i]) && queues[i].threadQueue == []
    {
      var global := new TaskQueue();
      var made: seq<WorkStealingTaskQueue> := [];
      for i := 0 to workers
        invariant |made| == i && fresh(global) && global.threadQueue == []
        invariant forall a :: 0 <= a < i ==> fresh(made[a]) && made[a].threadQueue == []
        invariant forall a, b :: 0 <= a < b < i ==> made[a] != made[b]
      {
        var q := new WorkStealingTaskQueue();
        made := made + [q];
      }
      globalWorkerQueue, queues := global, made;
    }

    /** `local_worker_queue` is set on worker threads only; everyone else reaches the global queue. */
    method Submit(onWorker: int, id: nat)
      requires Valid() && -1 <= onWorker < |queues|
      modifies globalWorkerQueue, queues
      ensures onWorker < 0 ==> globalWorkerQueue.threadQueue == old(globalWorkerQueue.threadQueue) + [id]
      ensures onWorker >= 0 ==> globalWorkerQueue.threadQueue == old(globalWorkerQueue.threadQueue)
      ensures forall i :: 0 <= i < |queues| ==>
                queues[i].threadQueue ==
                if i == onWorker then [Holds(id)] + old(queues[i].threadQueue) else old(queues[i].threadQueue)
    {
      if onWorker >= 0 {
        queues[onWorker].Push(Holds(id));
      } else {
        globalWorkerQueue.Push(id);
      }
    }

    /** Tries every queue once, starting after the worker's own and ending with it. */
    method PopTaskFromOtherWorkerQueue(instanceIndex: nat) returns (found: bool, task: Cell, ghost victim: nat)
      requires Valid() && instanceIndex < |queues|
      modifies queues
      ensures found <==> exists v :: 0 <= v < |queues| && old(queues[v].threadQueue) != []
      ensures !found ==> task == Shell && forall v :: 0 <= v < |queues| ==> queues[v].threadQueue == []
      ensures found ==> victim < |queues| && old(queues[victim].threadQueue) != []
                        && task == old(queues[victim].threadQueue)[0]
      ensures forall v :: 0 <= v < |queues| ==>
                queues[v].threadQueue ==
                if found && v == victim then AfterSteal(old(queues[v].threadQueue)) else old(queues[v].threadQueue)
    {
      victim := 0;
      for i := 0 to |queues|
        invariant forall v :: 0 <= v < |queues| ==> queues[v].threadQueue == old(queues[v].threadQueue)
        invariant forall j :: 0 <= j < i ==> queues[Rotate(instanceIndex, j, |queues|)].threadQueue == []
      {
        var index := Rotate(instanceIndex, i, |queues|);
        found, task := queues[index].TrySteal();
        if found {
          victim := index;
          return;
        }
      }
      found, task := false, Shell;
      forall v | 0 <= v < |queues|
        ensures queues[v].threadQueue == []
      {
        ScanReaches(instanceIndex, |queues|, v);
      }
    }

    /** One turn of a worker: its own deque, then the global queue, then everyone's deques. The empty
        answer means that all of them were empty. */
    method RunPendingTask(instanceIndex: nat) returns (task: Cell, ghost victim: nat)
      requires Valid() && instanceIndex < |queues|
      modifies globalWorkerQueue, queues
      ensures var own := old(queues[instanceIndex].threadQueue);
              var global := old(globalWorkerQueue.threadQueue);
              if own != [] then
                [task] + queues[instanceIndex].threadQueue == own
                && globalWorkerQueue.threadQueue == global
                && forall v :: 0 <= v < |queues| && v != instanceIndex ==>
                     queues[v].threadQueue == old(queues[v].threadQueue)
              else if global != [] then
                task == Holds(global[0]) && globalWorkerQueue.threadQueue == global[1..]
                && forall v :: 0 <= v < |queues| ==> queues[v].threadQueue == old(queues[v].threadQueue)
              else if exists v :: 0 <= v < |queues| && old(queues[v].threadQueue) != [] then
                && victim < |queues| && old(queues[victim].threadQueue) != []
                && task == old(queues[victim].threadQueue)[0] && globalWorkerQueue.threadQueue == global
                && forall v :: 0 <= v < |queues| ==>
                     queues[v].threadQueue ==
                     if v == victim then AfterSteal(old(queues[v].threadQueue)) else old(queues[v].threadQueue)
              else
                task == Shell && globalWorkerQueue.threadQueue == []
                && forall v :: 0 <= v < |queues| ==> queues[v].threadQueue == []
    {
      var found: bool;
      victim := 0;
      found, task := queues[instanceIndex].TryPop();
      if !found {
        var id: nat;
        found, id := globalWorkerQueue.TryPop();
        if found {
          task := Holds(id);
        } else {
          found, task, victim := PopTaskFromOtherWorkerQueue(instanceIndex);
        }
      }
    }
  }

  /** `(instance_index + i + 1) % (queues.size())`. */
  function Rotate(index: nat, i: nat, n: nat): (r: nat)
    requires n > 0
    ensures r < n
  {
    (index + i + 1) % n
  }

  /** The scan reaches every queue. */
  lemma ScanReaches(index: nat, n: nat, v: nat)
    requires index < n && v < n
    ensures exists i :: 0 <= i < n && Rotate(index, i, n) == v
  {
    var i := if v > index then v - index - 1 else v + n - index - 1;
    Results.Wrap(index + i + 1, n);
    assert Rotate(index, i, n) == v;
  }

  // ---------------------------------------------------------------- the column scheduler

  class ColumnScheduler {
    const guarded: ThreadSafePlatform
    const pool: ThreadPool
    var tasks: seq<Task>
    var values: map<nat, real>
    var results: seq<real>
    var tasksSubmitted: bool
    ghost var delivered: seq<real>   // history: what Next returned

    ghost function Footprint(): set<object>
      reads this
    {
      {this, guarded, guarded.platform, pool.globalWorkerQueue} + set q | q in pool.queues
    }

    /** Each task is queued in the global queue or has its value; the deques are empty. */
    ghost predicate Valid()
      reads Footprint()
    {
      && guarded.Valid() && !guarded.locked && guarded.platform.instances > 0
      && pool.Valid()
      && (forall v :: 0 <= v < |pool.queues| ==> pool.queues[v].threadQueue == [])
      && (forall id: nat :: id < |tasks| ==> id in values || id in pool.globalWorkerQueue.threadQueue)
      && (forall i :: 0 <= i < |pool.globalWorkerQueue.threadQueue| ==> pool.globalWorkerQueue.threadQueue[i] < |tasks|)
      && (forall id :: id in values ==> id < |tasks| && values[id] == Output(guarded.platform.kernel, tasks[id]))
    }

    constructor (platform: Platform, rivals: seq<nat>, workers: nat)
      requires platform.Valid() && platform.instances > 0 && workers > 0
      ensures Valid() && guarded.platform == platform && |pool.queues| == workers
      ensures results == [] && !tasksSubmitted && tasks == [] && delivered == [] && InOrder()
    {
      guarded := new ThreadSafePlatform(platform, rivals);
      pool := new ThreadPool(workers);
      tasks, values, results, tasksSubmitted, delivered := [], map[], [], false, [];
    }

    /** A worker takes one turn; a task that it finds runs to the end and fulfils its promise. */
    method Turn(w: nat)
      requires Valid() && w < |pool.queues|
      modifies this`values, guarded`locked, guarded`rivals, guarded.platform`blocks, guarded.platform`writes,
               guarded.platform`delay, pool.globalWorkerQueue, pool.queues
      ensures Valid()
      ensures old(values.Keys) <= values.Keys
      ensures if old(pool.globalWorkerQueue.threadQueue) == [] then pool.globalWorkerQueue.threadQueue == []
              else pool.globalWorkerQueue.threadQueue == old(pool.globalWorkerQueue.threadQueue)[1..]
    {
      ghost var before := pool.globalWorkerQueue.threadQueue;
      var task, victim := pool.RunPendingTask(w);
      if task.Holds? {
        assert before == [task.id] + before[1..];
        var value := RunInstanceProjection(guarded, w, tasks[task.id]);
        values := values[task.id := value];
      }
    }

    /** `futures[i].get()`: whichever worker is scheduled, the value arrives. */
    method Get(id: nat) returns (value: real)
      requires Valid() && id < |tasks|
      modifies this`values, guarded`locked, guarded`rivals, guarded.platform`blocks, guarded.platform`writes,
               guarded.platform`delay, pool.globalWorkerQueue, pool.queues
      ensures Valid()
      ensures value == Output(guarded.platform.kernel, tasks[id])
      ensures value * 262144.0 == guarded.platform.kernel(TaskWords(tasks[id])) as real
      ensures id in values && old(values.Keys) <= values.Keys
    {
      while id !in values
        invariant Valid() && old(values.Keys) <= values.Keys
        decreases |pool.globalWorkerQueue.threadQueue|
      {
        var w :| 0 <= w < |pool.queues|;
        Turn(w);
      }
      value := values[id];
      OutputIsFixedPoint(guarded.platform.kernel, tasks[id]);
    }

    /** Every task submitted so far has its value. */
    ghost predicate Settled(n: int)
      reads this
    {
      forall id: nat :: id < n ==> id in values
    }

    /** Between calls, what was delivered and what is queued are the outputs of all tasks in order. */
    ghost predicate InOrder()
      reads this, guarded, guarded.platform
    {
      && delivered + results == Results.Outputs(guarded.platform.kernel, tasks)
      && (tasks != [] ==> tasksSubmitted)
    }

    method Enqueue(chunk: Task)
      requires Valid()
      modifies this`tasks, pool.globalWorkerQueue, pool.queues
      ensures Valid()
      ensures tasks == old(tasks) + [chunk]
    {
      tasks := tasks + [chunk];
      pool.Submit(-1, |tasks| - 1);
      assert forall id: nat :: id in old(pool.globalWorkerQueue.threadQueue) ==>
               id in pool.globalWorkerQueue.threadQueue;
    }

    method EnqueueAll(chunks: seq<Task>)
      requires Valid()
      modifies this`tasks, pool.globalWorkerQueue, pool.queues
      ensures Valid()
      ensures tasks == old(tasks) + chunks
    {
      for i := 0 to |chunks|
        invariant Valid()
        invariant tasks == old(tasks) + chunks[..i]
      {
        Enqueue(chunks[i]);
      }
    }

    method CollectOne(id: nat)
      requires Valid() && Settled(id) && id < |tasks|
      modifies this`values, this`results, guarded`locked, guarded`rivals,
               guarded.platform`blocks, guarded.platform`writes, guarded.platform`delay,
               pool.globalWorkerQueue, pool.queues
      ensures Valid() && Settled(id + 1)
      ensures results == old(results) + [Output(guarded.platform.kernel, tasks[id])]
    {
      var value := Get(id);
      results := results + [value];
    }

    method CollectAll(first: nat, chunks: seq<Task>)
      requires Valid() && Settled(first) && first <= |tasks| && tasks[first..] == chunks
      modifies this`values, this`results, guarded`locked, guarded`rivals,
               guarded.platform`blocks, guarded.platform`writes, guarded.platform`delay,
               pool.globalWorkerQueue, pool.queues
      ensures Valid() && Settled(|tasks|)
      ensures results == old(results) + Results.Outputs(guarded.platform.kernel, chunks)
    {
      hide Valid, Settled;
      for i := 0 to |chunks|
        invariant Valid() && Settled(first + i)
        invariant results == old(results) + Results.Outputs(guarded.platform.kernel, chunks[..i])
      {
        assert tasks[first + i] == chunks[i];
        CollectOne(first + i);
      }
      assert chunks[..|chunks|] == chunks;
    }

    /** Appends the outputs of the chunks in chunk order, and leaves nothing queued. */
    method Submit(chunks: seq<Task>)
      requires Valid() && Settled(|tasks|) && InOrder()
      modifies Footprint()
      ensures Valid() && Settled(|tasks|) && InOrder()
      ensures results == old(results) + Results.Outputs(guarded.platform.kernel, chunks)
      ensures |results| == |old(results)| + |chunks| && old(results) <= results
      ensures forall n :: 0 <= n < |chunks| ==>
                results[|old(results)| + n] * 262144.0 == guarded.platform.kernel(TaskWords(chunks[n])) as real
      ensures tasksSubmitted && tasks == old(tasks) + chunks && delivered == old(delivered)
    {
      var first := |tasks|;
      EnqueueAll(chunks);
      CollectAll(first, chunks);
      tasksSubmitted := true;
      StillInOrder(guarded.platform.kernel, old(tasks), chunks, delivered, old(results), results);
      Results.AppendedInOrder(guarded.platform.kernel, chunks, old(results), results);
    }

    /** There is a next value exactly while fewer were taken than tasks submitted. */
    method HasNext() returns (answer: bool)
      requires InOrder()
      ensures answer <==> |delivered| < |tasks|
    {
      answer := results != [] && tasksSubmitted;
      assert |delivered| + |results| == |tasks|;
    }

    /** Returns the output of the first task whose value was not taken yet. Taking more values than tasks
        were submitted would spin, or be undefined. */
    method Next() returns (result: real)
      requires InOrder() && |delivered| < |tasks|
      modifies this`results, this`delivered
      ensures InOrder() && delivered == old(delivered) + [result]
      ensures result == Output(guarded.platform.kernel, tasks[old(|delivered|)])
      ensures result * 262144.0 == guarded.platform.kernel(TaskWords(tasks[old(|delivered|)])) as real
    {
      assert |delivered| + |results| == |tasks|;
      assert (delivered + results)[|delivered|] == results[0];
      result := results[0];
      delivered := delivered + [result];
      results := results[1..];
      assert delivered + results == old(delivered + results);
      OutputIsFixedPoint(guarded.platform.kernel, tasks[old(|delivered|)]);
    }
  }

  lemma StillInOrder(f: Kernel, tasks: seq<Task>, chunks: seq<Task>,
                     delivered: seq<real>, queued: seq<real>, results: seq<real>)
    requires delivered + queued == Results.Outputs(f, tasks)
    requires results == queued + Results.Outputs(f, chunks)
    ensures delivered + results == Results.Outputs(f, tasks + chunks)
  {
    hide Results.Outputs;
    OutputsAppend(f, tasks, chunks);
    assert delivered + results == (delivered + queued) + Results.Outputs(f, chunks);
  }

  lemma OutputsAppend(f: Kernel, a: seq<Task>, b: seq<Task>)
    ensures Results.Outputs(f, a + b) == Results.Outputs(f, a) + Results.Outputs(f, b)
  {
  }
}
