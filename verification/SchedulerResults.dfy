/** What clients get: conservation of tasks, the value of each future, the order of results. */
module SchedulerResults {
  import opened Mmio
  import opened SchedulerModel
  import opened SchedulerSafety
  import opened SchedulerInvariants
  import Pool = TaskPool

  // ---------------------------------------------------------------- tasks

  /** Tasks are conserved; and since only the client thread submits, the deques are never used. */
  ghost predicate Tasks(c: Config, s: State)
    requires WellFormed(c, s)
  {
    && Pool.Conserved(s.pool)
    && Pool.Started(s.pool)
    && Pool.InTurn(s.pool)
    && forall w :: 0 <= w < c.workers ==> s.pool.deques[w] == []
  }

  /** The queue-level step that a label performs, if any. */
  ghost predicate PoolMove(p: Pool.Pool, q: Pool.Pool, step: Pool.Step) {
    Pool.Valid(p) && Pool.Enabled(p, step) && q == Pool.Apply(p, step) && Pool.ShortSteal(p, step)
  }

  lemma PoolMoveKeepsTasks(c: Config, s: State, t: State, step: Pool.Step)
    requires WellFormed(c, s) && Tasks(c, s) && WellFormed(c, t)
    requires PoolMove(s.pool, t.pool, step) && (step.SubmitGlobal? || step.PopGlobal? || step.Complete?)
    ensures Tasks(c, t)
  {
    Pool.StepConserved(s.pool, step);
    Pool.StepStarted(s.pool, step);
    Pool.StepInTurn(s.pool, step);
    hide Pool.InTurn, Pool.Conserved, Pool.Started;
  }

  lemma ScanPool(c: Config, s: State, w: nat)
    requires WellFormed(c, s) && w < c.workers && Scanning(s.control[w])
    requires forall v :: 0 <= v < c.workers ==> s.pool.deques[v] == []
    ensures if s.control[w].AtGlobal? && s.pool.global != []
            then PoolMove(s.pool, Scan(c, s, w).pool, Pool.PopGlobal(w))
            else Scan(c, s, w).pool == s.pool
  {
    assert WorkerWellFormed(c, s, w);
  }

  predicate Returns(s: State, w: nat)
    requires w < |s.control|
  {
    s.control[w].Fetching? && s.control[w].at == 3
  }

  lemma FetchPool(c: Config, s: State, w: nat)
    requires WellFormed(c, s) && w < c.workers && s.control[w].Fetching?
    ensures if Returns(s, w)
            then PoolMove(s.pool, FetchStep(c, s, w).pool, Pool.Complete(w))
            else FetchStep(c, s, w).pool == s.pool
  {
    assert WorkerWellFormed(c, s, w);
  }

  lemma StepKeepsTasks(c: Config, s: State, l: Label)
    requires WellFormed(c, s) && Enabled(c, s, l) && Tasks(c, s)
    requires WellFormed(c, Apply(c, s, l))
    ensures Tasks(c, Apply(c, s, l))
  {
    var t := Apply(c, s, l);
    match l
    case ByWorker(w) =>
      if Scanning(s.control[w]) {
        ScanPool(c, s, w);
        if t.pool != s.pool { PoolMoveKeepsTasks(c, s, t, Pool.PopGlobal(w)); }
      } else if s.control[w].Fetching? {
        FetchPool(c, s, w);
        if t.pool != s.pool { PoolMoveKeepsTasks(c, s, t, Pool.Complete(w)); }
      } else {
        WorkFrame(c, s, w);
      }
    case ByDevice(k) =>
    case ByClient(cmd) =>
      if t.pool != s.pool { PoolMoveKeepsTasks(c, s, t, Pool.SubmitGlobal); }
  }

  // ---------------------------------------------------------------- values

  ghost predicate Values(c: Config, s: State)
    requires WellFormed(c, s)
  {
    && (forall id: nat :: id in s.values <==> id in s.pool.finished)
    && forall id :: id in s.values ==> id < |s.tasks| && s.values[id] == Output(c.kernel, s.tasks[id])
  }

  lemma ReturnedValue(c: Config, s: State, w: nat)
    requires WellFormed(c, s) && w < c.workers && Returns(s, w) && WorkerStage(c, s, w)
    ensures Scaled(Join(s.control[w].high, s.control[w].low)) == Output(c.kernel, TaskOf(c, s, w))
  {
    var b := View(s.device, c.instances, Instance(c, w));
    SplitJoin(b[NUM_COLS].result);
  }

  lemma FetchKeepsValues(c: Config, s: State, w: nat)
    requires WellFormed(c, s) && w < c.workers && s.control[w].Fetching?
    requires WorkerStage(c, s, w) && Values(c, s)
    requires WellFormed(c, FetchStep(c, s, w))
    ensures Values(c, FetchStep(c, s, w))
  {
    var t := FetchStep(c, s, w);
    FetchPool(c, s, w);
    assert WorkerWellFormed(c, s, w);
    if Returns(s, w) {
      ReturnedValue(c, s, w);
      assert t.pool.finished == s.pool.finished + [s.pool.running[w].id];
      assert t.tasks == s.tasks;
    } else {
      assert t.values == s.values && t.tasks == s.tasks;
    }
  }

  lemma SameValues(c: Config, s: State, t: State)
    requires WellFormed(c, s) && WellFormed(c, t) && Values(c, s)
    requires t.values == s.values && t.pool.finished == s.pool.finished && s.tasks <= t.tasks
    ensures Values(c, t)
  {
    hide WellFormed;
  }

  lemma StepKeepsValues(c: Config, s: State, l: Label)
    requires WellFormed(c, s) && Enabled(c, s, l) && Tasks(c, s) && Stages(c, s) && Values(c, s)
    requires WellFormed(c, Apply(c, s, l))
    ensures Values(c, Apply(c, s, l))
  {
    hide Values, Scan, WriteStep, PollStep, WorkerStage;
    var t := Apply(c, s, l);
    match l
    case ByWorker(w) =>
      WorkFrame(c, s, w);
      if s.control[w].Fetching? {
        assert WorkerStage(c, s, w);
        FetchKeepsValues(c, s, w);
      } else {
        if Scanning(s.control[w]) { ScanPool(c, s, w); }
        SameValues(c, s, t);
      }
    case ByDevice(k) => SameValues(c, s, t);
    case ByClient(cmd) => SameValues(c, s, t);
  }

  // ---------------------------------------------------------------- client

  function Outputs(f: Kernel, tasks: seq<Task>): (r: seq<real>)
    ensures |r| == |tasks|
  {
    seq(|tasks|, i requires 0 <= i < |tasks| => Output(f, tasks[i]))
  }

  /** How many of the submitted tasks have been collected. */
  function Collected(s: State): int {
    match s.client
    case Resting => |s.tasks|
    case Pushing(_, next) => |s.tasks| - next
    case Collecting(first, _, next) => first + next
  }

  ghost predicate Ordered(c: Config, s: State)
    requires WellFormed(c, s)
  {
    && 0 <= Collected(s) <= |s.tasks|
    && s.delivered + s.results == Outputs(c.kernel, s.tasks)[..Collected(s)]
    && (forall id: nat :: id < Collected(s) ==> id in s.values)
    && (s.client.Pushing? ==> s.tasks[|s.tasks| - s.client.next..] == s.client.batch[..s.client.next])
    && (!s.tasksSubmitted && s.client == Resting ==> s.tasks == [])
  }

  lemma OutputsSpelledOut(f: Kernel, tasks: seq<Task>)
    ensures |Outputs(f, tasks)| == |tasks|
    ensures forall i :: 0 <= i < |tasks| ==> Outputs(f, tasks)[i] * 262144.0 == f(TaskWords(tasks[i])) as real
  {
    forall i | 0 <= i < |tasks|
      ensures Outputs(f, tasks)[i] * 262144.0 == f(TaskWords(tasks[i])) as real
    {
      OutputIsFixedPoint(f, tasks[i]);
    }
  }

  lemma AppendedInOrder(f: Kernel, chunks: seq<Task>, queued: seq<real>, results: seq<real>)
    requires results == queued + Outputs(f, chunks)
    ensures |results| == |queued| + |chunks| && queued <= results
    ensures forall n :: 0 <= n < |chunks| ==> results[|queued| + n] * 262144.0 == f(TaskWords(chunks[n])) as real
  {
    OutputsSpelledOut(f, chunks);
    forall n | 0 <= n < |chunks|
      ensures results[|queued| + n] * 262144.0 == f(TaskWords(chunks[n])) as real
    {
      assert results[|queued| + n] == Outputs(f, chunks)[n];
    }
  }

  lemma OutputsExtend(f: Kernel, tasks: seq<Task>, task: Task, n: nat)
    requires n <= |tasks|
    ensures Outputs(f, tasks + [task])[..n] == Outputs(f, tasks)[..n]
  {
  }

  lemma PushKeepsOrdered(c: Config, s: State)
    requires WellFormed(c, s) && s.client.Pushing? && Ordered(c, s)
    requires WellFormed(c, ClientStep(s, Proceed))
    ensures Ordered(c, ClientStep(s, Proceed))
  {
    hide Outputs, Output, WorkerWellFormed;
    var t := ClientStep(s, Proceed);
    var Pushing(batch, next) := s.client;
    if next < |batch| {
      OutputsExtend(c.kernel, s.tasks, batch[next], Collected(s));
      assert t.tasks == s.tasks + [batch[next]] && t.client == Pushing(batch, next + 1);
      assert t.values == s.values && t.results == s.results && t.delivered == s.delivered;
      LastOnesExtend(s.tasks, batch, next);
    } else {
      assert t.tasks == s.tasks && t.client == Collecting(|s.tasks| - |batch|, |batch|, 0);
    }
  }

  lemma LastOnesExtend(tasks: seq<Task>, batch: seq<Task>, n: nat)
    requires n < |batch| && n <= |tasks| && tasks[|tasks| - n..] == batch[..n]
    ensures var longer := tasks + [batch[n]];
            longer[|longer| - (n + 1)..] == batch[..n + 1]
  {
    var longer := tasks + [batch[n]];
    assert longer[|longer| - (n + 1)..] == tasks[|tasks| - n..] + [batch[n]];
  }

  lemma CollectKeepsOrdered(c: Config, s: State)
    requires WellFormed(c, s) && s.client.Collecting? && ClientEnabled(s, Proceed) && Values(c, s) && Ordered(c, s)
    requires WellFormed(c, ClientStep(s, Proceed))
    ensures Ordered(c, ClientStep(s, Proceed))
  {
    var t := ClientStep(s, Proceed);
    var Collecting(first, count, next) := s.client;
    if next < count {
      var outs := Outputs(c.kernel, s.tasks);
      assert outs[..first + next + 1] == outs[..first + next] + [outs[first + next]];
      assert t.results == s.results + [s.values[first + next]] && t.delivered == s.delivered;
      assert t.delivered + t.results == (s.delivered + s.results) + [s.values[first + next]];
    }
  }

  lemma ClientKeepsOrdered(c: Config, s: State, cmd: Command)
    requires WellFormed(c, s) && ClientEnabled(s, cmd) && Values(c, s) && Ordered(c, s)
    requires WellFormed(c, ClientStep(s, cmd))
    ensures Ordered(c, ClientStep(s, cmd))
  {
    match cmd
    case Submit(batch) =>
    case Next =>
      var t := ClientStep(s, cmd);
      assert [s.results[0]] + s.results[1..] == s.results;
      assert t.delivered + t.results == s.delivered + s.results;
    case Proceed =>
      if s.client.Pushing? { PushKeepsOrdered(c, s); } else { CollectKeepsOrdered(c, s); }
  }

  lemma StepKeepsOrdered(c: Config, s: State, l: Label)
    requires WellFormed(c, s) && Enabled(c, s, l) && Tasks(c, s) && Stages(c, s) && Values(c, s) && Ordered(c, s)
    requires WellFormed(c, Apply(c, s, l)) && Values(c, Apply(c, s, l))
    ensures Ordered(c, Apply(c, s, l))
  {
    match l
    case ByWorker(w) =>
      WorkFrame(c, s, w);
      ValuesGrow(c, s, w);
    case ByDevice(k) =>
    case ByClient(cmd) => ClientKeepsOrdered(c, s, cmd);
  }

  lemma ValuesGrow(c: Config, s: State, w: nat)
    requires WellFormed(c, s) && w < c.workers
    ensures s.values.Keys <= Work(c, s, w).values.Keys
  {
    WorkFrame(c, s, w);
    assert WorkerWellFormed(c, s, w);
  }

  // ---------------------------------------------------------------- the scan

  /** What a worker has found empty so far in this call of run_pending_task. */
  ghost predicate WorkerScanned(c: Config, ctl: Control, w: nat)
    requires c.workers > 0
  {
    match ctl
    case AtGlobal(seen) => Deque(w) in seen
    case AtSteal(i, seen) =>
      Deque(w) in seen && Global in seen && forall j :: 0 <= j < i ==> Deque(Victim(c, w, j)) in seen
    case _ => true
  }

  ghost predicate Scanned(c: Config, s: State)
    requires WellFormed(c, s)
  {
    forall w :: 0 <= w < c.workers ==> WorkerScanned(c, s.control[w], w)
  }

  lemma WorkKeepsScanned(c: Config, s: State, w: nat)
    requires WellFormed(c, s) && w < c.workers && WorkerScanned(c, s.control[w], w)
    ensures |Work(c, s, w).control| == |s.control|
    ensures WorkerScanned(c, Work(c, s, w).control[w], w)
  {
    hide WriteStep, PollStep, FetchStep;
    assert WorkerWellFormed(c, s, w);
    RunControl(c, s, w);
  }

  lemma RunControl(c: Config, s: State, w: nat)
    requires WellFormed(c, s) && w < c.workers
    ensures |Work(c, s, w).control| == |s.control|
    ensures !Scanning(s.control[w]) ==>
              Work(c, s, w).control[w].AtLocal? || !Scanning(Work(c, s, w).control[w])
  {
    hide Scan, BatchWrite, ReadBlock;
    WorkControlOthers(c, s, w);
    assert WorkerWellFormed(c, s, w);
  }

  lemma StepKeepsScanned(c: Config, s: State, l: Label)
    requires WellFormed(c, s) && Enabled(c, s, l) && Scanned(c, s)
    requires WellFormed(c, Apply(c, s, l))
    ensures Scanned(c, Apply(c, s, l))
  {
    hide WorkerScanned, Work;
    if l.ByWorker? {
      assert WorkerScanned(c, s.control[l.w], l.w);
      WorkKeepsScanned(c, s, l.w);
      WorkControlOthers(c, s, l.w);
    } else {
      assert Apply(c, s, l).control == s.control;
    }
  }

  /** The steal loop visits every queue once, its own last. */
  lemma VictimsCoverQueues(c: Config, w: nat, v: nat)
    requires w < c.workers && v < c.workers
    ensures exists i :: 0 <= i < c.workers && Victim(c, w, i) == v
    ensures forall i, j :: 0 <= i < j < c.workers ==> Victim(c, w, i) != Victim(c, w, j)
    ensures Victim(c, w, c.workers - 1) == w
  {
    var n := c.workers;
    forall i | 0 <= i < n
      ensures Victim(c, w, i) == if w + i + 1 < n then w + i + 1 else w + i + 1 - n
    {
      Wrap(w + i + 1, n);
    }
    var i := if v > w then v - w - 1 else v + n - w - 1;
    assert Victim(c, w, i) == v;
  }

  lemma Wrap(x: nat, n: nat)
    requires 0 < n && x < 2 * n
    ensures x % n == if x < n then x else x - n
  {
    if x >= n {
      assert x == n * 1 + (x - n);
    }
  }

  // ---------------------------------------------------------------- every reachable state

  ghost predicate Invariant(c: Config, s: State) {
    && WellFormed(c, s)
    && Stages(c, s)
    && Exclusive(c, s)
    && History(c, s)
    && Tasks(c, s)
    && Values(c, s)
    && Ordered(c, s)
    && Scanned(c, s)
  }

  lemma InitInvariant(c: Config, s: State)
    requires IsInit(c, s)
    ensures Invariant(c, s)
  {
    Pool.InitGood(c.workers);
    assert Outputs(c.kernel, s.tasks)[..0] == [];
  }

  lemma StepKeepsInvariant(c: Config, s: State, l: Label)
    requires Invariant(c, s) && Enabled(c, s, l)
    ensures Invariant(c, Apply(c, s, l))
  {
    StepKeepsStages(c, s, l);
    StepKeepsExclusive(c, s, l);
    StepKeepsHistory(c, s, l);
    StepKeepsTasks(c, s, l);
    StepKeepsValues(c, s, l);
    StepKeepsOrdered(c, s, l);
    StepKeepsScanned(c, s, l);
  }

  lemma {:induction false} RunInvariant(c: Config, states: seq<State>, labels: seq<Label>, n: nat)
    requires IsRun(c, states, labels) && n <= |labels|
    ensures Invariant(c, states[n])
  {
    if n == 0 {
      InitInvariant(c, states[0]);
    } else {
      RunInvariant(c, states, labels, n - 1);
      StepKeepsInvariant(c, states[n - 1], labels[n - 1]);
    }
  }

  ghost predicate Reachable(c: Config, s: State) {
    exists states: seq<State>, labels: seq<Label> ::
      IsRun(c, states, labels) && states[|labels|] == s
  }

  lemma ReachableInvariant(c: Config, s: State)
    requires Reachable(c, s)
    ensures Invariant(c, s)
  {
    var states: seq<State>, labels: seq<Label> :| IsRun(c, states, labels) && states[|labels|] == s;
    RunInvariant(c, states, labels, |labels|);
  }

  // ---------------------------------------------------------------- theorems

  /** In every interleaving, a future that is ready holds the kernel's value for its own task. */
  lemma FuturesAreOwnOutputs(c: Config, s: State, id: nat)
    requires Reachable(c, s) && id in s.values
    ensures id < |s.tasks| && s.values[id] == Output(c.kernel, s.tasks[id])
    ensures s.values[id] * 262144.0 == c.kernel(TaskWords(s.tasks[id])) as real
  {
    ReachableInvariant(c, s);
    OutputIsFixedPoint(c.kernel, s.tasks[id]);
  }

  /** At most one worker is between lock and unlock, and the flag says whether one is. */
  lemma MutualExclusion(c: Config, s: State)
    requires Reachable(c, s)
    ensures WellFormed(c, s) && Exclusive(c, s)
  {
    ReachableInvariant(c, s);
  }

  /** The global write history is a row of whole Reset, Arguments and Start sections, each by one
      worker on its own instance, followed by the part already written of the section in progress. */
  lemma {:induction false} WritesAreWholeSections(c: Config, s: State)
    requires Reachable(c, s)
    ensures exists rest :: s.writes == Flatten(c, s.sections) + rest
              && (rest == []
                  || exists w :: 0 <= w < c.workers && WellFormed(c, s) && InWrites(s, w) && rest == Partial(c, s, w))
    ensures !s.locked ==> s.writes == Flatten(c, s.sections)
  {
    ReachableInvariant(c, s);
    if w :| 0 <= w < c.workers && InWrites(s, w) {
      assert s.writes == Flatten(c, s.sections) + Partial(c, s, w);
      assert InSection(c, s, w);
    } else {
      assert s.writes == Flatten(c, s.sections) + [];
    }
  }

  /** Each submitted task is in exactly one of queue, running and finished; it is begun at most
      once; and no task ever enters a worker's deque. */
  lemma EachTaskOnce(c: Config, s: State, id: nat)
    requires Reachable(c, s)
    ensures id < |s.tasks| <==> id in s.pool.global || Pool.Holds(id) in s.pool.running || id in s.pool.finished
    ensures id in s.pool.global ==> Pool.Holds(id) !in s.pool.running && id !in s.pool.finished
    ensures Pool.Holds(id) in s.pool.running ==> id !in s.pool.finished
    ensures multiset(s.pool.started)[id] <= 1
    ensures forall w :: 0 <= w < |s.pool.deques| ==> s.pool.deques[w] == []
  {
    ReachableInvariant(c, s);
    Pool.ExactlyOnePlace(s.pool, id);
  }

  /** Tasks are begun in the order in which they were submitted, whoever begins them. */
  lemma TasksBeginInOrder(c: Config, s: State)
    requires Reachable(c, s)
    ensures |s.pool.started| + |s.pool.global| == |s.tasks|
    ensures forall i :: 0 <= i < |s.pool.started| ==> s.pool.started[i] == i
    ensures forall i :: 0 <= i < |s.pool.global| ==> s.pool.global[i] == |s.pool.started| + i
  {
    ReachableInvariant(c, s);
  }

  /** Whenever the client is between calls, what it was given followed by what is queued for it is
      the list of all outputs in submission order, and nothing is left queued or running. */
  lemma ResultsAreSequentialMap(c: Config, s: State)
    requires Reachable(c, s) && s.client == Resting
    ensures s.delivered + s.results == Outputs(c.kernel, s.tasks)
    ensures |s.delivered + s.results| == |s.tasks|
    ensures forall i :: 0 <= i < |s.tasks| ==>
              (s.delivered + s.results)[i] * 262144.0 == c.kernel(TaskWords(s.tasks[i])) as real
    ensures s.pool.global == [] && forall id: nat :: Pool.Holds(id) !in s.pool.running
    ensures HasNext(s) <==> |s.delivered| < |s.tasks|
  {
    ReachableInvariant(c, s);
    OutputsSpelledOut(c.kernel, s.tasks);
    assert Outputs(c.kernel, s.tasks)[..|s.tasks|] == Outputs(c.kernel, s.tasks);
    if s.pool.global != [] {
      Pool.ExactlyOnePlace(s.pool, s.pool.global[0]);
    }
    forall id: nat
      ensures Pool.Holds(id) !in s.pool.running
    {
      Pool.ExactlyOnePlace(s.pool, id);
    }
    assert |s.delivered| + |s.results| == |s.tasks|;
  }

  /** A worker yields only after this call saw its own deque, the global queue and every deque empty. */
  lemma YieldsAfterFullScan(c: Config, s: State, w: nat)
    requires Reachable(c, s) && w < c.workers && WellFormed(c, s) && Yields(c, s, w)
    ensures Deque(w) in s.control[w].seen && Global in s.control[w].seen
    ensures forall v :: 0 <= v < c.workers ==> Deque(v) in s.control[w].seen || s.pool.deques[v] == []
    ensures forall v :: 0 <= v < c.workers && v != w ==> Deque(v) in s.control[w].seen
  {
    ReachableInvariant(c, s);
    var i := s.control[w].i;
    forall v | 0 <= v < c.workers && v != w
      ensures Deque(v) in s.control[w].seen
    {
      VictimsCoverQueues(c, w, v);
      var j :| 0 <= j < c.workers && Victim(c, w, j) == v;
      assert j < i;
    }
  }

  // ---------------------------------------------------------------- one call of Submit

  /** Progress of one Submit(batch) that began in state `a`. */
  ghost predicate SubmitProgress(c: Config, a: State, batch: seq<Task>, s: State) {
    && s.delivered == a.delivered
    && match s.client
       case Resting => false
       case Pushing(b, n) =>
         b == batch && n <= |batch| && s.tasks == a.tasks + batch[..n] && s.results == a.results
       case Collecting(first, count, n) =>
         first == |a.tasks| && count == |batch| && n <= count && s.tasks == a.tasks + batch
         && s.results == a.results + Outputs(c.kernel, batch[..n])
  }

  lemma SubmitPushes(c: Config, a: State, batch: seq<Task>, s: State)
    requires Invariant(c, s) && SubmitProgress(c, a, batch, s) && s.client.Pushing?
    ensures SubmitProgress(c, a, batch, ClientStep(s, Proceed))
  {
    var n := s.client.next;
    if n < |batch| {
      assert batch[..n + 1] == batch[..n] + [batch[n]];
      assert s.tasks + [batch[n]] == a.tasks + batch[..n + 1];
    } else {
      assert batch[..n] == batch;
      assert Outputs(c.kernel, batch[..0]) == [];
    }
  }

  lemma SubmitCollects(c: Config, a: State, batch: seq<Task>, s: State)
    requires Invariant(c, s) && SubmitProgress(c, a, batch, s)
    requires s.client.Collecting? && ClientEnabled(s, Proceed)
    ensures var t := ClientStep(s, Proceed);
            if t.client == Resting
            then t.results == a.results + Outputs(c.kernel, batch) && t.delivered == a.delivered
            else SubmitProgress(c, a, batch, t)
  {
    var Collecting(first, count, n) := s.client;
    if n < count {
      assert s.tasks[first + n] == batch[n];
      assert Outputs(c.kernel, batch[..n + 1]) == Outputs(c.kernel, batch[..n]) + [Output(c.kernel, batch[n])];
      assert s.values[first + n] == Output(c.kernel, batch[n]);
    } else {
      assert batch[..n] == batch;
    }
  }

  lemma SubmitStep(c: Config, a: State, batch: seq<Task>, s: State, l: Label)
    requires Invariant(c, s) && Enabled(c, s, l) && SubmitProgress(c, a, batch, s)
    ensures var t := Apply(c, s, l);
            if t.client == Resting
            then t.results == a.results + Outputs(c.kernel, batch) && t.delivered == a.delivered
            else SubmitProgress(c, a, batch, t)
  {
    match l
    case ByWorker(w) => WorkFrame(c, s, w);
    case ByDevice(k) =>
    case ByClient(cmd) =>
      if s.client.Pushing? { SubmitPushes(c, a, batch, s); } else { SubmitCollects(c, a, batch, s); }
  }

  lemma {:induction false} SubmitRuns(c: Config, states: seq<State>, labels: seq<Label>, i: nat, j: nat,
                                      batch: seq<Task>)
    requires IsRun(c, states, labels) && i < j <= |labels| && labels[i] == ByClient(Submit(batch))
    requires forall m :: i < m < j ==> states[m].client != Resting
    ensures if states[j].client == Resting
            then states[j].results == states[i].results + Outputs(c.kernel, batch)
                 && states[j].delivered == states[i].delivered
            else SubmitProgress(c, states[i], batch, states[j])
    decreases j
  {
    if j == i + 1 {
      assert batch[..0] == [];
    } else {
      SubmitRuns(c, states, labels, i, j - 1, batch);
      RunInvariant(c, states, labels, j - 1);
      SubmitStep(c, states[i], batch, states[j - 1], labels[j - 1]);
    }
  }

  /** Submit appends the outputs of its chunks, in chunk order, whichever worker ran which chunk and
      in whatever order they finished. */
  lemma SubmitAppendsOutputs(c: Config, states: seq<State>, labels: seq<Label>, i: nat, j: nat, batch: seq<Task>)
    requires IsRun(c, states, labels) && i < j <= |labels| && labels[i] == ByClient(Submit(batch))
    requires forall m :: i < m < j ==> states[m].client != Resting
    requires states[j].client == Resting
    ensures states[j].results == states[i].results + Outputs(c.kernel, batch)
    ensures |states[j].results| == |states[i].results| + |batch|
    ensures forall n :: 0 <= n < |batch| ==>
              states[j].results[|states[i].results| + n] * 262144.0 == c.kernel(TaskWords(batch[n])) as real
  {
    SubmitRuns(c, states, labels, i, j, batch);
    hide *;
    AppendedInOrder(c.kernel, batch, states[i].results, states[j].results);
  }
}
