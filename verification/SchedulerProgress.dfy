/** The scheduler cannot deadlock: a measure that every productive step lowers, a productive step in
    every state with unfinished work, and so a way to completion from every reachable state. Nor does it
    work in circles: on any path the steps that bring work forward are bounded by the work there is. */
module SchedulerProgress {
  import opened Mmio
  import opened SchedulerModel
  import opened SchedulerSafety
  import opened SchedulerInvariants
  import opened SchedulerResults
  import Pool = TaskPool

  /** Steps that only wait: a refused lock, a poll that reads no done bit, a probe of the empty
      global queue. Submitting new work is not progress either. */
  predicate Productive(c: Config, s: State, l: Label)
    requires WellFormed(c, s) && Enabled(c, s, l)
  {
    match l
    case ByDevice(_) => true
    case ByClient(cmd) => !cmd.Submit?
    case ByWorker(w) =>
      match s.control[w]
      case AtGlobal(_) => s.pool.global != []
      case Writing(_, at) => at == 0 ==> !s.locked
      case Polling(at, _) => (at == 0 ==> !s.locked) && (at == 1 ==> KernelBlock(c, s, w).done)
      case Fetching(at, _, _) => at == 0 ==> !s.locked
      case _ => true
  }

  // ---------------------------------------------------------------- the measure

  function Base(c: Config): nat { c.workers + 3 }

  /** Steps a worker has before it, each counted twice inside a task. */
  function Remaining(c: Config, ctl: Control): nat {
    match ctl
    case AtGlobal(_) => 1
    case AtLocal => 2
    case AtSteal(i, _) => if i < c.workers then 2 + c.workers - i else 2
    case Fetching(at, _, _) => if at <= 3 then Base(c) + 2 * (4 - at) else 0
    case Polling(at, status) =>
      Base(c) + (if at == 0 then 14 else if at == 1 then 12 else if DoneBit(status) then 10 else 16)
    case Writing(kind, at) =>
      if at <= BatchLength(kind) + 1 then
        Base(c) + 2 * (BatchLength(kind) + 2 - at) +
        (match kind case Start => 18 case Arguments => 42 case Reset => 86)
      else 0
  }

  function Queued(c: Config): nat { Base(c) + 112 }

  function RemainingAll(c: Config, control: seq<Control>): nat {
    if control == [] then 0 else Remaining(c, control[0]) + RemainingAll(c, control[1..])
  }

  /** Kernels below n that are ready to finish. */
  function Pending(d: seq<Block>, instances: nat, n: nat): nat
    requires ValidDevice(d, instances) && n <= instances
  {
    if n == 0 then 0
    else Pending(d, instances, n - 1) + (if CanFinish(d, instances, n - 1) then 1 else 0)
  }

  function ClientRemaining(c: Config, s: State): nat
    requires ClientWellFormed(s)
  {
    match s.client
    case Resting => 0
    case Pushing(batch, next) => (|batch| - next) * (Queued(c) + 1) + 2 * |batch| + 2
    case Collecting(_, count, next) => 2 * (count - next) + 1
  }

  function Measure(c: Config, s: State): nat
    requires WellFormed(c, s)
  {
    Queued(c) * |s.pool.global| + RemainingAll(c, s.control)
    + Pending(s.device, c.instances, c.instances) + |s.results| + ClientRemaining(c, s)
  }

  lemma {:induction false} RemainingUpdate(c: Config, control: seq<Control>, w: nat, ctl: Control)
    requires w < |control|
    ensures RemainingAll(c, control[w := ctl]) + Remaining(c, control[w])
         == RemainingAll(c, control) + Remaining(c, ctl)
  {
    if w == 0 {
      assert control[0 := ctl][1..] == control[1..];
    } else {
      RemainingUpdate(c, control[1..], w - 1, ctl);
      assert control[w := ctl][1..] == control[1..][w - 1 := ctl];
    }
  }

  lemma {:induction false} PendingFrame(d: seq<Block>, e: seq<Block>, instances: nat, k: nat, n: nat)
    requires ValidDevice(d, instances) && ValidDevice(e, instances) && k < instances && n <= instances
    requires forall j :: 0 <= j < instances && j != k ==> CanFinish(e, instances, j) == CanFinish(d, instances, j)
    ensures Pending(e, instances, n) ==
            Pending(d, instances, n) + (if k < n && CanFinish(e, instances, k) then 1 else 0)
                                     - (if k < n && CanFinish(d, instances, k) then 1 else 0)
  {
    if n > 0 {
      PendingFrame(d, e, instances, k, n - 1);
    }
  }

  lemma SameViewSameFinish(d: seq<Block>, e: seq<Block>, instances: nat, j: nat)
    requires ValidDevice(d, instances) && ValidDevice(e, instances) && j < instances
    requires View(e, instances, j) == View(d, instances, j)
    ensures CanFinish(e, instances, j) == CanFinish(d, instances, j)
  {
    forall i | 0 <= i <= NUM_COLS
      ensures Part(e, instances, j, i) == Part(d, instances, j, i)
    {
      assert Part(e, instances, j, i) == View(e, instances, j)[i];
      assert Part(d, instances, j, i) == View(d, instances, j)[i];
    }
  }

  lemma DeviceStepDrops(c: Config, s: State, k: nat)
    requires WellFormed(c, s) && Enabled(c, s, ByDevice(k))
    requires WellFormed(c, Apply(c, s, ByDevice(k)))
    ensures Measure(c, Apply(c, s, ByDevice(k))) < Measure(c, s)
  {
    var t := Apply(c, s, ByDevice(k));
    FinishViews(s.device, c.instances, k, c.kernel);
    forall j | 0 <= j < c.instances && j != k
      ensures CanFinish(t.device, c.instances, j) == CanFinish(s.device, c.instances, j)
    {
      SameViewSameFinish(s.device, t.device, c.instances, j);
    }
    PendingFrame(s.device, t.device, c.instances, k, c.instances);
    assert Part(t.device, c.instances, k, NUM_COLS).done;
  }

  lemma ClientStepDrops(c: Config, s: State, cmd: Command)
    requires WellFormed(c, s) && ClientEnabled(s, cmd) && !cmd.Submit?
    requires WellFormed(c, ClientStep(s, cmd))
    ensures Measure(c, ClientStep(s, cmd)) < Measure(c, s)
  {
    var t := ClientStep(s, cmd);
    if cmd == Proceed && s.client.Pushing? && s.client.next < |s.client.batch| {
      assert |t.pool.global| == |s.pool.global| + 1;
      assert Queued(c) * |t.pool.global| == Queued(c) * |s.pool.global| + Queued(c);
      var m := |s.client.batch| - s.client.next;
      assert (m - 1) * (Queued(c) + 1) == m * (Queued(c) + 1) - (Queued(c) + 1);
    }
  }

  /** With empty deques, a scanning worker takes the first task of the global queue or moves on. */
  lemma ScanParts(c: Config, s: State, w: nat)
    requires WellFormed(c, s) && w < c.workers && Scanning(s.control[w])
    requires forall v :: 0 <= v < c.workers ==> s.pool.deques[v] == []
    ensures var t := Scan(c, s, w);
            && w < |s.control| && t.control == s.control[w := t.control[w]]
            && t.device == s.device && t.results == s.results && t.client == s.client
            && if s.control[w].AtGlobal? && s.pool.global != []
               then |t.pool.global| == |s.pool.global| - 1 && t.control[w] == Writing(Reset, 0)
               else t.pool.global == s.pool.global
                    && match s.control[w]
                       case AtLocal => t.control[w].AtGlobal?
                       case AtGlobal(_) => t.control[w].AtSteal? && t.control[w].i == 0
                       case AtSteal(i, _) =>
                         i < c.workers && if i + 1 < c.workers then t.control[w].AtSteal? && t.control[w].i == i + 1
                                          else t.control[w] == AtLocal
  {
    assert WorkerWellFormed(c, s, w);
  }

  lemma ScanStepDrops(c: Config, s: State, w: nat)
    requires WellFormed(c, s) && w < c.workers && Scanning(s.control[w])
    requires forall v :: 0 <= v < c.workers ==> s.pool.deques[v] == []
    requires Productive(c, s, ByWorker(w))
    requires WellFormed(c, Scan(c, s, w))
    ensures Measure(c, Scan(c, s, w)) < Measure(c, s)
  {
    ScanParts(c, s, w);
    hide Scan, WellFormed, Pending, Remaining, Queued;
    var t := Scan(c, s, w);
    RemainingUpdate(c, s.control, w, t.control[w]);
    if s.control[w].AtGlobal? {
      TakingDrops(c, |t.pool.global|);
    } else {
      MovingOnDrops(c, s.control[w], t.control[w]);
    }
  }

  lemma TakingDrops(c: Config, n: nat)
    ensures Queued(c) * (n + 1) == Queued(c) * n + Queued(c)
    ensures Remaining(c, Writing(Reset, 0)) < Queued(c)
  {
  }

  lemma MovingOnDrops(c: Config, ctl: Control, next: Control)
    requires (ctl.AtLocal? && next.AtGlobal?)
          || (ctl.AtSteal? && ctl.i + 1 == c.workers && next == AtLocal)
          || (ctl.AtSteal? && ctl.i + 1 < c.workers && next.AtSteal? && next.i == ctl.i + 1)
    ensures Remaining(c, next) < Remaining(c, ctl)
  {
  }

  lemma QuietStepDrops(c: Config, s: State, t: State, w: nat)
    requires WellFormed(c, s) && WellFormed(c, t) && w < c.workers
    requires t.control == s.control[w := t.control[w]]
    requires t.pool.global == s.pool.global && t.results == s.results && t.client == s.client
    requires Pending(t.device, c.instances, c.instances) <= Pending(s.device, c.instances, c.instances) + 1
    requires Remaining(c, t.control[w]) + 2 <= Remaining(c, s.control[w])
    ensures Measure(c, t) < Measure(c, s)
  {
    RemainingUpdate(c, s.control, w, t.control[w]);
  }

  lemma WriteStepPending(c: Config, s: State, w: nat)
    requires WellFormed(c, s) && w < c.workers && s.control[w].Writing?
    requires WellFormed(c, WriteStep(c, s, w))
    ensures Pending(WriteStep(c, s, w).device, c.instances, c.instances)
         <= Pending(s.device, c.instances, c.instances) + 1
  {
    var t := WriteStep(c, s, w);
    var k := Instance(c, w);
    OwnInstance(c, w);
    assert WorkerWellFormed(c, s, w);
    var kind, at := s.control[w].kind, s.control[w].at;
    if 1 <= at <= BatchLength(kind) {
      AccessDevice(c, s, w, kind, at);
      var i := BlockIndex(kind, at - 1);
      var a := BatchWrite(kind, k, TaskOf(c, s, w), at - 1);
      WriteViews(s.device, c.instances, k, i, WriteBlock(s.device[BlockOf(k, i)], a.reg, a.value));
      forall j | 0 <= j < c.instances && j != k
        ensures CanFinish(t.device, c.instances, j) == CanFinish(s.device, c.instances, j)
      {
        SameViewSameFinish(s.device, t.device, c.instances, j);
      }
      PendingFrame(s.device, t.device, c.instances, k, c.instances);
    } else {
      assert t.device == s.device;
    }
  }

  lemma RunStepRemaining(c: Config, s: State, w: nat)
    requires WellFormed(c, s) && w < c.workers && !Scanning(s.control[w])
    requires Productive(c, s, ByWorker(w))
    ensures var t := Work(c, s, w);
            && t.control == s.control[w := t.control[w]]
            && Remaining(c, t.control[w]) + 2 <= Remaining(c, s.control[w])
            && t.pool.global == s.pool.global
  {
    assert WorkerWellFormed(c, s, w);
    DoneBitReadsDone(KernelBlock(c, s, w));
  }

  /** Every productive step lowers the measure. */
  lemma ProductiveStepDrops(c: Config, s: State, l: Label)
    requires Invariant(c, s) && Enabled(c, s, l) && Productive(c, s, l)
    ensures WellFormed(c, Apply(c, s, l)) && Measure(c, Apply(c, s, l)) < Measure(c, s)
  {
    StepKeepsWellFormed(c, s, l);
    match l
    case ByDevice(k) => DeviceStepDrops(c, s, k);
    case ByClient(cmd) => ClientStepDrops(c, s, cmd);
    case ByWorker(w) =>
      if Scanning(s.control[w]) {
        ScanStepDrops(c, s, w);
      } else {
        RunStepRemaining(c, s, w);
        WorkFrame(c, s, w);
        if s.control[w].Writing? { WriteStepPending(c, s, w); }
        QuietStepDrops(c, s, Work(c, s, w), w);
      }
  }

  // ---------------------------------------------------------------- no deadlock

  /** A call of Submit is under way, or a submitted task has no value yet. */
  ghost predicate Unfinished(s: State) {
    s.client != Resting || exists id: nat :: id < |s.tasks| && id !in s.values
  }

  lemma PollerOrItsKernel(c: Config, s: State, w: nat) returns (l: Label)
    requires Invariant(c, s) && w < c.workers && s.control[w].Polling? && s.control[w].at == 1
    ensures Enabled(c, s, l) && Productive(c, s, l)
  {
    if KernelBlock(c, s, w).done {
      l := ByWorker(w);
    } else {
      var k := Instance(c, w);
      assert WorkerStage(c, s, w);
      FinishViews(s.device, c.instances, k, c.kernel);
      l := ByDevice(k);
    }
  }

  lemma BusyWorkerProgress(c: Config, s: State, w: nat) returns (l: Label)
    requires Invariant(c, s) && w < c.workers && !Scanning(s.control[w])
    ensures Enabled(c, s, l) && Productive(c, s, l)
  {
    var v := w;
    if s.locked {
      v :| 0 <= v < c.workers && InSection(c, s, v);
    }
    assert WorkerWellFormed(c, s, v);
    if s.control[v].Polling? && s.control[v].at == 1 {
      l := PollerOrItsKernel(c, s, v);
    } else {
      l := ByWorker(v);
    }
  }

  lemma QueuedTaskProgress(c: Config, s: State, id: nat) returns (l: Label)
    requires Invariant(c, s) && id < |s.tasks| && id !in s.values
    requires forall w :: 0 <= w < c.workers ==> Scanning(s.control[w])
    ensures Enabled(c, s, l) && Productive(c, s, l)
  {
    forall w | 0 <= w < c.workers
      ensures s.pool.running[w] == Pool.Shell
    {
      assert WorkerWellFormed(c, s, w);
    }
    Pool.ExactlyOnePlace(s.pool, id);
    l := ByWorker(0);
  }

  /** In every reachable state with unfinished work, some productive step is enabled. */
  lemma NoDeadlock(c: Config, s: State) returns (l: Label)
    requires Invariant(c, s) && Unfinished(s)
    ensures Enabled(c, s, l) && Productive(c, s, l)
  {
    if w :| 0 <= w < c.workers && !Scanning(s.control[w]) {
      l := BusyWorkerProgress(c, s, w);
    } else if s.client != Resting && ClientEnabled(s, Proceed) {
      l := ByClient(Proceed);
    } else {
      var id: nat :| id < |s.tasks| && id !in s.values;
      l := QueuedTaskProgress(c, s, id);
    }
  }

  lemma PathCons(c: Config, s: State, l: Label, rest: seq<State>, more: seq<Label>)
    requires WellFormed(c, s) && Enabled(c, s, l)
    requires IsPath(c, rest, more) && rest[0] == Apply(c, s, l)
    ensures IsPath(c, [s] + rest, [l] + more)
  {
    hide WellFormed, Enabled, Apply;
    var states, labels := [s] + rest, [l] + more;
    forall i | 0 <= i < |labels|
      ensures WellFormed(c, states[i]) && Enabled(c, states[i], labels[i])
      ensures states[i + 1] == Apply(c, states[i], labels[i])
    {
      if i > 0 {
        assert states[i] == rest[i - 1] && labels[i] == more[i - 1] && states[i + 1] == rest[i];
      }
    }
  }

  lemma StayPath(c: Config, s: State)
    ensures IsPath(c, [s], [])
  {
  }

  /** From every reachable state the work under way can be completed, within the measure. */
  lemma {:induction false} CanComplete(c: Config, s: State) returns (states: seq<State>, labels: seq<Label>)
    requires Invariant(c, s)
    ensures |states| == |labels| + 1 && IsPath(c, states, labels) && states[0] == s
    ensures !Unfinished(states[|labels|])
    ensures |labels| <= Measure(c, s)
    decreases Measure(c, s)
  {
    hide Unfinished, Measure, Productive, Apply, Enabled, IsPath, WellFormed;
    hide Stages, Exclusive, History, Tasks, Values, Ordered, Scanned;
    if Unfinished(s) {
      var l := NoDeadlock(c, s);
      ProductiveStepDrops(c, s, l);
      StepKeepsInvariant(c, s, l);
      var rest, more := CanComplete(c, Apply(c, s, l));
      PathCons(c, s, l, rest, more);
      states, labels := [s] + rest, [l] + more;
      assert states[|labels|] == rest[|more|];
    } else {
      states, labels := [s], [];
      StayPath(c, s);
    }
  }

  /** A path all of whose steps are productive is no longer than the measure. */
  lemma {:induction false} ProductivePathsAreShort(c: Config, states: seq<State>, labels: seq<Label>)
    requires IsPath(c, states, labels) && Invariant(c, states[0])
    requires forall i :: 0 <= i < |labels| ==> Productive(c, states[i], labels[i])
    ensures |labels| <= Measure(c, states[0])
    decreases |labels|
  {
    hide Measure, WellFormed, Enabled, Apply, Stages, Exclusive, History, Tasks, Values, Ordered, Scanned;
    if |labels| > 0 {
      assert Enabled(c, states[0], labels[0]) && states[1] == Apply(c, states[0], labels[0]);
      ProductiveStepDrops(c, states[0], labels[0]);
      StepKeepsInvariant(c, states[0], labels[0]);
      ProductivePathsAreShort(c, states[1..], labels[1..]);
    }
  }

  // ---------------------------------------------------------------- advancing and waiting

  /** Steps that bring work forward: a task taken, a register written, the lock taken to write or to
      fetch, a poll that reads the done bit or leaves with it, a fetch, a kernel's completion, and every
      action of the client but Submit. All others wait: probes of empty queues, yields, refused locks,
      polls in vain and the locking and unlocking around them. */
  predicate Advances(c: Config, s: State, l: Label)
    requires WellFormed(c, s) && Enabled(c, s, l)
  {
    match l
    case ByDevice(_) => true
    case ByClient(cmd) => !cmd.Submit?
    case ByWorker(w) =>
      match s.control[w]
      case AtLocal => s.pool.deques[w] != []
      case AtGlobal(_) => s.pool.global != []
      case AtSteal(i, _) => s.pool.deques[Victim(c, w, i)] != []
      case Writing(_, at) => at == 0 ==> !s.locked
      case Polling(at, status) => (at == 1 && KernelBlock(c, s, w).done) || (at == 2 && DoneBit(status))
      case Fetching(at, _, _) => at == 0 ==> !s.locked
  }

  /** What a worker's position is worth: nothing while it scans, the same all around the poll loop. */
  function Share(ctl: Control): nat {
    match ctl
    case Fetching(at, _, _) => if at <= 3 then 2 * (4 - at) else 0
    case Polling(at, status) => if at == 2 && DoneBit(status) then 10 else 12
    case Writing(kind, at) =>
      if at <= BatchLength(kind) + 1 then
        2 * (BatchLength(kind) + 2 - at) +
        (match kind case Start => 12 case Arguments => 36 case Reset => 80)
      else 0
    case _ => 0
  }

  const TASK_WEIGHT: nat := 106

  function ShareAll(control: seq<Control>): nat {
    if control == [] then 0 else Share(control[0]) + ShareAll(control[1..])
  }

  function BatchWeight(n: nat): nat { n * (TASK_WEIGHT + 3) + 2 }

  function ClientWeight(s: State): nat
    requires ClientWellFormed(s)
  {
    match s.client
    case Resting => 0
    case Pushing(batch, next) => (|batch| - next) * (TASK_WEIGHT + 1) + 2 * |batch| + 2
    case Collecting(_, count, next) => 2 * (count - next) + 1
  }

  /** The work that is left, wherever it is. */
  function Weight(c: Config, s: State): nat
    requires WellFormed(c, s)
  {
    TASK_WEIGHT * |s.pool.global| + ShareAll(s.control)
    + Pending(s.device, c.instances, c.instances) + |s.results| + ClientWeight(s)
  }

  /** What a step brings in from outside. */
  function Injected(l: Label): nat {
    if l.ByClient? && l.cmd.Submit? then BatchWeight(|l.cmd.batch|) else 0
  }

  lemma {:induction false} ShareUpdate(control: seq<Control>, w: nat, ctl: Control)
    requires w < |control|
    ensures ShareAll(control[w := ctl]) + Share(control[w]) == ShareAll(control) + Share(ctl)
  {
    if w == 0 {
      assert control[0 := ctl][1..] == control[1..];
    } else {
      ShareUpdate(control[1..], w - 1, ctl);
      assert control[w := ctl][1..] == control[1..][w - 1 := ctl];
    }
  }

  predicate Weighed(c: Config, s: State, l: Label)
    requires WellFormed(c, s) && Enabled(c, s, l) && WellFormed(c, Apply(c, s, l))
  {
    Weight(c, Apply(c, s, l)) + (if Advances(c, s, l) then 1 else 0) <= Weight(c, s) + Injected(l)
  }

  lemma ScanWeighed(c: Config, s: State, w: nat)
    requires WellFormed(c, s) && w < c.workers && Scanning(s.control[w])
    requires forall v :: 0 <= v < c.workers ==> s.pool.deques[v] == []
    requires WellFormed(c, Scan(c, s, w))
    ensures Weighed(c, s, ByWorker(w))
  {
    ScanParts(c, s, w);
    hide Scan, WellFormed, Pending;
    ShareUpdate(s.control, w, Scan(c, s, w).control[w]);
  }

  /** Outside the scan a step never raises the worker's share, and an advancing one lowers it by two. */
  lemma RunShare(c: Config, s: State, w: nat)
    requires WellFormed(c, s) && w < c.workers && !Scanning(s.control[w])
    ensures var t := Work(c, s, w);
            && t.control == s.control[w := t.control[w]]
            && Share(t.control[w]) + (if Advances(c, s, ByWorker(w)) then 2 else 0) <= Share(s.control[w])
            && t.pool.global == s.pool.global
            && (!s.control[w].Writing? || !Advances(c, s, ByWorker(w)) ==> t.device == s.device)
  {
    assert WorkerWellFormed(c, s, w);
    DoneBitReadsDone(KernelBlock(c, s, w));
  }

  lemma RunWeighed(c: Config, s: State, w: nat)
    requires WellFormed(c, s) && w < c.workers && !Scanning(s.control[w])
    requires WellFormed(c, Work(c, s, w))
    ensures Weighed(c, s, ByWorker(w))
  {
    assert |s.control| == c.workers;
    hide Share, Advances, WellFormed, Work, Pending;
    var t := Work(c, s, w);
    RunShare(c, s, w);
    WorkFrame(c, s, w);
    ShareUpdate(s.control, w, t.control[w]);
    if s.control[w].Writing? && Advances(c, s, ByWorker(w)) {
      WorkIsWriteStep(c, s, w);
      WriteStepPending(c, s, w);
    }
  }

  lemma WorkIsWriteStep(c: Config, s: State, w: nat)
    requires WellFormed(c, s) && w < c.workers && s.control[w].Writing?
    ensures Work(c, s, w) == WriteStep(c, s, w)
  {
  }

  lemma ClientWeighed(c: Config, s: State, cmd: Command)
    requires WellFormed(c, s) && ClientEnabled(s, cmd)
    requires WellFormed(c, ClientStep(s, cmd))
    ensures Weighed(c, s, ByClient(cmd))
  {
    var t := ClientStep(s, cmd);
    if cmd == Proceed && s.client.Pushing? && s.client.next < |s.client.batch| {
      assert |t.pool.global| == |s.pool.global| + 1;
    }
  }

  lemma DeviceWeighed(c: Config, s: State, k: nat)
    requires WellFormed(c, s) && Enabled(c, s, ByDevice(k)) && WellFormed(c, Apply(c, s, ByDevice(k)))
    ensures Weighed(c, s, ByDevice(k))
  {
    hide Pending;
    DeviceStepDrops(c, s, k);
  }

  /** No step but Submit raises the weight, and every advancing step lowers it. */
  lemma StepWeighed(c: Config, s: State, l: Label)
    requires Invariant(c, s) && Enabled(c, s, l)
    ensures WellFormed(c, Apply(c, s, l)) && Weighed(c, s, l)
  {
    hide Weighed, Stages, Exclusive, History, Values, Ordered, Scanned;
    StepKeepsWellFormed(c, s, l);
    match l
    case ByDevice(k) => DeviceWeighed(c, s, k);
    case ByClient(cmd) => ClientWeighed(c, s, cmd);
    case ByWorker(w) => if Scanning(s.control[w]) { ScanWeighed(c, s, w); } else { RunWeighed(c, s, w); }
  }

  /** How many of the first n steps of a path advance. */
  ghost function Advanced(c: Config, states: seq<State>, labels: seq<Label>, n: nat): nat
    requires IsPath(c, states, labels) && n <= |labels|
  {
    if n == 0 then 0
    else Advanced(c, states, labels, n - 1) + (if Advances(c, states[n - 1], labels[n - 1]) then 1 else 0)
  }

  function InjectedUpTo(labels: seq<Label>, n: nat): nat
    requires n <= |labels|
  {
    if n == 0 then 0 else InjectedUpTo(labels, n - 1) + Injected(labels[n - 1])
  }

  lemma {:induction false} AdvancedWeighed(c: Config, states: seq<State>, labels: seq<Label>, n: nat)
    requires IsPath(c, states, labels) && Invariant(c, states[0]) && n <= |labels|
    ensures Invariant(c, states[n])
    ensures Advanced(c, states, labels, n) + Weight(c, states[n]) <= Weight(c, states[0]) + InjectedUpTo(labels, n)
  {
    if n > 0 {
      hide Weight, Advances, WellFormed, Enabled, Apply, Stages, Exclusive, History, Tasks, Values, Ordered, Scanned;
      AdvancedWeighed(c, states, labels, n - 1);
      var s, l := states[n - 1], labels[n - 1];
      assert WellFormed(c, s) && Enabled(c, s, l) && states[n] == Apply(c, s, l);
      StepWeighed(c, s, l);
      StepKeepsInvariant(c, s, l);
    }
  }

  /** However many waiting steps are mixed in, the steps that advance number at most the work there was
      at the start plus the work submitted on the way: nothing is ever done again and again. */
  lemma {:induction false} AdvancesAreBounded(c: Config, states: seq<State>, labels: seq<Label>)
    requires IsPath(c, states, labels) && Invariant(c, states[0])
    ensures Advanced(c, states, labels, |labels|) <= Weight(c, states[0]) + InjectedUpTo(labels, |labels|)
  {
    AdvancedWeighed(c, states, labels, |labels|);
  }

  lemma {:induction false} NothingInjected(labels: seq<Label>, n: nat)
    requires n <= |labels| && forall i :: 0 <= i < n ==> !(labels[i].ByClient? && labels[i].cmd.Submit?)
    ensures InjectedUpTo(labels, n) == 0
  {
    if n > 0 { NothingInjected(labels, n - 1); }
  }

  /** On every path without Submit the advancing steps number at most the initial weight. */
  lemma {:induction false} AdvancesAreFew(c: Config, states: seq<State>, labels: seq<Label>)
    requires IsPath(c, states, labels) && Invariant(c, states[0])
    requires forall i :: 0 <= i < |labels| ==> !(labels[i].ByClient? && labels[i].cmd.Submit?)
    ensures Advanced(c, states, labels, |labels|) <= Weight(c, states[0])
  {
    AdvancesAreBounded(c, states, labels);
    NothingInjected(labels, |labels|);
  }
}
