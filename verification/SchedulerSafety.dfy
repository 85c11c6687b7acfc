/** What every step keeps of the hardware: each worker's instance is in the condition that belongs to the
    worker's place in the protocol, and states stay well-formed. */
module SchedulerSafety {
  import opened Mmio
  import opened SchedulerModel
  import Pool = TaskPool

  // ---------------------------------------------------------------- one instance

  predicate IsView(b: seq<Block>) { |b| == NUM_COLS + 1 && forall i :: 0 <= i < |b| ==> b[i].Valid() }

  /** The five blocks of instance k. */
  function View(d: seq<Block>, instances: nat, k: nat): (b: seq<Block>)
    requires ValidDevice(d, instances) && k < instances
    ensures IsView(b)
  {
    d[BlockOf(k, 0)..BlockOf(k, 0) + NUM_COLS + 1]
  }

  function ViewWords(b: seq<Block>): (ws: seq<seq<u32>>)
    requires IsView(b)
    ensures |ws| == NUM_COLS
  {
    seq(NUM_COLS, i requires 0 <= i < NUM_COLS => b[i].args)
  }

  predicate ViewCanFinish(b: seq<Block>)
    requires IsView(b)
  {
    (forall i :: 0 <= i <= NUM_COLS ==> b[i].started) && !b[NUM_COLS].done
  }

  function ViewFinish(b: seq<Block>, f: Kernel): (r: seq<Block>)
    requires IsView(b)
    ensures IsView(r)
  {
    b[NUM_COLS := b[NUM_COLS].(done := true, result := f(ViewWords(b)))]
  }

  predicate AllCleared(b: seq<Block>)
    requires IsView(b)
  {
    forall i :: 0 <= i <= NUM_COLS ==> b[i].Cleared()
  }

  /** The first n argument words, in the order they are written, are in place. */
  predicate ArgsWritten(b: seq<Block>, task: Task, n: int)
    requires IsView(b)
  {
    forall i, r :: 0 <= i < NUM_COLS && 0 <= r < 5 && 5 * i + r < n ==> b[i].args[r] == Words(task[i])[r]
  }

  predicate DoneMeansOutput(f: Kernel, b: seq<Block>, task: Task)
    requires IsView(b)
  {
    b[NUM_COLS].done ==> b[NUM_COLS].result == f(TaskWords(task))
  }

  /** What an instance looks like while a worker is at `ctl` with `task`: the effect of the steps
      already taken, whatever the instance was left in by earlier tasks. */
  predicate StageOk(f: Kernel, b: seq<Block>, task: Task, ctl: Control)
    requires IsView(b)
  {
    match ctl
    case Writing(kind, at) =>
      (match kind
       case Reset => forall i :: 0 <= i <= NUM_COLS && 2 * i + 1 < at ==> b[i].Cleared()
       case Arguments => AllCleared(b) && ArgsWritten(b, task, at - 1)
       case Start =>
         && ArgsWritten(b, task, 20)
         && (forall i :: 0 <= i <= NUM_COLS ==> (b[i].started <==> 2 * (NUM_COLS - i) + 1 < at))
         && (b[NUM_COLS].done ==> at > 9)
         && DoneMeansOutput(f, b, task))
    case Polling(at, status) =>
      && ArgsWritten(b, task, 20)
      && (forall i :: 0 <= i <= NUM_COLS ==> b[i].started)
      && DoneMeansOutput(f, b, task)
      && (at == 2 && DoneBit(status) ==> b[NUM_COLS].done)
    case Fetching(at, low, high) =>
      && b[NUM_COLS].done
      && DoneMeansOutput(f, b, task)
      && (at >= 2 ==> low == Lo(b[NUM_COLS].result))
      && (at >= 3 ==> high == Hi(b[NUM_COLS].result))
    case _ => true
  }

  lemma ArgsWrittenWords(b: seq<Block>, task: Task)
    requires IsView(b) && ArgsWritten(b, task, 20)
    ensures ViewWords(b) == TaskWords(task)
  {
    forall i | 0 <= i < NUM_COLS
      ensures b[i].args == Words(task[i])
    {
      assert forall r :: 0 <= r < 5 ==> b[i].args[r] == Words(task[i])[r];
    }
  }

  function BlockIndex(kind: Kind, t: nat): (i: nat)
    requires t < BatchLength(kind)
    ensures i <= NUM_COLS
  {
    match kind
    case Reset => t / 2
    case Arguments => t / 5
    case Start => NUM_COLS - t / 2
  }

  ghost predicate WriteAdvances(f: Kernel, b: seq<Block>, task: Task, kind: Kind, at: nat, k: nat)
    requires IsView(b) && 1 <= at <= BatchLength(kind)
  {
    var a := BatchWrite(kind, k, task, at - 1);
    var i := BlockIndex(kind, at - 1);
    && a.block == BlockOf(k, i)
    && StageOk(f, b[i := WriteBlock(b[i], a.reg, a.value)], task, Writing(kind, at + 1))
  }

  lemma ResetAdvances(f: Kernel, b: seq<Block>, task: Task, at: nat, k: nat)
    requires IsView(b) && 1 <= at <= BatchLength(Reset) && StageOk(f, b, task, Writing(Reset, at))
    ensures WriteAdvances(f, b, task, Reset, at, k)
  {
  }

  lemma ArgumentsAdvance(f: Kernel, b: seq<Block>, task: Task, at: nat, k: nat)
    requires IsView(b) && 1 <= at <= BatchLength(Arguments) && StageOk(f, b, task, Writing(Arguments, at))
    ensures WriteAdvances(f, b, task, Arguments, at, k)
  {
    var i, r := BlockIndex(Arguments, at - 1), (at - 1) % 5;
    assert at - 1 == 5 * i + r;
  }

  lemma StartAdvances(f: Kernel, b: seq<Block>, task: Task, at: nat, k: nat)
    requires IsView(b) && 1 <= at <= BatchLength(Start) && StageOk(f, b, task, Writing(Start, at))
    ensures WriteAdvances(f, b, task, Start, at, k)
  {
  }

  lemma WriteKeepsStage(f: Kernel, b: seq<Block>, task: Task, kind: Kind, at: nat, k: nat)
    requires IsView(b) && 1 <= at <= BatchLength(kind)
    requires StageOk(f, b, task, Writing(kind, at))
    ensures var a := BatchWrite(kind, k, task, at - 1);
            var i := BlockIndex(kind, at - 1);
            && a.block == BlockOf(k, i)
            && StageOk(f, b[i := WriteBlock(b[i], a.reg, a.value)], task, Writing(kind, at + 1))
  {
    hide StageOk, BatchWrite, WriteBlock;
    match kind
    case Reset => ResetAdvances(f, b, task, at, k);
    case Arguments => ArgumentsAdvance(f, b, task, at, k);
    case Start => StartAdvances(f, b, task, at, k);
  }

  lemma FinishKeepsStage(f: Kernel, b: seq<Block>, task: Task, ctl: Control)
    requires IsView(b) && ViewCanFinish(b) && StageOk(f, b, task, ctl)
    ensures StageOk(f, ViewFinish(b, f), task, ctl)
  {
    if (ctl.Writing? && ctl.kind == Start) || ctl.Polling? {
      ArgsWrittenWords(b, task);
      assert b[0].started;
    }
  }

  lemma SectionEndKeepsStage(c: Config, b: seq<Block>, task: Task, kind: Kind, w: nat)
    requires IsView(b) && c.instances > 0
    requires StageOk(c.kernel, b, task, Writing(kind, BatchLength(kind) + 1))
    ensures StageOk(c.kernel, b, task, AfterSection(c, w, kind))
  {
  }

  // ---------------------------------------------------------------- device frames

  lemma WriteViews(d: seq<Block>, instances: nat, k: nat, i: nat, b: Block)
    requires ValidDevice(d, instances) && k < instances && i <= NUM_COLS && b.Valid()
    ensures var e := d[BlockOf(k, i) := b];
            && ValidDevice(e, instances)
            && View(e, instances, k) == View(d, instances, k)[i := b]
            && forall j :: 0 <= j < instances && j != k ==> View(e, instances, j) == View(d, instances, j)
  {
    var e := d[BlockOf(k, i) := b];
    forall j | 0 <= j < instances && j != k
      ensures View(e, instances, j) == View(d, instances, j)
    {
      assert forall n :: BlockOf(j, 0) <= n < BlockOf(j, 0) + 5 ==> e[n] == d[n];
    }
  }

  lemma FinishViews(d: seq<Block>, instances: nat, k: nat, f: Kernel)
    requires ValidDevice(d, instances) && k < instances
    ensures View(Finish(d, instances, k, f), instances, k) == ViewFinish(View(d, instances, k), f)
    ensures forall j :: 0 <= j < instances && j != k ==>
              View(Finish(d, instances, k, f), instances, j) == View(d, instances, j)
    ensures CanFinish(d, instances, k) <==> ViewCanFinish(View(d, instances, k))
  {
    var v := View(d, instances, k);
    forall i | 0 <= i <= NUM_COLS
      ensures Part(d, instances, k, i) == v[i]
    {
    }
    assert ReaderWords(d, instances, k) == ViewWords(v);
    WriteViews(d, instances, k, NUM_COLS,
               Part(d, instances, k, NUM_COLS).(done := true, result := f(ReaderWords(d, instances, k))));
  }

  // ---------------------------------------------------------------- stage invariant

  ghost predicate WorkerStage(c: Config, s: State, w: nat)
    requires WellFormed(c, s) && w < c.workers
  {
    !Scanning(s.control[w]) ==>
      StageOk(c.kernel, View(s.device, c.instances, Instance(c, w)), TaskOf(c, s, w), s.control[w])
  }

  ghost predicate Stages(c: Config, s: State)
    requires WellFormed(c, s)
  {
    forall w :: 0 <= w < c.workers ==> WorkerStage(c, s, w)
  }

  /** What a step leaves alone for a worker it does not belong to. */
  ghost predicate Untouched(c: Config, s: State, t: State, w: nat)
    requires WellFormed(c, s) && WellFormed(c, t) && w < c.workers
  {
    && t.control[w] == s.control[w]
    && t.pool.running[w] == s.pool.running[w]
    && s.tasks <= t.tasks
    && View(t.device, c.instances, Instance(c, w)) == View(s.device, c.instances, Instance(c, w))
  }

  lemma UntouchedStage(c: Config, s: State, t: State, w: nat)
    requires WellFormed(c, s) && WellFormed(c, t) && w < c.workers
    requires Untouched(c, s, t, w) && WorkerStage(c, s, w)
    ensures WorkerStage(c, t, w)
  {
    if !Scanning(s.control[w]) {
      assert WorkerWellFormed(c, s, w);
      assert TaskOf(c, t, w) == TaskOf(c, s, w);
    }
  }

  lemma LaunchKeepsWellFormed(c: Config, s: State, w: nat, step: Pool.Step)
    requires WellFormed(c, s) && w < c.workers && Scanning(s.control[w])
    requires step == Pool.PopLocal(w) || step == Pool.PopGlobal(w) || (step.Steal? && step.w == w)
    requires Pool.Enabled(s.pool, step)
    ensures WellFormed(c, Launch(s, w, step))
  {
    var t := Launch(s, w, step);
    forall v | 0 <= v < c.workers
      ensures WorkerWellFormed(c, t, v)
    {
      assert WorkerWellFormed(c, s, v);
    }
  }

  lemma ScanKeepsWellFormed(c: Config, s: State, w: nat)
    requires WellFormed(c, s) && w < c.workers && Scanning(s.control[w])
    ensures WellFormed(c, Scan(c, s, w))
  {
    assert WorkerWellFormed(c, s, w);
    var t := Scan(c, s, w);
    match s.control[w]
    case AtLocal =>
      if s.pool.deques[w] != [] { LaunchKeepsWellFormed(c, s, w, Pool.PopLocal(w)); }
      else { GotoKeepsWellFormed(c, s, w, t.control[w]); }
    case AtGlobal(_) =>
      if s.pool.global != [] { LaunchKeepsWellFormed(c, s, w, Pool.PopGlobal(w)); }
      else { GotoKeepsWellFormed(c, s, w, t.control[w]); }
    case AtSteal(i, _) =>
      if s.pool.deques[Victim(c, w, i)] != [] { LaunchKeepsWellFormed(c, s, w, Pool.Steal(w, Victim(c, w, i))); }
      else { GotoKeepsWellFormed(c, s, w, t.control[w]); }
  }

  lemma GotoKeepsWellFormed(c: Config, s: State, w: nat, ctl: Control)
    requires WellFormed(c, s) && w < c.workers && InRange(c, w, ctl)
    requires Scanning(ctl) <==> Scanning(s.control[w])
    ensures WellFormed(c, Goto(s, w, ctl))
  {
    var t := Goto(s, w, ctl);
    forall v | 0 <= v < c.workers
      ensures WorkerWellFormed(c, t, v)
    {
      assert WorkerWellFormed(c, s, v);
    }
  }

  lemma WriteStepKeepsWellFormed(c: Config, s: State, w: nat)
    requires WellFormed(c, s) && w < c.workers && s.control[w].Writing?
    ensures WellFormed(c, WriteStep(c, s, w))
  {
    var t := WriteStep(c, s, w);
    assert WorkerWellFormed(c, s, w);
    GotoKeepsWellFormed(c, s, w, t.control[w]);
    SameWorkersWellFormed(c, Goto(s, w, t.control[w]), t);
  }

  lemma PollStepKeepsWellFormed(c: Config, s: State, w: nat)
    requires WellFormed(c, s) && w < c.workers && s.control[w].Polling?
    ensures WellFormed(c, PollStep(c, s, w))
  {
    var t := PollStep(c, s, w);
    assert WorkerWellFormed(c, s, w);
    GotoKeepsWellFormed(c, s, w, t.control[w]);
    SameWorkersWellFormed(c, Goto(s, w, t.control[w]), t);
  }

  lemma FetchStepKeepsWellFormed(c: Config, s: State, w: nat)
    requires WellFormed(c, s) && w < c.workers && s.control[w].Fetching?
    ensures WellFormed(c, FetchStep(c, s, w))
  {
    var t := FetchStep(c, s, w);
    assert WorkerWellFormed(c, s, w);
    if s.control[w].at < 3 {
      GotoKeepsWellFormed(c, s, w, t.control[w]);
      SameWorkersWellFormed(c, Goto(s, w, t.control[w]), t);
    } else {
      forall v | 0 <= v < c.workers
        ensures WorkerWellFormed(c, t, v)
      {
        assert WorkerWellFormed(c, s, v);
      }
    }
  }

  lemma SameWorkersWellFormed(c: Config, s: State, t: State)
    requires WellFormed(c, s)
    requires t.control == s.control && t.pool == s.pool && s.tasks == t.tasks
    requires ValidDevice(t.device, c.instances) && t.client == s.client
    ensures WellFormed(c, t)
  {
    forall v | 0 <= v < c.workers
      ensures WorkerWellFormed(c, t, v)
    {
      assert WorkerWellFormed(c, s, v);
    }
  }

  lemma WorkKeepsWellFormed(c: Config, s: State, w: nat)
    requires WellFormed(c, s) && w < c.workers
    ensures WellFormed(c, Work(c, s, w))
  {
    if Scanning(s.control[w]) { ScanKeepsWellFormed(c, s, w); }
    else if s.control[w].Writing? { WriteStepKeepsWellFormed(c, s, w); }
    else if s.control[w].Polling? { PollStepKeepsWellFormed(c, s, w); }
    else { FetchStepKeepsWellFormed(c, s, w); }
  }

  lemma ClientKeepsWellFormed(c: Config, s: State, cmd: Command)
    requires WellFormed(c, s) && ClientEnabled(s, cmd)
    ensures WellFormed(c, ClientStep(s, cmd))
  {
    var t := ClientStep(s, cmd);
    forall v | 0 <= v < c.workers
      ensures WorkerWellFormed(c, t, v)
    {
      assert WorkerWellFormed(c, s, v);
    }
  }

  lemma StepKeepsWellFormed(c: Config, s: State, l: Label)
    requires WellFormed(c, s) && Enabled(c, s, l)
    ensures WellFormed(c, Apply(c, s, l))
  {
    match l
    case ByWorker(w) => WorkKeepsWellFormed(c, s, w);
    case ByDevice(k) => SameWorkersWellFormed(c, s, Apply(c, s, l));
    case ByClient(cmd) => ClientKeepsWellFormed(c, s, cmd);
  }

  // ---------------------------------------------------------------- stages are kept

  lemma ScanUntouched(c: Config, s: State, w: nat, v: nat)
    requires WellFormed(c, s) && w < c.workers && v < c.workers && v != w && Scanning(s.control[w])
    ensures var t := Scan(c, s, w);
            && |t.control| == |s.control| && |t.pool.running| == |s.pool.running|
            && t.control[v] == s.control[v] && t.pool.running[v] == s.pool.running[v]
            && t.tasks == s.tasks && t.device == s.device
  {
    assert WorkerWellFormed(c, s, w);
  }

  lemma RunUntouched(c: Config, s: State, w: nat, v: nat)
    requires WellFormed(c, s) && w < c.workers && v < c.workers && v != w && !Scanning(s.control[w])
    ensures var t := Work(c, s, w);
            && |t.control| == |s.control| && |t.pool.running| == |s.pool.running|
            && t.control[v] == s.control[v] && t.pool.running[v] == s.pool.running[v]
            && t.tasks == s.tasks && (!s.control[w].Writing? ==> t.device == s.device)
  {
    assert WorkerWellFormed(c, s, w);
    hide BatchWrite, ReadBlock, KernelBlock, DoneBit, View;
  }

  lemma OthersUntouched(c: Config, s: State, w: nat)
    requires WellFormed(c, s) && w < c.workers
    ensures WellFormed(c, Work(c, s, w))
    ensures forall v :: 0 <= v < c.workers && v != w ==> Untouched(c, s, Work(c, s, w), v)
  {
    WorkKeepsWellFormed(c, s, w);
    assert w < |s.control|;
    hide WellFormed, Scan, WriteStep, PollStep, FetchStep, View;
    forall v | 0 <= v < c.workers && v != w
      ensures Untouched(c, s, Work(c, s, w), v)
    {
      if Scanning(s.control[w]) {
        ScanUntouched(c, s, w, v);
      } else {
        RunUntouched(c, s, w, v);
        if s.control[w].Writing? { WriteUntouched(c, s, w, v); }
      }
    }
  }

  /** A write of a batch changes one block, of the worker's own instance. */
  lemma AccessDevice(c: Config, s: State, w: nat, kind: Kind, at: nat)
    requires WellFormed(c, s) && w < c.workers && s.control[w] == Writing(kind, at)
    requires 1 <= at <= BatchLength(kind)
    ensures var k := Instance(c, w);
            var i := BlockIndex(kind, at - 1);
            var a := BatchWrite(kind, k, TaskOf(c, s, w), at - 1);
            && a.block == BlockOf(k, i) < |s.device|
            && WriteStep(c, s, w).device
               == s.device[BlockOf(k, i) := WriteBlock(s.device[BlockOf(k, i)], a.reg, a.value)]
  {
  }

  lemma WriteUntouched(c: Config, s: State, w: nat, v: nat)
    requires WellFormed(c, s) && w < c.workers && v < c.workers && v != w && s.control[w].Writing?
    ensures var t := WriteStep(c, s, w);
            && ValidDevice(t.device, c.instances)
            && View(t.device, c.instances, Instance(c, v)) == View(s.device, c.instances, Instance(c, v))
  {
    OwnInstance(c, v);
    OwnInstance(c, w);
    assert WorkerWellFormed(c, s, w);
    var kind, at := s.control[w].kind, s.control[w].at;
    if 1 <= at <= BatchLength(kind) {
      AccessDevice(c, s, w, kind, at);
      var i := BlockIndex(kind, at - 1);
      var a := BatchWrite(kind, w, TaskOf(c, s, w), at - 1);
      WriteViews(s.device, c.instances, w, i, WriteBlock(s.device[BlockOf(w, i)], a.reg, a.value));
    }
  }

  lemma AccessKeepsStage(c: Config, s: State, w: nat, kind: Kind, at: nat)
    requires WellFormed(c, s) && w < c.workers && s.control[w] == Writing(kind, at) && WorkerStage(c, s, w)
    requires 1 <= at <= BatchLength(kind)
    ensures StageOk(c.kernel, View(WriteStep(c, s, w).device, c.instances, Instance(c, w)),
                    TaskOf(c, s, w), Writing(kind, at + 1))
  {
    assert WorkerWellFormed(c, s, w);
    var k, task := Instance(c, w), TaskOf(c, s, w);
    var a := BatchWrite(kind, k, task, at - 1);
    var i := BlockIndex(kind, at - 1);
    AccessDevice(c, s, w, kind, at);
    WriteKeepsStage(c.kernel, View(s.device, c.instances, k), task, kind, at, k);
    WriteViews(s.device, c.instances, k, i, WriteBlock(s.device[a.block], a.reg, a.value));
    assert s.device[a.block] == View(s.device, c.instances, k)[i];
  }

  lemma WriteStepKeepsStage(c: Config, s: State, w: nat)
    requires WellFormed(c, s) && w < c.workers && s.control[w].Writing? && WorkerStage(c, s, w)
    requires WellFormed(c, WriteStep(c, s, w))
    ensures WorkerStage(c, WriteStep(c, s, w), w)
  {
    assert WorkerWellFormed(c, s, w);
    var kind, at := s.control[w].kind, s.control[w].at;
    var t := WriteStep(c, s, w);
    assert TaskOf(c, t, w) == TaskOf(c, s, w);
    if 1 <= at <= BatchLength(kind) {
      AccessKeepsStage(c, s, w, kind, at);
    } else {
      assert t.device == s.device;
      if at > BatchLength(kind) {
        SectionEndKeepsStage(c, View(s.device, c.instances, Instance(c, w)), TaskOf(c, s, w), kind, w);
      }
    }
  }

  lemma PollStepKeepsStage(c: Config, s: State, w: nat)
    requires WellFormed(c, s) && w < c.workers && WorkerStage(c, s, w) && s.control[w].Polling?
    requires WellFormed(c, PollStep(c, s, w))
    ensures WorkerStage(c, PollStep(c, s, w), w)
  {
    assert WorkerWellFormed(c, s, w);
    assert KernelBlock(c, s, w) == View(s.device, c.instances, Instance(c, w))[NUM_COLS];
    DoneBitReadsDone(KernelBlock(c, s, w));
    assert !DoneBit(0);
    hide WorkerWellFormed, ValidDevice, View, DoneBit, ReadBlock, ArgsWritten;
  }

  lemma FetchStepKeepsStage(c: Config, s: State, w: nat)
    requires WellFormed(c, s) && w < c.workers && WorkerStage(c, s, w) && s.control[w].Fetching?
    requires WellFormed(c, FetchStep(c, s, w))
    ensures WorkerStage(c, FetchStep(c, s, w), w)
  {
    assert WorkerWellFormed(c, s, w);
    assert KernelBlock(c, s, w) == View(s.device, c.instances, Instance(c, w))[NUM_COLS];
  }

  lemma ReadStepKeepsStage(c: Config, s: State, w: nat)
    requires WellFormed(c, s) && w < c.workers && WorkerStage(c, s, w)
    requires s.control[w].Polling? || s.control[w].Fetching?
    requires WellFormed(c, Work(c, s, w))
    ensures WorkerStage(c, Work(c, s, w), w)
  {
    assert w < |s.control|;
    hide WorkerStage, WellFormed, PollStep, FetchStep;
    if s.control[w].Polling? { PollStepKeepsStage(c, s, w); } else { FetchStepKeepsStage(c, s, w); }
  }

  lemma WorkKeepsStages(c: Config, s: State, w: nat)
    requires WellFormed(c, s) && w < c.workers && Stages(c, s)
    ensures WellFormed(c, Work(c, s, w)) && Stages(c, Work(c, s, w))
  {
    OthersUntouched(c, s, w);
    assert w < |s.control| && WorkerStage(c, s, w);
    hide WellFormed, WorkerStage, Untouched, Scan, WriteStep, PollStep, FetchStep;
    var t := Work(c, s, w);
    forall v | 0 <= v < c.workers
      ensures WorkerStage(c, t, v)
    {
      if v != w {
        UntouchedStage(c, s, t, v);
      } else if s.control[w].Writing? {
        WriteStepKeepsStage(c, s, w);
      } else if !Scanning(s.control[w]) {
        ReadStepKeepsStage(c, s, w);
      } else {
        ScanKeepsStage(c, s, w);
      }
    }
  }

  lemma ClientKeepsStages(c: Config, s: State, cmd: Command)
    requires WellFormed(c, s) && ClientEnabled(s, cmd) && Stages(c, s)
    ensures WellFormed(c, ClientStep(s, cmd)) && Stages(c, ClientStep(s, cmd))
  {
    ClientKeepsWellFormed(c, s, cmd);
    var t := ClientStep(s, cmd);
    forall v | 0 <= v < c.workers
      ensures WorkerStage(c, t, v)
    {
      assert WorkerStage(c, s, v);
      assert Untouched(c, s, t, v) by { hide WorkerStage; }
      UntouchedStage(c, s, t, v);
    }
  }

  lemma StepKeepsStages(c: Config, s: State, l: Label)
    requires WellFormed(c, s) && Enabled(c, s, l) && Stages(c, s)
    ensures WellFormed(c, Apply(c, s, l)) && Stages(c, Apply(c, s, l))
  {
    hide WellFormed, WorkerStage, Work, ClientStep, Finish;
    StepKeepsWellFormed(c, s, l);
    match l
    case ByWorker(w) => WorkKeepsStages(c, s, w);
    case ByClient(cmd) => ClientKeepsStages(c, s, cmd);
    case ByDevice(k) =>
      forall v | 0 <= v < c.workers
        ensures WorkerStage(c, Apply(c, s, l), v)
      {
        assert WorkerStage(c, s, v);
        FinishKeepsWorkerStage(c, s, k, v);
      }
  }

  lemma ScanKeepsStage(c: Config, s: State, w: nat)
    requires WellFormed(c, s) && w < c.workers && Scanning(s.control[w])
    requires WellFormed(c, Scan(c, s, w))
    ensures WorkerStage(c, Scan(c, s, w), w)
  {
    assert WorkerWellFormed(c, s, w);
    var t := Scan(c, s, w);
    assert Scanning(t.control[w]) || t.control[w] == Writing(Reset, 0);
  }

  lemma FinishKeepsWorkerStage(c: Config, s: State, k: nat, w: nat)
    requires WellFormed(c, s) && Enabled(c, s, ByDevice(k)) && w < c.workers && WorkerStage(c, s, w)
    ensures WellFormed(c, Apply(c, s, ByDevice(k))) && WorkerStage(c, Apply(c, s, ByDevice(k)), w)
  {
    StepKeepsWellFormed(c, s, ByDevice(k));
    FinishViews(s.device, c.instances, k, c.kernel);
    if !Scanning(s.control[w]) && Instance(c, w) == k {
      FinishKeepsStage(c.kernel, View(s.device, c.instances, k), TaskOf(c, s, w), s.control[w]);
    }
  }
}
