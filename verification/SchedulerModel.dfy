/** The whole scheduler as a labelled transition system: one step per queue operation, register
    access, lock or unlock of a worker; per kernel completion; per action of the client thread.
    Every interleaving of these steps is a run. */
module SchedulerModel {
  import opened Mmio
  import Pool = TaskPool

  /** `workers` threads (NUM_THREADS) share `instances` copies of the hardware (3 in the code). */
  datatype Config = Config(workers: nat, instances: nat, kernel: Kernel)

  predicate ValidConfig(c: Config) { 1 <= c.workers <= c.instances }

  /** `instance_index % 3`. */
  function Instance(c: Config, w: nat): (k: nat)
    requires c.instances > 0
    ensures k < c.instances
  {
    w % c.instances
  }

  /** The poll interval is `(instance_index % 3) * 10`; zero means polling without the lock. */
  predicate PollsUnlocked(c: Config, w: nat)
    requires c.instances > 0
  {
    Instance(c, w) * 10 == 0
  }

  datatype Queue = Global | Deque(w: nat)

  /** Where a worker stands: scanning the queues, or inside RunInstanceProjection. `at` counts the
      steps of a critical section: 0 is about to lock, the last one is about to unlock. `seen` is a
      history: the queues found empty during the present call of run_pending_task. */
  datatype Control =
    | AtLocal
    | AtGlobal(seen: set<Queue>)
    | AtSteal(i: nat, seen: set<Queue>)
    | Writing(kind: Kind, at: nat)
    | Polling(at: nat, status: u32)
    | Fetching(at: nat, low: u32, high: u32)

  predicate Scanning(ctl: Control) { ctl.AtLocal? || ctl.AtGlobal? || ctl.AtSteal? }

  predicate InRange(c: Config, w: nat, ctl: Control)
    requires c.instances > 0
  {
    match ctl
    case AtLocal => true
    case AtGlobal(_) => true
    case AtSteal(i, _) => i < c.workers
    case Writing(kind, at) => at <= BatchLength(kind) + 1
    case Polling(at, _) => at <= 2 && (PollsUnlocked(c, w) ==> at == 1)
    case Fetching(at, _, _) => at <= 3
  }

  /** The thread that calls Submit and Next. */
  datatype Client =
    | Resting
    | Pushing(batch: seq<Task>, next: nat)
    | Collecting(first: nat, count: nat, next: nat)

  /** A critical section that wrote, for the history. */
  datatype Section = Section(worker: nat, kind: Kind, task: Task)

  datatype State = State(
    locked: bool,
    pool: Pool.Pool,
    control: seq<Control>,
    device: seq<Block>,
    tasks: seq<Task>,              // by task id, in the order they were submitted
    values: map<nat, real>,        // futures that are ready
    client: Client,
    results: seq<real>,
    tasksSubmitted: bool,
    delivered: seq<real>,          // history: what Next returned
    writes: seq<(nat, Access)>,    // history: every register write and its worker
    sections: seq<Section>)        // history: completed writing critical sections

  predicate WellFormed(c: Config, s: State) {
    && ValidConfig(c)
    && |s.control| == |s.pool.running| == |s.pool.deques| == c.workers
    && ValidDevice(s.device, c.instances)
    && s.pool.submitted == |s.tasks|
    && (forall i :: 0 <= i < |s.pool.global| ==> s.pool.global[i] < |s.tasks|)
    && (forall w, i :: 0 <= w < c.workers && 0 <= i < |s.pool.deques[w]| && s.pool.deques[w][i].Holds?
          ==> s.pool.deques[w][i].id < |s.tasks|)
    && (forall w :: 0 <= w < c.workers ==> WorkerWellFormed(c, s, w))
    && ClientWellFormed(s)
  }

  predicate WorkerWellFormed(c: Config, s: State, w: nat)
    requires |s.control| == |s.pool.running| == c.workers && w < c.workers <= c.instances
  {
    && InRange(c, w, s.control[w])
    && if Scanning(s.control[w]) then s.pool.running[w] == Pool.Shell
       else s.pool.running[w].Holds? && s.pool.running[w].id < |s.tasks|
  }

  predicate ClientWellFormed(s: State) {
    match s.client
    case Resting => true
    case Pushing(batch, next) => next <= |batch| && next <= |s.tasks|
    case Collecting(first, count, next) => next <= count && first + count == |s.tasks|
  }

  predicate IsInit(c: Config, s: State) {
    && ValidConfig(c)
    && ValidDevice(s.device, c.instances)   // the hardware may start in any condition
    && s == State(false, Pool.Init(c.workers), seq(c.workers, _ => AtLocal), s.device, [], map[],
                  Resting, [], false, [], [], [])
  }

  function TaskOf(c: Config, s: State, w: nat): Task
    requires WellFormed(c, s) && w < c.workers && !Scanning(s.control[w])
  {
    assert WorkerWellFormed(c, s, w);
    s.tasks[s.pool.running[w].id]
  }

  function Goto(s: State, w: nat, ctl: Control): State
    requires w < |s.control|
  {
    s.(control := s.control[w := ctl])
  }

  /** A popped task starts with Reset; calling a shell would be undefined, and is never reached. */
  function Launch(s: State, w: nat, step: Pool.Step): State
    requires w < |s.control| && Pool.Valid(s.pool) && Pool.Enabled(s.pool, step)
    requires w < |s.pool.running|
  {
    var p := Pool.Apply(s.pool, step);
    Goto(s.(pool := p), w, if p.running[w].Holds? then Writing(Reset, 0) else AtLocal)
  }

  /** `(instance_index + i + 1) % queues.size()`. */
  function Victim(c: Config, w: nat, i: nat): (v: nat)
    requires c.workers > 0
    ensures v < c.workers
  {
    (w + i + 1) % c.workers
  }

  function Scan(c: Config, s: State, w: nat): State
    requires WellFormed(c, s) && w < c.workers && Scanning(s.control[w])
  {
    assert WorkerWellFormed(c, s, w);
    match s.control[w]
    case AtLocal =>
      if s.pool.deques[w] != [] then Launch(s, w, Pool.PopLocal(w)) else Goto(s, w, AtGlobal({Deque(w)}))
    case AtGlobal(seen) =>
      if s.pool.global != [] then Launch(s, w, Pool.PopGlobal(w)) else Goto(s, w, AtSteal(0, seen + {Global}))
    case AtSteal(i, seen) =>
      if s.pool.deques[Victim(c, w, i)] != [] then Launch(s, w, Pool.Steal(w, Victim(c, w, i)))
      else Goto(s, w, if i + 1 < c.workers then AtSteal(i + 1, seen + {Deque(Victim(c, w, i))}) else AtLocal)
  }

  /** The worker gives up its turn: the last deque of the scan is empty as well. */
  predicate Yields(c: Config, s: State, w: nat)
    requires WellFormed(c, s) && w < c.workers
  {
    && s.control[w].AtSteal?
    && s.control[w].i + 1 == c.workers
    && s.pool.deques[Victim(c, w, s.control[w].i)] == []
  }

  function AfterSection(c: Config, w: nat, kind: Kind): Control
    requires c.instances > 0
  {
    match kind
    case Reset => Writing(Arguments, 0)
    case Arguments => Writing(Start, 0)
    case Start => Polling(if PollsUnlocked(c, w) then 1 else 0, 0)
  }

  function WriteStep(c: Config, s: State, w: nat): State
    requires WellFormed(c, s) && w < c.workers && s.control[w].Writing?
  {
    assert WorkerWellFormed(c, s, w);
    var kind, at := s.control[w].kind, s.control[w].at;
    if at == 0 then
      if s.locked then s else Goto(s.(locked := true), w, Writing(kind, 1))
    else if at <= BatchLength(kind) then
      var a := BatchWrite(kind, Instance(c, w), TaskOf(c, s, w), at - 1);
      Goto(s.(device := WriteDevice(s.device, c.instances, a.block, a.reg, a.value),
              writes := s.writes + [(w, a)]), w, Writing(kind, at + 1))
    else
      Goto(s.(locked := false, sections := s.sections + [Section(w, kind, TaskOf(c, s, w))]),
           w, AfterSection(c, w, kind))
  }

  function KernelBlock(c: Config, s: State, w: nat): Block
    requires WellFormed(c, s) && w < c.workers
  {
    Part(s.device, c.instances, Instance(c, w), NUM_COLS)
  }

  function PollStep(c: Config, s: State, w: nat): State
    requires WellFormed(c, s) && w < c.workers && s.control[w].Polling?
  {
    var at, status := s.control[w].at, s.control[w].status;
    if at == 0 then
      if s.locked then s else Goto(s.(locked := true), w, Polling(1, status))
    else if at == 1 then
      var read := ReadBlock(KernelBlock(c, s, w), STATUS);
      if PollsUnlocked(c, w) then Goto(s, w, if DoneBit(read) then Fetching(0, 0, 0) else Polling(1, read))
      else Goto(s, w, Polling(2, read))
    else
      Goto(s.(locked := false), w, if DoneBit(status) then Fetching(0, 0, 0) else Polling(0, status))
  }

  function FetchStep(c: Config, s: State, w: nat): State
    requires WellFormed(c, s) && w < c.workers && s.control[w].Fetching?
  {
    assert WorkerWellFormed(c, s, w);
    var Fetching(at, low, high) := s.control[w];
    if at == 0 then
      if s.locked then s else Goto(s.(locked := true), w, Fetching(1, low, high))
    else if at == 1 then
      Goto(s, w, Fetching(2, ReadBlock(KernelBlock(c, s, w), RESULT_LOW), high))
    else if at == 2 then
      Goto(s, w, Fetching(3, low, ReadBlock(KernelBlock(c, s, w), RESULT_HIGH)))
    else
      Goto(s.(locked := false,
              values := s.values[s.pool.running[w].id := Scaled(Join(high, low))],
              pool := Pool.Apply(s.pool, Pool.Complete(w))), w, AtLocal)
  }

  /** One step of worker w. A worker never blocks: a refused lock is a step that changes nothing. */
  function Work(c: Config, s: State, w: nat): State
    requires WellFormed(c, s) && w < c.workers
  {
    if Scanning(s.control[w]) then Scan(c, s, w)
    else if s.control[w].Writing? then WriteStep(c, s, w)
    else if s.control[w].Polling? then PollStep(c, s, w)
    else FetchStep(c, s, w)
  }

  // ---------------------------------------------------------------- client

  datatype Command = Submit(batch: seq<Task>) | Proceed | Next

  /** `(results.size() > 0) and tasks_submitted`. */
  predicate HasNext(s: State) { s.results != [] && s.tasksSubmitted }

  predicate ClientEnabled(s: State, cmd: Command) {
    match cmd
    case Submit(_) => s.client == Resting
    case Next => s.client == Resting && HasNext(s)
    case Proceed =>
      match s.client
      case Resting => false
      case Pushing(_, _) => true
      case Collecting(first, count, next) => next < count ==> first + next in s.values
  }

  function ClientStep(s: State, cmd: Command): State
    requires ClientWellFormed(s) && ClientEnabled(s, cmd) && Pool.Valid(s.pool)
  {
    match cmd
    case Submit(batch) => s.(client := Pushing(batch, 0))
    case Next => s.(delivered := s.delivered + [s.results[0]], results := s.results[1..])
    case Proceed =>
      match s.client
      case Pushing(batch, next) =>
        if next < |batch| then
          s.(tasks := s.tasks + [batch[next]], pool := Pool.Apply(s.pool, Pool.SubmitGlobal),
             client := Pushing(batch, next + 1))
        else s.(client := Collecting(|s.tasks| - |batch|, |batch|, 0))
      case Collecting(first, count, next) =>
        if next < count then
          s.(results := s.results + [s.values[first + next]], client := Collecting(first, count, next + 1))
        else s.(tasksSubmitted := true, client := Resting)
  }

  // ---------------------------------------------------------------- runs

  datatype Label = ByWorker(w: nat) | ByDevice(k: nat) | ByClient(cmd: Command)

  predicate Enabled(c: Config, s: State, l: Label)
    requires WellFormed(c, s)
  {
    match l
    case ByWorker(w) => w < c.workers
    case ByDevice(k) => k < c.instances && CanFinish(s.device, c.instances, k)
    case ByClient(cmd) => ClientEnabled(s, cmd)
  }

  function Apply(c: Config, s: State, l: Label): State
    requires WellFormed(c, s) && Enabled(c, s, l)
  {
    match l
    case ByWorker(w) => Work(c, s, w)
    case ByDevice(k) => s.(device := Finish(s.device, c.instances, k, c.kernel))
    case ByClient(cmd) => ClientStep(s, cmd)
  }

  /** States joined by enabled steps. */
  ghost predicate IsPath(c: Config, states: seq<State>, labels: seq<Label>) {
    && |states| == |labels| + 1
    && forall i :: 0 <= i < |labels| ==>
         && WellFormed(c, states[i])
         && Enabled(c, states[i], labels[i])
         && states[i + 1] == Apply(c, states[i], labels[i])
  }

  /** A run is a path from an initial state. */
  ghost predicate IsRun(c: Config, states: seq<State>, labels: seq<Label>) {
    IsPath(c, states, labels) && IsInit(c, states[0])
  }

  /** Each worker has its own instance exactly when there are at least as many instances. */
  lemma OwnInstanceIffEnough(c: Config)
    requires c.instances > 0
    ensures (forall v, w :: 0 <= v < c.workers && 0 <= w < c.workers && v != w ==> Instance(c, v) != Instance(c, w))
       <==> c.workers <= c.instances
  {
    if c.workers <= c.instances {
      forall w | 0 <= w < c.workers
        ensures Instance(c, w) == w
      {
        OwnInstance(c, w);
      }
    } else {
      assert Instance(c, 0) == Instance(c, c.instances);
    }
  }

  lemma OwnInstance(c: Config, w: nat)
    requires w < c.instances
    ensures Instance(c, w) == w
  {
  }
}
