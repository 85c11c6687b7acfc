/** Queue-level model of the thread pool: a global FIFO, one deque per worker, and the tasks that
    workers are running. It answers when a submitted task can get lost. */
module TaskPool {

  /** A queued FunctionWrapper: it owns a task, or it is the shell that `std::move` left behind. */
  datatype Cell = Shell | Holds(id: nat)

  /** `started` and `finished` are histories: task ids in the order they were begun and completed. */
  datatype Pool = Pool(
    global: seq<nat>,
    deques: seq<seq<Cell>>,
    running: seq<Cell>,
    started: seq<nat>,
    finished: seq<nat>,
    submitted: nat)

  predicate Valid(p: Pool) { |p.deques| == |p.running| }

  function Init(workers: nat): (p: Pool)
    ensures Valid(p)
  {
    Pool([], seq(workers, _ => []), seq(workers, _ => Shell), [], [], 0)
  }

  // ---------------------------------------------------------------- deque operations

  function PushFront(d: seq<Cell>, c: Cell): seq<Cell> { [c] + d }

  function AfterPop(d: seq<Cell>): seq<Cell>
    requires d != []
  {
    d[1..]
  }

  /** What `try_steal` leaves: the front is moved from, then the back is destroyed. */
  function AfterSteal(d: seq<Cell>): seq<Cell>
    requires d != []
  {
    d[0 := Shell][..|d| - 1]
  }

  // ---------------------------------------------------------------- steps

  datatype Step =
    | SubmitGlobal
    | SubmitLocal(w: nat)
    | PopLocal(w: nat)
    | PopGlobal(w: nat)
    | Steal(w: nat, victim: nat)
    | Complete(w: nat)

  predicate Idle(p: Pool, w: nat) { w < |p.running| && p.running[w] == Shell }

  predicate Busy(p: Pool, w: nat) { w < |p.running| && p.running[w].Holds? }

  predicate Enabled(p: Pool, step: Step)
    requires Valid(p)
  {
    match step
    case SubmitGlobal => true
    case SubmitLocal(w) => Busy(p, w)
    case PopLocal(w) => Idle(p, w) && p.deques[w] != []
    case PopGlobal(w) => Idle(p, w) && p.global != []
    case Steal(w, v) => Idle(p, w) && v < |p.deques| && p.deques[v] != []
    case Complete(w) => Busy(p, w)
  }

  function Begin(p: Pool, w: nat, c: Cell): (q: Pool)
    requires Valid(p) && Idle(p, w)
    ensures Valid(q)
  {
    p.(running := p.running[w := c], started := if c.Holds? then p.started + [c.id] else p.started)
  }

  function Apply(p: Pool, step: Step): (q: Pool)
    requires Valid(p) && Enabled(p, step)
    ensures Valid(q)
  {
    match step
    case SubmitGlobal => p.(global := p.global + [p.submitted], submitted := p.submitted + 1)
    case SubmitLocal(w) =>
      p.(deques := p.deques[w := PushFront(p.deques[w], Holds(p.submitted))], submitted := p.submitted + 1)
    case PopLocal(w) =>
      Begin(p.(deques := p.deques[w := AfterPop(p.deques[w])]), w, p.deques[w][0])
    case PopGlobal(w) => Begin(p.(global := p.global[1..]), w, Holds(p.global[0]))
    case Steal(w, v) =>
      Begin(p.(deques := p.deques[v := AfterSteal(p.deques[v])]), w, p.deques[v][0])
    case Complete(w) =>
      p.(running := p.running[w := Shell], finished := p.finished + [p.running[w].id])
  }

  // ---------------------------------------------------------------- census

  function One(c: Cell, id: nat): nat { if c == Holds(id) then 1 else 0 }

  /** How often a task occurs in a row of cells. */
  function Count(cells: seq<Cell>, id: nat): nat {
    if cells == [] then 0 else One(cells[0], id) + Count(cells[1..], id)
  }

  function DequeCount(ds: seq<seq<Cell>>, id: nat): nat {
    if ds == [] then 0 else Count(ds[0], id) + DequeCount(ds[1..], id)
  }

  /** Multiplicity of a task among those queued or running. */
  function Live(p: Pool, id: nat): nat {
    multiset(p.global)[id] + DequeCount(p.deques, id) + Count(p.running, id)
  }

  function Census(p: Pool, id: nat): nat { Live(p, id) + multiset(p.finished)[id] }

  /** Every submitted task is in exactly one place, once. */
  ghost predicate Conserved(p: Pool) {
    forall id: nat :: Census(p, id) == if id < p.submitted then 1 else 0
  }

  lemma {:induction false} CountUpdate(cells: seq<Cell>, i: nat, c: Cell, id: nat)
    requires i < |cells|
    ensures Count(cells[i := c], id) + One(cells[i], id) == Count(cells, id) + One(c, id)
  {
    if i == 0 {
      assert cells[0 := c][1..] == cells[1..];
    } else {
      CountUpdate(cells[1..], i - 1, c, id);
      assert cells[i := c][1..] == cells[1..][i - 1 := c];
    }
  }

  lemma {:induction false} DequeCountUpdate(ds: seq<seq<Cell>>, i: nat, d: seq<Cell>, id: nat)
    requires i < |ds|
    ensures DequeCount(ds[i := d], id) + Count(ds[i], id) == DequeCount(ds, id) + Count(d, id)
  {
    if i == 0 {
      assert ds[0 := d][1..] == ds[1..];
    } else {
      DequeCountUpdate(ds[1..], i - 1, d, id);
      assert ds[i := d][1..] == ds[1..][i - 1 := d];
    }
  }

  lemma {:induction false} CountSnoc(cells: seq<Cell>, c: Cell, id: nat)
    ensures Count(cells + [c], id) == Count(cells, id) + One(c, id)
  {
    if cells == [] {
      assert cells + [c] == [c];
    } else {
      CountSnoc(cells[1..], c, id);
      assert (cells + [c])[1..] == cells[1..] + [c];
    }
  }

  lemma {:induction false} CountMember(cells: seq<Cell>, id: nat)
    ensures Count(cells, id) > 0 <==> Holds(id) in cells
  {
    if cells != [] {
      CountMember(cells[1..], id);
    }
  }

  ghost predicate InDeque(ds: seq<seq<Cell>>, id: nat) {
    exists w :: 0 <= w < |ds| && Holds(id) in ds[w]
  }

  lemma {:induction false} DequeCountMember(ds: seq<seq<Cell>>, id: nat)
    ensures DequeCount(ds, id) > 0 <==> InDeque(ds, id)
  {
    if ds != [] {
      CountMember(ds[0], id);
      DequeCountMember(ds[1..], id);
      if w :| 0 <= w < |ds| && Holds(id) in ds[w] && w > 0 {
        assert Holds(id) in ds[1..][w - 1];
      }
      if w :| 0 <= w < |ds[1..]| && Holds(id) in ds[1..][w] {
        assert Holds(id) in ds[w + 1];
      }
    }
  }

  /** Stealing from a deque of two or more destroys the entry at the back, and nothing else. */
  lemma {:induction false} AfterStealCount(d: seq<Cell>, id: nat)
    requires d != []
    ensures Count(AfterSteal(d), id) + One(d[0], id) + (if |d| >= 2 then One(d[|d| - 1], id) else 0)
         == Count(d, id)
  {
    if |d| == 1 {
      assert AfterSteal(d) == [];
      assert d[1..] == [];
    } else {
      var front := d[..|d| - 1];
      assert AfterSteal(d) == front[0 := Shell];
      CountUpdate(front, 0, Shell, id);
      CountSnoc(front, d[|d| - 1], id);
      assert front + [d[|d| - 1]] == d;
    }
  }

  /** The entry a step takes out of existence, if any. */
  function Destroyed(p: Pool, step: Step): Cell
    requires Valid(p) && Enabled(p, step)
  {
    if step.Steal? && |p.deques[step.victim]| >= 2
    then p.deques[step.victim][|p.deques[step.victim]| - 1]
    else Shell
  }

  function Created(p: Pool, step: Step): Cell {
    if step.SubmitGlobal? || step.SubmitLocal? then Holds(p.submitted) else Shell
  }

  lemma BeginCensus(p: Pool, w: nat, c: Cell, id: nat)
    requires Valid(p) && Idle(p, w)
    ensures Live(Begin(p, w, c), id) == Live(p, id) + One(c, id)
  {
    CountUpdate(p.running, w, c, id);
  }

  /** Balance of every step: what was there plus what is submitted is what remains plus what is
      destroyed. */
  lemma StepCensus(p: Pool, step: Step, id: nat)
    requires Valid(p) && Enabled(p, step)
    ensures Census(Apply(p, step), id) + One(Destroyed(p, step), id)
         == Census(p, id) + One(Created(p, step), id)
  {
    match step
    case SubmitGlobal =>
    case SubmitLocal(w) =>
      var d := PushFront(p.deques[w], Holds(p.submitted));
      assert d[1..] == p.deques[w];
      DequeCountUpdate(p.deques, w, d, id);
    case PopLocal(w) =>
      var d := p.deques[w];
      DequeCountUpdate(p.deques, w, AfterPop(d), id);
      BeginCensus(p.(deques := p.deques[w := AfterPop(d)]), w, d[0], id);
    case PopGlobal(w) =>
      assert p.global == [p.global[0]] + p.global[1..];
      BeginCensus(p.(global := p.global[1..]), w, Holds(p.global[0]), id);
    case Steal(w, v) => StealCensus(p, w, v, id);
    case Complete(w) =>
      CountUpdate(p.running, w, Shell, id);
  }

  lemma StealCensus(p: Pool, w: nat, v: nat, id: nat)
    requires Valid(p) && Enabled(p, Steal(w, v))
    ensures Census(Apply(p, Steal(w, v)), id) + One(Destroyed(p, Steal(w, v)), id) == Census(p, id)
  {
    hide Count, DequeCount, AfterSteal;
    var d := p.deques[v];
    DequeCountUpdate(p.deques, v, AfterSteal(d), id);
    AfterStealCount(d, id);
    BeginCensus(p.(deques := p.deques[v := AfterSteal(d)]), w, d[0], id);
  }

  /** A steal keeps the multiset of live tasks exactly when the victim holds at most one entry, or
      its last entry is a shell. */
  lemma StealKeepsLive(p: Pool, w: nat, v: nat)
    requires Valid(p) && Enabled(p, Steal(w, v))
    ensures (forall id: nat :: Live(Apply(p, Steal(w, v)), id) == Live(p, id)) <==>
            |p.deques[v]| <= 1 || p.deques[v][|p.deques[v]| - 1] == Shell
  {
    var q := Apply(p, Steal(w, v));
    forall id: nat
      ensures Live(q, id) + One(Destroyed(p, Steal(w, v)), id) == Live(p, id)
    {
      StepCensus(p, Steal(w, v), id);
    }
    if Destroyed(p, Steal(w, v)).Holds? {
      var id := Destroyed(p, Steal(w, v)).id;
      assert Live(q, id) + 1 == Live(p, id);
    }
  }

  // ---------------------------------------------------------------- runs

  ghost predicate NoShells(p: Pool) {
    forall w, i :: 0 <= w < |p.deques| && 0 <= i < |p.deques[w]| ==> p.deques[w][i].Holds?
  }

  predicate ShortSteal(p: Pool, step: Step) {
    step.Steal? && step.victim < |p.deques| ==> |p.deques[step.victim]| <= 1
  }

  ghost predicate IsRun(workers: nat, ps: seq<Pool>, steps: seq<Step>) {
    && |ps| == |steps| + 1
    && ps[0] == Init(workers)
    && (forall i :: 0 <= i < |ps| ==> Valid(ps[i]))
    && forall i :: 0 <= i < |steps| ==> Enabled(ps[i], steps[i]) && ps[i + 1] == Apply(ps[i], steps[i])
  }

  /** A task that was begun is running or finished. */
  ghost predicate Started(p: Pool) {
    forall id: nat :: multiset(p.started)[id] == Count(p.running, id) + multiset(p.finished)[id]
  }

  lemma {:induction false} ShellsHoldNothing(cells: seq<Cell>, id: nat)
    requires forall i :: 0 <= i < |cells| ==> cells[i] == Shell
    ensures Count(cells, id) == 0
  {
    if cells != [] { ShellsHoldNothing(cells[1..], id); }
  }

  lemma {:induction false} EmptyDequesHoldNothing(ds: seq<seq<Cell>>, id: nat)
    requires forall i :: 0 <= i < |ds| ==> ds[i] == []
    ensures DequeCount(ds, id) == 0
  {
    if ds != [] { EmptyDequesHoldNothing(ds[1..], id); }
  }

  lemma InitGood(workers: nat)
    ensures Conserved(Init(workers)) && NoShells(Init(workers)) && Started(Init(workers))
  {
    var p := Init(workers);
    forall id: nat
      ensures Count(p.running, id) == 0 && DequeCount(p.deques, id) == 0
    {
      ShellsHoldNothing(p.running, id);
      EmptyDequesHoldNothing(p.deques, id);
    }
  }

  lemma BeginStarted(p: Pool, w: nat, c: Cell)
    requires Valid(p) && Idle(p, w) && Started(p)
    ensures Started(Begin(p, w, c))
  {
    forall id: nat
      ensures Count(p.running[w := c], id) == Count(p.running, id) + One(c, id)
    {
      CountUpdate(p.running, w, c, id);
    }
  }

  lemma StepStarted(p: Pool, step: Step)
    requires Valid(p) && Enabled(p, step) && Started(p)
    ensures Started(Apply(p, step))
  {
    match step
    case SubmitGlobal =>
    case SubmitLocal(w) =>
    case PopLocal(w) =>
      BeginStarted(p.(deques := p.deques[w := AfterPop(p.deques[w])]), w, p.deques[w][0]);
    case PopGlobal(w) =>
      BeginStarted(p.(global := p.global[1..]), w, Holds(p.global[0]));
    case Steal(w, v) =>
      BeginStarted(p.(deques := p.deques[v := AfterSteal(p.deques[v])]), w, p.deques[v][0]);
    case Complete(w) =>
      forall id: nat
        ensures Count(p.running[w := Shell], id) + One(p.running[w], id) == Count(p.running, id)
      {
        CountUpdate(p.running, w, Shell, id);
      }
  }

  lemma StepNoShells(p: Pool, step: Step)
    requires Valid(p) && Enabled(p, step) && NoShells(p) && ShortSteal(p, step)
    ensures NoShells(Apply(p, step))
  {
  }

  lemma StepConserved(p: Pool, step: Step)
    requires Valid(p) && Enabled(p, step) && Conserved(p) && ShortSteal(p, step)
    ensures Conserved(Apply(p, step))
  {
    forall id: nat
      ensures Census(Apply(p, step), id) == if id < Apply(p, step).submitted then 1 else 0
    {
      StepCensus(p, step, id);
    }
  }

  /** A task that is nowhere stays nowhere. */
  ghost predicate Lost(p: Pool) {
    exists id: nat :: id < p.submitted && Census(p, id) == 0
  }

  lemma StepLost(p: Pool, step: Step)
    requires Valid(p) && Enabled(p, step) && Lost(p)
    ensures Lost(Apply(p, step))
  {
    var id: nat :| id < p.submitted && Census(p, id) == 0;
    StepCensus(p, step, id);
    assert Census(Apply(p, step), id) == 0;
  }

  lemma LongStealLoses(p: Pool, step: Step)
    requires Valid(p) && Enabled(p, step) && Conserved(p) && NoShells(p) && !ShortSteal(p, step)
    ensures Lost(Apply(p, step))
  {
    var id := Destroyed(p, step).id;
    StepCensus(p, step, id);
    assert Census(p, id) <= 1;
    assert Census(Apply(p, step), id) == 0;
  }

  ghost predicate ShortSteals(ps: seq<Pool>, steps: seq<Step>, n: nat)
    requires n <= |steps| && n <= |ps|
  {
    forall i :: 0 <= i < n ==> ShortSteal(ps[i], steps[i])
  }

  lemma {:induction false} RunState(workers: nat, ps: seq<Pool>, steps: seq<Step>, n: nat)
    requires IsRun(workers, ps, steps) && n <= |steps|
    ensures Started(ps[n])
    ensures if ShortSteals(ps, steps, n) then Conserved(ps[n]) && NoShells(ps[n]) else Lost(ps[n])
  {
    if n == 0 {
      InitGood(workers);
    } else {
      RunState(workers, ps, steps, n - 1);
      var p, step := ps[n - 1], steps[n - 1];
      assert Enabled(p, step) && ps[n] == Apply(p, step);
      StepStarted(p, step);
      if !ShortSteals(ps, steps, n - 1) {
        StepLost(p, step);
      } else if ShortSteal(p, step) {
        StepNoShells(p, step);
        StepConserved(p, step);
      } else {
        LongStealLoses(p, step);
        assert !ShortSteal(ps[n - 1], steps[n - 1]);
      }
    }
  }

  /** Over every run, with tasks submitted from outside and by workers: no task is lost or doubled
      if and only if every steal found at most one entry in its victim's deque. */
  lemma ConservedIffShortSteals(workers: nat, ps: seq<Pool>, steps: seq<Step>)
    requires IsRun(workers, ps, steps)
    ensures Conserved(ps[|steps|]) <==> ShortSteals(ps, steps, |steps|)
  {
    RunState(workers, ps, steps, |steps|);
  }

  /** The step hands a worker an entry that was moved from; calling it is undefined. */
  predicate TakesShell(p: Pool, step: Step)
    requires Valid(p) && Enabled(p, step)
  {
    match step
    case PopLocal(w) => p.deques[w][0] == Shell
    case Steal(_, v) => p.deques[v][0] == Shell
    case _ => false
  }

  /** First in, first out: what was begun and what waits in the global queue are the tasks in turn. */
  ghost predicate InTurn(p: Pool) {
    && |p.started| + |p.global| == p.submitted
    && (forall i :: 0 <= i < |p.started| ==> p.started[i] == i)
    && forall i :: 0 <= i < |p.global| ==> p.global[i] == |p.started| + i
  }

  lemma StepInTurn(p: Pool, step: Step)
    requires Valid(p) && Enabled(p, step) && InTurn(p)
    requires step.SubmitGlobal? || step.PopGlobal? || step.Complete?
    ensures InTurn(Apply(p, step))
  {
  }

  /** A worker calls an emptied entry, which is undefined, only after some steal met a long deque. */
  lemma ShellsComeFromLongSteals(workers: nat, ps: seq<Pool>, steps: seq<Step>, i: nat)
    requires IsRun(workers, ps, steps) && i < |steps| && TakesShell(ps[i], steps[i])
    ensures !ShortSteals(ps, steps, i)
  {
    RunState(workers, ps, steps, i);
  }

  /** A run that loses a task: a worker submits two tasks of its own, and another one steals. It takes
      the younger task, and the older one is destroyed with the back of the deque. */
  lemma LongStealHappens() returns (ps: seq<Pool>, steps: seq<Step>)
    ensures IsRun(2, ps, steps) && |steps| == 5 && !ShortSteals(ps, steps, 5)
    ensures steps == [SubmitGlobal, PopGlobal(0), SubmitLocal(0), SubmitLocal(0), Steal(1, 0)]
    ensures ps[5].submitted == 3 && Census(ps[5], 1) == 0 && ps[5].running == [Holds(0), Holds(2)]
    ensures Lost(ps[5])
  {
    hide Count, DequeCount;
    var none: seq<Cell> := [];
    var p0 := Init(2);
    var p1 := Apply(p0, SubmitGlobal);
    var p2 := Apply(p1, PopGlobal(0));
    var p3 := Apply(p2, SubmitLocal(0));
    var p4 := Apply(p3, SubmitLocal(0));
    var p5 := Apply(p4, Steal(1, 0));
    assert p0.deques == [none, none] && p0.running == [Shell, Shell];
    assert p2 == Pool([], [none, none], [Holds(0), Shell], [0], [], 1);
    assert PushFront(none, Holds(1)) == [Holds(1)] && PushFront([Holds(1)], Holds(2)) == [Holds(2), Holds(1)];
    assert p4 == Pool([], [[Holds(2), Holds(1)], none], [Holds(0), Shell], [0], [], 3);
    assert AfterSteal([Holds(2), Holds(1)]) == [Shell];
    assert p5 == Pool([], [[Shell], none], [Holds(0), Holds(2)], [0, 2], [], 3);
    ps, steps := [p0, p1, p2, p3, p4, p5], [SubmitGlobal, PopGlobal(0), SubmitLocal(0), SubmitLocal(0), Steal(1, 0)];
    assert !ShortSteal(ps[4], steps[4]);
    NothingHoldsOne(p5);
  }

  lemma NothingHoldsOne(p: Pool)
    requires p.global == [] && p.deques == [[Shell], []] && p.running == [Holds(0), Holds(2)] && p.finished == []
    ensures Census(p, 1) == 0
  {
    hide Count, DequeCount;
    CountMember(p.running, 1);
    DequeCountMember(p.deques, 1);
    assert Holds(1) !in p.deques[0] && Holds(1) !in p.deques[1];
  }

  /** Exactly-once reading of conservation: a submitted task is in one of the four places and in no
      two of them, and no task is ever begun twice. */
  lemma ExactlyOnePlace(p: Pool, id: nat)
    requires Conserved(p) && Started(p)
    ensures id < p.submitted <==>
            id in p.global || InDeque(p.deques, id) || Holds(id) in p.running || id in p.finished
    ensures id in p.global ==>
              !InDeque(p.deques, id) && Holds(id) !in p.running && id !in p.finished
    ensures InDeque(p.deques, id) ==> Holds(id) !in p.running && id !in p.finished
    ensures Holds(id) in p.running ==> id !in p.finished
    ensures multiset(p.started)[id] <= 1
  {
    DequeCountMember(p.deques, id);
    CountMember(p.running, id);
    assert Census(p, id) == multiset(p.global)[id] + DequeCount(p.deques, id)
                            + Count(p.running, id) + multiset(p.finished)[id];
    assert id in p.global <==> id in multiset(p.global);
    assert id in p.finished <==> id in multiset(p.finished);
  }
}
