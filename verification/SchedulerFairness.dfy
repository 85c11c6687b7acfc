/** Completion under a fair schedule. The spinlock itself is unfair: it may pass any worker by for ever.
    It is enough that every worker gets a turn now and then, whatever it finds when it does. */
module SchedulerFairness {
  import opened Mmio
  import opened SchedulerModel
  import opened SchedulerSafety
  import opened SchedulerInvariants
  import opened SchedulerResults
  import opened SchedulerProgress
  import Pool = TaskPool

  // ---------------------------------------------------------------- fair paths

  /** Some of the n labels from a on is l. */
  ghost predicate Occurs(labels: seq<Label>, a: nat, n: nat, l: Label) {
    exists i :: a <= i < a + n && i < |labels| && labels[i] == l
  }

  ghost predicate StaysReady(c: Config, states: seq<State>, a: nat, n: nat, k: nat)
    requires a + n <= |states| && k < c.instances
  {
    forall i :: a <= i < a + n ==>
      ValidDevice(states[i].device, c.instances) && CanFinish(states[i].device, c.instances, k)
  }

  ghost predicate StaysWilling(states: seq<State>, a: nat, n: nat)
    requires a + n <= |states|
  {
    forall i :: a <= i < a + n ==> ClientEnabled(states[i], Proceed)
  }

  /** In these n steps every worker has a turn, a kernel that stays ready finishes, and a client that can
      go on all the time does. */
  ghost predicate FairWindow(c: Config, states: seq<State>, labels: seq<Label>, a: nat, n: nat)
    requires a + n <= |labels| < |states|
  {
    && (forall w :: 0 <= w < c.workers ==> Occurs(labels, a, n, ByWorker(w)))
    && (forall k :: 0 <= k < c.instances && StaysReady(c, states, a, n, k) ==> Occurs(labels, a, n, ByDevice(k)))
    && (StaysWilling(states, a, n) ==> Occurs(labels, a, n, ByClient(Proceed)))
  }

  /** A path that submits nothing new and whose windows of K steps are all fair. */
  ghost predicate FairPath(c: Config, states: seq<State>, labels: seq<Label>, K: nat) {
    && IsPath(c, states, labels)
    && (forall i :: 0 <= i < |labels| ==> !(labels[i].ByClient? && labels[i].cmd.Submit?))
    && K > 0
    && forall a: nat :: a + K <= |labels| ==> FairWindow(c, states, labels, a, K)
  }

  // ---------------------------------------------------------------- waiting steps

  /** What no waiting step changes. */
  predicate Same(s: State, t: State) {
    t.device == s.device && t.pool.global == s.pool.global && t.tasks == s.tasks
    && t.values == s.values && t.client == s.client
  }

  /** How a worker moves while it waits. */
  predicate WaitsFrom(c: Config, s: State, t: State, w: nat)
    requires WellFormed(c, s) && w < c.workers && w < |s.control| && w < |t.control|
  {
    match s.control[w]
    case Writing(_, at) => at == 0 && s.locked && t.locked && t.control[w] == s.control[w]
    case Fetching(at, _, _) => at == 0 && s.locked && t.locked && t.control[w] == s.control[w]
    case Polling(at, status) =>
      if at == 0 then t.locked && if s.locked then t.control[w] == s.control[w]
                                  else t.control[w].Polling? && t.control[w].at == 1
      else if at == 2 then !t.locked && t.control[w].Polling? && t.control[w].at == 0
      else t.locked == s.locked && !KernelBlock(c, s, w).done && t.control[w].Polling?
    case _ => t.locked == s.locked && Scanning(t.control[w])
              && (s.control[w].AtGlobal? ==> s.pool.global == [])
              && (s.pool.global != [] ==> Remaining(c, t.control[w]) < Remaining(c, s.control[w]))
  }

  /** A step of worker w that does not advance. */
  predicate Waits(c: Config, s: State, t: State, w: nat) {
    && WellFormed(c, s) && w < c.workers && w < |t.control|
    && t.control == s.control[w := t.control[w]]
    && Same(s, t) && WaitsFrom(c, s, t, w)
  }

  lemma {:induction false} ScanWaits(c: Config, s: State, w: nat)
    requires WellFormed(c, s) && Tasks(c, s) && w < c.workers && Scanning(s.control[w])
    requires !Advances(c, s, ByWorker(w))
    ensures Waits(c, s, Work(c, s, w), w)
  {
    ScanParts(c, s, w);
    ScanLeavesLock(c, s, w);
    ScanFrame(c, s, w);
    var t := Scan(c, s, w);
    if s.pool.global != [] {
      MovingOnDrops(c, s.control[w], t.control[w]);
    }
  }

  lemma {:induction false} RunWaits(c: Config, s: State, w: nat)
    requires WellFormed(c, s) && w < c.workers && !Scanning(s.control[w])
    requires !Advances(c, s, ByWorker(w)) && Exclusive(c, s)
    ensures Waits(c, s, Work(c, s, w), w)
  {
    assert WorkerWellFormed(c, s, w);
    assert InSection(c, s, w) ==> s.locked;
    DoneBitReadsDone(KernelBlock(c, s, w));
    hide KernelBlock, ReadBlock, BatchWrite, Scan, TaskOf;
  }

  lemma {:induction false} StepWaits(c: Config, s: State, l: Label)
    requires Invariant(c, s) && Enabled(c, s, l) && !Advances(c, s, l) && !(l.ByClient? && l.cmd.Submit?)
    ensures l.ByWorker? && Waits(c, s, Apply(c, s, l), l.w)
  {
    assert l.ByWorker? && l.w < c.workers && |s.control| == c.workers;
    hide Waits, Stages, History, Values, Ordered, Scanned, Tasks, Exclusive, WellFormed;
    if Scanning(s.control[l.w]) { ScanWaits(c, s, l.w); } else { RunWaits(c, s, l.w); }
  }

  // ---------------------------------------------------------------- calm stretches

  datatype Path = Path(c: Config, states: seq<State>, labels: seq<Label>)

  /** From state a to state b every step waits. */
  ghost predicate Calm(p: Path, a: nat, b: nat) {
    && a <= b <= |p.labels| < |p.states|
    && (forall i :: a <= i <= b ==> Invariant(p.c, p.states[i]))
    && (forall i :: a <= i < b ==> p.labels[i].ByWorker? && Waits(p.c, p.states[i], p.states[i + 1], p.labels[i].w))
  }

  /** Where worker w stands before step i. */
  ghost function At(p: Path, w: nat, i: nat): Control {
    if i < |p.states| && w < |p.states[i].control| then p.states[i].control[w] else AtLocal
  }

  ghost predicate Locked(p: Path, i: nat) { i < |p.states| && p.states[i].locked }

  lemma CalmPart(p: Path, a: nat, b: nat, x: nat, y: nat)
    requires Calm(p, a, b) && a <= x <= y <= b
    ensures Calm(p, x, y)
  {
    hide Invariant, Waits;
  }

  lemma CalmState(p: Path, a: nat, b: nat, i: nat)
    requires Calm(p, a, b) && a <= i <= b
    ensures i <= |p.labels| < |p.states| && Invariant(p.c, p.states[i]) && |p.states[i].control| == p.c.workers
    ensures WellFormed(p.c, p.states[i])
  {
    hide Waits, Stages, Exclusive, History, Tasks, Values, Ordered, Scanned;
  }

  lemma CalmStep(p: Path, a: nat, b: nat, i: nat)
    requires Calm(p, a, b) && a <= i < b
    ensures i < |p.labels| < |p.states| && p.labels[i].ByWorker?
    ensures Waits(p.c, p.states[i], p.states[i + 1], p.labels[i].w)
  {
    hide Waits, Invariant;
  }

  lemma {:induction false} CalmSame(p: Path, a: nat, b: nat)
    requires Calm(p, a, b)
    ensures b <= |p.labels| < |p.states| && Same(p.states[a], p.states[b])
    decreases b
  {
    assert a <= b;
    hide Calm, Invariant, WellFormed, WaitsFrom;
    if a < b {
      CalmPart(p, a, b, a, b - 1);
      CalmSame(p, a, b - 1);
      CalmStep(p, a, b, b - 1);
    } else {
      CalmState(p, a, b, a);
    }
  }

  lemma {:induction false} OthersStay(p: Path, a: nat, b: nat, i: nat, w: nat)
    requires Calm(p, a, b) && a <= i < b && i < |p.labels| && p.labels[i] != ByWorker(w)
    ensures At(p, w, i + 1) == At(p, w, i)
  {
    CalmStep(p, a, b, i);
    CalmState(p, a, b, i);
    hide Calm, Invariant, WellFormed, WaitsFrom, Same;
    assert p.labels[i].w != w;
  }

  /** A worker that has no turn in a calm stretch stays where it is. */
  lemma {:induction false} Undisturbed(p: Path, a: nat, b: nat, w: nat)
    requires Calm(p, a, b)
    requires forall i :: a <= i < b && i < |p.labels| ==> p.labels[i] != ByWorker(w)
    ensures At(p, w, b) == At(p, w, a)
    decreases b
  {
    CalmState(p, a, b, b);
    hide *;
    if a < b {
      var i := b - 1;
      CalmPart(p, a, b, a, i);
      Undisturbed(p, a, i, w);
      OthersStay(p, a, b, i, w);
    }
  }

  lemma {:induction false} FirstTurn(labels: seq<Label>, a: nat, n: nat, l: Label) returns (i: nat)
    requires Occurs(labels, a, n, l)
    ensures a <= i < a + n && i < |labels| && labels[i] == l && forall j :: a <= j < i ==> labels[j] != l
    decreases n
  {
    if labels[a] == l {
      i := a;
    } else {
      i := FirstTurn(labels, a + 1, n - 1, l);
    }
  }

  /** Every worker has a turn in each window of K steps. */
  ghost predicate Turns(p: Path, K: nat) {
    && K > 0
    && forall a: nat, w: nat :: a + K <= |p.labels| && w < p.c.workers ==> Occurs(p.labels, a, K, ByWorker(w))
  }

  lemma TurnComes(p: Path, K: nat, a: nat, w: nat)
    requires Turns(p, K) && a + K <= |p.labels| && w < p.c.workers
    ensures Occurs(p.labels, a, K, ByWorker(w))
  {
    hide Occurs;
  }

  /** The next turn of a worker comes within a window and finds it where it was. */
  lemma {:induction false} NextTurn(p: Path, K: nat, a: nat, w: nat) returns (i: nat)
    requires Turns(p, K) && Calm(p, a, a + K) && w < p.c.workers
    ensures a <= i < a + K <= |p.labels| < |p.states|
    ensures At(p, w, i) == At(p, w, a) && Waits(p.c, p.states[i], p.states[i + 1], w)
    ensures |p.states[i].control| == |p.states[i + 1].control| == p.c.workers
  {
    hide *;
    CalmState(p, a, a + K, a + K);
    TurnComes(p, K, a, w);
    i := FirstTurn(p.labels, a, K, ByWorker(w));
    CalmPart(p, a, a + K, a, i);
    Undisturbed(p, a, i, w);
    CalmStep(p, a, a + K, i);
    CalmState(p, a, a + K, i);
    CalmState(p, a, a + K, i + 1);
  }

  // ---------------------------------------------------------------- the lock

  /** Every worker that polls would read the done bit. */
  ghost predicate AllDone(c: Config, s: State) {
    WellFormed(c, s) && forall w :: 0 <= w < c.workers && s.control[w].Polling? ==> KernelBlock(c, s, w).done
  }

  /** A calm stretch in which every kernel polled for is done. */
  ghost predicate Stalled(p: Path, a: nat, b: nat) {
    Calm(p, a, b) && forall i :: a <= i <= b && i < |p.states| ==> AllDone(p.c, p.states[i])
  }

  lemma StalledPart(p: Path, a: nat, b: nat, x: nat, y: nat)
    requires Stalled(p, a, b) && a <= x <= y <= b
    ensures Stalled(p, x, y) && Calm(p, x, y)
  {
    hide Calm, AllDone;
    CalmPart(p, a, b, x, y);
  }

  lemma StalledState(p: Path, a: nat, b: nat, i: nat)
    requires Stalled(p, a, b) && a <= i <= b
    ensures i <= |p.labels| < |p.states| && AllDone(p.c, p.states[i])
  {
    hide AllDone;
    CalmState(p, a, b, i);
  }

  lemma ReadTurn(p: Path, i: nat, w: nat)
    requires i + 1 < |p.states| && AllDone(p.c, p.states[i]) && w < p.c.workers
    requires At(p, w, i).Polling? && At(p, w, i).at == 1
    ensures !Waits(p.c, p.states[i], p.states[i + 1], w)
  {
    hide Same;
  }

  /** A poller that may read moves on at its next turn. */
  lemma {:induction false} ReadingMovesOn(p: Path, K: nat, a: nat, w: nat)
    requires Turns(p, K) && w < p.c.workers && At(p, w, a).Polling? && At(p, w, a).at == 1
    ensures !Stalled(p, a, a + K)
  {
    var b := a + K;
    if Stalled(p, a, b) {
      hide Calm, Invariant, WellFormed, Waits, Turns, Stalled, At, AllDone;
      StalledPart(p, a, b, a, b);
      var i := NextTurn(p, K, a, w);
      StalledState(p, a, b, i);
      ReadTurn(p, i, w);
    }
  }

  lemma TakerPolls(p: Path, a: nat, w: nat)
    requires a + 1 < |p.states| && Waits(p.c, p.states[a], p.states[a + 1], w)
    requires !Locked(p, a) && Locked(p, a + 1)
    ensures w < p.c.workers && At(p, w, a + 1).Polling? && At(p, w, a + 1).at == 1
  {
    assert |p.states[a].control| == p.c.workers;
    hide WellFormed, Same, KernelBlock, Remaining;
  }

  /** Whoever takes the lock in a calm stretch is such a poller. */
  lemma {:induction false} TakingMovesOn(p: Path, K: nat, a: nat)
    requires Turns(p, K) && !Locked(p, a) && Locked(p, a + 1)
    ensures !Stalled(p, a, a + 1 + K)
  {
    if Stalled(p, a, a + 1 + K) {
      hide *;
      StalledPart(p, a, a + 1 + K, a, a + 1 + K);
      StalledPart(p, a, a + 1 + K, a + 1, a + 1 + K);
      CalmStep(p, a, a + 1 + K, a);
      TakerPolls(p, a, p.labels[a].w);
      ReadingMovesOn(p, K, a + 1, p.labels[a].w);
    }
  }

  lemma {:induction false} TakenSomewhere(p: Path, a: nat, b: nat) returns (i: nat)
    requires a <= b && !Locked(p, a) && Locked(p, b)
    ensures a <= i < b && !Locked(p, i) && Locked(p, i + 1)
    decreases b - a
  {
    if Locked(p, a + 1) { i := a; } else { i := TakenSomewhere(p, a + 1, b); }
  }

  /** With the lock free all the time, a worker outside the scan moves on at its next turn. */
  lemma FreeTurn(p: Path, i: nat, w: nat)
    requires i + 1 < |p.states| && Waits(p.c, p.states[i], p.states[i + 1], w) && AllDone(p.c, p.states[i])
    requires |p.states[i].control| == p.c.workers
    requires !Scanning(At(p, w, i)) && (At(p, w, i).Polling? ==> At(p, w, i).at != 2)
    ensures Locked(p, i) || Locked(p, i + 1)
  {
    hide WellFormed, Same;
  }

  lemma NotLeaving(p: Path, a: nat, b: nat, w: nat)
    requires Calm(p, a, b) && w < p.c.workers && !Locked(p, a)
    ensures At(p, w, a).Polling? ==> At(p, w, a).at != 2
  {
    CalmState(p, a, b, a);
    hide Calm, Stages, History, Tasks, Values, Ordered, Scanned;
    var c, s := p.c, p.states[a];
    assert WorkerWellFormed(c, s, w) && InRange(c, w, s.control[w]);
    assert Exclusive(c, s) && !InSection(c, s, w);
  }

  lemma {:induction false} LockIsTaken(p: Path, K: nat, a: nat, w: nat) returns (j: nat)
    requires Turns(p, K) && w < p.c.workers && !Scanning(At(p, w, a)) && !Locked(p, a)
    requires Stalled(p, a, a + 2 * K)
    ensures a <= j < a + K && !Locked(p, j) && Locked(p, j + 1)
  {
    hide Calm, Invariant, WellFormed, Waits, Turns, At, AllDone, Stalled, Locked, Scanning;
    StalledPart(p, a, a + 2 * K, a, a + K);
    NotLeaving(p, a, a + K, w);
    var i := NextTurn(p, K, a, w);
    StalledState(p, a, a + 2 * K, i);
    FreeTurn(p, i, w);
    j := TakenSomewhere(p, a, if Locked(p, i) then i else i + 1);
  }

  /** With the lock free, a worker outside the scan moves on within two windows, or another one does. */
  lemma {:induction false} FreeLockMovesOn(p: Path, K: nat, a: nat, w: nat)
    requires Turns(p, K) && w < p.c.workers && !Scanning(At(p, w, a)) && !Locked(p, a)
    ensures !Stalled(p, a, a + 2 * K)
  {
    hide Calm, Invariant, WellFormed, Waits, Turns, At, AllDone, Stalled, Locked, Scanning;
    var b := a + 2 * K;
    if Stalled(p, a, b) {
      var j := LockIsTaken(p, K, a, w);
      StalledPart(p, a, b, j, j + 1 + K);
      TakingMovesOn(p, K, j);
    }
  }

  lemma HolderExists(p: Path, a: nat, b: nat) returns (w: nat)
    requires Calm(p, a, b) && Locked(p, a)
    ensures a < |p.states| && w < p.c.workers == |p.states[a].control| && p.c.instances > 0
    ensures InSection(p.c, p.states[a], w)
  {
    CalmState(p, a, b, a);
    hide Calm, Stages, History, Tasks, Values, Ordered, Scanned, InSection;
    assert Exclusive(p.c, p.states[a]);
    w :| w < p.c.workers && InSection(p.c, p.states[a], w);
  }

  /** Whoever holds the lock gives it back at its next turn. */
  lemma {:induction false} HolderLeaves(p: Path, K: nat, a: nat) returns (b: nat)
    requires Turns(p, K) && Stalled(p, a, a + K) && Locked(p, a)
    ensures a < b <= a + K && !Locked(p, b)
  {
    hide Calm, Invariant, WellFormed, Same, Stalled, Turns, Remaining, KernelBlock, PollsUnlocked;
    StalledPart(p, a, a + K, a, a + K);
    var w := HolderExists(p, a, a + K);
    var i := NextTurn(p, K, a, w);
    StalledState(p, a, a + K, i);
    b := i + 1;
  }

  lemma RunnerStays(c: Config, s: State, t: State, v: nat, w: nat)
    requires Waits(c, s, t, v) && w < |s.control| && !Scanning(s.control[w])
    ensures w < |t.control| && !Scanning(t.control[w])
  {
    hide WellFormed, Same, Remaining, KernelBlock;
  }

  lemma {:induction false} StaysOutsideScan(p: Path, a: nat, b: nat, w: nat)
    requires Calm(p, a, b) && w < p.c.workers && !Scanning(At(p, w, a))
    ensures !Scanning(At(p, w, b))
    decreases b
  {
    if a < b {
      hide Calm, Invariant, WellFormed, Waits, Scanning;
      CalmPart(p, a, b, a, b - 1);
      StaysOutsideScan(p, a, b - 1, w);
      CalmStep(p, a, b, b - 1);
      CalmState(p, a, b, b - 1);
      CalmState(p, a, b, b);
      RunnerStays(p.c, p.states[b - 1], p.states[b], p.labels[b - 1].w, w);
    }
  }

  /** A worker outside the scan moves on within three windows, or another one does. */
  lemma {:induction false} RunnerMovesOn(p: Path, K: nat, a: nat, w: nat)
    requires Turns(p, K) && w < p.c.workers && !Scanning(At(p, w, a))
    ensures !Stalled(p, a, a + 3 * K)
  {
    hide *;
    if Stalled(p, a, a + 3 * K) {
      var b := a;
      if Locked(p, a) {
        StalledPart(p, a, a + 3 * K, a, a + K);
        b := HolderLeaves(p, K, a);
      }
      StalledPart(p, a, a + 3 * K, a, b);
      StaysOutsideScan(p, a, b, w);
      StalledPart(p, a, a + 3 * K, b, b + 2 * K);
      FreeLockMovesOn(p, K, b, w);
    }
  }

  // ---------------------------------------------------------------- the scan

  /** The length of d windows of K steps. */
  function Windows(K: nat, d: nat): nat {
    if d == 0 then 0 else K + Windows(K, d - 1)
  }

  lemma {:induction false} WindowsTimes(K: nat, d: nat)
    ensures Windows(K, d) == d * K
  {
    if d > 0 { WindowsTimes(K, d - 1); }
  }

  lemma SameQueue(p: Path, a: nat, b: nat)
    requires Calm(p, a, b)
    ensures b < |p.states| && p.states[b].pool.global == p.states[a].pool.global
  {
    hide Calm;
    CalmSame(p, a, b);
  }

  lemma ScanTurn(p: Path, i: nat, w: nat)
    requires i + 1 < |p.states| && Waits(p.c, p.states[i], p.states[i + 1], w)
    requires |p.states[i].control| == p.c.workers && Scanning(At(p, w, i)) && p.states[i].pool.global != []
    ensures Scanning(At(p, w, i + 1)) && Remaining(p.c, At(p, w, i + 1)) < Remaining(p.c, At(p, w, i))
  {
    hide WellFormed, Same, Remaining;
  }

  lemma {:induction false} ScannerStep(p: Path, K: nat, a: nat, w: nat) returns (b: nat)
    requires Turns(p, K) && w < p.c.workers && Calm(p, a, a + K) && p.states[a].pool.global != []
    requires Scanning(At(p, w, a))
    ensures a < b <= a + K && b < |p.states| && p.states[b].pool.global != []
    ensures Scanning(At(p, w, b)) && Remaining(p.c, At(p, w, b)) < Remaining(p.c, At(p, w, a))
  {
    hide Calm, Invariant, Turns, WellFormed, Waits, Remaining, At, Scanning;
    var i := NextTurn(p, K, a, w);
    CalmPart(p, a, a + K, a, i);
    CalmPart(p, a, a + K, a, i + 1);
    SameQueue(p, a, i);
    SameQueue(p, a, i + 1);
    ScanTurn(p, i, w);
    b := i + 1;
  }

  /** A scanning worker reaches the first task of the global queue within as many turns as it has
      probes left. */
  lemma {:induction false} ScannerTakes(p: Path, K: nat, a: nat, w: nat, d: nat)
    requires Turns(p, K) && w < p.c.workers && a < |p.states| && p.states[a].pool.global != []
    requires Scanning(At(p, w, a)) && Remaining(p.c, At(p, w, a)) < d
    ensures !Calm(p, a, a + Windows(K, d))
    decreases d
  {
    var b := a + Windows(K, d);
    var rest := Windows(K, d - 1);
    assert b == a + K + rest;
    hide Windows, Calm, Invariant, Turns, WellFormed, Remaining, At, Scanning;
    if Calm(p, a, b) {
      CalmPart(p, a, b, a, a + K);
      var i := ScannerStep(p, K, a, w);
      CalmPart(p, a, b, i, i + rest);
      ScannerTakes(p, K, i, w, d - 1);
    }
  }

  // ---------------------------------------------------------------- kernels and the client

  lemma OnlyWorkers(p: Path, a: nat, n: nat, l: Label)
    requires Calm(p, a, a + n) && !l.ByWorker?
    ensures !Occurs(p.labels, a, n, l)
  {
    hide Waits, Invariant;
  }

  lemma {:induction false} ReadyThroughout(p: Path, K: nat, a: nat, k: nat)
    requires Calm(p, a, a + K) && k < p.c.instances && ValidDevice(p.states[a].device, p.c.instances)
    requires CanFinish(p.states[a].device, p.c.instances, k)
    ensures a + K <= |p.labels| < |p.states| && StaysReady(p.c, p.states, a, K, k)
  {
    CalmState(p, a, a + K, a + K);
    hide Invariant, CanFinish, Calm, WellFormed, Waits;
    forall i | a <= i < a + K
      ensures p.states[i].device == p.states[a].device
    {
      CalmPart(p, a, a + K, a, i);
      CalmSame(p, a, i);
    }
  }

  /** In a calm window no kernel is ready, or it would have finished. */
  lemma {:induction false} NoneReady(p: Path, K: nat, a: nat, k: nat)
    requires Calm(p, a, a + K) && FairWindow(p.c, p.states, p.labels, a, K) && k < p.c.instances
    ensures ValidDevice(p.states[a].device, p.c.instances) && !CanFinish(p.states[a].device, p.c.instances, k)
  {
    CalmState(p, a, a + K, a);
    hide Invariant, CanFinish, Calm, Waits, StaysReady, Occurs;
    if CanFinish(p.states[a].device, p.c.instances, k) {
      ReadyThroughout(p, K, a, k);
      OnlyWorkers(p, a, K, ByDevice(k));
    }
  }

  lemma {:induction false} PollersAreDone(c: Config, s: State)
    requires Invariant(c, s) && forall k :: 0 <= k < c.instances ==> !CanFinish(s.device, c.instances, k)
    ensures AllDone(c, s)
  {
    forall w | 0 <= w < c.workers && s.control[w].Polling?
      ensures KernelBlock(c, s, w).done
    {
      assert WorkerStage(c, s, w);
      FinishViews(s.device, c.instances, Instance(c, w), c.kernel);
    }
  }

  lemma {:induction false} CalmIsStalled(p: Path, K: nat, a: nat, b: nat)
    requires a + K <= b && Calm(p, a, b) && FairWindow(p.c, p.states, p.labels, a, K)
    ensures Stalled(p, a, b)
  {
    CalmPart(p, a, b, a, a + K);
    forall k | 0 <= k < p.c.instances
      ensures ValidDevice(p.states[a].device, p.c.instances) && !CanFinish(p.states[a].device, p.c.instances, k)
    {
      NoneReady(p, K, a, k);
    }
    hide Calm, Invariant, FairWindow, CanFinish, WellFormed, AllDone;
    forall i | a <= i <= b && i < |p.states|
      ensures AllDone(p.c, p.states[i])
    {
      CalmPart(p, a, b, a, i);
      CalmSame(p, a, i);
      CalmState(p, a, b, i);
      PollersAreDone(p.c, p.states[i]);
    }
  }

  lemma {:induction false} WillingThroughout(p: Path, K: nat, a: nat)
    requires Calm(p, a, a + K) && ClientEnabled(p.states[a], Proceed)
    ensures a + K <= |p.labels| < |p.states| && StaysWilling(p.states, a, K)
  {
    CalmState(p, a, a + K, a + K);
    hide Invariant, Calm, WellFormed, Waits;
    forall i | a <= i < a + K
      ensures ClientEnabled(p.states[i], Proceed)
    {
      CalmPart(p, a, a + K, a, i);
      CalmSame(p, a, i);
    }
  }

  /** Nor can the client go on, or it would have done so. */
  lemma {:induction false} NotWilling(p: Path, K: nat, a: nat)
    requires Calm(p, a, a + K) && FairWindow(p.c, p.states, p.labels, a, K)
    ensures !ClientEnabled(p.states[a], Proceed)
  {
    CalmState(p, a, a + K, a);
    hide Invariant, Calm, WellFormed, Waits, ClientEnabled, StaysWilling, Occurs;
    if ClientEnabled(p.states[a], Proceed) {
      WillingThroughout(p, K, a);
      OnlyWorkers(p, a, K, ByClient(Proceed));
    }
  }

  lemma {:induction false} IdleMeansQueued(c: Config, s: State)
    requires Invariant(c, s) && Unfinished(s) && !ClientEnabled(s, Proceed)
    requires forall w :: 0 <= w < c.workers ==> Scanning(s.control[w])
    ensures s.pool.global != []
  {
    var id: nat :| id < |s.tasks| && id !in s.values;
    forall w | 0 <= w < c.workers
      ensures s.pool.running[w] == Pool.Shell
    {
      assert WorkerWellFormed(c, s, w);
    }
    Pool.ExactlyOnePlace(s.pool, id);
  }

  // ---------------------------------------------------------------- completion

  /** The length of a stretch in which something must advance. */
  function Patience(c: Config, K: nat): nat { (c.workers + 6) * K }

  lemma {:induction false} PatienceSuffices(c: Config, K: nat)
    ensures Windows(K, c.workers + 3) <= Patience(c, K) && 3 * K <= Patience(c, K) && K <= Patience(c, K)
  {
    WindowsTimes(K, c.workers + 3);
    assert (c.workers + 6) * K == (c.workers + 3) * K + 3 * K;
    assert (c.workers + 3) * K >= 0;
  }

  lemma ScanIsShort(c: Config, ctl: Control)
    requires Scanning(ctl)
    ensures Remaining(c, ctl) < c.workers + 3
  {
  }

  lemma {:induction false} RunnersAdvance(p: Path, K: nat, a: nat, w: nat)
    requires Turns(p, K) && w < p.c.workers && !Scanning(At(p, w, a)) && a + K <= |p.labels| < |p.states|
    requires K > 0 && FairWindow(p.c, p.states, p.labels, a, K)
    ensures !Calm(p, a, a + Patience(p.c, K))
  {
    hide *;
    var b := a + Patience(p.c, K);
    PatienceSuffices(p.c, K);
    if Calm(p, a, b) {
      CalmIsStalled(p, K, a, b);
      StalledPart(p, a, b, a, a + 3 * K);
      RunnerMovesOn(p, K, a, w);
    }
  }

  lemma IdleQueue(p: Path, a: nat, b: nat)
    requires Calm(p, a, b) && Unfinished(p.states[a]) && !ClientEnabled(p.states[a], Proceed)
    requires forall w :: 0 <= w < p.c.workers ==> Scanning(At(p, w, a))
    ensures p.states[a].pool.global != []
  {
    CalmState(p, a, b, a);
    hide Calm, Invariant, WellFormed, Unfinished, Scanning, ClientEnabled;
    forall w | 0 <= w < p.c.workers
      ensures Scanning(p.states[a].control[w])
    {
      assert At(p, w, a) == p.states[a].control[w];
    }
    IdleMeansQueued(p.c, p.states[a]);
  }

  lemma {:induction false} ScannersAdvance(p: Path, K: nat, a: nat)
    requires Turns(p, K) && p.c.workers >= 1 && a + K <= |p.labels| < |p.states| && Unfinished(p.states[a])
    requires forall w :: 0 <= w < p.c.workers ==> Scanning(At(p, w, a))
    requires K > 0 && FairWindow(p.c, p.states, p.labels, a, K)
    ensures !Calm(p, a, a + Patience(p.c, K))
  {
    hide *;
    var b := a + Patience(p.c, K);
    PatienceSuffices(p.c, K);
    if Calm(p, a, b) {
      CalmState(p, a, b, a);
      CalmPart(p, a, b, a, a + K);
      NotWilling(p, K, a);
      IdleQueue(p, a, b);
      CalmPart(p, a, b, a, a + Windows(K, p.c.workers + 3));
      ScanIsShort(p.c, At(p, 0, a));
      ScannerTakes(p, K, a, 0, p.c.workers + 3);
    }
  }

  /** While work is unfinished no stretch that long is calm. */
  lemma {:induction false} NotCalm(p: Path, K: nat, a: nat)
    requires Turns(p, K) && p.c.workers >= 1 && a + K <= |p.labels| < |p.states| && Unfinished(p.states[a])
    requires K > 0 && FairWindow(p.c, p.states, p.labels, a, K)
    ensures !Calm(p, a, a + Patience(p.c, K))
  {
    hide *;
    if w :| 0 <= w < p.c.workers && !Scanning(At(p, w, a)) {
      RunnersAdvance(p, K, a, w);
    } else {
      ScannersAdvance(p, K, a);
    }
  }

  /** No step in between advances. */
  ghost predicate Quiet(c: Config, states: seq<State>, labels: seq<Label>, a: nat, b: nat)
    requires IsPath(c, states, labels) && a <= b <= |labels|
  {
    forall i :: a <= i < b ==> !Advances(c, states[i], labels[i])
  }

  lemma {:induction false} QuietIsCalm(c: Config, states: seq<State>, labels: seq<Label>, a: nat, b: nat)
    requires IsPath(c, states, labels) && Invariant(c, states[0]) && a <= b <= |labels|
    requires forall i :: 0 <= i < |labels| ==> !(labels[i].ByClient? && labels[i].cmd.Submit?)
    requires Quiet(c, states, labels, a, b)
    ensures Calm(Path(c, states, labels), a, b)
  {
    hide Invariant, Waits, Advances, Weight, Injected;
    forall i | a <= i <= b
      ensures Invariant(c, states[i])
    {
      AdvancedWeighed(c, states, labels, i);
    }
    forall i | a <= i < b
      ensures labels[i].ByWorker? && Waits(c, states[i], states[i + 1], labels[i].w)
    {
      StepWaits(c, states[i], labels[i]);
    }
  }

  /** While work is unfinished, some step advances in every stretch of that length. */
  lemma {:induction false} SomethingAdvances(c: Config, states: seq<State>, labels: seq<Label>, K: nat, a: nat)
    requires FairPath(c, states, labels, K) && Invariant(c, states[0])
    requires a + Patience(c, K) <= |labels| && Unfinished(states[a])
    ensures exists i :: a <= i < a + Patience(c, K) && Advances(c, states[i], labels[i])
  {
    var p, b := Path(c, states, labels), a + Patience(c, K);
    assert c.workers >= 1;
    PatienceSuffices(c, K);
    assert FairWindow(c, states, labels, a, K);
    assert Turns(p, K) by {
      forall x: nat, w: nat | x + K <= |labels| && w < c.workers
        ensures Occurs(labels, x, K, ByWorker(w))
      {
        assert FairWindow(c, states, labels, x, K);
      }
    }
    hide Invariant, Waits, Advances, Weight, Unfinished, Turns, FairWindow, Patience, Calm, WellFormed;
    if Quiet(c, states, labels, a, b) {
      QuietIsCalm(c, states, labels, a, b);
      NotCalm(p, K, a);
    }
  }

  lemma {:induction false} AdvancedGrows(c: Config, states: seq<State>, labels: seq<Label>, a: nat, b: nat)
    requires IsPath(c, states, labels) && a <= b <= |labels|
    ensures Advanced(c, states, labels, a) <= Advanced(c, states, labels, b)
    ensures (exists i :: a <= i < b && Advances(c, states[i], labels[i])) ==>
              Advanced(c, states, labels, a) < Advanced(c, states, labels, b)
    decreases b
  {
    hide Advances, WellFormed, Enabled, Apply;
    if a < b {
      AdvancedGrows(c, states, labels, a, b - 1);
    }
  }

  lemma {:induction false} AdvancedPerStretch(c: Config, states: seq<State>, labels: seq<Label>, K: nat, m: nat)
    requires FairPath(c, states, labels, K) && Invariant(c, states[0]) && Windows(Patience(c, K), m) <= |labels|
    requires forall i :: 0 <= i < |states| ==> Unfinished(states[i])
    ensures m <= Advanced(c, states, labels, Windows(Patience(c, K), m))
    decreases m
  {
    assert IsPath(c, states, labels) && |states| == |labels| + 1;
    hide Unfinished, Patience, Invariant, IsPath, FairPath, Advances;
    if m > 0 {
      var a, b := Windows(Patience(c, K), m - 1), Windows(Patience(c, K), m);
      assert b == a + Patience(c, K);
      hide Windows;
      AdvancedPerStretch(c, states, labels, K, m - 1);
      SomethingAdvances(c, states, labels, K, a);
      AdvancedGrows(c, states, labels, a, b);
    }
  }

  lemma {:induction false} Stretches(c: Config, K: nat, m: nat)
    ensures Windows(Patience(c, K), m) == m * (c.workers + 6) * K
  {
    WindowsTimes(Patience(c, K), m);
  }

  /** Every fair path completes: a path long enough for the work there is passes through a state with
      nothing unfinished. */
  lemma {:induction false} FairPathsComplete(c: Config, states: seq<State>, labels: seq<Label>, K: nat)
    requires FairPath(c, states, labels, K) && Invariant(c, states[0])
    requires |labels| >= (Weight(c, states[0]) + 1) * (c.workers + 6) * K
    ensures exists i :: 0 <= i < |states| && !Unfinished(states[i])
  {
    assert IsPath(c, states, labels) && |states| == |labels| + 1 && WellFormed(c, states[0]);
    AdvancesAreFew(c, states, labels);
    hide Unfinished, Invariant, IsPath, Weight, FairPath, Advances, WellFormed, Advanced, Patience, Windows;
    if forall i :: 0 <= i < |states| ==> Unfinished(states[i]) {
      var m := Weight(c, states[0]) + 1;
      Stretches(c, K, m);
      AdvancedPerStretch(c, states, labels, K, m);
      AdvancedGrows(c, states, labels, Windows(Patience(c, K), m), |labels|);
    }
  }

  // ---------------------------------------------------------------- a fair schedule

  /** Turns in one round: the workers, the kernels and the client. */
  function Round(c: Config): nat { c.workers + c.instances + 1 }

  /** Round robin; a turn that cannot be used goes to the first worker. */
  function Turn(c: Config, s: State, n: nat): (l: Label)
    requires WellFormed(c, s)
    ensures Enabled(c, s, l) && !(l.ByClient? && l.cmd.Submit?)
  {
    var r := n % Round(c);
    if r < c.workers then ByWorker(r)
    else if r < c.workers + c.instances && CanFinish(s.device, c.instances, r - c.workers) then ByDevice(r - c.workers)
    else if r == c.workers + c.instances && ClientEnabled(s, Proceed) then ByClient(Proceed)
    else ByWorker(0)
  }

  ghost predicate TakesTurns(c: Config, states: seq<State>, labels: seq<Label>) {
    && IsPath(c, states, labels)
    && (forall i :: 0 <= i < |labels| ==> labels[i] == Turn(c, states[i], i))
  }

  lemma NextLabel(c: Config, s: State, n: nat) returns (l: Label)
    requires Invariant(c, s)
    ensures WellFormed(c, s) && l == Turn(c, s, n) && Enabled(c, s, l) && Invariant(c, Apply(c, s, l))
  {
    assert WellFormed(c, s);
    hide Invariant, WellFormed, Enabled, Apply;
    l := Turn(c, s, n);
    StepKeepsInvariant(c, s, l);
  }

  lemma OneTurnMore(c: Config, states: seq<State>, labels: seq<Label>, l: Label)
    requires TakesTurns(c, states, labels) && WellFormed(c, states[|labels|])
    requires l == Turn(c, states[|labels|], |labels|)
    ensures TakesTurns(c, states + [Apply(c, states[|labels|], l)], labels + [l])
  {
    var last := states[|labels|];
    assert Enabled(c, last, l);
    hide Turn, Enabled, Apply, WellFormed;
    var t := Apply(c, last, l);
    var longer, more := states + [t], labels + [l];
    assert forall i :: 0 <= i <= |labels| ==> longer[i] == states[i];
    assert longer[|labels| + 1] == t && more[|labels|] == l;
    forall i | 0 <= i < |labels|
      ensures WellFormed(c, longer[i]) && Enabled(c, longer[i], more[i])
      ensures longer[i + 1] == Apply(c, longer[i], more[i]) && more[i] == Turn(c, longer[i], i)
    {
      assert WellFormed(c, states[i]) && more[i] == labels[i];
    }
  }

  lemma {:induction false} RoundRobin(c: Config, s: State, n: nat) returns (states: seq<State>, labels: seq<Label>)
    requires Invariant(c, s)
    ensures |labels| == n && |states| == n + 1 && states[0] == s
    ensures TakesTurns(c, states, labels) && Invariant(c, states[n])
  {
    if n == 0 {
      states, labels := [s], [];
    } else {
      states, labels := RoundRobin(c, s, n - 1);
      hide Invariant, Turn, Enabled, Apply, WellFormed, TakesTurns;
      var last := states[n - 1];
      var l := NextLabel(c, last, n - 1);
      OneTurnMore(c, states, labels, l);
      states, labels := states + [Apply(c, last, l)], labels + [l];
    }
  }

  lemma MultipleIsLarge(k: int, n: nat)
    ensures k >= 1 ==> k * n >= n
    ensures k <= -1 ==> k * n + n <= 0
  {
    if k >= 1 { assert (k - 1) * n >= 0; }
    if k <= -1 { assert (-1 - k) * n >= 0; }
  }

  lemma OneRoundOn(i: nat, n: nat)
    requires n > 0
    ensures (i + n) % n == i % n
  {
    var k: int := (i + n) / n - i / n - 1;
    assert k * n + (i + n) % n == i % n;
    MultipleIsLarge(k, n);
  }

  /** Every slot of the round comes up in every window of that length. */
  lemma {:induction false} SlotInWindow(a: nat, n: nat, r: nat) returns (i: nat)
    requires r < n
    ensures a <= i < a + n && i % n == r
    decreases a
  {
    if a == 0 {
      i := r;
    } else {
      i := SlotInWindow(a - 1, n, r);
      if i < a {
        OneRoundOn(i, n);
        i := i + n;
      }
    }
  }

  lemma TurnOfSlot(c: Config, s: State, n: nat)
    requires WellFormed(c, s)
    ensures forall w: nat :: w < c.workers && n % Round(c) == w ==> Turn(c, s, n) == ByWorker(w)
    ensures forall k: nat :: k < c.instances && n % Round(c) == c.workers + k && CanFinish(s.device, c.instances, k)
              ==> Turn(c, s, n) == ByDevice(k)
    ensures n % Round(c) == c.workers + c.instances && ClientEnabled(s, Proceed) ==> Turn(c, s, n) == ByClient(Proceed)
  {
    hide WellFormed, CanFinish, ClientEnabled;
  }

  lemma {:induction false} TurnsAreFair(c: Config, states: seq<State>, labels: seq<Label>, a: nat)
    requires TakesTurns(c, states, labels) && a + Round(c) <= |labels|
    ensures FairWindow(c, states, labels, a, Round(c))
  {
    var n := Round(c);
    assert |states| == |labels| + 1;
    forall i | 0 <= i < |labels|
      ensures WellFormed(c, states[i]) && labels[i] == Turn(c, states[i], i)
    {
    }
    hide WellFormed, CanFinish, ClientEnabled, Turn, TakesTurns, Enabled, Apply, IsPath;
    forall w | 0 <= w < c.workers
      ensures Occurs(labels, a, n, ByWorker(w))
    {
      var i := SlotInWindow(a, n, w);
      TurnOfSlot(c, states[i], i);
      assert labels[i] == ByWorker(w);
    }
    forall k | 0 <= k < c.instances && StaysReady(c, states, a, n, k)
      ensures Occurs(labels, a, n, ByDevice(k))
    {
      var i := SlotInWindow(a, n, c.workers + k);
      TurnOfSlot(c, states[i], i);
      assert labels[i] == ByDevice(k);
    }
    if StaysWilling(states, a, n) {
      var i := SlotInWindow(a, n, c.workers + c.instances);
      TurnOfSlot(c, states[i], i);
      assert labels[i] == ByClient(Proceed);
    }
  }

  lemma {:induction false} RoundRobinIsFair(c: Config, states: seq<State>, labels: seq<Label>)
    requires TakesTurns(c, states, labels)
    ensures FairPath(c, states, labels, Round(c))
  {
    hide Turn, FairWindow, WellFormed, Enabled, Apply;
    forall i | 0 <= i < |labels|
      ensures !(labels[i].ByClient? && labels[i].cmd.Submit?)
    {
      assert WellFormed(c, states[i]) && labels[i] == Turn(c, states[i], i);
    }
    forall a: nat | a + Round(c) <= |labels|
      ensures FairWindow(c, states, labels, a, Round(c))
    {
      TurnsAreFair(c, states, labels, a);
    }
  }

  /** Round robin is such a schedule, and so it finishes all work from any reachable state. */
  lemma {:induction false} RoundRobinCompletes(c: Config, s: State) returns (states: seq<State>, labels: seq<Label>)
    requires Invariant(c, s)
    ensures TakesTurns(c, states, labels) && states[0] == s
    ensures |labels| == (Weight(c, s) + 1) * (c.workers + 6) * Round(c)
    ensures exists i :: 0 <= i < |states| && !Unfinished(states[i])
  {
    assert WellFormed(c, s);
    hide Invariant, WellFormed, Weight, Unfinished, TakesTurns, FairPath, Round;
    states, labels := RoundRobin(c, s, RobinLength(c, Weight(c, s)));
    RoundRobinIsFair(c, states, labels);
    FairPathsComplete(c, states, labels, Round(c));
  }

  function RobinLength(c: Config, weight: nat): (n: nat)
    ensures n == (weight + 1) * (c.workers + 6) * Round(c)
  {
    (weight + 1) * (c.workers + 6) * Round(c)
  }
}
