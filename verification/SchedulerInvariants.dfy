/** What every step keeps of lock and history: at most one worker in a critical section, the register
    writes a row of whole sections, and nothing of the client's touched by workers. */
module SchedulerInvariants {
  import opened Mmio
  import opened SchedulerModel
  import opened SchedulerSafety
  import Pool = TaskPool

  // ---------------------------------------------------------------- mutual exclusion

  /** The worker is between `s.lock()` and `s.unlock()`. */
  predicate InSection(c: Config, s: State, w: nat)
    requires w < |s.control| && c.instances > 0
  {
    match s.control[w]
    case Writing(_, at) => at >= 1
    case Polling(at, _) => at >= 1 && !PollsUnlocked(c, w)
    case Fetching(at, _, _) => at >= 1
    case _ => false
  }

  ghost predicate Exclusive(c: Config, s: State)
    requires |s.control| == c.workers && c.instances > 0
  {
    && (forall v, w :: 0 <= v < c.workers && 0 <= w < c.workers && InSection(c, s, v) && InSection(c, s, w) ==> v == w)
    && (s.locked <==> exists w :: 0 <= w < c.workers && InSection(c, s, w))
  }

  ghost predicate LockMove(c: Config, s: State, t: State, w: nat)
    requires w < |s.control| && w < |t.control| && c.instances > 0
  {
    || (InSection(c, t, w) == InSection(c, s, w) && t.locked == s.locked)
    || (!InSection(c, s, w) && InSection(c, t, w) && !s.locked && t.locked)
    || (InSection(c, s, w) && !InSection(c, t, w) && !t.locked)
  }

  lemma ScanLeavesLock(c: Config, s: State, w: nat)
    requires WellFormed(c, s) && w < c.workers && Scanning(s.control[w])
    ensures Scan(c, s, w).locked == s.locked
    ensures |Scan(c, s, w).control| == |s.control|
    ensures Scanning(Scan(c, s, w).control[w]) || Scan(c, s, w).control[w] == Writing(Reset, 0)
  {
    assert WorkerWellFormed(c, s, w);
  }

  lemma WorkMovesLock(c: Config, s: State, w: nat)
    requires WellFormed(c, s) && w < c.workers
    ensures |Work(c, s, w).control| == |s.control| && LockMove(c, s, Work(c, s, w), w)
  {
    assert WorkerWellFormed(c, s, w);
    if Scanning(s.control[w]) {
      ScanLeavesLock(c, s, w);
    }
  }

  lemma WorkControlOthers(c: Config, s: State, w: nat)
    requires WellFormed(c, s) && w < c.workers
    ensures |Work(c, s, w).control| == |s.control|
    ensures forall v :: 0 <= v < c.workers && v != w ==> Work(c, s, w).control[v] == s.control[v]
  {
    assert WorkerWellFormed(c, s, w);
  }

  lemma StepKeepsExclusive(c: Config, s: State, l: Label)
    requires WellFormed(c, s) && Enabled(c, s, l) && Exclusive(c, s)
    ensures |Apply(c, s, l).control| == c.workers && Exclusive(c, Apply(c, s, l))
  {
    var t := Apply(c, s, l);
    if l.ByWorker? {
      var w := l.w;
      WorkMovesLock(c, s, w);
      WorkControlOthers(c, s, w);
      assert forall v :: 0 <= v < c.workers && v != w ==> InSection(c, t, v) == InSection(c, s, v);
      if InSection(c, s, w) && !InSection(c, t, w) {
        assert forall v :: 0 <= v < c.workers ==> !InSection(c, t, v);
      }
    } else {
      assert t.control == s.control && t.locked == s.locked;
      assert forall v :: 0 <= v < c.workers ==> InSection(c, t, v) == InSection(c, s, v);
    }
  }

  // ---------------------------------------------------------------- write history

  function Tagged(w: nat, b: seq<Access>): (r: seq<(nat, Access)>)
    ensures |r| == |b|
  {
    seq(|b|, i requires 0 <= i < |b| => (w, b[i]))
  }

  function Expand(c: Config, e: Section): seq<(nat, Access)>
    requires c.instances > 0
  {
    Tagged(e.worker, Batch(e.kind, Instance(c, e.worker), e.task))
  }

  /** Whole critical sections laid end to end. */
  function Flatten(c: Config, sections: seq<Section>): seq<(nat, Access)>
    requires c.instances > 0
  {
    if sections == [] then []
    else Flatten(c, sections[..|sections| - 1]) + Expand(c, sections[|sections| - 1])
  }

  predicate InWrites(s: State, w: nat)
    requires w < |s.control|
  {
    s.control[w].Writing? && s.control[w].at >= 1
  }

  /** The writes that worker w has made in the section it is in. */
  function Partial(c: Config, s: State, w: nat): seq<(nat, Access)>
    requires WellFormed(c, s) && w < c.workers && InWrites(s, w)
  {
    assert WorkerWellFormed(c, s, w);
    Tagged(w, Batch(s.control[w].kind, Instance(c, w), TaskOf(c, s, w))[..s.control[w].at - 1])
  }

  ghost predicate History(c: Config, s: State)
    requires WellFormed(c, s)
  {
    && (forall w :: 0 <= w < c.workers && InWrites(s, w) ==>
          s.writes == Flatten(c, s.sections) + Partial(c, s, w))
    && ((forall w :: 0 <= w < c.workers ==> !InWrites(s, w)) ==> s.writes == Flatten(c, s.sections))
  }

  lemma NoOneElseWrites(c: Config, s: State, w: nat)
    requires WellFormed(c, s) && Exclusive(c, s) && w < c.workers
    requires InSection(c, s, w) || !s.locked
    ensures forall v :: 0 <= v < c.workers && v != w ==> !InWrites(s, v)
  {
    forall v | 0 <= v < c.workers && v != w
      ensures !InWrites(s, v)
    {
      if InWrites(s, v) {
        assert InSection(c, s, v);
      }
    }
  }

  lemma QuietStepKeepsHistory(c: Config, s: State, t: State)
    requires WellFormed(c, s) && WellFormed(c, t) && History(c, s)
    requires t.writes == s.writes && t.sections == s.sections && s.tasks <= t.tasks
    requires forall w :: 0 <= w < c.workers ==>
               InWrites(t, w) == InWrites(s, w)
               && (InWrites(s, w) ==> t.control[w] == s.control[w] && t.pool.running[w] == s.pool.running[w])
    ensures History(c, t)
  {
    forall w | 0 <= w < c.workers && InWrites(t, w)
      ensures t.writes == Flatten(c, t.sections) + Partial(c, t, w)
    {
      assert InWrites(s, w);
      assert WorkerWellFormed(c, s, w);
      assert TaskOf(c, t, w) == TaskOf(c, s, w);
    }
  }

  lemma EnterKeepsHistory(c: Config, s: State, w: nat)
    requires WellFormed(c, s) && w < c.workers && Exclusive(c, s) && History(c, s)
    requires s.control[w].Writing? && s.control[w].at == 0 && !s.locked
    requires WellFormed(c, WriteStep(c, s, w))
    ensures History(c, WriteStep(c, s, w))
  {
    var t := WriteStep(c, s, w);
    NoOneElseWrites(c, s, w);
    assert s.writes == Flatten(c, s.sections);
    assert Partial(c, t, w) == [];
    forall v | 0 <= v < c.workers && v != w
      ensures !InWrites(t, v)
    {
      assert t.control[v] == s.control[v] && !InWrites(s, v);
    }
  }

  lemma {:induction false} AccessExtendsPartial(c: Config, s: State, w: nat)
    requires WellFormed(c, s) && w < c.workers && History(c, s)
    requires s.control[w].Writing? && 1 <= s.control[w].at <= BatchLength(s.control[w].kind)
    requires WellFormed(c, WriteStep(c, s, w))
    ensures var t := WriteStep(c, s, w);
            InWrites(t, w) && t.writes == Flatten(c, t.sections) + Partial(c, t, w)
  {
    var t := WriteStep(c, s, w);
    assert WorkerWellFormed(c, s, w);
    var kind, at := s.control[w].kind, s.control[w].at;
    var batch := Batch(kind, Instance(c, w), TaskOf(c, s, w));
    assert TaskOf(c, t, w) == TaskOf(c, s, w);
    assert Partial(c, t, w) == Tagged(w, batch[..at]);
    assert Tagged(w, batch[..at]) == Tagged(w, batch[..at - 1]) + [(w, batch[at - 1])];
    assert t.writes == s.writes + [(w, batch[at - 1])];
    assert InWrites(s, w);
  }

  lemma AccessKeepsHistory(c: Config, s: State, w: nat)
    requires WellFormed(c, s) && w < c.workers && Exclusive(c, s) && History(c, s)
    requires s.control[w].Writing? && 1 <= s.control[w].at <= BatchLength(s.control[w].kind)
    requires WellFormed(c, WriteStep(c, s, w))
    ensures History(c, WriteStep(c, s, w))
  {
    var t := WriteStep(c, s, w);
    NoOneElseWrites(c, s, w);
    AccessExtendsPartial(c, s, w);
    WorkControlOthers(c, s, w);
    forall v | 0 <= v < c.workers && v != w
      ensures !InWrites(t, v)
    {
      assert t.control[v] == s.control[v] && !InWrites(s, v);
    }
  }

  lemma LeaveKeepsHistory(c: Config, s: State, w: nat)
    requires WellFormed(c, s) && w < c.workers && Exclusive(c, s) && History(c, s)
    requires s.control[w].Writing? && s.control[w].at == BatchLength(s.control[w].kind) + 1
    requires WellFormed(c, WriteStep(c, s, w))
    ensures History(c, WriteStep(c, s, w))
  {
    var t := WriteStep(c, s, w);
    assert WorkerWellFormed(c, s, w);
    NoOneElseWrites(c, s, w);
    var e := Section(w, s.control[w].kind, TaskOf(c, s, w));
    var batch := Batch(e.kind, Instance(c, w), e.task);
    assert batch[..|batch|] == batch;
    assert Partial(c, s, w) == Expand(c, e);
    assert t.sections == s.sections + [e];
    assert t.sections[..|t.sections| - 1] == s.sections;
    assert t.writes == Flatten(c, t.sections);
    forall v | 0 <= v < c.workers
      ensures !InWrites(t, v)
    {
      if v != w { assert t.control[v] == s.control[v] && !InWrites(s, v); }
    }
  }

  lemma WriteStepKeepsHistory(c: Config, s: State, w: nat)
    requires WellFormed(c, s) && w < c.workers && Exclusive(c, s) && History(c, s) && s.control[w].Writing?
    requires WellFormed(c, WriteStep(c, s, w))
    ensures History(c, WriteStep(c, s, w))
  {
    hide Exclusive, History;
    assert WorkerWellFormed(c, s, w);
    if s.control[w].at == 0 {
      if s.locked { assert WriteStep(c, s, w) == s; } else { EnterKeepsHistory(c, s, w); }
    } else if s.control[w].at <= BatchLength(s.control[w].kind) {
      AccessKeepsHistory(c, s, w);
    } else {
      LeaveKeepsHistory(c, s, w);
    }
  }

  lemma SameControlKeepsHistory(c: Config, s: State, t: State)
    requires WellFormed(c, s) && WellFormed(c, t) && History(c, s)
    requires t.control == s.control && t.writes == s.writes && t.sections == s.sections
    requires s.tasks <= t.tasks && t.pool.running == s.pool.running
    ensures History(c, t)
  {
    hide History, WellFormed;
    QuietStepKeepsHistory(c, s, t);
  }

  lemma ClientFrame(s: State, cmd: Command)
    requires ClientWellFormed(s) && ClientEnabled(s, cmd) && Pool.Valid(s.pool)
    ensures var t := ClientStep(s, cmd);
            && t.control == s.control && t.writes == s.writes && t.sections == s.sections
            && s.tasks <= t.tasks && t.pool.running == s.pool.running
  {
  }

  lemma OutsideStepKeepsHistory(c: Config, s: State, l: Label)
    requires WellFormed(c, s) && Enabled(c, s, l) && !l.ByWorker? && History(c, s)
    requires WellFormed(c, Apply(c, s, l))
    ensures History(c, Apply(c, s, l))
  {
    hide History, WorkerWellFormed, Finish, CanFinish, ClientStep, ClientEnabled, ValidDevice;
    var t := Apply(c, s, l);
    if l.ByClient? { ClientFrame(s, l.cmd); }
    SameControlKeepsHistory(c, s, t);
  }

  lemma StepKeepsHistory(c: Config, s: State, l: Label)
    requires WellFormed(c, s) && Enabled(c, s, l) && Exclusive(c, s) && History(c, s)
    requires WellFormed(c, Apply(c, s, l))
    ensures History(c, Apply(c, s, l))
  {
    hide Exclusive, History, WellFormed, Scan, WriteStep, PollStep, FetchStep, Enabled;
    if !l.ByWorker? {
      OutsideStepKeepsHistory(c, s, l);
    } else {
      InRangeOfWorkers(c, s, l);
      if s.control[l.w].Writing? {
        WriteStepKeepsHistory(c, s, l.w);
      } else {
        QuietWorkKeepsHistory(c, s, l.w);
      }
    }
  }

  lemma InRangeOfWorkers(c: Config, s: State, l: Label)
    requires WellFormed(c, s) && Enabled(c, s, l) && l.ByWorker?
    ensures l.w < c.workers == |s.control|
    ensures Apply(c, s, l) == Work(c, s, l.w)
    ensures s.control[l.w].Writing? ==> Apply(c, s, l) == WriteStep(c, s, l.w)
  {
  }

  lemma StaysOutOfWrites(c: Config, s: State, w: nat)
    requires WellFormed(c, s) && w < c.workers && !s.control[w].Writing?
    ensures w < |Work(c, s, w).control| && w < |s.control|
    ensures !InWrites(s, w) && !InWrites(Work(c, s, w), w)
  {
    assert WorkerWellFormed(c, s, w);
    if Scanning(s.control[w]) { ScanLeavesLock(c, s, w); }
    WorkControlOthers(c, s, w);
    hide Scan, ReadBlock, KernelBlock, DoneBit;
  }

  lemma QuietWorkKeepsHistory(c: Config, s: State, w: nat)
    requires WellFormed(c, s) && w < c.workers && History(c, s) && !s.control[w].Writing?
    requires WellFormed(c, Work(c, s, w))
    ensures History(c, Work(c, s, w))
  {
    OthersUntouched(c, s, w);
    WorkControlOthers(c, s, w);
    StaysOutOfWrites(c, s, w);
    assert |s.control| == c.workers && |s.pool.running| == c.workers && |Work(c, s, w).pool.running| == c.workers;
    hide WellFormed, Work, History, Partial, View;
    var t := Work(c, s, w);
    assert t.writes == s.writes && t.sections == s.sections && t.tasks == s.tasks by { WorkFrame(c, s, w); }
    forall v | 0 <= v < c.workers
      ensures InWrites(t, v) == InWrites(s, v)
      ensures InWrites(s, v) ==> t.control[v] == s.control[v] && t.pool.running[v] == s.pool.running[v]
    {
      if v != w { assert Untouched(c, s, t, v); }
    }
    QuietStepKeepsHistory(c, s, t);
  }

  /** A worker never touches what belongs to the client; only its write sections change the history. */
  ghost predicate Framed(s: State, t: State, w: nat)
    requires w < |s.control|
  {
    && t.tasks == s.tasks && t.client == s.client && t.results == s.results
    && t.delivered == s.delivered && t.tasksSubmitted == s.tasksSubmitted
    && (!s.control[w].Writing? ==> t.writes == s.writes && t.sections == s.sections)
    && (!s.control[w].Fetching? ==> t.values == s.values)
    && (!s.control[w].Fetching? && !Scanning(s.control[w]) ==> t.pool == s.pool)
    && (!s.control[w].Writing? ==> t.device == s.device)
  }

  lemma ScanFrame(c: Config, s: State, w: nat)
    requires WellFormed(c, s) && w < c.workers && Scanning(s.control[w])
    ensures Framed(s, Scan(c, s, w), w)
  {
    assert WorkerWellFormed(c, s, w);
  }

  lemma WriteFrame(c: Config, s: State, w: nat)
    requires WellFormed(c, s) && w < c.workers && s.control[w].Writing?
    ensures Framed(s, WriteStep(c, s, w), w)
  {
    hide BatchWrite;
    assert WorkerWellFormed(c, s, w);
  }

  lemma PollFrame(c: Config, s: State, w: nat)
    requires WellFormed(c, s) && w < c.workers && s.control[w].Polling?
    ensures Framed(s, PollStep(c, s, w), w)
  {
    assert w < |s.control|;
    hide WellFormed, ReadBlock, KernelBlock, DoneBit, PollsUnlocked;
  }

  lemma FetchFrame(c: Config, s: State, w: nat)
    requires WellFormed(c, s) && w < c.workers && s.control[w].Fetching?
    ensures Framed(s, FetchStep(c, s, w), w)
  {
    assert WorkerWellFormed(c, s, w);
    hide WellFormed, ReadBlock, KernelBlock, Pool.Apply;
  }

  lemma ReadFrame(c: Config, s: State, w: nat)
    requires WellFormed(c, s) && w < c.workers && (s.control[w].Polling? || s.control[w].Fetching?)
    ensures Framed(s, Work(c, s, w), w)
  {
    assert w < |s.control|;
    hide Framed, WellFormed, PollStep, FetchStep;
    if s.control[w].Polling? { PollFrame(c, s, w); } else { FetchFrame(c, s, w); }
  }

  lemma WorkFrame(c: Config, s: State, w: nat)
    requires WellFormed(c, s) && w < c.workers
    ensures Framed(s, Work(c, s, w), w)
  {
    hide Framed, Scan, WriteStep, PollStep, FetchStep;
    if Scanning(s.control[w]) { ScanFrame(c, s, w); }
    else if s.control[w].Writing? { WriteFrame(c, s, w); }
    else { ReadFrame(c, s, w); }
  }
}
