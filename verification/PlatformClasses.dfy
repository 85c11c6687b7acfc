/** The register protocol in the shape of the program: a platform object that is written and read
    in place, the critical sections as loops, and one task run from start to finish. The loops
    are proved to issue exactly the write batches of which the transition system is made. */
module PlatformClasses {
  import opened Mmio
  import opened SchedulerModel
  import opened SchedulerSafety

  // ---------------------------------------------------------------- effect of a batch

  /** The device after the first t writes of a batch. */
  function After(d: seq<Block>, instances: nat, kind: Kind, k: nat, task: Task, t: nat): (r: seq<Block>)
    requires ValidDevice(d, instances) && k < instances && t <= BatchLength(kind)
    ensures ValidDevice(r, instances)
  {
    if t == 0 then d
    else
      var a := BatchWrite(kind, k, task, t - 1);
      assert a.block == BlockOf(k, BlockIndex(kind, t - 1));
      WriteDevice(After(d, instances, kind, k, task, t - 1), instances, a.block, a.reg, a.value)
  }

  lemma WriteReachesStage(f: Kernel, e: seq<Block>, instances: nat, k: nat, task: Task, kind: Kind, t: nat)
    requires ValidDevice(e, instances) && k < instances && t < BatchLength(kind)
    requires StageOk(f, View(e, instances, k), task, Writing(kind, t + 1))
    ensures var a := BatchWrite(kind, k, task, t);
            && a.block < |e|
            && StageOk(f, View(WriteDevice(e, instances, a.block, a.reg, a.value), instances, k), task,
                       Writing(kind, t + 2))
  {
    var a := BatchWrite(kind, k, task, t);
    var i := BlockIndex(kind, t);
    hide StageOk, WriteBlock, Words;
    WriteKeepsStage(f, View(e, instances, k), task, kind, t + 1, k);
    assert a.block == BlockOf(k, i);
    assert e[a.block] == View(e, instances, k)[i];
    WriteViews(e, instances, k, i, WriteBlock(e[a.block], a.reg, a.value));
  }

  /** The first t writes of a batch take an instance from the start of a section to its t-th point. */
  lemma {:induction false} BatchReachesStage(f: Kernel, d: seq<Block>, instances: nat, k: nat, task: Task,
                                             kind: Kind, t: nat)
    requires ValidDevice(d, instances) && k < instances && t <= BatchLength(kind)
    requires StageOk(f, View(d, instances, k), task, Writing(kind, 1))
    ensures StageOk(f, View(After(d, instances, kind, k, task, t), instances, k), task, Writing(kind, t + 1))
  {
    if t > 0 {
      BatchReachesStage(f, d, instances, k, task, kind, t - 1);
      WriteReachesStage(f, After(d, instances, kind, k, task, t - 1), instances, k, task, kind, t - 1);
    }
  }

  // ---------------------------------------------------------------- the platform

  /** The accelerator behind its registers. `delay` is the device time until a kernel may report
      completion; `writes` records what was written. */
  class Platform {
    const instances: nat
    const kernel: Kernel
    var blocks: seq<Block>
    var delay: nat
    var writes: seq<Access>

    predicate Valid()
      reads this
    {
      ValidDevice(blocks, instances)
    }

    constructor (instances: nat, kernel: Kernel, blocks: seq<Block>, delay: nat)
      requires ValidDevice(blocks, instances)
      ensures Valid() && this.instances == instances && this.kernel == kernel
      ensures this.blocks == blocks && writes == []
    {
      this.instances, this.kernel, this.blocks, this.delay, this.writes := instances, kernel, blocks, delay, [];
    }

    /** The first t writes of a batch have been made since the device was `was` and the trace `before`. */
    ghost predicate Issued(before: seq<Access>, was: seq<Block>, kind: Kind, k: nat, task: Task, t: nat)
      reads this
    {
      && ValidDevice(was, instances) && k < instances && t <= BatchLength(kind)
      && writes == before + Batch(kind, k, task)[..t]
      && blocks == After(was, instances, kind, k, task, t)
    }

    /** Makes the t-th write of a batch. */
    method WriteNext(base: nat, reg: nat, value: u32,
                     ghost before: seq<Access>, ghost was: seq<Block>,
                     ghost kind: Kind, ghost k: nat, ghost task: Task, ghost t: nat)
      requires Valid() && Issued(before, was, kind, k, task, t) && t < BatchLength(kind)
      requires BatchWrite(kind, k, task, t) == Write(base, reg, value)
      modifies this`blocks, this`writes
      ensures Valid() && Issued(before, was, kind, k, task, t + 1)
    {
      assert base == BlockOf(k, BlockIndex(kind, t));
      WriteMMIO(base, reg, value);
      assert Batch(kind, k, task)[..t + 1] == Batch(kind, k, task)[..t] + [Write(base, reg, value)];
    }

    method WriteMMIO(base: nat, reg: nat, value: u32)
      requires Valid() && base < |blocks|
      modifies this`blocks, this`writes
      ensures Valid()
      ensures blocks == WriteDevice(old(blocks), instances, base, reg, value)
      ensures writes == old(writes) + [Write(base, reg, value)]
    {
      blocks := blocks[base := WriteBlock(blocks[base], reg, value)];
      writes := writes + [Write(base, reg, value)];
    }

    /** The device runs on while it is being read: the kernel of the instance may finish. */
    method ReadMMIO(base: nat, reg: nat) returns (value: u32)
      requires Valid() && base < |blocks|
      modifies this`blocks, this`delay
      ensures Valid()
      ensures var k := base / (NUM_COLS + 1);
              if CanFinish(old(blocks), instances, k) && old(delay) == 0
              then blocks == Finish(old(blocks), instances, k, kernel)
              else blocks == old(blocks) && (old(delay) > 0 ==> delay < old(delay))
      ensures value == ReadBlock(blocks[base], reg)
    {
      var k := base / (NUM_COLS + 1);
      if delay > 0 {
        delay := delay - 1;
      } else if CanFinish(blocks, instances, k) {
        blocks := Finish(blocks, instances, k, kernel);
      }
      value := ReadBlock(blocks[base], reg);
    }
  }

  // ---------------------------------------------------------------- the guarded platform

  /** Base offsets of the five blocks of instance k; distinct blocks have disjoint windows. */
  function Bases(k: nat): seq<nat> {
    seq(NUM_COLS + 1, i requires 0 <= i < NUM_COLS + 1 => BlockOf(k, i))
  }

  lemma ColumnWrites(k: nat, regs: Task, i: nat)
    requires i < NUM_COLS
    ensures BatchWrite(Arguments, k, regs, 5 * i) == Write(BlockOf(k, i), REG_BASE, Lo(regs[i].numVal))
    ensures BatchWrite(Arguments, k, regs, 5 * i + 1) == Write(BlockOf(k, i), REG_BASE + 1, Lo(regs[i].address))
    ensures BatchWrite(Arguments, k, regs, 5 * i + 2) == Write(BlockOf(k, i), REG_BASE + 2, Hi(regs[i].address))
    ensures BatchWrite(Arguments, k, regs, 5 * i + 3) == Write(BlockOf(k, i), REG_BASE + 3, Lo(regs[i].maxSize))
    ensures BatchWrite(Arguments, k, regs, 5 * i + 4) == Write(BlockOf(k, i), REG_BASE + 4, Hi(regs[i].maxSize))
  {
    forall j | 0 <= j < 5
      ensures BatchWrite(Arguments, k, regs, 5 * i + j) == Write(BlockOf(k, i), REG_BASE + j, Words(regs[i])[j])
    {
      assert (5 * i + j) / 5 == i && (5 * i + j) % 5 == j;
    }
  }

  /** `locked` says that the thread at hand holds the spinlock. `rivals` says, for each time it will take
      the lock, how often it finds it taken by another thread first. What the others write meanwhile, to
      their own instances, is left to the transition system. */
  class ThreadSafePlatform {
    const platform: Platform
    var locked: bool
    var rivals: seq<nat>

    predicate Valid()
      reads this, platform
    {
      platform.Valid()
    }

    constructor (platform: Platform, rivals: seq<nat>)
      requires platform.Valid()
      ensures Valid() && this.platform == platform && !locked && this.rivals == rivals
    {
      this.platform, this.rivals, locked := platform, rivals, false;
    }

    /** Instance k looks as it should for a worker that is at `ctl` with `task`. */
    ghost predicate At(k: nat, task: Task, ctl: Control)
      reads this, platform
    {
      Valid() && k < platform.instances
      && StageOk(platform.kernel, View(platform.blocks, platform.instances, k), task, ctl)
    }

    /** The whole batch is out: the trace grew by it, and the instance is at the end of the section. */
    lemma WholeBatch(before: seq<Access>, was: seq<Block>, kind: Kind, k: nat, task: Task)
      requires Valid() && platform.Issued(before, was, kind, k, task, BatchLength(kind))
      ensures platform.writes == before + Batch(kind, k, task)
      ensures StageOk(platform.kernel, View(was, platform.instances, k), task, Writing(kind, 1)) ==>
                At(k, task, Writing(kind, BatchLength(kind) + 1))
    {
      var batch := Batch(kind, k, task);
      assert batch[..BatchLength(kind)] == batch;
      if StageOk(platform.kernel, View(was, platform.instances, k), task, Writing(kind, 1)) {
        BatchReachesStage(platform.kernel, was, platform.instances, k, task, kind, BatchLength(kind));
      }
    }

    /** The end of a section is the start of the next one. */
    lemma NextSection(k: nat, task: Task)
      ensures At(k, task, Writing(Kind.Reset, 11)) ==> At(k, task, Writing(Arguments, 1))
      ensures At(k, task, Writing(Arguments, 21)) ==> At(k, task, Writing(Kind.Start, 1))
      ensures At(k, task, Writing(Kind.Start, 11)) ==> At(k, task, Polling(0, 0))
    {
    }

    /** `state_.exchange(Locked)`: the lock is Locked afterwards, by another thread or by this one. */
    method Exchange() returns (previous: bool)
      requires !locked
      modifies this`locked, this`rivals
      ensures previous <==> old(rivals != [] && rivals[0] > 0)
      ensures previous ==> !locked && rivals == old(rivals)[0 := old(rivals)[0] - 1]
      ensures !previous ==> locked && rivals == if old(rivals) == [] then [] else old(rivals)[1..]
    {
      previous := rivals != [] && rivals[0] > 0;
      if previous {
        rivals := rivals[0 := rivals[0] - 1];
      } else {
        locked, rivals := true, if rivals == [] then [] else rivals[1..];
      }
    }

    /** Spins until no rival holds the lock. A thread that holds it itself would spin for ever. */
    method Lock()
      requires !locked
      modifies this`locked, this`rivals
      ensures locked && rivals == if old(rivals) == [] then [] else old(rivals)[1..]
    {
      var previous := Exchange();
      while previous
        invariant locked <==> !previous
        invariant previous ==> rivals != [] && rivals[1..] == old(rivals)[1..]
        invariant !previous ==> rivals == if old(rivals) == [] then [] else old(rivals)[1..]
        decreases previous, if rivals == [] then 0 else rivals[0]
      {
        previous := Exchange();
      }
    }

    method Unlock()
      modifies this`locked, this`rivals
      ensures !locked
    {
      locked := false;
    }

    method Reset(baseOffsets: seq<nat>, ghost k: nat, ghost task: Task)
      requires Valid() && !locked && k < platform.instances && baseOffsets == Bases(k)
      modifies this`locked, this`rivals, platform`blocks, platform`writes
      ensures Valid() && !locked
      ensures platform.writes == old(platform.writes) + Batch(Kind.Reset, k, task)
      ensures platform.blocks == After(old(platform.blocks), platform.instances, Kind.Reset, k, task, 10)
      ensures At(k, task, Writing(Kind.Reset, 11))
    {
      ghost var before, was := platform.writes, platform.blocks;
      Lock();
      for i := 0 to NUM_COLS + 1
        invariant Valid()
        invariant platform.Issued(before, was, Kind.Reset, k, task, 2 * i)
      {
        platform.WriteNext(baseOffsets[i], 0, 0x04, before, was, Kind.Reset, k, task, 2 * i);
        platform.WriteNext(baseOffsets[i], 0, 0, before, was, Kind.Reset, k, task, 2 * i + 1);
      }
      Unlock();
      WholeBatch(before, was, Kind.Reset, k, task);
    }

    /** `mmio64_writer`: the low half, then the high half, in consecutive registers. */
    method SetHalves(base: nat, reg: nat, full: u64, ghost k: nat, ghost regs: Task, ghost t: nat,
                     ghost before: seq<Access>, ghost was: seq<Block>)
      requires Valid() && t + 1 < 20 && platform.Issued(before, was, Arguments, k, regs, t)
      requires BatchWrite(Arguments, k, regs, t) == Write(base, reg, Lo(full))
      requires BatchWrite(Arguments, k, regs, t + 1) == Write(base, reg + 1, Hi(full))
      modifies platform`blocks, platform`writes
      ensures Valid() && platform.Issued(before, was, Arguments, k, regs, t + 2)
    {
      platform.WriteNext(base, reg, Lo(full), before, was, Arguments, k, regs, t);
      platform.WriteNext(base, reg + 1, Hi(full), before, was, Arguments, k, regs, t + 1);
    }

    method SetColumn(base: nat, r: PtoaRegs, ghost i: nat, ghost k: nat, ghost regs: Task,
                     ghost before: seq<Access>, ghost was: seq<Block>)
      requires Valid() && i < NUM_COLS && base == BlockOf(k, i) && r == regs[i]
      requires platform.Issued(before, was, Arguments, k, regs, 5 * i)
      modifies platform`blocks, platform`writes
      ensures Valid() && platform.Issued(before, was, Arguments, k, regs, 5 * i + 5)
    {
      ColumnWrites(k, regs, i);
      platform.WriteNext(base, REG_BASE + 0, Lo(r.numVal), before, was, Arguments, k, regs, 5 * i);
      SetHalves(base, REG_BASE + 1, r.address, k, regs, 5 * i + 1, before, was);
      SetHalves(base, REG_BASE + 3, r.maxSize, k, regs, 5 * i + 3, before, was);
    }

    method SetPtoaArguments(baseOffsets: seq<nat>, regs: Task, ghost k: nat)
      requires Valid() && !locked && k < platform.instances && baseOffsets == Bases(k)
      modifies this`locked, this`rivals, platform`blocks, platform`writes
      ensures Valid() && !locked
      ensures platform.writes == old(platform.writes) + Batch(Arguments, k, regs)
      ensures platform.blocks == After(old(platform.blocks), platform.instances, Arguments, k, regs, 20)
      ensures old(At(k, regs, Writing(Arguments, 1))) ==> At(k, regs, Writing(Arguments, 21))
    {
      hide StageOk, Batch, BatchWrite;
      ghost var before, was := platform.writes, platform.blocks;
      Lock();
      for i := 0 to NUM_COLS
        invariant Valid()
        invariant platform.Issued(before, was, Arguments, k, regs, 5 * i)
      {
        SetColumn(baseOffsets[i], regs[i], i, k, regs, before, was);
      }
      Unlock();
      WholeBatch(before, was, Arguments, k, regs);
    }

    method Start(baseOffsets: seq<nat>, ghost k: nat, ghost task: Task)
      requires Valid() && !locked && k < platform.instances && baseOffsets == Bases(k)
      modifies this`locked, this`rivals, platform`blocks, platform`writes
      ensures Valid() && !locked
      ensures platform.writes == old(platform.writes) + Batch(Kind.Start, k, task)
      ensures platform.blocks == After(old(platform.blocks), platform.instances, Kind.Start, k, task, 10)
      ensures old(At(k, task, Writing(Kind.Start, 1))) ==> At(k, task, Writing(Kind.Start, 11))
    {
      ghost var before, was := platform.writes, platform.blocks;
      Lock();
      for i := NUM_COLS + 1 downto 0
        invariant Valid()
        invariant platform.Issued(before, was, Kind.Start, k, task, 2 * (NUM_COLS + 1 - i))
      {
        platform.WriteNext(baseOffsets[i], 0, 0x01, before, was, Kind.Start, k, task, 2 * (NUM_COLS - i));
        platform.WriteNext(baseOffsets[i], 0, 0, before, was, Kind.Start, k, task, 2 * (NUM_COLS - i) + 1);
      }
      Unlock();
      WholeBatch(before, was, Kind.Start, k, task);
    }

    /** What the device may do while the poller of instance k reads it. */
    lemma PollStage(was: seq<Block>, k: nat, task: Task)
      requires ValidDevice(was, platform.instances) && k < platform.instances
      requires StageOk(platform.kernel, View(was, platform.instances, k), task, Polling(0, 0))
      ensures CanFinish(was, platform.instances, k) <==> !was[BlockOf(k, NUM_COLS)].done
      ensures CanFinish(was, platform.instances, k) ==>
                var now := Finish(was, platform.instances, k, platform.kernel);
                && StageOk(platform.kernel, View(now, platform.instances, k), task, Polling(0, 0))
                && now[BlockOf(k, NUM_COLS)].done
                && forall j :: 0 <= j < platform.instances && j != k ==>
                     View(now, platform.instances, j) == View(was, platform.instances, j)
    {
      FinishViews(was, platform.instances, k, platform.kernel);
      assert View(was, platform.instances, k)[NUM_COLS] == was[BlockOf(k, NUM_COLS)];
      if CanFinish(was, platform.instances, k) {
        FinishKeepsStage(platform.kernel, View(was, platform.instances, k), task, Polling(0, 0));
      }
    }

    method Poll(offset: nat, pollInterval: nat, ghost k: nat, ghost task: Task) returns (status: u32)
      requires Valid() && !locked && k < platform.instances && offset == BlockOf(k, NUM_COLS)
      requires At(k, task, Polling(0, 0))
      modifies this`locked, this`rivals, platform`blocks, platform`delay
      ensures Valid() && !locked
      ensures At(k, task, Polling(0, 0))
      ensures DoneBit(status) <==> platform.blocks[offset].done
      ensures !DoneBit(status) ==> platform.delay < old(platform.delay)
      ensures forall j :: 0 <= j < platform.instances && j != k ==>
                View(platform.blocks, platform.instances, j) == View(old(platform.blocks), platform.instances, j)
    {
      PollStage(platform.blocks, k, task);
      assert offset / (NUM_COLS + 1) == k;
      if pollInterval == 0 {
        status := platform.ReadMMIO(offset, 0x01);
      } else {
        Lock();
        status := platform.ReadMMIO(offset, 0x01);
        Unlock();
      }
      DoneBitReadsDone(platform.blocks[offset]);
    }

    /** Returns once the done bit is read; without the lock when the interval is zero. */
    method WaitForFinish(offset: nat, pollInterval: nat, ghost k: nat, ghost task: Task)
      requires Valid() && !locked && k < platform.instances && offset == BlockOf(k, NUM_COLS)
      requires At(k, task, Polling(0, 0))
      modifies this`locked, this`rivals, platform`blocks, platform`delay
      ensures Valid() && !locked
      ensures At(k, task, Fetching(0, 0, 0))
      ensures forall j :: 0 <= j < platform.instances && j != k ==>
                View(platform.blocks, platform.instances, j) == View(old(platform.blocks), platform.instances, j)
    {
      var status := Poll(offset, pollInterval, k, task);
      while !DoneBit(status)
        invariant Valid() && !locked
        invariant At(k, task, Polling(0, 0))
        invariant DoneBit(status) <==> platform.blocks[offset].done
        invariant forall j :: 0 <= j < platform.instances && j != k ==>
                    View(platform.blocks, platform.instances, j) == View(old(platform.blocks), platform.instances, j)
        decreases !DoneBit(status), platform.delay
      {
        status := Poll(offset, pollInterval, k, task);
      }
      assert View(platform.blocks, platform.instances, k)[NUM_COLS] == platform.blocks[offset];
    }

    method ReadResult(offset: nat, ghost k: nat, ghost task: Task) returns (result: real)
      requires Valid() && !locked && k < platform.instances && offset == BlockOf(k, NUM_COLS)
      requires At(k, task, Fetching(0, 0, 0))
      modifies this`locked, this`rivals, platform`blocks, platform`delay
      ensures Valid() && !locked
      ensures platform.blocks == old(platform.blocks)
      ensures result == Output(platform.kernel, task)
      ensures result * 262144.0 == platform.kernel(TaskWords(task)) as real
    {
      assert View(platform.blocks, platform.instances, k)[NUM_COLS] == platform.blocks[offset];
      assert !CanFinish(platform.blocks, platform.instances, k) by {
        assert Part(platform.blocks, platform.instances, k, NUM_COLS).done;
      }
      Lock();
      var low := platform.ReadMMIO(offset, 0xF);
      var high := platform.ReadMMIO(offset, 0xE);
      Unlock();
      SplitJoin(platform.blocks[offset].result);
      result := Scaled(Join(high, low));
      OutputIsFixedPoint(platform.kernel, task);
    }
  }

  // ---------------------------------------------------------------- one task

  method BaseOffsets(k: nat) returns (baseOffsets: seq<nat>)
    ensures baseOffsets == Bases(k)
  {
    baseOffsets := [];
    for i := 0 to NUM_COLS + 1
      invariant baseOffsets == Bases(k)[..i]
    {
      baseOffsets := baseOffsets + [i + (NUM_COLS + 1) * k];
    }
  }

  /** The three writing sections of a task, on instance k. */
  method Configure(p: ThreadSafePlatform, baseOffsets: seq<nat>, regs: Task, ghost k: nat)
    requires p.Valid() && !p.locked && k < p.platform.instances && baseOffsets == Bases(k)
    modifies p`locked, p`rivals, p.platform`blocks, p.platform`writes
    ensures p.Valid() && !p.locked
    ensures p.At(k, regs, Polling(0, 0))
    ensures p.platform.writes == old(p.platform.writes)
              + Batch(Kind.Reset, k, regs) + Batch(Arguments, k, regs) + Batch(Kind.Start, k, regs)
  {
    p.Reset(baseOffsets, k, regs);
    p.NextSection(k, regs);
    p.SetPtoaArguments(baseOffsets, regs, k);
    p.NextSection(k, regs);
    p.Start(baseOffsets, k, regs);
    p.NextSection(k, regs);
  }

  /** From any condition of the device: the three sections, the wait and the read give the kernel's
      value for these registers, and the trace is the three batches one after the other. */
  method RunInstanceProjection(p: ThreadSafePlatform, instanceIndex: nat, regs: Task) returns (result: real)
    requires p.Valid() && !p.locked && p.platform.instances > 0
    modifies p`locked, p`rivals, p.platform`blocks, p.platform`writes, p.platform`delay
    ensures p.Valid() && !p.locked
    ensures result == Output(p.platform.kernel, regs)
    ensures result * 262144.0 == p.platform.kernel(TaskWords(regs)) as real
    ensures var k := instanceIndex % p.platform.instances;
            p.platform.writes == old(p.platform.writes)
              + Batch(Kind.Reset, k, regs) + Batch(Arguments, k, regs) + Batch(Kind.Start, k, regs)
  {
    var k := instanceIndex % p.platform.instances;
    var baseOffsets := BaseOffsets(k);
    Configure(p, baseOffsets, regs, k);
    p.WaitForFinish(baseOffsets[NUM_COLS], k * 10, k, regs);
    result := p.ReadResult(baseOffsets[NUM_COLS], k, regs);
  }
}
