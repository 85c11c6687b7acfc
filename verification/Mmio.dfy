/** The register file that the scheduler drives: five blocks per hardware instance (four column
    readers and a kernel), the accesses made to them, and the write batches that
    `ThreadSafePlatform` issues while it holds its spinlock. */
module Mmio {
  const NUM_COLS: nat := 4
  const REG_BASE: nat := 10
  const CONTROL: nat := 0
  const STATUS: nat := 1
  const RESULT_HIGH: nat := 0xE
  const RESULT_LOW: nat := 0xF
  const REGISTERS: nat := 16
  const TWO32: int := 0x1_0000_0000

  type u32 = x: int | 0 <= x < 0x1_0000_0000
  type u64 = x: int | 0 <= x < 0x1_0000_0000_0000_0000

  /** One column chunk: what a column reader is pointed at. */
  datatype PtoaRegs = PtoaRegs(numVal: u64, maxSize: u64, address: u64)

  /** A row group, one chunk per column reader. */
  type Task = t: seq<PtoaRegs> | |t| == NUM_COLS
    witness [PtoaRegs(0, 0, 0), PtoaRegs(0, 0, 0), PtoaRegs(0, 0, 0), PtoaRegs(0, 0, 0)]

  function Lo(x: u64): u32 { x % TWO32 }

  function Hi(x: u64): u32 { x / TWO32 }

  /** The inverse of the split into two registers: high word shifted up, low word or-ed in. */
  function Join(high: u32, low: u32): u64 { high * TWO32 + low }

  /** The five argument registers of a column reader. WriteMMIO takes 32 bits, so the row count is
      truncated; the two 64-bit values are split into low and high halves. */
  function Words(p: PtoaRegs): (w: seq<u32>)
    ensures |w| == 5
  {
    [Lo(p.numVal), Lo(p.address), Hi(p.address), Lo(p.maxSize), Hi(p.maxSize)]
  }

  function TaskWords(t: Task): (ws: seq<seq<u32>>)
    ensures |ws| == NUM_COLS
  {
    seq(NUM_COLS, i requires 0 <= i < NUM_COLS => Words(t[i]))
  }

  lemma SplitJoin(x: u64)
    ensures Join(Hi(x), Lo(x)) == x
  {
  }

  /** The registers identify a chunk exactly when its row count fits the 32-bit register: the
      kernel cannot tell two chunks apart if and only if they differ by a multiple of 2^32 rows. */
  lemma WordsIdentifyChunk(p: PtoaRegs, q: PtoaRegs)
    ensures Words(p) == Words(q) <==>
            p.address == q.address && p.maxSize == q.maxSize && p.numVal % TWO32 == q.numVal % TWO32
  {
    SplitJoin(p.address);
    SplitJoin(q.address);
    SplitJoin(p.maxSize);
    SplitJoin(q.maxSize);
    if Words(p) == Words(q) {
      assert Words(p)[0] == Words(q)[0] && Words(p)[1] == Words(q)[1] && Words(p)[2] == Words(q)[2];
      assert Words(p)[3] == Words(q)[3] && Words(p)[4] == Words(q)[4];
    }
  }

  /** An empty chunk and one of 2^32 rows look alike to the hardware. */
  lemma RowCountsCollide()
    ensures var p, q := PtoaRegs(0, 0, 0), PtoaRegs(0x1_0000_0000, 0, 0);
            p != q && Words(p) == Words(q)
  {
    WordsIdentifyChunk(PtoaRegs(0, 0, 0), PtoaRegs(0x1_0000_0000, 0, 0));
  }

  // ---------------------------------------------------------------- blocks

  /** A hardware block. `result` is published together with the done bit. */
  datatype Block = Block(args: seq<u32>, started: bool, done: bool, result: u64) {
    predicate Valid() { |args| == 5 }

    predicate Cleared() { !started && !done }
  }

  /** What the hardware computes from the argument registers of its four readers. */
  type Kernel = seq<seq<u32>> -> u64

  datatype Access =
    | Write(block: nat, reg: nat, value: u32)
    | Read(block: nat, reg: nat)

  function WriteBlock(b: Block, reg: nat, value: u32): (r: Block)
    requires b.Valid()
    ensures r.Valid()
  {
    if reg == CONTROL then
      if value == 0x04 then b.(started := false, done := false)
      else if value == 0x01 then b.(started := true)
      else b
    else if REG_BASE <= reg < REG_BASE + 5 then b.(args := b.args[reg - REG_BASE := value])
    else b
  }

  /** Status bits: 0 idle, 1 busy, 2 done. */
  function ReadBlock(b: Block, reg: nat): u32 {
    if reg == STATUS then
      (if b.done then 4 else 0) + (if b.started && !b.done then 2 else 0) + (if b.started then 0 else 1)
    else if reg == RESULT_LOW then Lo(b.result)
    else if reg == RESULT_HIGH then Hi(b.result)
    else 0
  }

  /** `(status & done_status_mask) == done_status` for bit 2. */
  predicate DoneBit(status: u32) { status / 4 % 2 == 1 }

  lemma DoneBitReadsDone(b: Block)
    ensures DoneBit(ReadBlock(b, STATUS)) <==> b.done
    ensures ReadBlock(b, STATUS) % 8 >= 4 <==> b.done
  {
  }

  // ---------------------------------------------------------------- instances

  /** The block numbers of instance k are 5k..5k+4; the last one is the kernel. */
  function BlockOf(k: nat, i: nat): nat
    requires i <= NUM_COLS
  {
    i + (NUM_COLS + 1) * k
  }

  /** calculate_reg_base_offset: where the registers of a block begin. */
  function RegBaseOffset(block: nat): nat { 0x1_0000 + block * 0x1000 }

  /** Two registers have the same address only if they are the same register of the same block, however
      many bytes up to 256 the platform steps from one register to the next. */
  lemma RegistersAreApart(block: nat, reg: nat, other: nat, otherReg: nat, stride: nat)
    requires reg < REGISTERS && otherReg < REGISTERS && 1 <= stride <= 256
    ensures RegBaseOffset(block) + stride * reg == RegBaseOffset(other) + stride * otherReg
       <==> block == other && reg == otherReg
  {
    WithinWindow(reg, stride);
    WithinWindow(otherReg, stride);
    WindowsAreApart(block, stride * reg, other, stride * otherReg);
    if reg < otherReg {
      StrideStep(reg, otherReg, stride);
    } else if otherReg < reg {
      StrideStep(otherReg, reg, stride);
    }
  }

  lemma WindowsAreApart(block: nat, x: nat, other: nat, y: nat)
    requires x < 0x1000 && y < 0x1000
    ensures RegBaseOffset(block) + x == RegBaseOffset(other) + y <==> block == other && x == y
  {
  }

  lemma WithinWindow(reg: nat, stride: nat)
    requires reg < REGISTERS && stride <= 256
    ensures stride * reg < 0x1000
  {
    assert stride * reg <= 256 * reg;
  }

  lemma StrideStep(reg: nat, above: nat, stride: nat)
    requires reg < above && stride >= 1
    ensures stride * reg < stride * above
  {
  }

  /** Every register the batches write, or the polls and fetches read, is one of a block's sixteen. */
  lemma BatchRegistersFit(kind: Kind, k: nat, task: Task, t: nat)
    requires t < BatchLength(kind)
    ensures BatchWrite(kind, k, task, t).Write? && BatchWrite(kind, k, task, t).reg < REGISTERS
    ensures STATUS < REGISTERS && RESULT_LOW < REGISTERS && RESULT_HIGH < REGISTERS
  {
  }

  predicate ValidDevice(d: seq<Block>, instances: nat) {
    && |d| == (NUM_COLS + 1) * instances
    && forall b :: 0 <= b < |d| ==> d[b].Valid()
  }

  function Part(d: seq<Block>, instances: nat, k: nat, i: nat): Block
    requires ValidDevice(d, instances) && k < instances && i <= NUM_COLS
  {
    d[BlockOf(k, i)]
  }

  function ReaderWords(d: seq<Block>, instances: nat, k: nat): (ws: seq<seq<u32>>)
    requires ValidDevice(d, instances) && k < instances
    ensures |ws| == NUM_COLS
  {
    seq(NUM_COLS, i requires 0 <= i < NUM_COLS => Part(d, instances, k, i).args)
  }

  function WriteDevice(d: seq<Block>, instances: nat, b: nat, reg: nat, value: u32): (r: seq<Block>)
    requires ValidDevice(d, instances) && b < |d|
    ensures ValidDevice(r, instances)
  {
    d[b := WriteBlock(d[b], reg, value)]
  }

  /** A kernel may finish once it and its four readers are started. */
  predicate CanFinish(d: seq<Block>, instances: nat, k: nat)
    requires ValidDevice(d, instances) && k < instances
  {
    && (forall i :: 0 <= i <= NUM_COLS ==> Part(d, instances, k, i).started)
    && !Part(d, instances, k, NUM_COLS).done
  }

  function Finish(d: seq<Block>, instances: nat, k: nat, f: Kernel): (r: seq<Block>)
    requires ValidDevice(d, instances) && k < instances
    ensures ValidDevice(r, instances)
  {
    var b := BlockOf(k, NUM_COLS);
    d[b := d[b].(done := true, result := f(ReaderWords(d, instances, k)))]
  }

  // ---------------------------------------------------------------- write batches

  /** The three critical sections that write. */
  datatype Kind = Reset | Arguments | Start

  function BatchLength(kind: Kind): nat {
    match kind
    case Reset => 2 * (NUM_COLS + 1)
    case Arguments => 5 * NUM_COLS
    case Start => 2 * (NUM_COLS + 1)
  }

  /** The t-th write of a batch on instance k: readers upwards then the kernel for Reset, five
      argument words per reader, and the kernel first, readers downwards, for Start. */
  function BatchWrite(kind: Kind, k: nat, task: Task, t: nat): Access
    requires t < BatchLength(kind)
  {
    match kind
    case Reset => Write(BlockOf(k, t / 2), CONTROL, if t % 2 == 0 then 0x04 else 0)
    case Arguments => Write(BlockOf(k, t / 5), REG_BASE + t % 5, Words(task[t / 5])[t % 5])
    case Start => Write(BlockOf(k, NUM_COLS - t / 2), CONTROL, if t % 2 == 0 then 0x01 else 0)
  }

  function Batch(kind: Kind, k: nat, task: Task): (b: seq<Access>)
    ensures |b| == BatchLength(kind)
  {
    seq(BatchLength(kind), t requires 0 <= t < BatchLength(kind) => BatchWrite(kind, k, task, t))
  }

  /** The value a task returns, as an exact rational instead of a rounded double. */
  function Scaled(result: u64): real { result as real / 262144.0 }

  function Output(f: Kernel, task: Task): real { Scaled(f(TaskWords(task))) }

  /** One unit of what the kernel computes is 2^-18. */
  lemma OutputIsFixedPoint(f: Kernel, task: Task)
    ensures Output(f, task) * 262144.0 == f(TaskWords(task)) as real
  {
  }

  /** What the kernel is given for each column: row count, address and size, low words first. */
  lemma TaskWordsSpelledOut(task: Task, i: nat)
    requires i < NUM_COLS
    ensures |TaskWords(task)| == 4 && |TaskWords(task)[i]| == 5
    ensures var w, r := TaskWords(task)[i], task[i];
            && w[0] == r.numVal % 0x1_0000_0000
            && w[1] as int + 0x1_0000_0000 * w[2] as int == r.address
            && w[3] as int + 0x1_0000_0000 * w[4] as int == r.maxSize
  {
    SplitJoin(task[i].address);
    SplitJoin(task[i].maxSize);
  }

  lemma BatchAt(kind: Kind, k: nat, task: Task, t: nat)
    requires t < BatchLength(kind)
    ensures Batch(kind, k, task)[t] == BatchWrite(kind, k, task, t)
  {
    hide BatchWrite;
  }

  lemma StrobeAt(k: nat, task: Task, i: nat)
    requires i <= NUM_COLS
    ensures BatchWrite(Reset, k, task, 2 * i) == Write(5 * k + i, 0, 4)
    ensures BatchWrite(Reset, k, task, 2 * i + 1) == Write(5 * k + i, 0, 0)
    ensures BatchWrite(Start, k, task, 8 - 2 * i) == Write(5 * k + i, 0, 1)
    ensures BatchWrite(Start, k, task, 9 - 2 * i) == Write(5 * k + i, 0, 0)
  {
    hide Words;
  }

  lemma TwoInARow<T>(s: seq<T>, n: nat, a: T, b: T)
    requires n + 1 < |s| && s[n] == a && s[n + 1] == b
    ensures s[n..n + 2] == [a, b]
  {
  }

  /** The bus traffic of a task in full: blocks 5k to 5k + 3 are the readers and 5k + 4 is the kernel.
      Reset goes up and Start comes down; each of them strobes its bit, 4 or 1, and clears it again. */
  lemma StrobesSpelledOut(k: nat, task: Task, i: nat)
    requires i <= NUM_COLS
    ensures Batch(Reset, k, task)[2 * i..2 * i + 2] == [Write(5 * k + i, 0, 4), Write(5 * k + i, 0, 0)]
    ensures Batch(Start, k, task)[8 - 2 * i..10 - 2 * i] == [Write(5 * k + i, 0, 1), Write(5 * k + i, 0, 0)]
  {
    hide Batch, BatchWrite;
    StrobeAt(k, task, i);
    BatchAt(Reset, k, task, 2 * i);
    BatchAt(Reset, k, task, 2 * i + 1);
    TwoInARow(Batch(Reset, k, task), 2 * i, Write(5 * k + i, 0, 4), Write(5 * k + i, 0, 0));
    BatchAt(Start, k, task, 8 - 2 * i);
    BatchAt(Start, k, task, 9 - 2 * i);
    TwoInARow(Batch(Start, k, task), 8 - 2 * i, Write(5 * k + i, 0, 1), Write(5 * k + i, 0, 0));
  }

  lemma ArgumentAt(k: nat, task: Task, i: nat, j: nat)
    requires i < NUM_COLS && j < 5
    ensures Batch(Arguments, k, task)[5 * i + j] == Write(5 * k + i, 10 + j, Words(task[i])[j])
  {
    hide Words, Batch;
    BatchAt(Arguments, k, task, 5 * i + j);
    assert (5 * i + j) / 5 == i && (5 * i + j) % 5 == j;
  }

  lemma FiveInARow<T>(s: seq<T>, n: nat)
    requires n + 4 < |s|
    ensures s[n..n + 5] == [s[n], s[n + 1], s[n + 2], s[n + 3], s[n + 4]]
  {
  }

  /** Each reader gets its row count in register 10, its address in 11 and 12, its size in 13 and 14. */
  lemma ArgumentsSpelledOut(k: nat, task: Task, i: nat)
    requires i < NUM_COLS
    ensures var r := task[i];
            Batch(Arguments, k, task)[5 * i..5 * i + 5] ==
            [Write(5 * k + i, 10, r.numVal % 0x1_0000_0000),
             Write(5 * k + i, 11, r.address % 0x1_0000_0000), Write(5 * k + i, 12, r.address / 0x1_0000_0000),
             Write(5 * k + i, 13, r.maxSize % 0x1_0000_0000), Write(5 * k + i, 14, r.maxSize / 0x1_0000_0000)]
  {
    hide Batch, BatchWrite;
    FiveInARow(Batch(Arguments, k, task), 5 * i);
    ArgumentAt(k, task, i, 0);
    ArgumentAt(k, task, i, 1);
    ArgumentAt(k, task, i, 2);
    ArgumentAt(k, task, i, 3);
    ArgumentAt(k, task, i, 4);
  }
}
