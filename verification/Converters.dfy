/** Converters: record batches over buffers that Java owns. Building a batch walks two parallel arrays
    with a cursor; copying one out walks the buffers of Java with another. */
module Converters {
  import opened Wire

  /** What the layout depends on: is the field nullable, and is its type binary-like. */
  datatype FieldType = FieldType(nullable: bool, variableWidth: bool)

  /** A buffer is an address with a size; addresses stay abstract. */
  datatype Buffer<+A> = NullBuffer | Buffer(address: A, size: int)

  /** An unknown null count is computed by Arrow when it is asked for. */
  datatype ArrayData<+A> = ArrayData(field: FieldType, length: int, buffers: seq<Buffer<A>>, nullCount: Option<int>)

  // ---------------------------------------------------------------- building a batch

  /** As written, a validity buffer is taken for fields that are not nullable. */
  function BufferCount(f: FieldType): nat {
    (if f.nullable then 0 else 1) + 1 + (if f.variableWidth then 1 else 0)
  }

  /** Where the buffers of field i start: the sum of the counts before it. */
  function Start(schema: seq<FieldType>, i: nat): nat
    requires i <= |schema|
  {
    if i == 0 then 0 else Start(schema, i - 1) + BufferCount(schema[i - 1])
  }

  lemma {:induction false} StartGrows(schema: seq<FieldType>, i: nat, j: nat)
    requires i <= j <= |schema|
    ensures Start(schema, i) + (j - i) <= Start(schema, j)
    decreases j
  {
    if i < j {
      StartGrows(schema, i, j - 1);
    }
  }

  predicate InSlice(schema: seq<FieldType>, i: nat, k: int)
    requires i < |schema|
  {
    Start(schema, i) <= k < Start(schema, i + 1)
  }

  function Owner(schema: seq<FieldType>, n: nat, k: nat): (i: nat)
    requires n <= |schema| && k < Start(schema, n)
    ensures i < n
  {
    if k >= Start(schema, n - 1) then n - 1 else Owner(schema, n - 1, k)
  }

  lemma {:induction false} OwnerHolds(schema: seq<FieldType>, n: nat, k: nat)
    requires n <= |schema| && k < Start(schema, n)
    ensures InSlice(schema, Owner(schema, n, k), k)
  {
    if k < Start(schema, n - 1) {
      OwnerHolds(schema, n - 1, k);
    }
  }

  /** The slices of the fields tile the arrays: a slot up to the total lies in exactly one of them. */
  lemma {:induction false} SlicesTile(schema: seq<FieldType>, k: nat, i: nat)
    requires k < Start(schema, |schema|) && i < |schema|
    ensures InSlice(schema, i, k) <==> i == Owner(schema, |schema|, k)
  {
    var o := Owner(schema, |schema|, k);
    OwnerHolds(schema, |schema|, k);
    if i < o {
      StartGrows(schema, i + 1, o);
    } else if o < i {
      StartGrows(schema, o + 1, i);
    }
  }

  /** A column made of exactly the slice that starts at `at`. */
  predicate HasSlice<A(==)>(f: FieldType, at: nat, numRows: int, addrs: seq<A>, sizes: seq<int>, c: ArrayData<A>)
    requires at + BufferCount(f) <= |addrs| == |sizes|
  {
    var value := if f.nullable then at else at + 1;
    && c.field == f && c.length == numRows
    && c.nullCount == (if f.nullable then None else Some(0))
    && |c.buffers| == (if f.variableWidth then 3 else 2)
    && c.buffers[0] == (if f.nullable then NullBuffer else Buffer(addrs[at], sizes[at]))
    && c.buffers[1] == Buffer(addrs[value], sizes[value])
    && (f.variableWidth ==> c.buffers[2] == Buffer(addrs[value + 1], sizes[value + 1]))
  }

  predicate OwnSlice<A(==)>(schema: seq<FieldType>, i: nat, numRows: int, addrs: seq<A>, sizes: seq<int>,
                             c: ArrayData<A>)
    requires i < |schema| && |addrs| == |sizes|
  {
    && Start(schema, i) + BufferCount(schema[i]) <= |addrs|
    && HasSlice(schema[i], Start(schema, i), numRows, addrs, sizes, c)
  }

  function Plain(schema: seq<FieldType>, n: nat): set<nat>
    requires n <= |schema|
  {
    set i: nat | i < n && !schema[i].nullable
  }

  function Wide(schema: seq<FieldType>, n: nat): set<nat>
    requires n <= |schema|
  {
    set i: nat | i < n && schema[i].variableWidth
  }

  lemma CountOneMore(few: set<nat>, many: set<nat>, x: nat)
    requires x !in few && many - {x} == few
    ensures |many| == |few| + (if x in many then 1 else 0)
  {
    if x in many {
      assert many == few + {x};
    } else {
      assert many == few;
    }
  }

  lemma OneFieldMore(schema: seq<FieldType>, n: nat)
    requires 1 <= n <= |schema|
    ensures |Plain(schema, n)| == |Plain(schema, n - 1)| + (if schema[n - 1].nullable then 0 else 1)
    ensures |Wide(schema, n)| == |Wide(schema, n - 1)| + (if schema[n - 1].variableWidth then 1 else 0)
  {
    CountOneMore(Plain(schema, n - 1), Plain(schema, n), n - 1);
    CountOneMore(Wide(schema, n - 1), Wide(schema, n), n - 1);
  }

  /** The total is one buffer for each field, one more for each field that is not nullable and one more
      for each that is binary-like. */
  lemma {:induction false} TotalIsCount(schema: seq<FieldType>, n: nat)
    requires n <= |schema|
    ensures Start(schema, n) == n + |Plain(schema, n)| + |Wide(schema, n)|
  {
    if n == 0 {
      assert Plain(schema, 0) == {} && Wide(schema, 0) == {};
    } else {
      hide Plain, Wide;
      TotalIsCount(schema, n - 1);
      OneFieldMore(schema, n);
    }
  }

  function NonNull<A>(bs: seq<Buffer<A>>): seq<Buffer<A>> {
    if bs == [] then []
    else NonNull(bs[..|bs| - 1]) + (if bs[|bs| - 1].Buffer? then [bs[|bs| - 1]] else [])
  }

  /** All buffers of all columns, in order. */
  function AllBuffers<A>(cs: seq<ArrayData<A>>): seq<Buffer<A>> {
    if cs == [] then [] else AllBuffers(cs[..|cs| - 1]) + NonNull(cs[|cs| - 1].buffers)
  }

  function Pairs<A>(addrs: seq<A>, sizes: seq<int>, from: nat, to: nat): (bs: seq<Buffer<A>>)
    requires from <= to <= |addrs| == |sizes|
    ensures |bs| == to - from
  {
    seq(to - from, k requires 0 <= k < to - from => Buffer(addrs[from + k], sizes[from + k]))
  }

  /** The bitmap is missing just in nullable columns, and nothing else is. */
  predicate Complete<A>(f: FieldType, numRows: int, c: ArrayData<A>) {
    && c.field == f && c.length == numRows
    && |c.buffers| == (if f.variableWidth then 3 else 2)
    && (forall b :: 0 <= b < |c.buffers| ==> (c.buffers[b].NullBuffer? <==> b == 0 && f.nullable))
    && c.nullCount == (if f.nullable then None else Some(0))
  }

  lemma {:induction false} SliceIsComplete<A>(f: FieldType, at: nat, numRows: int, addrs: seq<A>, sizes: seq<int>,
                                              c: ArrayData<A>)
    requires at + BufferCount(f) <= |addrs| == |sizes| && HasSlice(f, at, numRows, addrs, sizes, c)
    ensures Complete(f, numRows, c) && NonNull(c.buffers) == Pairs(addrs, sizes, at, at + BufferCount(f))
  {
    var bs := c.buffers;
    assert NonNull(bs[..0]) == [];
    assert bs[..2][..1] == bs[..1] && bs[..1][..0] == bs[..0];
    assert NonNull(bs[..1]) == if f.nullable then [] else [bs[0]];
    assert NonNull(bs[..2]) == NonNull(bs[..1]) + [bs[1]];
    if f.variableWidth {
      assert bs[..3][..2] == bs[..2] && bs[..3] == bs;
      assert NonNull(bs) == NonNull(bs[..2]) + [bs[2]];
    } else {
      assert bs[..2] == bs;
    }
  }

  lemma {:induction false} SlicesAreAll<A>(schema: seq<FieldType>, n: nat, numRows: int, addrs: seq<A>,
                                           sizes: seq<int>, cs: seq<ArrayData<A>>)
    requires n == |cs| <= |schema| && |addrs| == |sizes|
    requires Start(schema, n) <= |addrs|
    requires forall i :: 0 <= i < n ==> OwnSlice(schema, i, numRows, addrs, sizes, cs[i])
    ensures forall i :: 0 <= i < n ==> Complete(schema[i], numRows, cs[i])
    ensures AllBuffers(cs) == Pairs(addrs, sizes, 0, Start(schema, n))
    decreases n
  {
    hide NonNull, HasSlice, Complete;
    if n > 0 {
      StartGrows(schema, n - 1, n);
      assert OwnSlice(schema, n - 1, numRows, addrs, sizes, cs[n - 1]);
      SlicesAreAll(schema, n - 1, numRows, addrs, sizes, cs[..n - 1]);
      SliceIsComplete(schema[n - 1], Start(schema, n - 1), numRows, addrs, sizes, cs[n - 1]);
      assert Pairs(addrs, sizes, 0, Start(schema, n)) ==
             Pairs(addrs, sizes, 0, Start(schema, n - 1)) + Pairs(addrs, sizes, Start(schema, n - 1), Start(schema, n));
      forall i | 0 <= i < n
        ensures Complete(schema[i], numRows, cs[i])
      {
        if i < n - 1 { assert cs[..n - 1][i] == cs[i]; }
      }
    }
  }

  /** make_record_batch_with_buf_addrs: it succeeds exactly when the arrays cover the total, and then
      every column has its own slice, whatever else the arrays hold. */
  method MakeRecordBatch<A>(schema: seq<FieldType>, numRows: int, addrs: seq<A>, sizes: seq<int>)
    returns (batch: Option<seq<ArrayData<A>>>)
    requires |addrs| == |sizes|
    ensures batch.Some? <==> Start(schema, |schema|) <= |addrs|
    ensures batch.Some? ==> |batch.value| == |schema|
    ensures batch.Some? ==> forall i :: 0 <= i < |schema| ==>
              OwnSlice(schema, i, numRows, addrs, sizes, batch.value[i])
    ensures batch.Some? ==> forall i :: 0 <= i < |schema| ==> Complete(schema[i], numRows, batch.value[i])
    ensures batch.Some? ==> AllBuffers(batch.value) == Pairs(addrs, sizes, 0, Start(schema, |schema|))
  {
    hide Complete, AllBuffers, Pairs;
    var columns: seq<ArrayData<A>> := [];
    var bufIdx, szIdx, i := 0, 0, 0;
    while i < |schema|
      invariant 0 <= i <= |schema| && |columns| == i
      invariant bufIdx == szIdx == Start(schema, i) <= |addrs|
      invariant forall j :: 0 <= j < i ==>
                  OwnSlice(schema, j, numRows, addrs, sizes, columns[j])
    {
      var field := schema[i];
      var buffers: seq<Buffer<A>> := [];
      StartGrows(schema, i + 1, |schema|);
      if bufIdx >= |addrs| { return None; }
      if !field.nullable {
        buffers := buffers + [Buffer(addrs[bufIdx], sizes[szIdx])];
        bufIdx, szIdx := bufIdx + 1, szIdx + 1;
      } else {
        buffers := buffers + [NullBuffer];
      }
      if bufIdx >= |addrs| { return None; }
      buffers := buffers + [Buffer(addrs[bufIdx], sizes[szIdx])];
      bufIdx, szIdx := bufIdx + 1, szIdx + 1;
      if field.variableWidth {
        if bufIdx >= |addrs| { return None; }
        buffers := buffers + [Buffer(addrs[bufIdx], sizes[szIdx])];
        bufIdx, szIdx := bufIdx + 1, szIdx + 1;
      }
      var column := ArrayData(field, numRows, buffers, if field.nullable then None else Some(0));
      assert OwnSlice(schema, i, numRows, addrs, sizes, column);
      columns := columns + [column];
      i := i + 1;
    }
    SlicesAreAll(schema, |schema|, numRows, addrs, sizes, columns);
    batch := Some(columns);
  }

  // ---------------------------------------------------------------- copying a batch out

  /** A column of the batch that is copied: the contents of its buffers. */
  datatype Contents = Contents(validity: Option<seq<byte>>, values: seq<byte>, offsets: Option<seq<byte>>)

  /** What happens to one buffer of Java. */
  datatype Write =
    | AllValid                 // memset with 0xFF
    | CopyInto(data: seq<byte>)
    | ResizeInto(data: seq<byte>)

  /** The copy ends well, or with the exit of the process, or with an access beyond the last buffer. */
  datatype Outcome = Copied | Stopped | OutOfBounds

  function ColumnWrites(c: Contents): seq<Write> {
    [if c.validity.Some? then CopyInto(c.validity.value) else AllValid, CopyInto(c.values)]
    + (if c.offsets.Some? then [ResizeInto(c.offsets.value)] else [])
  }

  /** One write for each buffer of Java, in the order of the cursor. */
  function Writes(cs: seq<Contents>): seq<Write> {
    if cs == [] then [] else Writes(cs[..|cs| - 1]) + ColumnWrites(cs[|cs| - 1])
  }

  /** The checks on sizes. A buffer that has to grow beyond its capacity needs Java to grant it. */
  predicate Fits(w: Write, size: int, granted: bool) {
    match w
    case AllValid => true
    case CopyInto(data) => |data| <= size
    case ResizeInto(data) => |data| < size || granted
  }

  /** The walk over the buffers, n of them: before the access to buffer k comes the guard k <= n. */
  function Walk(ws: seq<Write>, sizes: seq<int>, granted: seq<bool>, k: nat): Outcome
    requires k <= |ws| && |sizes| == |granted|
    decreases |ws| - k
  {
    if k == |ws| then Copied
    else if k > |sizes| then Stopped
    else if k == |sizes| then OutOfBounds
    else if !Fits(ws[k], sizes[k], granted[k]) then Stopped
    else Walk(ws, sizes, granted, k + 1)
  }

  /** The guards never stop an overrun: memory beyond the last buffer is accessed exactly when more
      buffers are needed than there are and those there are fit. The copy succeeds exactly when there
      are enough and all fit. */
  lemma {:induction false} WalkExact(ws: seq<Write>, sizes: seq<int>, granted: seq<bool>, k: nat)
    requires k <= |ws| && k <= |sizes| == |granted|
    ensures Walk(ws, sizes, granted, k) == OutOfBounds <==>
            |ws| > |sizes| && forall j :: k <= j < |sizes| ==> Fits(ws[j], sizes[j], granted[j])
    ensures Walk(ws, sizes, granted, k) == Copied <==>
            |ws| <= |sizes| && forall j :: k <= j < |ws| ==> Fits(ws[j], sizes[j], granted[j])
    decreases |ws| - k
  {
    if k < |ws| && k < |sizes| && Fits(ws[k], sizes[k], granted[k]) {
      WalkExact(ws, sizes, granted, k + 1);
    }
  }

  /** A batch of one fixed-width column and a single buffer pass every guard, and overrun it. */
  lemma OneBufferTooFew()
    ensures Walk(Writes([Contents(None, [], None)]), [0], [false], 0) == OutOfBounds
  {
    var one := [Contents(None, [], None)];
    assert one[..0] == [];
    assert Writes(one) == [AllValid, CopyInto([])];
    WalkExact(Writes(one), [0], [false], 0);
  }

  // ---------------------------------------------------------------- the memory of Java

  predicate Moves(w: Write, size: int) { w.ResizeInto? && |w.data| >= size }

  /** Where each write goes: to the buffer that was passed or, if it has to grow, to Java's answer. */
  function Targets(ws: seq<Write>, outs: seq<array<byte>>, sizes: seq<int>, grown: seq<array?<byte>>)
    : (ts: seq<array<byte>>)
    requires |outs| == |sizes| == |grown|
    ensures |ts| == |outs|
  {
    seq(|outs|, k requires 0 <= k < |outs| =>
          if k < |ws| && Moves(ws[k], sizes[k]) && grown[k] != null then grown[k] else outs[k])
  }

  function Granted(grown: seq<array?<byte>>): (r: seq<bool>)
    ensures |r| == |grown|
  {
    seq(|grown|, k requires 0 <= k < |grown| => grown[k] != null)
  }

  /** What the size of each buffer is once the copy is done. */
  function Capacities(ws: seq<Write>, sizes: seq<int>, ts: seq<array<byte>>): (r: seq<int>)
    requires |sizes| == |ts|
    ensures |r| == |sizes|
  {
    seq(|sizes|, k requires 0 <= k < |sizes| =>
          if k < |ws| && Moves(ws[k], sizes[k]) then ts[k].Length else sizes[k])
  }

  /** What callers and Java answer for: buffers have the space they claim, a grown buffer has the space
      that was asked for, and no two writes go to the same place. */
  ghost predicate Sound(ws: seq<Write>, outs: seq<array<byte>>, sizes: seq<int>, grown: seq<array?<byte>>) {
    && |outs| == |sizes| == |grown|
    && (forall k :: 0 <= k < |outs| ==> 0 <= sizes[k] <= outs[k].Length)
    && (forall k :: 0 <= k < |outs| && k < |ws| && Moves(ws[k], sizes[k]) && grown[k] != null ==>
          |ws[k].data| <= grown[k].Length)
    && var ts := Targets(ws, outs, sizes, grown);
       forall j, k :: 0 <= j < k < |ts| ==> ts[j] != ts[k]
  }

  function Written(w: Write, was: seq<byte>, size: nat): (s: seq<byte>)
    requires size <= |was| || !w.AllValid?
    requires w.AllValid? || |w.data| <= |was|
    ensures |s| == |was|
  {
    match w
    case AllValid => seq(size, _ => 255) + was[size..]
    case CopyInto(data) => data + was[|data|..]
    case ResizeInto(data) => data + was[|data|..]
  }

  method Memset(a: array<byte>, v: byte, n: nat)
    requires n <= a.Length
    modifies a
    ensures a[..] == seq(n, _ => v) + old(a[n..])
  {
    var i := 0;
    while i < n
      invariant 0 <= i <= n
      invariant forall j :: 0 <= j < i ==> a[j] == v
      invariant a[i..] == old(a[i..])
    {
      a[i] := v;
      i := i + 1;
    }
  }

  method Memcpy(a: array<byte>, data: seq<byte>)
    requires |data| <= a.Length
    modifies a
    ensures a[..] == data + old(a[|data|..])
  {
    var i := 0;
    while i < |data|
      invariant 0 <= i <= |data|
      invariant a[..i] == data[..i]
      invariant a[i..] == old(a[i..])
    {
      a[i] := data[i];
      i := i + 1;
    }
  }

  /** Targets below n have been written, the others not. */
  ghost predicate WrittenUpTo(ws: seq<Write>, ts: seq<array<byte>>, sizes: seq<int>, before: seq<seq<byte>>, n: nat)
    requires n <= |ws| && |ts| == |sizes| == |before|
    reads ts
  {
    && n <= |ts|
    && (forall k :: 0 <= k < n ==> IsWritten(ws[k], ts[k], sizes[k], before[k]))
    && (forall k :: n <= k < |ts| ==> ts[k][..] == before[k])
  }

  ghost predicate IsWritten(w: Write, a: array<byte>, size: int, was: seq<byte>)
    reads a
  {
    && 0 <= size && |was| == a.Length
    && (if w.AllValid? then size <= |was| else |w.data| <= |was|)
    && (w.CopyInto? ==> |w.data| <= size <= |was|)
    && a[..] == Written(w, was, size)
  }

  /** One access, with the guard before it. */
  method CopyBuffer(w: Write, k: nat, outs: seq<array<byte>>, sizes: seq<int>, grown: seq<array?<byte>>,
                    ghost ws: seq<Write>, ghost before: seq<seq<byte>>)
    returns (o: Outcome)
    requires Sound(ws, outs, sizes, grown) && |before| == |outs| && k < |ws| && ws[k] == w
    requires WrittenUpTo(ws, Targets(ws, outs, sizes, grown), sizes, before, k)
    modifies if k < |outs| then {Targets(ws, outs, sizes, grown)[k]} else {}
    ensures if o == Copied
            then && Walk(ws, sizes, Granted(grown), k) == Walk(ws, sizes, Granted(grown), k + 1)
                 && WrittenUpTo(ws, Targets(ws, outs, sizes, grown), sizes, before, k + 1)
            else Walk(ws, sizes, Granted(grown), k) == o
  {
    if k > |outs| { return Stopped; }
    if k == |outs| { return OutOfBounds; }
    ghost var ts := Targets(ws, outs, sizes, grown);
    match w
    case AllValid =>
      Memset(outs[k], 255, sizes[k]);
      assert IsWritten(w, ts[k], sizes[k], before[k]);
      o := Copied;
    case CopyInto(data) =>
      if |data| > sizes[k] { return Stopped; }
      Memcpy(outs[k], data);
      assert IsWritten(w, ts[k], sizes[k], before[k]);
      o := Copied;
    case ResizeInto(data) =>
      var target: array?<byte> := if |data| < sizes[k] then outs[k] else grown[k];
      if target == null { return Stopped; }
      Memcpy(target, data);
      assert IsWritten(w, ts[k], sizes[k], before[k]);
      o := Copied;
  }

  /** One turn of the loop: the cursor advances over every buffer of the column. */
  method CopyColumn(c: Contents, bufIdx: nat, outs: seq<array<byte>>, sizes: seq<int>, grown: seq<array?<byte>>,
                    ghost ws: seq<Write>, ghost before: seq<seq<byte>>)
    returns (o: Outcome, next: nat)
    requires Sound(ws, outs, sizes, grown) && |before| == |outs|
    requires ComesNext(c, ws, bufIdx)
    requires WrittenUpTo(ws, Targets(ws, outs, sizes, grown), sizes, before, bufIdx)
    modifies Targets(ws, outs, sizes, grown)
    ensures if o == Copied
            then && next == bufIdx + |ColumnWrites(c)|
                 && Walk(ws, sizes, Granted(grown), bufIdx) == Walk(ws, sizes, Granted(grown), next)
                 && WrittenUpTo(ws, Targets(ws, outs, sizes, grown), sizes, before, next)
            else Walk(ws, sizes, Granted(grown), bufIdx) == o
  {
    hide IsWritten, Written, WrittenUpTo, Walk, Targets, Granted, Sound;
    next := bufIdx;
    ghost var mine := ws[bufIdx..bufIdx + |ColumnWrites(c)|];
    assert ws[bufIdx] == mine[0] && ws[bufIdx + 1] == mine[1];
    var validity := if c.validity.Some? then CopyInto(c.validity.value) else AllValid;
    o := CopyBuffer(validity, next, outs, sizes, grown, ws, before);
    if o != Copied { return; }
    next := next + 1;
    o := CopyBuffer(CopyInto(c.values), next, outs, sizes, grown, ws, before);
    if o != Copied { return; }
    next := next + 1;
    if c.offsets.Some? {
      assert ws[bufIdx + 2] == mine[2];
      o := CopyBuffer(ResizeInto(c.offsets.value), next, outs, sizes, grown, ws, before);
      next := next + 1;
    }
  }

  lemma {:induction false} WritesOf(cs: seq<Contents>, i: nat)
    requires i < |cs|
    ensures Writes(cs[..i]) + ColumnWrites(cs[i]) == Writes(cs[..i + 1]) <= Writes(cs)
    decreases |cs| - i
  {
    assert cs[..i + 1][..i] == cs[..i];
    if i + 1 < |cs| {
      WritesOf(cs, i + 1);
    } else {
      assert cs[..i + 1] == cs;
    }
  }

  ghost function Snapshot(ts: seq<array<byte>>): (r: seq<seq<byte>>)
    reads ts
    ensures |r| == |ts| && forall k :: 0 <= k < |ts| ==> r[k] == ts[k][..]
  {
    seq(|ts|, k requires 0 <= k < |ts| reads ts => ts[k][..])
  }

  lemma NothingWritten(ws: seq<Write>, ts: seq<array<byte>>, sizes: seq<int>)
    requires |ts| == |sizes|
    ensures WrittenUpTo(ws, ts, sizes, Snapshot(ts), 0)
  {
  }

  lemma {:induction false} WalkEnd(ws: seq<Write>, sizes: seq<int>, granted: seq<bool>)
    requires |sizes| == |granted|
    ensures Walk(ws, sizes, granted, |ws|) == Copied
  {
  }

  /** The writes for this column come next. */
  ghost predicate ComesNext(c: Contents, ws: seq<Write>, at: nat) {
    at + |ColumnWrites(c)| <= |ws| && ws[at..at + |ColumnWrites(c)|] == ColumnWrites(c)
  }

  /** How many writes come before those of column i. */
  ghost function WritesBefore(cs: seq<Contents>, i: nat): nat
    requires i <= |cs|
  {
    |Writes(cs[..i])|
  }

  lemma {:induction false} WritesEnd(cs: seq<Contents>)
    ensures WritesBefore(cs, 0) == 0 && WritesBefore(cs, |cs|) == |Writes(cs)|
  {
    assert cs[..0] == [];
    hide Writes;
    assert cs[..|cs|] == cs;
  }

  lemma {:induction false} ColumnSlice(cs: seq<Contents>, i: nat)
    requires i < |cs|
    ensures WritesBefore(cs, i) + |ColumnWrites(cs[i])| == WritesBefore(cs, i + 1)
    ensures ComesNext(cs[i], Writes(cs), WritesBefore(cs, i))
  {
    hide Writes, ColumnWrites;
    WritesOf(cs, i);
    var at, n := |Writes(cs[..i])|, |ColumnWrites(cs[i])|;
    assert Writes(cs)[..at + n] == Writes(cs[..i + 1]);
    assert Writes(cs)[at..at + n] == Writes(cs)[..at + n][at..];
  }

  method CopyColumns(cs: seq<Contents>, outs: seq<array<byte>>, sizes: seq<int>, grown: seq<array?<byte>>,
                     ghost before: seq<seq<byte>>)
    returns (o: Outcome)
    requires Sound(Writes(cs), outs, sizes, grown) && |before| == |outs|
    requires WrittenUpTo(Writes(cs), Targets(Writes(cs), outs, sizes, grown), sizes, before, 0)
    modifies Targets(Writes(cs), outs, sizes, grown)
    ensures o == Walk(Writes(cs), sizes, Granted(grown), 0)
    ensures o == Copied ==>
              WrittenUpTo(Writes(cs), Targets(Writes(cs), outs, sizes, grown), sizes, before, |Writes(cs)|)
  {
    assert |outs| == |sizes| == |grown|;
    WritesEnd(cs);
    hide ColumnWrites, Walk, Targets, Granted, Sound, WrittenUpTo, Writes, ComesNext, WritesBefore;
    ghost var ws := Writes(cs);
    var bufIdx, i := 0, 0;
    while i < |cs|
      invariant 0 <= i <= |cs| && bufIdx == WritesBefore(cs, i) <= |ws|
      invariant Walk(ws, sizes, Granted(grown), 0) == Walk(ws, sizes, Granted(grown), bufIdx)
      invariant WrittenUpTo(ws, Targets(ws, outs, sizes, grown), sizes, before, bufIdx)
    {
      ColumnSlice(cs, i);
      var next: nat;
      o, next := CopyColumn(cs[i], bufIdx, outs, sizes, grown, ws, before);
      if o != Copied { return; }
      bufIdx, i := next, i + 1;
    }
    o := Copied;
    WalkEnd(ws, sizes, Granted(grown));
  }

  // ---------------------------------------------------------------- column by column

  /** Where the buffers of column i start: two for each column before it, and one for its offsets. */
  function BufferOf(cs: seq<Contents>, i: nat): nat
    requires i <= |cs|
  {
    if i == 0 then 0 else BufferOf(cs, i - 1) + (if cs[i - 1].offsets.Some? then 3 else 2)
  }

  lemma {:induction false} BufferOfExact(cs: seq<Contents>, i: nat)
    requires i <= |cs|
    ensures BufferOf(cs, i) == WritesBefore(cs, i)
  {
    if i == 0 {
      WritesEnd(cs);
    } else {
      BufferOfExact(cs, i - 1);
      hide WritesBefore;
      ColumnSlice(cs, i - 1);
    }
  }

  /** Those buffers of a column that Java passed have room: exactly enough is enough for the bitmap and
      the values; offsets need more than that, or a buffer that Java grants. */
  predicate Fit(cs: seq<Contents>, i: nat, sizes: seq<int>, grown: seq<array?<byte>>)
    requires i < |cs| && |sizes| == |grown|
  {
    var c, k := cs[i], BufferOf(cs, i);
    && (k < |sizes| && c.validity.Some? ==> |c.validity.value| <= sizes[k])
    && (k + 1 < |sizes| ==> |c.values| <= sizes[k + 1])
    && (k + 2 < |sizes| && c.offsets.Some? ==> |c.offsets.value| < sizes[k + 2] || grown[k + 2] != null)
  }

  predicate SlotFits(ws: seq<Write>, sizes: seq<int>, grown: seq<array?<byte>>, j: nat)
    requires |sizes| == |grown|
  {
    j < |ws| && j < |sizes| ==> Fits(ws[j], sizes[j], grown[j] != null)
  }

  predicate SlotsFit(ws: seq<Write>, sizes: seq<int>, grown: seq<array?<byte>>, from: nat, to: nat)
    requires |sizes| == |grown|
  {
    forall j :: from <= j < to ==> SlotFits(ws, sizes, grown, j)
  }

  lemma SlotsOfColumn(c: Contents, ws: seq<Write>, k: nat)
    requires ComesNext(c, ws, k)
    ensures k + 1 < |ws| && ws[k + 1] == CopyInto(c.values)
    ensures ws[k] == if c.validity.Some? then CopyInto(c.validity.value) else AllValid
    ensures c.offsets.Some? ==> k + 2 < |ws| && ws[k + 2] == ResizeInto(c.offsets.value)
  {
    var mine := ws[k..k + |ColumnWrites(c)|];
    assert ws[k] == mine[0] && ws[k + 1] == mine[1];
    if c.offsets.Some? {
      assert ws[k + 2] == mine[2];
    }
  }

  lemma ColumnSlots(cs: seq<Contents>, i: nat)
    requires i < |cs|
    ensures var c, k, ws := cs[i], BufferOf(cs, i), Writes(cs);
            && BufferOf(cs, i + 1) == k + (if c.offsets.Some? then 3 else 2)
            && k + 1 < |ws| && ws[k + 1] == CopyInto(c.values)
            && ws[k] == (if c.validity.Some? then CopyInto(c.validity.value) else AllValid)
            && (c.offsets.Some? ==> k + 2 < |ws| && ws[k + 2] == ResizeInto(c.offsets.value))
  {
    BufferOfExact(cs, i);
    hide Writes, WritesBefore, ComesNext;
    ColumnSlice(cs, i);
    SlotsOfColumn(cs[i], Writes(cs), BufferOf(cs, i));
  }

  lemma ColumnFits(cs: seq<Contents>, i: nat, sizes: seq<int>, grown: seq<array?<byte>>)
    requires i < |cs| && |sizes| == |grown|
    ensures SlotsFit(Writes(cs), sizes, grown, BufferOf(cs, i), BufferOf(cs, i + 1))
            <==> Fit(cs, i, sizes, grown)
  {
    hide Writes, BufferOf;
    ColumnSlots(cs, i);
    var k, n, ws := BufferOf(cs, i), if cs[i].offsets.Some? then 3 else 2, Writes(cs);
    assert SlotsFit(ws, sizes, grown, k, k + n) <==>
           SlotFits(ws, sizes, grown, k) && SlotFits(ws, sizes, grown, k + 1)
           && (n == 3 ==> SlotFits(ws, sizes, grown, k + 2));
  }

  lemma {:induction false} ColumnsFit(cs: seq<Contents>, n: nat, sizes: seq<int>, grown: seq<array?<byte>>)
    requires n <= |cs| && |sizes| == |grown|
    ensures SlotsFit(Writes(cs), sizes, grown, 0, BufferOf(cs, n))
            <==> forall i :: 0 <= i < n ==> Fit(cs, i, sizes, grown)
  {
    if n > 0 {
      assert BufferOf(cs, n - 1) <= BufferOf(cs, n);
      hide SlotFits, Fit, Writes, BufferOf;
      ColumnsFit(cs, n - 1, sizes, grown);
      ColumnFits(cs, n - 1, sizes, grown);
      SlotsJoin(Writes(cs), sizes, grown, BufferOf(cs, n - 1), BufferOf(cs, n));
    }
  }

  lemma SlotsJoin(ws: seq<Write>, sizes: seq<int>, grown: seq<array?<byte>>, mid: nat, to: nat)
    requires |sizes| == |grown| && mid <= to
    ensures SlotsFit(ws, sizes, grown, 0, to) <==>
            SlotsFit(ws, sizes, grown, 0, mid) && SlotsFit(ws, sizes, grown, mid, to)
  {
    hide SlotFits;
  }

  lemma {:induction false} WalkOutcome(ws: seq<Write>, sizes: seq<int>, grown: seq<array?<byte>>)
    requires |sizes| == |grown|
    ensures var o := Walk(ws, sizes, Granted(grown), 0);
            && (o == Copied <==> |ws| <= |sizes| && SlotsFit(ws, sizes, grown, 0, |ws|))
            && (o == OutOfBounds <==> |ws| > |sizes| && SlotsFit(ws, sizes, grown, 0, |ws|))
  {
    WalkExact(ws, sizes, Granted(grown), 0);
    hide Fits, Walk;
    forall j | 0 <= j < |ws| && j < |sizes|
      ensures SlotFits(ws, sizes, grown, j) <==> Fits(ws[j], sizes[j], Granted(grown)[j])
    {
    }
    if SlotsFit(ws, sizes, grown, 0, |ws|) {
      assert forall j :: 0 <= j < |ws| && j < |sizes| ==> SlotFits(ws, sizes, grown, j);
    }
  }

  /** How copying ends, from the sizes alone. */
  lemma {:induction false} OutcomeByColumn(cs: seq<Contents>, sizes: seq<int>, grown: seq<array?<byte>>)
    requires |sizes| == |grown|
    ensures var o, needed := Walk(Writes(cs), sizes, Granted(grown), 0), BufferOf(cs, |cs|);
            && (o == Copied <==>
                  needed <= |sizes| && forall i :: 0 <= i < |cs| ==> Fit(cs, i, sizes, grown))
            && (o == OutOfBounds <==>
                  needed > |sizes| && forall i :: 0 <= i < |cs| ==> Fit(cs, i, sizes, grown))
  {
    BufferOfExact(cs, |cs|);
    WritesEnd(cs);
    hide SlotsFit, Fit, Writes, Walk, WritesBefore, BufferOf;
    ColumnsFit(cs, |cs|, sizes, grown);
    WalkOutcome(Writes(cs), sizes, grown);
  }

  lemma SlotWritten(ws: seq<Write>, outs: seq<array<byte>>, sizes: seq<int>, grown: seq<array?<byte>>,
                    before: seq<seq<byte>>, k: nat)
    requires Sound(ws, outs, sizes, grown) && |before| == |outs| && k < |ws|
    requires WrittenUpTo(ws, Targets(ws, outs, sizes, grown), sizes, before, |ws|)
    ensures k < |outs|
    ensures var ts := Targets(ws, outs, sizes, grown);
            && IsWritten(ws[k], ts[k], sizes[k], before[k])
            && ts[k] == if Moves(ws[k], sizes[k]) && grown[k] != null then grown[k] else outs[k]
  {
    hide IsWritten, Moves;
  }

  /** What a write puts at the start of its buffer. */
  function DataOf(w: Write, size: nat): seq<byte> {
    if w.AllValid? then seq(size, _ => 255) else w.data
  }

  lemma WrittenBytes(w: Write, a: array<byte>, size: int, was: seq<byte>)
    requires IsWritten(w, a, size, was)
    ensures 0 <= size && |DataOf(w, size)| <= |was| == a.Length
    ensures a[..] == DataOf(w, size) + was[|DataOf(w, size)|..]
  {
  }

  /** The bitmap of a column, or ones all over. */
  function BitmapOf(c: Contents, size: nat): seq<byte> {
    if c.validity.Some? then c.validity.value else seq(size, _ => 255)
  }

  /** The data, and after it what was there. */
  ghost predicate Holding(a: array<byte>, data: seq<byte>, was: seq<byte>)
    reads a
  {
    |data| <= |was| == a.Length && a[..] == data + was[|data|..]
  }

  /** The column is in its buffers: a bitmap or ones, the values, and the offsets in the buffer that was
      passed if they leave room there, and otherwise in the one that was granted. */
  ghost predicate Arrived(c: Contents, k: nat, outs: seq<array<byte>>, sizes: seq<int>, grown: seq<array?<byte>>,
                          ts: seq<array<byte>>, was: seq<seq<byte>>)
    requires |outs| == |sizes| == |grown| == |ts| == |was|
    reads ts
  {
    && k + 1 < |outs| && 0 <= sizes[k] && ts[k] == outs[k] && ts[k + 1] == outs[k + 1]
    && Holding(ts[k], BitmapOf(c, sizes[k]), was[k])
    && Holding(ts[k + 1], c.values, was[k + 1])
    && (c.offsets.Some? ==>
          && k + 2 < |outs|
          && ts[k + 2] == (if |c.offsets.value| < sizes[k + 2] then outs[k + 2] else grown[k + 2])
          && Holding(ts[k + 2], c.offsets.value, was[k + 2]))
  }

  /** The buffers of a column, one after the other, in terms of what they held before. */
  lemma {:induction false} ColumnWritten(cs: seq<Contents>, i: nat, outs: seq<array<byte>>, sizes: seq<int>,
                                         grown: seq<array?<byte>>, before: seq<seq<byte>>)
    requires i < |cs| && Sound(Writes(cs), outs, sizes, grown) && |before| == |outs| && Fit(cs, i, sizes, grown)
    requires WrittenUpTo(Writes(cs), Targets(Writes(cs), outs, sizes, grown), sizes, before, |Writes(cs)|)
    ensures Arrived(cs[i], BufferOf(cs, i), outs, sizes, grown, Targets(Writes(cs), outs, sizes, grown), before)
  {
    var c, k, ws := cs[i], BufferOf(cs, i), Writes(cs);
    hide Writes, BufferOf, IsWritten, WrittenUpTo, Targets, Sound;
    var ts := Targets(ws, outs, sizes, grown);
    ColumnSlots(cs, i);
    SlotWritten(ws, outs, sizes, grown, before, k);
    WrittenBytes(ws[k], ts[k], sizes[k], before[k]);
    SlotWritten(ws, outs, sizes, grown, before, k + 1);
    WrittenBytes(ws[k + 1], ts[k + 1], sizes[k + 1], before[k + 1]);
    if c.offsets.Some? {
      SlotWritten(ws, outs, sizes, grown, before, k + 2);
      WrittenBytes(ws[k + 2], ts[k + 2], sizes[k + 2], before[k + 2]);
    }
  }

  /** copy_record_batch_ito_buffers: its outcome is that of the walk, for any number of buffers and any
      answer of Java; when it succeeds every buffer it reaches starts with its contents, or is all ones,
      and nothing else has changed. */
  method CopyRecordBatch(cs: seq<Contents>, outs: seq<array<byte>>, sizes: seq<int>, grown: seq<array?<byte>>)
    returns (o: Outcome)
    requires Sound(Writes(cs), outs, sizes, grown)
    modifies Targets(Writes(cs), outs, sizes, grown)
    ensures o == Walk(Writes(cs), sizes, Granted(grown), 0)
    ensures o == Copied ==>
              var ts := Targets(Writes(cs), outs, sizes, grown);
              WrittenUpTo(Writes(cs), ts, sizes, old(Snapshot(ts)), |Writes(cs)|)
    ensures o == Copied <==>
              BufferOf(cs, |cs|) <= |sizes| && forall i :: 0 <= i < |cs| ==> Fit(cs, i, sizes, grown)
    ensures o == OutOfBounds <==>
              BufferOf(cs, |cs|) > |sizes| && forall i :: 0 <= i < |cs| ==> Fit(cs, i, sizes, grown)
    ensures o == Copied ==>
              var ts := Targets(Writes(cs), outs, sizes, grown);
              forall i :: 0 <= i < |cs| ==>
                Arrived(cs[i], BufferOf(cs, i), outs, sizes, grown, ts, old(Snapshot(ts)))
  {
    assert |outs| == |sizes| == |grown|;
    OutcomeByColumn(cs, sizes, grown);
    hide Walk, Targets, Granted, Sound, WrittenUpTo, Writes, Snapshot, Fit, BufferOf, Arrived;
    ghost var ts := Targets(Writes(cs), outs, sizes, grown);
    ghost var before := Snapshot(ts);
    NothingWritten(Writes(cs), ts, sizes);
    o := CopyColumns(cs, outs, sizes, grown, before);
    if o == Copied {
      forall i | 0 <= i < |cs|
        ensures Arrived(cs[i], BufferOf(cs, i), outs, sizes, grown, ts, before)
      {
        ColumnWritten(cs, i, outs, sizes, grown, before);
      }
    }
  }

  // ---------------------------------------------------------------- copying out and building again

  ghost predicate Begins(b: Buffer<array<byte>>, data: seq<byte>)
    reads if b.Buffer? then {b.address} else {}
  {
    b.Buffer? && |data| <= b.size <= b.address.Length && b.address[..|data|] == data
  }

  ghost predicate AllOnes(b: Buffer<array<byte>>)
    reads if b.Buffer? then {b.address} else {}
  {
    b.Buffer? && 0 <= b.size <= b.address.Length && forall j :: 0 <= j < b.size ==> b.address[j] == 255
  }

  ghost predicate Holds(b: Buffer<array<byte>>, w: Write)
    reads if b.Buffer? then {b.address} else {}
  {
    match w
    case AllValid => AllOnes(b)
    case CopyInto(data) => Begins(b, data)
    case ResizeInto(data) => Begins(b, data)
  }

  /** A rebuilt column: bitmap, values and offsets in their places, each beginning with the original
      bytes; without an original bitmap, one that calls every row valid. */
  ghost predicate Rebuilt(c: Contents, d: ArrayData<array<byte>>)
    reads set b | b in d.buffers && b.Buffer? :: b.address
  {
    && |d.buffers| == (if c.offsets.Some? then 3 else 2)
    && (if c.validity.Some? then Begins(d.buffers[0], c.validity.value) else AllOnes(d.buffers[0]))
    && Begins(d.buffers[1], c.values)
    && (c.offsets.Some? ==> Begins(d.buffers[2], c.offsets.value))
  }

  function NullableCount(schema: seq<FieldType>, i: nat): nat
    requires i <= |schema|
  {
    if i == 0 then 0 else NullableCount(schema, i - 1) + (if schema[i - 1].nullable then 1 else 0)
  }

  predicate SameWidths(cs: seq<Contents>, schema: seq<FieldType>) {
    |schema| == |cs| && forall j :: 0 <= j < |cs| ==> schema[j].variableWidth == cs[j].offsets.Some?
  }

  /** The cursor of copying runs ahead of that of building by one slot for every nullable field. */
  lemma {:induction false} CursorGap(cs: seq<Contents>, schema: seq<FieldType>, i: nat)
    requires SameWidths(cs, schema) && i <= |cs|
    ensures Start(schema, i) + NullableCount(schema, i) == |Writes(cs[..i])|
  {
    if i > 0 {
      CursorGap(cs, schema, i - 1);
      WritesOf(cs, i - 1);
    } else {
      assert cs[..0] == [];
    }
  }

  lemma {:induction false} NullableCountZero(schema: seq<FieldType>, i: nat)
    requires i <= |schema|
    ensures NullableCount(schema, i) == 0 <==> forall j :: 0 <= j < i ==> !schema[j].nullable
  {
    if i > 0 { NullableCountZero(schema, i - 1); }
  }

  /** Both cursors are at the same slot after i fields exactly when none of those fields is nullable. */
  lemma {:induction false} CursorsAgree(cs: seq<Contents>, schema: seq<FieldType>, i: nat)
    requires SameWidths(cs, schema) && i <= |cs|
    ensures Start(schema, i) == |Writes(cs[..i])| <==> forall j :: 0 <= j < i ==> !schema[j].nullable
  {
    CursorGap(cs, schema, i);
    NullableCountZero(schema, i);
  }

  lemma WrittenHolds(w: Write, a: array<byte>, size: int, capacity: int, was: seq<byte>)
    requires IsWritten(w, a, size, was)
    requires capacity == if Moves(w, size) then a.Length else size
    requires size <= a.Length
    ensures Holds(Buffer(a, capacity), w)
  {
    match w
    case AllValid =>
      forall j | 0 <= j < size
        ensures a[j] == 255
      {
        assert a[j] == a[..][j];
      }
    case CopyInto(data) => assert a[..|data|] == a[..][..|data|];
    case ResizeInto(data) => assert a[..|data|] == a[..][..|data|];
  }

  predicate NoNulls(schema: seq<FieldType>) { forall j :: 0 <= j < |schema| ==> !schema[j].nullable }

  /** For a schema without nullable fields both cursors run alike, so that building a batch from the
      buffers a batch was copied to gives back every column: values and offsets begin with the original
      bytes, validity bitmaps too or, where there was none, are all ones. */
  method CopyAndRebuild(cs: seq<Contents>, schema: seq<FieldType>, numRows: int,
                        outs: seq<array<byte>>, sizes: seq<int>, grown: seq<array?<byte>>)
    returns (o: Outcome, batch: Option<seq<ArrayData<array<byte>>>>)
    requires Sound(Writes(cs), outs, sizes, grown) && SameWidths(cs, schema) && NoNulls(schema)
    modifies Targets(Writes(cs), outs, sizes, grown)
    ensures o == Walk(Writes(cs), sizes, Granted(grown), 0)
    ensures o == Copied ==>
              batch.Some? && |batch.value| == |cs| && forall i :: 0 <= i < |cs| ==> Rebuilt(cs[i], batch.value[i])
  {
    hide IsWritten, Written, ColumnWrites, Walk, Targets, Granted, Rebuilt, Capacities;
    hide Fit, BufferOf, Arrived, Complete, AllBuffers, Pairs;
    var ws := Writes(cs);
    var ts := Targets(ws, outs, sizes, grown);
    ghost var before := Snapshot(ts);
    o := CopyRecordBatch(cs, outs, sizes, grown);
    var capacities := Capacities(ws, sizes, ts);
    batch := MakeRecordBatch(schema, numRows, ts, capacities);
    if o == Copied {
      assert cs[..|cs|] == cs;
      CursorsAgree(cs, schema, |cs|);
      RoomForTargets(ws, outs, sizes, grown);
      forall i | 0 <= i < |cs|
        ensures Rebuilt(cs[i], batch.value[i])
      {
        ColumnRebuilt(cs, schema, i, numRows, ts, sizes, before, batch.value[i]);
      }
    }
  }

  lemma BufferRebuilt(ws: seq<Write>, ts: seq<array<byte>>, sizes: seq<int>, before: seq<seq<byte>>, k: nat)
    requires k < |ws| && |ts| == |sizes| == |before| && WrittenUpTo(ws, ts, sizes, before, |ws|)
    requires forall j :: 0 <= j < |ts| ==> sizes[j] <= ts[j].Length
    ensures k < |ts| && Holds(Buffer(ts[k], Capacities(ws, sizes, ts)[k]), ws[k])
  {
    hide IsWritten, Written, Holds;
    WrittenHolds(ws[k], ts[k], sizes[k], Capacities(ws, sizes, ts)[k], before[k]);
  }

  lemma SlotOfColumn(cs: seq<Contents>, schema: seq<FieldType>, i: nat, j: nat)
    requires SameWidths(cs, schema) && NoNulls(schema) && i < |cs| && j < |ColumnWrites(cs[i])|
    ensures Start(schema, i) + j < |Writes(cs)|
    ensures Writes(cs)[Start(schema, i) + j] == ColumnWrites(cs[i])[j]
  {
    hide Writes, ColumnWrites, Start;
    CursorsAgree(cs, schema, i);
    WritesOf(cs, i);
    var k := Start(schema, i) + j;
    assert Writes(cs)[k] == Writes(cs[..i + 1])[k] == ColumnWrites(cs[i])[j];
  }

  lemma {:induction false} SliceBuffer<A>(schema: seq<FieldType>, i: nat, j: nat, numRows: int,
                                          addrs: seq<A>, sizes: seq<int>, d: ArrayData<A>)
    requires i < |schema| && |addrs| == |sizes| && OwnSlice(schema, i, numRows, addrs, sizes, d)
    requires NoNulls(schema) && j < |d.buffers|
    ensures Start(schema, i) + j < |addrs|
    ensures d.buffers[j] == Buffer(addrs[Start(schema, i) + j], sizes[Start(schema, i) + j])
  {
    hide Start;
  }

  /** A buffer that has moved is larger than the one it replaces. */
  lemma RoomForTargets(ws: seq<Write>, outs: seq<array<byte>>, sizes: seq<int>, grown: seq<array?<byte>>)
    requires Sound(ws, outs, sizes, grown)
    ensures var ts := Targets(ws, outs, sizes, grown);
            forall k :: 0 <= k < |ts| ==> sizes[k] <= ts[k].Length
  {
  }

  lemma {:induction false} SlotRebuilt(cs: seq<Contents>, schema: seq<FieldType>, i: nat, j: nat, numRows: int,
                                       ts: seq<array<byte>>, sizes: seq<int>, before: seq<seq<byte>>,
                                       d: ArrayData<array<byte>>)
    requires SameWidths(cs, schema) && NoNulls(schema) && i < |cs| && |ts| == |sizes| == |before|
    requires WrittenUpTo(Writes(cs), ts, sizes, before, |Writes(cs)|)
    requires forall k :: 0 <= k < |ts| ==> sizes[k] <= ts[k].Length
    requires OwnSlice(schema, i, numRows, ts, Capacities(Writes(cs), sizes, ts), d)
    requires j < |d.buffers| == |ColumnWrites(cs[i])|
    ensures Holds(d.buffers[j], ColumnWrites(cs[i])[j])
  {
    assert i < |schema|;
    hide Writes, ColumnWrites, Start, WrittenUpTo, Holds, Capacities, OwnSlice, SameWidths, NoNulls;
    hide HasSlice, Moves, BufferCount;
    var ws, k := Writes(cs), Start(schema, i) + j;
    SlotOfColumn(cs, schema, i, j);
    assert ws[k] == ColumnWrites(cs[i])[j];
    BufferRebuilt(ws, ts, sizes, before, k);
    SliceBuffer(schema, i, j, numRows, ts, Capacities(ws, sizes, ts), d);
    assert d.buffers[j] == Buffer(ts[k], Capacities(ws, sizes, ts)[k]);
  }

  lemma {:induction false} ColumnRebuilt(cs: seq<Contents>, schema: seq<FieldType>, i: nat, numRows: int,
                                         ts: seq<array<byte>>, sizes: seq<int>, before: seq<seq<byte>>,
                                         d: ArrayData<array<byte>>)
    requires SameWidths(cs, schema) && NoNulls(schema) && i < |cs| && |ts| == |sizes| == |before|
    requires WrittenUpTo(Writes(cs), ts, sizes, before, |Writes(cs)|)
    requires forall k :: 0 <= k < |ts| ==> sizes[k] <= ts[k].Length
    requires OwnSlice(schema, i, numRows, ts, Capacities(Writes(cs), sizes, ts), d)
    ensures Rebuilt(cs[i], d)
  {
    hide Start, Writes, WrittenUpTo, Begins, AllOnes, Capacities;
    assert |d.buffers| == |ColumnWrites(cs[i])|;
    hide OwnSlice;
    SlotRebuilt(cs, schema, i, 0, numRows, ts, sizes, before, d);
    SlotRebuilt(cs, schema, i, 1, numRows, ts, sizes, before, d);
    if cs[i].offsets.Some? {
      SlotRebuilt(cs, schema, i, 2, numRows, ts, sizes, before, d);
    }
  }
}
