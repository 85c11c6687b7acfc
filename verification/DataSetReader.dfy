/** DataSetParquetReader::ReadNext: one iterator over scan tasks, and inside it one over the record
    batches of the current task. */
module DataSetReader {
  import opened Wire

  /** An Arrow iterator over what is left to deliver. Once at its end it stays there. */
  class Iterator<T> {
    var rest: seq<T>

    constructor (items: seq<T>)
      ensures rest == items
    {
      rest := items;
    }

    method Next() returns (r: Option<T>)
      modifies this
      ensures old(rest) == [] ==> r == None && rest == []
      ensures old(rest) != [] ==> r == Some(old(rest)[0]) && rest == old(rest)[1..]
    {
      if rest == [] { return None; }
      r, rest := Some(rest[0]), rest[1..];
    }
  }

  /** The batches of all tasks, task after task. */
  function Flatten<T>(tasks: seq<seq<T>>): seq<T> {
    if tasks == [] then [] else tasks[0] + Flatten(tasks[1..])
  }

  lemma {:induction false} FlattenAppend<T>(a: seq<seq<T>>, b: seq<seq<T>>)
    ensures Flatten(a + b) == Flatten(a) + Flatten(b)
  {
    if a == [] {
      assert a + b == b;
    } else {
      FlattenAppend(a[1..], b);
      assert (a + b)[1..] == a[1..] + b;
      assert a[0] + (Flatten(a[1..]) + Flatten(b)) == (a[0] + Flatten(a[1..])) + Flatten(b);
    }
  }

  /** How many batches the first i tasks have. */
  function Before<T>(tasks: seq<seq<T>>, i: nat): nat
    requires i <= |tasks|
  {
    if i == 0 then 0 else Before(tasks, i - 1) + |tasks[i - 1]|
  }

  lemma {:induction false} BeforeTail<T>(tasks: seq<seq<T>>, i: nat)
    requires 1 <= i <= |tasks|
    ensures Before(tasks, i) == |tasks[0]| + Before(tasks[1..], i - 1)
  {
    if i > 1 {
      BeforeTail(tasks, i - 1);
    }
  }

  lemma {:induction false} BeforeGrows<T>(tasks: seq<seq<T>>, i: nat, j: nat)
    requires i <= j <= |tasks|
    ensures Before(tasks, i) <= Before(tasks, j)
    decreases j
  {
    if i < j { BeforeGrows(tasks, i, j - 1); }
  }

  lemma {:induction false} FlattenLength<T>(tasks: seq<seq<T>>)
    ensures |Flatten(tasks)| == Before(tasks, |tasks|)
  {
    if tasks != [] {
      FlattenLength(tasks[1..]);
      BeforeTail(tasks, |tasks|);
    }
  }

  /** Every batch of every task has its place: those of the tasks before it come first. */
  lemma {:induction false} FlattenAt<T>(tasks: seq<seq<T>>, i: nat, j: nat)
    requires i < |tasks| && j < |tasks[i]|
    ensures Before(tasks, i) + j < |Flatten(tasks)| && Flatten(tasks)[Before(tasks, i) + j] == tasks[i][j]
  {
    if i > 0 {
      FlattenAt(tasks[1..], i - 1, j);
      BeforeTail(tasks, i);
    }
  }

  lemma {:induction false} FlattenPlaces<T>(tasks: seq<seq<T>>)
    ensures |Flatten(tasks)| == Before(tasks, |tasks|)
    ensures forall i, j :: 0 <= i < |tasks| && 0 <= j < |tasks[i]| ==> HasPlace(Flatten(tasks), tasks, i, j)
  {
    FlattenLength(tasks);
    forall i, j | 0 <= i < |tasks| && 0 <= j < |tasks[i]|
      ensures HasPlace(Flatten(tasks), tasks, i, j)
    {
      FlattenAt(tasks, i, j);
    }
  }

  /** Batch j of task i is where it belongs. */
  predicate HasPlace<T(==)>(all: seq<T>, tasks: seq<seq<T>>, i: nat, j: nat)
    requires i < |tasks| && j < |tasks[i]|
  {
    Before(tasks, i) + j < |all| && all[Before(tasks, i) + j] == tasks[i][j]
  }

  /** A task without batches makes no difference. */
  lemma {:induction false} EmptyTasksAreSkipped<T>(a: seq<seq<T>>, b: seq<seq<T>>)
    ensures Flatten(a + [[]] + b) == Flatten(a + b)
  {
    FlattenAppend(a + [[]], b);
    FlattenAppend(a, [[]]);
    FlattenAppend(a, b);
    var none: seq<T> := [];
    assert Flatten([none]) == none + Flatten([none][1..]);
  }

  class DataSetParquetReader<Batch> {
    var scanTaskIt: Iterator<seq<Batch>>
    var recordBatchIter: Iterator<Batch>
    var batch: Option<Batch>

    ghost predicate Valid()
      reads this
    {
      scanTaskIt as object != recordBatchIter as object
    }

    /** What has not been returned yet. */
    ghost function Pending(): seq<Batch>
      reads this, scanTaskIt, recordBatchIter
    {
      recordBatchIter.rest + Flatten(scanTaskIt.rest)
    }

    /** The first task is fetched unchecked, so there has to be one. */
    constructor (tasks: seq<seq<Batch>>)
      requires tasks != []
      ensures Valid() && fresh(scanTaskIt) && fresh(recordBatchIter)
      ensures Pending() == Flatten(tasks)
      ensures |Pending()| == Before(tasks, |tasks|)
      ensures forall i, j :: 0 <= i < |tasks| && 0 <= j < |tasks[i]| ==> HasPlace(Pending(), tasks, i, j)
    {
      FlattenPlaces(tasks);
      var it := new Iterator(tasks);
      var first := it.Next();
      scanTaskIt := it;
      recordBatchIter := new Iterator(first.value);
      batch := None;
    }

    /** Returns the next batch in order, or the end marker when there is none. */
    method ReadNext() returns (r: Option<Batch>)
      requires Valid()
      modifies this, scanTaskIt, recordBatchIter
      ensures Valid() && scanTaskIt == old(scanTaskIt)
      ensures recordBatchIter == old(recordBatchIter) || fresh(recordBatchIter)
      ensures old(Pending()) == [] ==> r == None && Pending() == []
      ensures old(Pending()) != [] ==> r == Some(old(Pending())[0]) && Pending() == old(Pending())[1..]
      ensures batch == r
      decreases |scanTaskIt.rest|
    {
      ghost var before := Pending();
      batch := recordBatchIter.Next();
      if batch.Some? {
        return batch;
      }
      var nextScanTask := scanTaskIt.Next();
      if nextScanTask.None? {
        return None;
      }
      recordBatchIter := new Iterator(nextScanTask.value);
      assert Pending() == before;
      r := ReadNext();
    }

    /** Any number of calls: first the batches of all tasks in order, then the end marker for ever. */
    method ReadMany(n: nat) returns (rs: seq<Option<Batch>>)
      requires Valid()
      modifies this, scanTaskIt, recordBatchIter
      ensures Valid() && |rs| == n
      ensures forall k :: 0 <= k < n ==>
                rs[k] == if k < |old(Pending())| then Some(old(Pending())[k]) else None
    {
      ghost var all := Pending();
      rs := [];
      while |rs| < n
        invariant Valid() && |rs| <= n
        invariant scanTaskIt == old(scanTaskIt)
        invariant recordBatchIter == old(recordBatchIter) || fresh(recordBatchIter)
        invariant Pending() == if |rs| <= |all| then all[|rs|..] else []
        invariant forall k :: 0 <= k < |rs| ==> rs[k] == if k < |all| then Some(all[k]) else None
      {
        var r := ReadNext();
        rs := rs + [r];
      }
    }
  }

  /** From a new reader, n calls deliver batch j of task i as number j after all batches of the tasks
      before i, for all of them that n reaches, and then the end marker. */
  method ReadTasks<Batch>(tasks: seq<seq<Batch>>, n: nat) returns (rs: seq<Option<Batch>>)
    requires tasks != []
    ensures |rs| == n
    ensures forall i, j :: 0 <= i < |tasks| && 0 <= j < |tasks[i]| && Before(tasks, i) + j < n ==>
              rs[Before(tasks, i) + j] == Some(tasks[i][j])
    ensures forall k :: Before(tasks, |tasks|) <= k < n ==> rs[k] == None
  {
    hide Before, Flatten;
    var reader := new DataSetParquetReader(tasks);
    ghost var all := reader.Pending();
    rs := reader.ReadMany(n);
    forall i, j | 0 <= i < |tasks| && 0 <= j < |tasks[i]| && Before(tasks, i) + j < n
      ensures rs[Before(tasks, i) + j] == Some(tasks[i][j])
    {
      assert HasPlace(all, tasks, i, j);
    }
  }
}
