/** Parsing and serialising message values, for every message type at once. */
module Codec {
  import opened Wire
  import opened Messages

  /** SetRecursionLimit in ParseProtobuf: how deep sub-messages may nest. */
  const RECURSION_LIMIT: nat := 1000

  /** `Stopped` is a successful return that left input unread: the loop ends at a tag that reads as
      zero. A sub-message must be `Done`; the outermost message need not be. */
  datatype Outcome =
    | Failed
    | Stopped(m: Message)
    | Done(m: Message)

  datatype SlotOutcome =
    | Refused
    | Diverted(r: Record)
    | Stored(s: Slot)

  // ---------------------------------------------------------------- parsing

  /** The parse loop: reads `s` to its end into `m`, with room for `depth` levels below. */
  function Parse(t: MessageType, s: seq<byte>, depth: nat, m: Message): Outcome
    decreases |s|, 0
  {
    if s == [] then Done(m)
    else
      var (tag, body) := ReadTag(s);
      if tag == 0 then Stopped(m)
      else
        match ReadPayload(tag, body)
        case None => Failed
        case Some((r, rest)) =>
          match AddRecord(t, m, r, depth)
          case None => Failed
          case Some(n) => Parse(t, rest, depth, n)
  }

  /** One case of the switch, or handle_unusual. */
  function AddRecord(t: MessageType, m: Message, r: Record, depth: nat): Option<Message>
    decreases PayloadSize(r), 2
  {
    match Lookup(t, TagOf(r))
    case None => Some(WithUnknown(m, r))
    case Some(i) =>
      if i >= |m.slots| then None
      else Update(m, i, StoreRecord(Fields(t)[i].kind, m.slots[i], r, depth))
  }

  function WithUnknown(m: Message, r: Record): Message { m.(unknown := m.unknown + [r]) }

  function WithSlot(m: Message, i: nat, s: Slot): Message
    requires i < |m.slots|
  {
    m.(slots := m.slots[i := s])
  }

  function Update(m: Message, i: nat, o: SlotOutcome): Option<Message>
    requires i < |m.slots|
  {
    match o
    case Refused => None
    case Diverted(u) => Some(WithUnknown(m, u))
    case Stored(s) => Some(WithSlot(m, i, s))
  }

  /** Scalars and strings replace, a sub-message is parsed into the one already there, a repeated
      field grows by one. An unknown enum value is diverted as the varint of its sign-extended int. */
  function StoreRecord(k: Kind, was: Slot, r: Record, depth: nat): SlotOutcome
    decreases PayloadSize(r), 1
  {
    match k
    case KString => if r.BytesRecord? then Stored(Blob(r.b)) else Refused
    case KMessage(t) =>
      if !r.BytesRecord? || depth == 0 then Refused
      else
        (match Parse(t, r.b, depth - 1, if was.One? then was.m else Empty(t))
         case Done(n) => Stored(One(n))
         case _ => Refused)
    case KRepeated(t) =>
      if !r.BytesRecord? || depth == 0 then Refused
      else
        (match Parse(t, r.b, depth - 1, Empty(t))
         case Done(n) => Stored(Many((if was.Many? then was.ms else []) + [n]))
         case _ => Refused)
    case _ =>
      if r.BytesRecord? then Refused
      else
        match FromWire(k, r.v)
        case Some(v) => Stored(Num(v))
        case None => Diverted(VarintRecord(r.num, Unsigned64(Signed32(r.v))))
  }

  /** ParseFromCodedStream with the recursion limit of ParseProtobuf: accepted unless it fails. */
  function ParseTop(t: MessageType, s: seq<byte>): Outcome {
    Parse(t, s, RECURSION_LIMIT, Empty(t))
  }

  predicate Accepted(o: Outcome) { !o.Failed? }

  // ---------------------------------------------------------------- serialising

  function ScalarRecord(row: FieldRow, v: int): Record {
    match row.kind
    case KFloat => Fixed32Record(row.num, v % TWO32)
    case KDouble => Fixed64Record(row.num, v % TWO64)
    case _ => VarintRecord(row.num, Unsigned64(v))
  }

  function SlotRecords(row: FieldRow, s: Slot): seq<Record>
    decreases s, 0
  {
    match s
    case Absent => []
    case Num(v) => [ScalarRecord(row, v)]
    case Blob(b) => [BytesRecord(row.num, b)]
    case One(m) => if row.kind.KMessage? then [BytesRecord(row.num, Serialize(row.kind.t, m))] else []
    case Many(ms) =>
      if row.kind.KRepeated? then
        seq(|ms|, i requires 0 <= i < |ms| => BytesRecord(row.num, Serialize(row.kind.t, ms[i])))
      else []
  }

  /** The records of the first n fields, in the order of their numbers. */
  function FieldRecords(t: MessageType, m: Message, n: nat): seq<Record>
    requires n <= |Fields(t)|
    decreases m, n
  {
    if n == 0 then []
    else FieldRecords(t, m, n - 1) + (if n <= |m.slots| then SlotRecords(Fields(t)[n - 1], m.slots[n - 1]) else [])
  }

  /** Known fields first, unknown fields after them. */
  function Records(t: MessageType, m: Message): seq<Record>
    decreases m, |Fields(t)| + 1
  {
    FieldRecords(t, m, |Fields(t)|) + m.unknown
  }

  function Serialize(t: MessageType, m: Message): seq<byte>
    decreases m, |Fields(t)| + 2
  {
    Bytes(Records(t, m))
  }

  // ---------------------------------------------------------------- well-formed messages

  /** A record that a parser of type t keeps among the unknown fields, as it is. */
  predicate UnknownFor(t: MessageType, r: Record) {
    && ValidRecord(r)
    && match Lookup(t, TagOf(r))
       case None => true
       case Some(i) =>
         Fields(t)[i].kind.KEnum? && r.VarintRecord?
         && FromWire(Fields(t)[i].kind, r.v).None? && r.v == Unsigned64(Signed32(r.v))
  }

  predicate GoodSlot(k: Kind, s: Slot, depth: nat)
    decreases s
  {
    match s
    case Absent => !k.KRepeated?
    case Num(v) => IsScalar(k) && InRange(k, v)
    case Blob(b) => k.KString? && |b| <= INT_MAX
    case One(m) => k.KMessage? && depth > 0 && Good(k.t, m, depth - 1)
    case Many(ms) =>
      && k.KRepeated?
      && (ms == [] || depth > 0)
      && forall i :: 0 <= i < |ms| ==> Good(k.t, ms[i], depth - 1)
  }

  /** Values in range, only genuinely unknown fields among the unknown, nested at most `depth` deep. */
  predicate Good(t: MessageType, m: Message, depth: nat)
    decreases m
  {
    && |m.slots| == |Fields(t)|
    && (forall i :: 0 <= i < |m.slots| ==> GoodSlot(Fields(t)[i].kind, m.slots[i], depth))
    && forall j :: 0 <= j < |m.unknown| ==> UnknownFor(t, m.unknown[j])
  }

  lemma {:induction false} GoodSlotShape(k: Kind, s: Slot, depth: nat)
    requires GoodSlot(k, s, depth)
    ensures SlotShape(k, s)
    decreases s
  {
    match s
    case One(m) => GoodShape(k.t, m, depth - 1);
    case Many(ms) =>
      forall i | 0 <= i < |ms|
        ensures Shape(k.t, ms[i])
      {
        GoodShape(k.t, ms[i], depth - 1);
      }
    case _ =>
  }

  lemma {:induction false} GoodShape(t: MessageType, m: Message, depth: nat)
    requires Good(t, m, depth)
    ensures Shape(t, m)
    decreases m
  {
    forall i | 0 <= i < |m.slots|
      ensures SlotShape(Fields(t)[i].kind, m.slots[i])
    {
      GoodSlotShape(Fields(t)[i].kind, m.slots[i], depth);
    }
  }

  lemma {:induction false} EmptyGood(t: MessageType, depth: nat)
    ensures Good(t, Empty(t), depth)
  {
  }

  // ---------------------------------------------------------------- rows of records

  /** Adds records one after the other. */
  function Run(t: MessageType, rs: seq<Record>, depth: nat, m: Message): Option<Message>
    decreases |rs|
  {
    if rs == [] then Some(m)
    else
      match AddRecord(t, m, rs[0], depth)
      case None => None
      case Some(n) => Run(t, rs[1..], depth, n)
  }

  lemma {:induction false} RunAppend(t: MessageType, a: seq<Record>, b: seq<Record>, depth: nat, m: Message)
    ensures Run(t, a + b, depth, m) ==
            match Run(t, a, depth, m) case None => None case Some(n) => Run(t, b, depth, n)
    decreases |a|
  {
    if a == [] {
      assert a + b == b;
    } else {
      assert (a + b)[1..] == a[1..] + b;
      match AddRecord(t, m, a[0], depth)
      case None =>
      case Some(n) => RunAppend(t, a[1..], b, depth, n);
    }
  }

  lemma {:induction false} RunOne(t: MessageType, r: Record, depth: nat, m: Message)
    ensures Run(t, [r], depth, m) == AddRecord(t, m, r, depth)
  {
    assert [r][1..] == [];
  }

  /** Parsing a written record adds it. */
  lemma {:induction false} ParseRecord(t: MessageType, r: Record, rest: seq<byte>, depth: nat, m: Message)
    requires ValidRecord(r)
    ensures Parse(t, RecordBytes(r) + rest, depth, m) ==
            match AddRecord(t, m, r, depth) case None => Failed case Some(n) => Parse(t, rest, depth, n)
  {
    RecordRoundTrip(r, rest);
    assert RecordBytes(r) + rest != [];
  }

  lemma {:induction false} ParseRecords(t: MessageType, rs: seq<Record>, rest: seq<byte>, depth: nat, m: Message)
    requires forall i :: 0 <= i < |rs| ==> ValidRecord(rs[i])
    ensures Parse(t, Bytes(rs) + rest, depth, m) ==
            match Run(t, rs, depth, m) case None => Failed case Some(n) => Parse(t, rest, depth, n)
    decreases |rs|
  {
    if rs == [] {
      assert Bytes(rs) + rest == rest;
    } else {
      assert rs == [rs[0]] + rs[1..];
      BytesCons(rs[0], rs[1..]);
      assert Bytes(rs) + rest == RecordBytes(rs[0]) + (Bytes(rs[1..]) + rest);
      ParseRecord(t, rs[0], Bytes(rs[1..]) + rest, depth, m);
      match AddRecord(t, m, rs[0], depth)
      case None =>
      case Some(n) => ParseRecords(t, rs[1..], rest, depth, n);
    }
  }

  // ---------------------------------------------------------------- parse undoes print

  lemma {:induction false} ScalarRecordStores(row: FieldRow, v: int, was: Slot, depth: nat)
    requires 1 <= row.num <= MAX_FIELD && IsScalar(row.kind) && InRange(row.kind, v) && SmallEnum(row.kind)
    ensures ValidRecord(ScalarRecord(row, v)) && TagOf(ScalarRecord(row, v)) == RowTag(row)
    ensures StoreRecord(row.kind, was, ScalarRecord(row, v), depth) == Stored(Num(v))
  {
    ScalarRoundTrip(row.kind, v);
  }

  lemma TableEnums(t: MessageType)
    ensures forall i :: 0 <= i < |Fields(t)| ==> SmallEnum(Fields(t)[i].kind)
  {
    match t
    case ExtGandivaType => case Field => case FieldNode => case FunctionNode => case IfNode =>
    case AndNode => case OrNode => case NullNode => case IntNode => case FloatNode => case DoubleNode =>
    case BooleanNode => case LongNode => case StringNode => case BinaryNode => case DecimalNode =>
    case TreeNode => case ExpressionRoot => case ExpressionList => case Condition => case Schema =>
    case GandivaDataTypes => case GandivaFunctions => case FunctionSignature => case InNode =>
    case IntConstants => case LongConstants => case StringConstants => case BinaryConstants =>
  }

  lemma {:induction false} AddStored(t: MessageType, m: Message, i: nat, r: Record, depth: nat, s: Slot)
    requires |m.slots| == |Fields(t)| && i < |m.slots| && TagOf(r) == RowTag(Fields(t)[i])
    requires StoreRecord(Fields(t)[i].kind, m.slots[i], r, depth) == Stored(s)
    ensures AddRecord(t, m, r, depth) == Some(WithSlot(m, i, s))
  {
    LookupExact(t, TagOf(r), i);
  }

  ghost predicate MergesSlot(t: MessageType, i: nat, s: Slot, depth: nat, acc: Message)
    requires |acc.slots| == |Fields(t)| && i < |Fields(t)|
  {
    var rs := SlotRecords(Fields(t)[i], s);
    && (forall j :: 0 <= j < |rs| ==> ValidRecord(rs[j]))
    && Run(t, rs, depth, acc) == Some(WithSlot(acc, i, MergeSlot(acc.slots[i], s)))
  }

  lemma {:induction false} StoredMergesSlot(t: MessageType, i: nat, s: Slot, depth: nat, acc: Message, r: Record)
    requires |acc.slots| == |Fields(t)| && i < |Fields(t)|
    requires SlotRecords(Fields(t)[i], s) == [r] && ValidRecord(r) && TagOf(r) == RowTag(Fields(t)[i])
    requires StoreRecord(Fields(t)[i].kind, acc.slots[i], r, depth) == Stored(MergeSlot(acc.slots[i], s))
    ensures MergesSlot(t, i, s, depth, acc)
  {
    AddStored(t, acc, i, r, depth, MergeSlot(acc.slots[i], s));
    RunOne(t, r, depth, acc);
  }

  lemma {:induction false} ScalarMergesSlot(t: MessageType, i: nat, s: Slot, depth: nat, acc: Message)
    requires |acc.slots| == |Fields(t)| && i < |Fields(t)| && (s.Num? || s.Blob?)
    requires GoodSlot(Fields(t)[i].kind, s, depth)
    ensures MergesSlot(t, i, s, depth, acc)
  {
    var row := Fields(t)[i];
    TableOk(t);
    if s.Num? {
      TableEnums(t);
      ScalarRecordStores(row, s.v, acc.slots[i], depth);
      StoredMergesSlot(t, i, s, depth, acc, ScalarRecord(row, s.v));
    } else {
      StoredMergesSlot(t, i, s, depth, acc, BytesRecord(row.num, s.b));
    }
  }

  lemma {:induction false} MessageMergesSlot(t: MessageType, i: nat, m: Message, depth: nat, acc: Message)
    requires |acc.slots| == |Fields(t)| && i < |Fields(t)|
    requires SlotShape(Fields(t)[i].kind, acc.slots[i]) && GoodSlot(Fields(t)[i].kind, One(m), depth)
    requires |Bytes(SlotRecords(Fields(t)[i], One(m)))| <= INT_MAX
    ensures MergesSlot(t, i, One(m), depth, acc)
    decreases m, |Fields(Fields(t)[i].kind.t)| + 2
  {
    hide Fields, Parse, AddRecord, Run, Good, Shape, Serialize, Bytes, RecordBytes;
    var row := Fields(t)[i];
    var sub := row.kind.t;
    var r := BytesRecord(row.num, Serialize(sub, m));
    TableOk(t);
    RecordWithinBytes([r], 0);
    GoodShape(sub, m, depth - 1);
    EmptyShape(sub);
    SerializedMerges(sub, m, depth - 1, if acc.slots[i].One? then acc.slots[i].m else Empty(sub));
    MergeEmptyLeft(sub, m);
    StoredMergesSlot(t, i, One(m), depth, acc, r);
  }

  /** The records of one slot, added to any message, merge that slot into it. */
  lemma {:induction false} SlotMerges(t: MessageType, i: nat, s: Slot, depth: nat, acc: Message)
    requires |acc.slots| == |Fields(t)| && i < |Fields(t)|
    requires SlotShape(Fields(t)[i].kind, acc.slots[i]) && GoodSlot(Fields(t)[i].kind, s, depth)
    requires |Bytes(SlotRecords(Fields(t)[i], s))| <= INT_MAX
    ensures MergesSlot(t, i, s, depth, acc)
    decreases s, 0
  {
    match s
    case Absent =>
      assert acc.slots[i := acc.slots[i]] == acc.slots;
    case Num(_) => ScalarMergesSlot(t, i, s, depth, acc);
    case Blob(_) => ScalarMergesSlot(t, i, s, depth, acc);
    case One(m) => MessageMergesSlot(t, i, m, depth, acc);
    case Many(ms) =>
      var rs := SlotRecords(Fields(t)[i], s);
      forall j | 0 <= j < |ms|
        ensures |Serialize(Fields(t)[i].kind.t, ms[j])| <= INT_MAX
      {
        RecordWithinBytes(rs, j);
      }
      ManyMerges(t, i, ms, depth, acc);
  }

  lemma {:induction false} ElementAppends(t: MessageType, i: nat, m: Message, depth: nat, acc: Message)
    requires |acc.slots| == |Fields(t)| && i < |Fields(t)| && acc.slots[i].Many?
    requires Fields(t)[i].kind.KRepeated? && depth > 0 && Good(Fields(t)[i].kind.t, m, depth - 1)
    requires |Serialize(Fields(t)[i].kind.t, m)| <= INT_MAX
    ensures var r := BytesRecord(Fields(t)[i].num, Serialize(Fields(t)[i].kind.t, m));
            && ValidRecord(r)
            && AddRecord(t, acc, r, depth) == Some(WithSlot(acc, i, Many(acc.slots[i].ms + [m])))
    decreases m, |Fields(Fields(t)[i].kind.t)| + 2
  {
    hide Fields, Parse, AddRecord, Good, Shape, Serialize;
    var row := Fields(t)[i];
    var r := BytesRecord(row.num, Serialize(row.kind.t, m));
    TableOk(t);
    GoodShape(row.kind.t, m, depth - 1);
    EmptyShape(row.kind.t);
    SerializedMerges(row.kind.t, m, depth - 1, Empty(row.kind.t));
    MergeEmptyLeft(row.kind.t, m);
    AddStored(t, acc, i, r, depth, Many(acc.slots[i].ms + [m]));
  }

  lemma {:induction false} ManyMerges(t: MessageType, i: nat, ms: seq<Message>, depth: nat, acc: Message)
    requires |acc.slots| == |Fields(t)| && i < |Fields(t)| && acc.slots[i].Many?
    requires Fields(t)[i].kind.KRepeated?
    requires ms == [] || depth > 0
    requires forall j :: 0 <= j < |ms| ==> Good(Fields(t)[i].kind.t, ms[j], depth - 1)
    requires forall j :: 0 <= j < |ms| ==> |Serialize(Fields(t)[i].kind.t, ms[j])| <= INT_MAX
    ensures forall j :: 0 <= j < |ms| ==> ValidRecord(SlotRecords(Fields(t)[i], Many(ms))[j])
    ensures Run(t, SlotRecords(Fields(t)[i], Many(ms)), depth, acc)
         == Some(WithSlot(acc, i, Many(acc.slots[i].ms + ms)))
    decreases ms
  {
    hide Fields, AddRecord, Serialize, Good;
    var rs := SlotRecords(Fields(t)[i], Many(ms));
    if ms == [] {
      assert acc.slots[i].ms + ms == acc.slots[i].ms;
      assert acc.slots[i := acc.slots[i]] == acc.slots;
    } else {
      var next := WithSlot(acc, i, Many(acc.slots[i].ms + [ms[0]]));
      ElementAppends(t, i, ms[0], depth, acc);
      ManyMerges(t, i, ms[1..], depth, next);
      assert (acc.slots[i].ms + [ms[0]]) + ms[1..] == acc.slots[i].ms + ms;
      SlotRecordsTail(Fields(t)[i], ms);
      assert WithSlot(next, i, Many(acc.slots[i].ms + ms)) == WithSlot(acc, i, Many(acc.slots[i].ms + ms));
      assert forall j :: 1 <= j < |ms| ==> rs[j] == rs[1..][j - 1];
    }
  }

  lemma {:induction false} SlotRecordsTail(row: FieldRow, ms: seq<Message>)
    requires ms != [] && row.kind.KRepeated?
    ensures SlotRecords(row, Many(ms))[1..] == SlotRecords(row, Many(ms[1..]))
    ensures SlotRecords(row, Many(ms))[0] == BytesRecord(row.num, Serialize(row.kind.t, ms[0]))
  {
    hide Serialize, Fields;
    var all, rest := SlotRecords(row, Many(ms)), SlotRecords(row, Many(ms[1..]));
    assert |all| == |ms| && |rest| == |ms| - 1;
    assert forall j :: 0 <= j < |rest| ==> all[1..][j] == rest[j];
  }

  /** `acc` with the first n slots of m merged in. */
  function MergeFirst(acc: Message, m: Message, n: nat): (r: Message)
    requires |acc.slots| == |m.slots| && n <= |m.slots|
    ensures |r.slots| == |m.slots|
  {
    acc.(slots := seq(|m.slots|, i requires 0 <= i < |m.slots| =>
                        if i < n then MergeSlot(acc.slots[i], m.slots[i]) else acc.slots[i]))
  }

  lemma MergeFirstNext(acc: Message, m: Message, i: nat)
    requires |acc.slots| == |m.slots| && i < |m.slots|
    ensures MergeFirst(acc, m, i).slots[i] == acc.slots[i]
    ensures WithSlot(MergeFirst(acc, m, i), i, MergeSlot(acc.slots[i], m.slots[i])) == MergeFirst(acc, m, i + 1)
  {
  }

  lemma {:induction false} FieldsMerge(t: MessageType, m: Message, depth: nat, acc: Message, n: nat)
    requires Good(t, m, depth) && Shape(t, acc) && n <= |Fields(t)|
    requires |Bytes(FieldRecords(t, m, n))| <= INT_MAX
    ensures forall j :: 0 <= j < |FieldRecords(t, m, n)| ==> ValidRecord(FieldRecords(t, m, n)[j])
    ensures Run(t, FieldRecords(t, m, n), depth, acc) == Some(MergeFirst(acc, m, n))
    decreases m, n
  {
    if n == 0 {
      assert MergeFirst(acc, m, 0).slots == acc.slots;
    } else {
      var i := n - 1;
      var head, tail := FieldRecords(t, m, i), SlotRecords(Fields(t)[i], m.slots[i]);
      assert FieldRecords(t, m, n) == head + tail;
      BytesAppend(head, tail);
      FieldsMerge(t, m, depth, acc, i);
      MergeFirstNext(acc, m, i);
      SlotMerges(t, i, m.slots[i], depth, MergeFirst(acc, m, i));
      RunAppend(t, head, tail, depth, acc);
    }
  }

  lemma {:induction false} UnknownIsAdded(t: MessageType, r: Record, depth: nat, acc: Message)
    requires |acc.slots| == |Fields(t)| && UnknownFor(t, r)
    ensures AddRecord(t, acc, r, depth) == Some(WithUnknown(acc, r))
  {
    hide Fields;
  }

  lemma {:induction false} UnknownAppends(t: MessageType, us: seq<Record>, depth: nat, acc: Message)
    requires |acc.slots| == |Fields(t)| && forall j :: 0 <= j < |us| ==> UnknownFor(t, us[j])
    ensures Run(t, us, depth, acc) == Some(acc.(unknown := acc.unknown + us))
    decreases |us|
  {
    hide Fields, UnknownFor, AddRecord;
    if us == [] {
      assert acc.unknown + us == acc.unknown;
    } else {
      var next := acc.(unknown := acc.unknown + [us[0]]);
      UnknownIsAdded(t, us[0], depth, acc);
      UnknownAppends(t, us[1..], depth, next);
      assert (acc.unknown + [us[0]]) + us[1..] == acc.unknown + us;
    }
  }

  /** Reading the bytes of a message into any other message merges the one into the other. */
  lemma {:induction false} SerializedMerges(t: MessageType, m: Message, depth: nat, acc: Message)
    requires Good(t, m, depth) && Shape(t, acc) && |Serialize(t, m)| <= INT_MAX
    ensures Parse(t, Serialize(t, m), depth, acc) == Done(Merge(acc, m))
    decreases m, |Fields(t)| + 1
  {
    var known := FieldRecords(t, m, |Fields(t)|);
    BytesAppend(known, m.unknown);
    FieldsMerge(t, m, depth, acc, |Fields(t)|);
    var mid := MergeFirst(acc, m, |Fields(t)|);
    UnknownAppends(t, m.unknown, depth, mid);
    RunAppend(t, known, m.unknown, depth, acc);
    assert Merge(acc, m).slots == mid.slots;
    assert Serialize(t, m) + [] == Serialize(t, m);
    ParseRecords(t, Records(t, m), [], depth, acc);
  }

  /** Parse undoes print: every well-formed message within the recursion limit whose size fits an int
      comes back from its own bytes, and no byte is left over. */
  lemma {:induction false} ParseUndoesSerialize(t: MessageType, m: Message)
    requires Good(t, m, RECURSION_LIMIT) && |Serialize(t, m)| <= INT_MAX
    ensures ParseTop(t, Serialize(t, m)) == Done(m)
  {
    EmptyShape(t);
    SerializedMerges(t, m, RECURSION_LIMIT, Empty(t));
    GoodShape(t, m, RECURSION_LIMIT);
    MergeEmptyLeft(t, m);
  }
}
