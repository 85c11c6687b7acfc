/** How much longer a message can get by being parsed and printed: at most twice. So a bound on the
    input alone makes normalisation safe. */
module Growth {
  import opened Wire
  import opened Messages
  import opened Codec
  import opened CodecLaws
  import opened Sizes

  // ---------------------------------------------------------------- varints

  lemma {:induction false} VarintSizeMonotone(a: nat, b: nat)
    requires a <= b
    ensures 1 <= VarintSize(a) <= VarintSize(b)
  {
    if a >= 128 {
      VarintSizeMonotone(a / 128, b / 128);
    } else if b >= 128 {
      VarintSizeMonotone(0, b / 128);
    }
  }

  lemma {:induction false} VarintSizeTimes(m: nat)
    requires m >= 1
    ensures VarintSize(128 * m) == 1 + VarintSize(m)
  {
  }

  lemma VarintSizeSum(x: nat, y: nat)
    ensures VarintSize(x + y) <= VarintSize(x) + VarintSize(y)
  {
    hide VarintSize;
    var m := if x >= y then x else y;
    VarintSizeMonotone(0, x);
    VarintSizeMonotone(0, y);
    if m == 0 {
      VarintSizeMonotone(0, 0);
    } else {
      VarintSizeMonotone(x + y, 128 * m);
      VarintSizeTimes(m);
    }
  }

  /** What is read took at least as many bytes as its shortest form. */
  lemma {:induction false} GroupsAreShortest(s: seq<byte>, limit: nat)
    requires ReadGroups(s, limit).Some?
    ensures VarintSize(ReadGroups(s, limit).value.0) <= |s| - |ReadGroups(s, limit).value.1|
  {
    if s[0] >= 128 {
      GroupsAreShortest(s[1..], limit - 1);
    }
  }

  lemma {:induction false} VarintIsShortest(s: seq<byte>, v: nat)
    requires ReadVarint(s).Some? && v <= ReadVarint(s).value.0
    ensures VarintSize(v) <= |s| - |ReadVarint(s).value.1|
  {
    hide VarintSize, ReadGroups;
    GroupsAreShortest(s, MAX_VARINT_BYTES);
    VarintSizeMonotone(v, ReadGroups(s, MAX_VARINT_BYTES).value.0);
  }

  lemma TagIsShortest(s: seq<byte>)
    requires ReadTag(s).0 != 0
    ensures VarintSize(ReadTag(s).0) <= |s| - |ReadTag(s).1|
  {
    hide VarintSize, ReadVarint;
    VarintIsShortest(s, ReadTag(s).0);
  }

  lemma PayloadIsShortest(tag: nat, s: seq<byte>)
    requires 0 < tag < TWO32 && ReadPayload(tag, s).Some?
    ensures |Payload(ReadPayload(tag, s).value.0)| <= |s| - |ReadPayload(tag, s).value.1|
  {
    hide Varint, VarintSize, ReadVarint, LittleEndian, FromLittleEndian;
    var r := ReadPayload(tag, s).value.0;
    if tag % 8 == 0 {
      VarintIsShortest(s, r.v);
      VarintSizeExact(r.v);
    } else if tag % 8 == 2 {
      VarintIsShortest(s, |r.b|);
      VarintSizeExact(|r.b|);
    }
  }

  lemma RecordIsShortest(s: seq<byte>)
    requires ReadTag(s).0 != 0 && ReadPayload(ReadTag(s).0, ReadTag(s).1).Some?
    ensures var (r, rest) := ReadPayload(ReadTag(s).0, ReadTag(s).1).value;
            |RecordBytes(r)| <= |s| - |rest|
  {
    hide Varint, VarintSize, ReadVarint, ReadTag, ReadPayload, Payload;
    TagIsShortest(s);
    PayloadIsShortest(ReadTag(s).0, ReadTag(s).1);
    VarintSizeExact(ReadTag(s).0);
  }

  // ---------------------------------------------------------------- lengths of messages

  function SlotLength(row: FieldRow, s: Slot): nat { |Bytes(SlotRecords(row, s))| }

  function Length(t: MessageType, m: Message): nat { |Serialize(t, m)| }

  lemma {:induction false} FieldsLengthOfUpdate(t: MessageType, m: Message, i: nat, s: Slot, n: nat)
    requires |m.slots| == |Fields(t)| && i < |m.slots| && n <= |Fields(t)|
    ensures |Bytes(FieldRecords(t, WithSlot(m, i, s), n))| ==
            |Bytes(FieldRecords(t, m, n))|
            + if i < n then SlotLength(Fields(t)[i], s) - SlotLength(Fields(t)[i], m.slots[i]) else 0
  {
    hide Fields, SlotRecords, Bytes;
    if n > 0 {
      FieldsLengthOfUpdate(t, m, i, s, n - 1);
      BytesAppend(FieldRecords(t, m, n - 1), SlotRecords(Fields(t)[n - 1], m.slots[n - 1]));
      BytesAppend(FieldRecords(t, WithSlot(m, i, s), n - 1),
                  SlotRecords(Fields(t)[n - 1], WithSlot(m, i, s).slots[n - 1]));
    }
  }

  lemma LengthOfUpdate(t: MessageType, m: Message, i: nat, s: Slot)
    requires |m.slots| == |Fields(t)| && i < |m.slots|
    ensures Length(t, WithSlot(m, i, s)) ==
            Length(t, m) + SlotLength(Fields(t)[i], s) - SlotLength(Fields(t)[i], m.slots[i])
  {
    hide Fields, FieldRecords, Bytes, SlotLength;
    var n := |Fields(t)|;
    FieldsLengthOfUpdate(t, m, i, s, n);
    SerializedParts(t, m);
    SerializedParts(t, WithSlot(m, i, s));
  }

  lemma {:induction false} SerializedParts(t: MessageType, m: Message)
    ensures Serialize(t, m) == Bytes(FieldRecords(t, m, |Fields(t)|)) + Bytes(m.unknown)
  {
    hide Fields, FieldRecords, Bytes;
    BytesAppend(FieldRecords(t, m, |Fields(t)|), m.unknown);
  }

  lemma {:induction false} FieldsIgnoreUnknown(t: MessageType, m: Message, r: Record, n: nat)
    requires n <= |Fields(t)|
    ensures FieldRecords(t, WithUnknown(m, r), n) == FieldRecords(t, m, n)
  {
    hide Fields, SlotRecords;
    if n > 0 {
      FieldsIgnoreUnknown(t, m, r, n - 1);
    }
  }

  lemma LengthOfUnknown(t: MessageType, m: Message, r: Record)
    ensures Length(t, WithUnknown(m, r)) == Length(t, m) + |RecordBytes(r)|
  {
    hide Fields, FieldRecords, Bytes, RecordBytes;
    FieldsIgnoreUnknown(t, m, r, |Fields(t)|);
    SerializedParts(t, m);
    SerializedParts(t, WithUnknown(m, r));
    BytesAppend(m.unknown, [r]);
    BytesOne(r);
  }

  lemma LengthOfEmpty(t: MessageType)
    ensures Length(t, Empty(t)) == 0
  {
    hide Fields, FieldRecords, Bytes;
    EmptyWritesNothing(t, |Fields(t)|);
    SerializedParts(t, Empty(t));
    var none: seq<Record> := [];
    BytesAppend(none, none);
    assert none + none == none;
  }

  lemma {:induction false} EmptyWritesNothing(t: MessageType, n: nat)
    requires n <= |Fields(t)|
    ensures FieldRecords(t, Empty(t), n) == []
  {
    hide Fields, SlotRecords;
    if n > 0 {
      EmptyWritesNothing(t, n - 1);
      EmptySlotWritesNothing(Fields(t)[n - 1]);
    }
  }

  lemma {:induction false} EmptySlotWritesNothing(row: FieldRow)
    ensures SlotRecords(row, EmptySlot(row.kind)) == []
  {
  }

  // ---------------------------------------------------------------- one record

  lemma {:induction false} VarintRecordLength(num: nat, v: nat)
    ensures |RecordBytes(VarintRecord(num, v))| == VarintSize(MakeTag(num, 0)) + VarintSize(v)
  {
    hide Varint, VarintSize;
    VarintSizeExact(MakeTag(num, 0));
    VarintSizeExact(v);
  }

  lemma {:induction false} BytesRecordLength(num: nat, b: seq<byte>)
    ensures |RecordBytes(BytesRecord(num, b))| == VarintSize(MakeTag(num, 2)) + VarintSize(|b|) + |b|
  {
    hide Varint, VarintSize;
    VarintSizeExact(MakeTag(num, 2));
    VarintSizeExact(|b|);
  }

  lemma FiveBytes()
    ensures VarintSize(0x8000_0000) == 5
  {
    assert VarintSize(0x8000_0000) == 1 + VarintSize(0x100_0000);
    assert VarintSize(0x100_0000) == 1 + VarintSize(0x2_0000);
    assert VarintSize(0x2_0000) == 1 + VarintSize(0x400);
  }

  /** A negative 32-bit value needs five bytes at least, and is written in ten. */
  lemma {:induction false} SignedGrowth(w: nat)
    ensures VarintSize(Unsigned64(Signed32(w))) <= 2 * VarintSize(w)
  {
    hide VarintSize;
    var v := Signed32(w);
    if v < 0 {
      NegativeSize(v);
      FiveBytes();
      VarintSizeMonotone(0x8000_0000, w);
    } else {
      VarintSizeMonotone(v, w);
      VarintSizeMonotone(0, w);
    }
  }

  lemma {:induction false} ScalarGrowth(k: Kind, w: nat)
    requires IsScalar(k) && k != KFloat && k != KDouble && w < TWO64 && FromWire(k, w).Some? && SmallEnum(k)
    ensures VarintSize(Unsigned64(FromWire(k, w).value)) <= 2 * VarintSize(w)
  {
    hide VarintSize;
    VarintSizeMonotone(0, w);
    match k
    case KEnum(_) => SignedGrowth(w);
    case KInt32 => SignedGrowth(w);
    case KUInt32 => VarintSizeMonotone(w % TWO32, w);
    case KBool => if w != 0 { VarintSizeMonotone(1, w); }
    case KInt64 => assert Unsigned64(Signed64(w)) == w;
    case _ =>
  }

  /** Parsing a sub-message of b bytes into one of length n, and what the field then takes. */
  lemma {:induction false} SubmessageGrowth(tag: nat, n: nat, b: nat, longer: nat)
    requires longer <= n + 2 * b
    ensures tag + VarintSize(longer) + longer <= (tag + VarintSize(n) + n) + 2 * (tag + VarintSize(b) + b)
    ensures n == 0 ==> tag + VarintSize(longer) + longer <= 2 * (tag + VarintSize(b) + b)
  {
    hide VarintSize;
    SizeOfLonger(n, b, longer);
    VarintSizeMonotone(0, n);
    VarintSizeMonotone(0, longer);
    if n == 0 {
      VarintSizeMonotone(longer, 2 * b);
      VarintSizeSum(b, b);
    }
  }

  lemma {:induction false} SizeOfLonger(n: nat, b: nat, longer: nat)
    requires longer <= n + 2 * b
    ensures VarintSize(longer) <= VarintSize(n) + 2 * VarintSize(b)
  {
    hide VarintSize;
    var twice := b + b;
    VarintSizeMonotone(longer, n + twice);
    VarintSizeSum(n, twice);
    VarintSizeSum(b, b);
  }

  predicate Grows(row: FieldRow, was: Slot, r: Record, o: SlotOutcome) {
    match o
    case Refused => true
    case Diverted(u) => |RecordBytes(u)| <= 2 * |RecordBytes(r)|
    case Stored(s) => SlotLength(row, s) <= SlotLength(row, was) + 2 * |RecordBytes(r)|
  }

  lemma {:induction false} ScalarGrows(row: FieldRow, was: Slot, r: Record, depth: nat)
    requires IsScalar(row.kind) && SmallEnum(row.kind) && ValidRecord(r) && TagOf(r) == RowTag(row)
    ensures Grows(row, was, r, StoreRecord(row.kind, was, r, depth))
  {
    hide VarintSize, RecordBytes, Bytes, FromWire, Signed32, Unsigned64;
    TagDecides(row, r);
    var o := StoreRecord(row.kind, was, r, depth);
    if o.Diverted? {
      SignedGrowth(r.v);
      VarintRecordLength(r.num, r.v);
      VarintRecordLength(r.num, Unsigned64(Signed32(r.v)));
      DivertedRecord(row, was, r, depth);
    } else {
      BytesOne(ScalarRecord(row, o.s.v));
      if row.kind == KFloat || row.kind == KDouble {
        FixedLength(row, r, o.s.v);
      } else {
        ScalarGrowth(row.kind, r.v);
        VarintRecordLength(r.num, r.v);
        VarintRecordLength(row.num, Unsigned64(o.s.v));
      }
    }
  }

  lemma TagDecides(row: FieldRow, r: Record)
    requires TagOf(r) == RowTag(row)
    ensures r.num == row.num && WireType(r) == KindWireType(row.kind)
  {
  }

  lemma {:induction false} DivertedRecord(row: FieldRow, was: Slot, r: Record, depth: nat)
    requires IsScalar(row.kind) && StoreRecord(row.kind, was, r, depth).Diverted?
    ensures StoreRecord(row.kind, was, r, depth).r == VarintRecord(r.num, Unsigned64(Signed32(r.v)))
    ensures row.kind.KEnum?
  {
    hide Signed32, Unsigned64;
  }

  lemma FixedLength(row: FieldRow, r: Record, v: int)
    requires (row.kind == KFloat || row.kind == KDouble) && r.num == row.num
    requires WireType(r) == KindWireType(row.kind)
    ensures |RecordBytes(ScalarRecord(row, v))| == |RecordBytes(r)|
  {
    hide Varint;
  }

  lemma {:induction false} MessageGrows(row: FieldRow, was: Slot, r: Record, depth: nat)
    requires row.kind.KMessage? && ValidRecord(r) && TagOf(r) == RowTag(row) && SlotShape(row.kind, was)
    ensures Grows(row, was, r, StoreRecord(row.kind, was, r, depth))
    decreases PayloadSize(r), 1
  {
    hide Fields, VarintSize, RecordBytes, Bytes, Parse, Serialize, Shape;
    var t := row.kind.t;
    TagDecides(row, r);
    if r.BytesRecord? && depth > 0 {
      var m := if was.One? then was.m else Empty(t);
      EmptyShape(t);
      ParseGrows(t, r.b, depth - 1, m);
      LengthOfEmpty(t);
      var o := Parse(t, r.b, depth - 1, m);
      if o.Done? {
        BytesOne(BytesRecord(row.num, Serialize(t, o.m)));
        BytesOne(BytesRecord(row.num, Serialize(t, m)));
        BytesRecordLength(row.num, Serialize(t, o.m));
        BytesRecordLength(row.num, Serialize(t, m));
        BytesRecordLength(row.num, r.b);
        SubmessageGrowth(VarintSize(MakeTag(row.num, 2)), Length(t, m), |r.b|, Length(t, o.m));
      }
    }
  }

  lemma {:induction false} ManyLength(row: FieldRow, ms: seq<Message>, m: Message)
    requires row.kind.KRepeated?
    ensures SlotLength(row, Many(ms + [m])) ==
            SlotLength(row, Many(ms)) + |RecordBytes(BytesRecord(row.num, Serialize(row.kind.t, m)))|
  {
    hide Fields, Bytes, RecordBytes, Serialize;
    var r := BytesRecord(row.num, Serialize(row.kind.t, m));
    assert SlotRecords(row, Many(ms + [m])) == SlotRecords(row, Many(ms)) + [r];
    BytesAppend(SlotRecords(row, Many(ms)), [r]);
    BytesOne(r);
  }

  lemma {:induction false} ElementGrows(row: FieldRow, was: Slot, r: Record, depth: nat)
    requires row.kind.KRepeated? && ValidRecord(r) && TagOf(r) == RowTag(row)
    ensures Grows(row, was, r, StoreRecord(row.kind, was, r, depth))
    decreases PayloadSize(r), 1
  {
    hide Fields, VarintSize, RecordBytes, Bytes, Parse, Serialize, SlotLength, Shape;
    var t := row.kind.t;
    TagDecides(row, r);
    if r.BytesRecord? && depth > 0 {
      EmptyShape(t);
      ParseGrows(t, r.b, depth - 1, Empty(t));
      LengthOfEmpty(t);
      var o := Parse(t, r.b, depth - 1, Empty(t));
      if o.Done? {
        ManyLength(row, if was.Many? then was.ms else [], o.m);
        NoElements(row);
        BytesRecordLength(row.num, Serialize(t, o.m));
        BytesRecordLength(row.num, r.b);
        SubmessageGrowth(VarintSize(MakeTag(row.num, 2)), 0, |r.b|, Length(t, o.m));
      }
    }
  }

  lemma NoElements(row: FieldRow)
    ensures SlotLength(row, Many([])) == 0
  {
    var none: seq<Record> := [];
    assert SlotRecords(row, Many([])) == none;
    BytesAppend(none, none);
    assert none + none == none;
  }

  lemma {:induction false} StoreGrows(t: MessageType, i: nat, was: Slot, r: Record, depth: nat)
    requires i < |Fields(t)| && ValidRecord(r) && TagOf(r) == RowTag(Fields(t)[i]) && SlotShape(Fields(t)[i].kind, was)
    ensures Grows(Fields(t)[i], was, r, StoreRecord(Fields(t)[i].kind, was, r, depth))
    decreases PayloadSize(r), 2
  {
    hide Fields, RecordBytes, Bytes, Parse, Serialize;
    var row := Fields(t)[i];
    if row.kind.KMessage? {
      MessageGrows(row, was, r, depth);
    } else if row.kind.KRepeated? {
      ElementGrows(row, was, r, depth);
    } else if row.kind.KString? {
      TagDecides(row, r);
      BytesOne(r);
    } else {
      TableEnums(t);
      ScalarGrows(row, was, r, depth);
    }
  }

  // ---------------------------------------------------------------- whole inputs

  lemma {:induction false} AddGrows(t: MessageType, m: Message, r: Record, depth: nat)
    requires ValidRecord(r) && Shape(t, m) && AddRecord(t, m, r, depth).Some?
    ensures Length(t, AddRecord(t, m, r, depth).value) <= Length(t, m) + 2 * |RecordBytes(r)|
    decreases PayloadSize(r), 3
  {
    hide Fields, RecordBytes, StoreRecord, SlotLength, Length, SlotShape;
    match Lookup(t, TagOf(r))
    case None => LengthOfUnknown(t, m, r);
    case Some(i) =>
      LookupExact(t, TagOf(r), i);
      StoreGrows(t, i, m.slots[i], r, depth);
      match StoreRecord(Fields(t)[i].kind, m.slots[i], r, depth)
      case Refused =>
      case Diverted(u) => LengthOfUnknown(t, m, u);
      case Stored(s) => LengthOfUpdate(t, m, i, s);
  }

  /** Parsing n bytes into a message makes its printed form at most 2n bytes longer. */
  lemma {:induction false} ParseGrows(t: MessageType, s: seq<byte>, depth: nat, m: Message)
    requires Shape(t, m)
    ensures var o := Parse(t, s, depth, m);
            o.Failed? || Length(t, o.m) <= Length(t, m) + 2 * |s|
    decreases |s|, 0
  {
    hide Fields, RecordBytes, AddRecord, Length, ReadTag, ReadPayload, Shape;
    if s != [] {
      var (tag, body) := ReadTag(s);
      if tag != 0 && ReadPayload(tag, body).Some? {
        var (r, rest) := ReadPayload(tag, body).value;
        RecordIsShortest(s);
        AddKeepsShape(t, m, r, depth);
        match AddRecord(t, m, r, depth)
        case None =>
        case Some(n) =>
          AddGrows(t, m, r, depth);
          ParseGrows(t, rest, depth, n);
      }
    }
  }

  /** What was parsed from a byte string prints in at most twice its length. */
  lemma {:induction false} AtMostTwice(t: MessageType, s: seq<byte>)
    requires Accepted(ParseTop(t, s))
    ensures |Serialize(t, ParseTop(t, s).m)| <= 2 * |s|
  {
    hide Fields, Parse, Serialize, Shape;
    LengthOfEmpty(t);
    EmptyShape(t);
    ParseGrows(t, s, RECURSION_LIMIT, Empty(t));
  }

  /** Every accepted byte string of at most half the range of int normalises in one pass. */
  lemma {:induction false} NormalisesShort(t: MessageType, s: seq<byte>)
    requires Accepted(ParseTop(t, s)) && 2 * |s| <= INT_MAX
    ensures ParseTop(t, Serialize(t, ParseTop(t, s).m)) == Done(ParseTop(t, s).m)
  {
    hide Fields, Parse, Serialize;
    AtMostTwice(t, s);
    Normalises(t, s);
  }
}
