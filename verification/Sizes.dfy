/** ByteSizeLong: the size is computed by a second walk over the message, from tag widths fixed when the
    code was generated and from varint lengths, without looking at the bytes that will be written. */
module Sizes {
  import opened Wire
  import opened Messages
  import opened Codec

  /** The constant added per field: one byte of tag below field 16, two from 16 up. */
  function TagSize(row: FieldRow): nat { if row.num < 16 then 1 else 2 }

  /** Int32Size and EnumSize: a negative value is sign-extended to ten bytes. */
  function Int32Size(v: int): nat { if v < 0 then 10 else VarintSize(v) }

  function ScalarSize(k: Kind, v: int): nat {
    match k
    case KBool => 1
    case KFloat => 4
    case KDouble => 8
    case KInt64 => VarintSize(Unsigned64(v))
    case _ => Int32Size(v)
  }

  /** The length prefix is sized as a uint32, whatever the length. */
  function LengthDelimitedSize(n: nat): nat { n + VarintSize(n % TWO32) }

  function SlotSize(row: FieldRow, s: Slot): nat
    decreases s, 0
  {
    match s
    case Absent => 0
    case Num(v) => TagSize(row) + ScalarSize(row.kind, v)
    case Blob(b) => TagSize(row) + LengthDelimitedSize(|b|)
    case One(m) => if row.kind.KMessage? then TagSize(row) + LengthDelimitedSize(Size(row.kind.t, m)) else 0
    case Many(ms) => if row.kind.KRepeated? then ElementsSize(row, ms) else 0
  }

  function ElementsSize(row: FieldRow, ms: seq<Message>): nat
    requires row.kind.KRepeated?
    decreases ms
  {
    if ms == [] then 0
    else TagSize(row) + LengthDelimitedSize(Size(row.kind.t, ms[0])) + ElementsSize(row, ms[1..])
  }

  lemma {:induction false} ElementsSizeNext(row: FieldRow, ms: seq<Message>, m: Message)
    requires row.kind.KRepeated?
    ensures ElementsSize(row, ms + [m]) ==
            ElementsSize(row, ms) + TagSize(row) + LengthDelimitedSize(Size(row.kind.t, m))
  {
    hide Fields, Size;
    if ms == [] {
      assert ms + [m] == [m] && [m][1..] == [];
    } else {
      ElementsSizeNext(row, ms[1..], m);
      assert (ms + [m])[1..] == ms[1..] + [m];
    }
  }

  function FieldsSize(t: MessageType, m: Message, n: nat): nat
    requires n <= |Fields(t)|
    decreases m, n
  {
    if n == 0 then 0
    else FieldsSize(t, m, n - 1) + (if n <= |m.slots| then SlotSize(Fields(t)[n - 1], m.slots[n - 1]) else 0)
  }

  function RecordSize(r: Record): nat {
    VarintSize(TagOf(r)) +
    match r
    case VarintRecord(_, v) => VarintSize(v)
    case Fixed64Record(_, _) => 8
    case BytesRecord(_, b) => LengthDelimitedSize(|b|)
    case Fixed32Record(_, _) => 4
  }

  /** ComputeUnknownFieldsSize. */
  function UnknownSize(us: seq<Record>): nat {
    if us == [] then 0 else RecordSize(us[0]) + UnknownSize(us[1..])
  }

  function Size(t: MessageType, m: Message): nat
    decreases m, |Fields(t)| + 1
  {
    UnknownSize(m.unknown) + FieldsSize(t, m, |Fields(t)|)
  }

  // ---------------------------------------------------------------- exactness

  /** Equal, unless neither fits an int. */
  predicate Agree(x: nat, y: nat) { x <= INT_MAX || y <= INT_MAX ==> x == y }

  lemma TagSizeExact(t: MessageType, i: nat)
    requires i < |Fields(t)|
    ensures VarintSize(RowTag(Fields(t)[i])) == TagSize(Fields(t)[i])
  {
    hide Fields;
    TableOk(t);
    assert forall v: nat :: 128 <= v < 16384 ==> VarintSize(v) == 1 + VarintSize(v / 128);
  }

  lemma {:induction false} SignExtendedSize(v: nat, n: nat)
    requires 1 <= n && Power128(n - 1) <= v < Power128(n)
    ensures VarintSize(v) == n
    decreases n
  {
    if n > 1 {
      assert Power128(n - 1) >= 128 by { Power128Positive(n - 2); }
      SignExtendedSize(v / 128, n - 1);
    }
  }

  lemma {:induction false} Power128Positive(n: nat)
    ensures Power128(n) >= 1
  {
    if n > 0 { Power128Positive(n - 1); }
  }

  lemma Power128Nine()
    ensures Power128(9) == 0x8000_0000_0000_0000
  {
    assert Power128(5) == 0x8_0000_0000 by {
      assert Power128(3) == 128 * 128 * 128;
    }
    assert Power128(9) == 128 * 128 * 128 * 128 * Power128(5);
  }

  lemma NegativeSize(v: int)
    requires -0x8000_0000_0000_0000 <= v < 0
    ensures VarintSize(Unsigned64(v)) == 10
  {
    hide VarintSize, Power128;
    Power128Nine();
    Powers128();
    assert Unsigned64(v) == TWO64 + v;
    SignExtendedSize(Unsigned64(v), 10);
  }

  lemma ScalarSizeExact(t: MessageType, i: nat, v: int)
    requires i < |Fields(t)| && IsScalar(Fields(t)[i].kind) && InRange(Fields(t)[i].kind, v)
    ensures |RecordBytes(ScalarRecord(Fields(t)[i], v))| == TagSize(Fields(t)[i]) + ScalarSize(Fields(t)[i].kind, v)
    ensures v < 0 ==> ScalarSize(Fields(t)[i].kind, v) == 10
  {
    hide Fields, Varint, VarintSize, LittleEndian;
    var row := Fields(t)[i];
    var r := ScalarRecord(row, v);
    TableOk(t);
    TableEnums(t);
    TagSizeExact(t, i);
    VarintSizeExact(RowTag(row));
    if r.VarintRecord? {
      VarintSizeExact(r.v);
      if v < 0 {
        NegativeSize(v);
      } else if row.kind == KBool {
        assert VarintSize(v) == 1 by { SmallVarint(v); }
      }
    }
  }

  lemma {:induction false} SmallVarint(v: nat)
    requires v < 128
    ensures VarintSize(v) == 1
  {
  }

  /** A length-delimited field sized from a computed length agrees with one written from a true length. */
  lemma DelimitedAgrees(t: MessageType, i: nat, n: nat, b: seq<byte>)
    requires i < |Fields(t)| && KindWireType(Fields(t)[i].kind) == 2 && Agree(n, |b|)
    ensures Agree(TagSize(Fields(t)[i]) + LengthDelimitedSize(n), |RecordBytes(BytesRecord(Fields(t)[i].num, b))|)
  {
    hide Fields, Varint, VarintSize;
    TagSizeExact(t, i);
    VarintSizeExact(RowTag(Fields(t)[i]));
    VarintSizeExact(|b|);
  }

  lemma {:induction false} ElementsAgree(t: MessageType, i: nat, ms: seq<Message>, depth: nat)
    requires i < |Fields(t)| && Fields(t)[i].kind.KRepeated?
    requires ms == [] || depth > 0
    requires forall j :: 0 <= j < |ms| ==> Good(Fields(t)[i].kind.t, ms[j], depth - 1)
    ensures Agree(ElementsSize(Fields(t)[i], ms), |Bytes(SlotRecords(Fields(t)[i], Many(ms)))|)
    decreases ms
  {
    hide Fields, Serialize, Size, RecordBytes, Good, Bytes;
    var row := Fields(t)[i];
    var rs := SlotRecords(row, Many(ms));
    if ms == [] {
      assert rs == [];
      BytesAppend([], []);
      assert [] + [] == rs;
    } else {
      SizeAgrees(row.kind.t, ms[0], depth - 1);
      DelimitedAgrees(t, i, Size(row.kind.t, ms[0]), Serialize(row.kind.t, ms[0]));
      ElementsAgree(t, i, ms[1..], depth);
      SlotRecordsTail(row, ms);
      assert rs == [rs[0]] + rs[1..];
      BytesCons(rs[0], rs[1..]);
    }
  }

  lemma {:induction false} SlotAgrees(t: MessageType, i: nat, s: Slot, depth: nat)
    requires i < |Fields(t)| && GoodSlot(Fields(t)[i].kind, s, depth)
    ensures Agree(SlotSize(Fields(t)[i], s), |Bytes(SlotRecords(Fields(t)[i], s))|)
    decreases s, 0
  {
    hide Fields, Serialize, Size, RecordBytes, Good, Bytes, ScalarSize, LengthDelimitedSize;
    var row := Fields(t)[i];
    match s
    case Absent =>
      BytesAppend([], []);
      assert [] + [] == SlotRecords(row, s);
    case Num(v) =>
      ScalarSizeExact(t, i, v);
      BytesOne(ScalarRecord(row, v));
    case Blob(b) =>
      DelimitedAgrees(t, i, |b|, b);
      BytesOne(BytesRecord(row.num, b));
    case One(m) =>
      SizeAgrees(row.kind.t, m, depth - 1);
      DelimitedAgrees(t, i, Size(row.kind.t, m), Serialize(row.kind.t, m));
      BytesOne(BytesRecord(row.num, Serialize(row.kind.t, m)));
    case Many(ms) =>
      ElementsAgree(t, i, ms, depth);
  }

  lemma {:induction false} FieldsAgree(t: MessageType, m: Message, depth: nat, n: nat)
    requires Good(t, m, depth) && n <= |Fields(t)|
    ensures Agree(FieldsSize(t, m, n), |Bytes(FieldRecords(t, m, n))|)
    decreases m, n
  {
    hide Fields, SlotSize, SlotRecords, GoodSlot, UnknownFor, Bytes;
    if n == 0 {
      BytesAppend([], []);
      assert [] + [] == FieldRecords(t, m, 0);
    } else {
      FieldsAgree(t, m, depth, n - 1);
      SlotAgrees(t, n - 1, m.slots[n - 1], depth);
      BytesAppend(FieldRecords(t, m, n - 1), SlotRecords(Fields(t)[n - 1], m.slots[n - 1]));
    }
  }

  lemma RecordSizeExact(r: Record)
    requires ValidRecord(r)
    ensures RecordSize(r) == |RecordBytes(r)|
  {
    hide Varint, VarintSize;
    VarintSizeExact(TagOf(r));
    match r
    case VarintRecord(_, v) => VarintSizeExact(v);
    case BytesRecord(_, b) => VarintSizeExact(|b|);
    case _ =>
  }

  lemma {:induction false} UnknownSizeExact(us: seq<Record>)
    requires forall j :: 0 <= j < |us| ==> ValidRecord(us[j])
    ensures UnknownSize(us) == |Bytes(us)|
  {
    hide RecordSize, Bytes, RecordBytes;
    if us == [] {
      BytesAppend([], []);
      assert [] + [] == us;
    } else {
      RecordSizeExact(us[0]);
      UnknownSizeExact(us[1..]);
      assert us == [us[0]] + us[1..];
      BytesCons(us[0], us[1..]);
    }
  }

  lemma {:induction false} SizeAgrees(t: MessageType, m: Message, depth: nat)
    requires Good(t, m, depth)
    ensures Agree(Size(t, m), |Serialize(t, m)|)
    decreases m, |Fields(t)| + 1
  {
    hide Fields, FieldsSize, FieldRecords, GoodSlot, Bytes, UnknownSize;
    FieldsAgree(t, m, depth, |Fields(t)|);
    assert forall j :: 0 <= j < |m.unknown| ==> ValidRecord(m.unknown[j]) by {
      forall j | 0 <= j < |m.unknown|
        ensures ValidRecord(m.unknown[j])
      {
        assert UnknownFor(t, m.unknown[j]);
      }
    }
    UnknownSizeExact(m.unknown);
    BytesAppend(FieldRecords(t, m, |Fields(t)|), m.unknown);
  }

  /** The two-pass size is exact: the size computed first is the number of bytes written, for every
      message of every type, as soon as either of the two fits an int; so they fit together or not at
      all, and the computed size alone tells. */
  lemma {:induction false} SizeExact(t: MessageType, m: Message, depth: nat)
    requires Good(t, m, depth)
    ensures Size(t, m) <= INT_MAX <==> |Serialize(t, m)| <= INT_MAX
    ensures Size(t, m) <= INT_MAX ==> Size(t, m) == |Serialize(t, m)|
  {
    SizeAgrees(t, m, depth);
  }
}
