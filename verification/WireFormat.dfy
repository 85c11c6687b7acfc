/** What the bytes of a message are, field by field, and what a field that is read last leaves behind:
    stated in terms of numbers and bytes, without the functions that write and store them. */
module WireFormat {
  import opened Wire
  import opened Messages
  import opened Codec
  import opened CodecLaws
  import opened Sizes

  // ---------------------------------------------------------------- writing

  /** What one field contributes. */
  function FieldBytes(t: MessageType, m: Message, i: nat): seq<byte>
    requires i < |Fields(t)| && i < |m.slots|
  {
    Bytes(SlotRecords(Fields(t)[i], m.slots[i]))
  }

  function AllFieldBytes(t: MessageType, m: Message, n: nat): (ss: seq<seq<byte>>)
    requires n <= |Fields(t)| == |m.slots|
    ensures |ss| == n
  {
    seq(n, i requires 0 <= i < n => FieldBytes(t, m, i))
  }

  lemma {:induction false} FieldsInOrder(t: MessageType, m: Message, n: nat)
    requires n <= |Fields(t)| == |m.slots|
    ensures Bytes(FieldRecords(t, m, n)) == Concat(AllFieldBytes(t, m, n))
    decreases n
  {
    hide Fields, Bytes, SlotRecords, Concat;
    if n == 0 {
      NoBytes();
      assert AllFieldBytes(t, m, 0) == [];
    } else {
      FieldsInOrder(t, m, n - 1);
      BytesAppend(FieldRecords(t, m, n - 1), SlotRecords(Fields(t)[n - 1], m.slots[n - 1]));
      assert AllFieldBytes(t, m, n) == AllFieldBytes(t, m, n - 1) + [FieldBytes(t, m, n - 1)];
      ConcatAppend(AllFieldBytes(t, m, n - 1), [FieldBytes(t, m, n - 1)]);
      ConcatOne(FieldBytes(t, m, n - 1));
    }
  }

  lemma NoBytes()
    ensures Bytes([]) == [] && Concat([]) == []
  {
    assert AllBytes([]) == [];
  }

  lemma ConcatOne(s: seq<byte>)
    ensures Concat([s]) == s
  {
    assert [s][1..] == [];
  }

  /** A message is written as its fields, in the order of their numbers, with the unknown ones last. */
  lemma {:induction false} SerializedInOrder(t: MessageType, m: Message)
    requires |m.slots| == |Fields(t)|
    ensures Serialize(t, m) == Concat(AllFieldBytes(t, m, |Fields(t)|)) + Bytes(m.unknown)
    ensures forall i, j :: 0 <= i < j < |Fields(t)| ==> Fields(t)[i].num < Fields(t)[j].num
  {
    hide Fields, Bytes, FieldRecords, Concat;
    TableOk(t);
    FieldsInOrder(t, m, |Fields(t)|);
    BytesAppend(FieldRecords(t, m, |Fields(t)|), m.unknown);
  }

  lemma AbsentField(t: MessageType, m: Message, i: nat)
    requires i < |Fields(t)| && i < |m.slots| && (m.slots[i] == Absent || m.slots[i] == Many([]))
    ensures FieldBytes(t, m, i) == []
  {
    hide Fields, Bytes;
    NoBytes();
    assert SlotRecords(Fields(t)[i], m.slots[i]) == [];
  }

  predicate IsInteger(k: Kind) { k.KEnum? || k == KUInt32 || k == KInt32 || k == KInt64 || k == KBool }

  /** An integer of any width is written as the 64-bit two's complement of its value, so that a reader
      who takes the field as a wider type sees the same number; a negative one takes ten bytes. */
  lemma IntegerField(t: MessageType, m: Message, i: nat) returns (w: nat)
    requires i < |Fields(t)| && i < |m.slots| && m.slots[i].Num?
    requires IsInteger(Fields(t)[i].kind) && InRange(Fields(t)[i].kind, m.slots[i].v)
    ensures w < TWO64 && w == (if m.slots[i].v >= 0 then m.slots[i].v else m.slots[i].v + TWO64)
    ensures Signed64(w) == m.slots[i].v
    ensures FieldBytes(t, m, i) == Varint(8 * Fields(t)[i].num) + Varint(w)
    ensures m.slots[i].v < 0 ==> |FieldBytes(t, m, i)| == |Varint(8 * Fields(t)[i].num)| + 10
  {
    TableEnums(t);
    hide Fields, Varint, Bytes;
    var row, v := Fields(t)[i], m.slots[i].v;
    w := if v >= 0 then v else v + TWO64;
    assert Unsigned64(v) == w;
    BytesOne(VarintRecord(row.num, w));
    if v < 0 {
      NegativeSize(v);
      VarintSizeExact(w);
    }
  }

  /** Floats and doubles are written as four and eight bytes, least significant first. */
  lemma FixedField(t: MessageType, m: Message, i: nat) returns (b: seq<byte>)
    requires i < |Fields(t)| && i < |m.slots| && m.slots[i].Num?
    requires Fields(t)[i].kind == KFloat || Fields(t)[i].kind == KDouble
    requires InRange(Fields(t)[i].kind, m.slots[i].v)
    ensures Fields(t)[i].kind == KFloat ==>
              && |b| == 4 && m.slots[i].v == Quad(b[0], b[1], b[2], b[3])
              && FieldBytes(t, m, i) == Varint(8 * Fields(t)[i].num + 5) + b
    ensures Fields(t)[i].kind == KDouble ==>
              && |b| == 8 && m.slots[i].v == Quad(b[0], b[1], b[2], b[3]) + TWO32 * Quad(b[4], b[5], b[6], b[7])
              && FieldBytes(t, m, i) == Varint(8 * Fields(t)[i].num + 1) + b
  {
    hide Fields, Varint, Bytes, Quad, LittleEndian;
    var row, v := Fields(t)[i], m.slots[i].v;
    LittleEndianBytes(v);
    BytesOne(ScalarRecord(row, v));
    b := LittleEndian(v, if row.kind == KFloat then 4 else 8);
  }

  lemma TextField(t: MessageType, m: Message, i: nat)
    requires i < |Fields(t)| && i < |m.slots| && m.slots[i].Blob?
    ensures var b := m.slots[i].b;
            FieldBytes(t, m, i) == Varint(8 * Fields(t)[i].num + 2) + (Varint(|b|) + b)
  {
    hide Fields, Varint, Bytes;
    BytesOne(BytesRecord(Fields(t)[i].num, m.slots[i].b));
  }

  lemma MessageField(t: MessageType, m: Message, i: nat)
    requires i < |Fields(t)| && i < |m.slots| && m.slots[i].One? && Fields(t)[i].kind.KMessage?
    ensures var b := Serialize(Fields(t)[i].kind.t, m.slots[i].m);
            FieldBytes(t, m, i) == Varint(8 * Fields(t)[i].num + 2) + (Varint(|b|) + b)
  {
    hide Fields, Varint, Bytes, Serialize;
    BytesOne(BytesRecord(Fields(t)[i].num, Serialize(Fields(t)[i].kind.t, m.slots[i].m)));
  }

  /** Each element of a repeated field is written with a tag of its own. */
  lemma RepeatedField(t: MessageType, m: Message, i: nat)
    requires i < |Fields(t)| && i < |m.slots| && m.slots[i].Many? && Fields(t)[i].kind.KRepeated?
    requires m.slots[i].ms != []
    ensures var ms := m.slots[i].ms;
            var b := Serialize(Fields(t)[i].kind.t, ms[0]);
            FieldBytes(t, m, i) == (Varint(8 * Fields(t)[i].num + 2) + (Varint(|b|) + b))
                                   + FieldBytes(t, WithSlot(m, i, Many(ms[1..])), i)
  {
    hide Fields, Varint, Bytes, Serialize;
    var row, ms := Fields(t)[i], m.slots[i].ms;
    var rs := SlotRecords(row, Many(ms));
    SlotRecordsTail(row, ms);
    assert rs == [rs[0]] + rs[1..];
    BytesCons(rs[0], rs[1..]);
  }

  // ---------------------------------------------------------------- reading

  /** The value of an integer field that a 64-bit varint stands for: the one of the field's type that is
      congruent to it; for a bool, whether it is zero. */
  predicate ReadsAs(k: Kind, w: nat, v: int) {
    match k
    case KBool => v == if w == 0 then 0 else 1
    case KInt64 => -0x8000_0000_0000_0000 <= v < 0x8000_0000_0000_0000 && (v - w) % TWO64 == 0
    case KUInt32 => 0 <= v < TWO32 && (v - w) % TWO32 == 0
    case KInt32 => -TWO31 <= v < TWO31 && (v - w) % TWO32 == 0
    case KEnum(values) => 0 <= v < values && (v - w) % TWO32 == 0
    case _ => false
  }

  lemma SignedIsCongruent(w: nat)
    ensures -TWO31 <= Signed32(w) < TWO31 && (Signed32(w) - w) % TWO32 == 0
    ensures -0x8000_0000_0000_0000 <= Signed64(w) < 0x8000_0000_0000_0000 && (Signed64(w) - w) % TWO64 == 0
    ensures (w % TWO32 - w) % TWO32 == 0
  {
  }

  lemma CongruentIsUnique(w: nat, v: int, x: int, n: nat)
    requires n > 0 && (v - w) % n == 0 && (x - w) % n == 0 && -(n as int) < v - x < n
    ensures v == x
  {
    assert v - x == n * ((v - w) / n - (x - w) / n);
    MultipleIsLarge((v - w) / n - (x - w) / n, n);
  }

  lemma MultipleIsLarge(k: int, n: nat)
    ensures k >= 1 ==> n * k >= n
    ensures k <= -1 ==> n * k + n <= 0
  {
    if k >= 1 { assert n * (k - 1) >= 0; }
    if k <= -1 { assert n * (-1 - k) >= 0; }
  }

  lemma ReadsAsExact(k: Kind, w: nat, v: int)
    requires IsInteger(k) && SmallEnum(k) && w < TWO64
    ensures FromWire(k, w) == Some(v) <==> ReadsAs(k, w, v)
  {
    hide Signed32, Signed64;
    SignedIsCongruent(w);
    if ReadsAs(k, w, v) && !k.KBool? {
      var n := if k == KInt64 then TWO64 else TWO32;
      var x := if k == KInt64 then Signed64(w) else if k == KUInt32 then w % TWO32 else Signed32(w);
      CongruentIsUnique(w, v, x, n);
    }
  }

  lemma {:induction false} IntegerIsStored(k: Kind, was: Slot, num: nat, w: nat, v: int, depth: nat)
    requires IsInteger(k) && SmallEnum(k) && w < TWO64
    ensures ReadsAs(k, w, v) ==> StoreRecord(k, was, VarintRecord(num, w), depth) == Stored(Num(v))
    ensures (forall x :: !ReadsAs(k, w, x)) && ReadsAs(KInt32, w, v) ==>
              && k.KEnum?
              && StoreRecord(k, was, VarintRecord(num, w), depth)
                 == Diverted(VarintRecord(num, if v >= 0 then v else v + TWO64))
  {
    hide ReadsAs;
    ReadsAsExact(k, w, v);
    ReadsAsExact(KInt32, w, v);
    if forall x :: !ReadsAs(k, w, x) {
      if FromWire(k, w).Some? { ReadsAsExact(k, w, FromWire(k, w).value); }
    }
  }

  lemma {:induction false} RecordComesLast(t: MessageType, s: seq<byte>, r: Record)
    requires ParseTop(t, s).Done? && ValidRecord(r)
    ensures |ParseTop(t, s).m.slots| == |Fields(t)|
    ensures ParseTop(t, s + RecordBytes(r)) ==
            match AddRecord(t, ParseTop(t, s).m, r, RECURSION_LIMIT) case None => Failed case Some(n) => Done(n)
  {
    hide Fields, AddRecord, RecordBytes, Parse;
    var m := ParseTop(t, s).m;
    EmptyShape(t);
    ParseKeepsShape(t, s, RECURSION_LIMIT, Empty(t));
    ParseAppend(t, s, RecordBytes(r), RECURSION_LIMIT, Empty(t));
    ParseRecord(t, r, [], RECURSION_LIMIT, m);
    assert RecordBytes(r) + [] == RecordBytes(r);
    match AddRecord(t, m, r, RECURSION_LIMIT)
    case None =>
    case Some(n) => ParseNothing(t, RECURSION_LIMIT, n);
  }

  /** A field that comes last is stored into what was parsed before it. */
  lemma {:induction false} FieldComesLast(t: MessageType, s: seq<byte>, i: nat, r: Record)
    requires ParseTop(t, s).Done? && ValidRecord(r) && i < |Fields(t)| && TagOf(r) == RowTag(Fields(t)[i])
    ensures |ParseTop(t, s).m.slots| == |Fields(t)|
    ensures var before := ParseTop(t, s).m;
            ParseTop(t, s + RecordBytes(r)) ==
            match StoreRecord(Fields(t)[i].kind, before.slots[i], r, RECURSION_LIMIT)
            case Refused => Failed
            case Diverted(u) => Done(Message(before.slots, before.unknown + [u]))
            case Stored(x) => Done(Message(before.slots[i := x], before.unknown))
  {
    RecordComesLast(t, s, r);
    LookupExact(t, TagOf(r), i);
    hide Fields, ParseTop, Lookup, StoreRecord, RecordBytes;
  }

  /** An integer field that comes last holds its own value, whatever came before, and everything else is
      as before; an enum value that is none goes to the unknown fields as a sign-extended int. */
  lemma {:induction false} LastIntegerWins(t: MessageType, s: seq<byte>, i: nat, w: nat, v: int)
    requires ParseTop(t, s).Done? && i < |Fields(t)| && IsInteger(Fields(t)[i].kind) && w < TWO64
    ensures |ParseTop(t, s).m.slots| == |Fields(t)|
    ensures var before, after := ParseTop(t, s).m, ParseTop(t, s + (Varint(8 * Fields(t)[i].num) + Varint(w)));
            && (ReadsAs(Fields(t)[i].kind, w, v) ==>
                  after == Done(Message(before.slots[i := Num(v)], before.unknown)))
            && ((forall x :: !ReadsAs(Fields(t)[i].kind, w, x)) && ReadsAs(KInt32, w, v) ==>
                  && Fields(t)[i].kind.KEnum?
                  && after == Done(Message(before.slots, before.unknown
                       + [VarintRecord(Fields(t)[i].num, if v >= 0 then v else v + TWO64)])))
  {
    TableOk(t);
    TableEnums(t);
    hide Fields, ParseTop, StoreRecord, Varint, ReadsAs;
    var row := Fields(t)[i];
    var before, r := ParseTop(t, s).m, VarintRecord(row.num, w);
    FieldComesLast(t, s, i, r);
    IntegerIsStored(row.kind, before.slots[i], row.num, w, v, RECURSION_LIMIT);
  }

  /** So does a string field. */
  lemma {:induction false} LastTextWins(t: MessageType, s: seq<byte>, i: nat, b: seq<byte>)
    requires ParseTop(t, s).Done? && i < |Fields(t)| && Fields(t)[i].kind.KString? && |b| <= INT_MAX
    ensures |ParseTop(t, s).m.slots| == |Fields(t)|
    ensures var before := ParseTop(t, s).m;
            ParseTop(t, s + (Varint(8 * Fields(t)[i].num + 2) + (Varint(|b|) + b)))
            == Done(Message(before.slots[i := Blob(b)], before.unknown))
  {
    TableOk(t);
    hide Fields, ParseTop, Varint;
    FieldComesLast(t, s, i, BytesRecord(Fields(t)[i].num, b));
  }

  /** And a float or double field, from any four or eight bytes. */
  lemma {:induction false} LastFixedWins(t: MessageType, s: seq<byte>, i: nat, v: nat)
    requires ParseTop(t, s).Done? && i < |Fields(t)|
    requires Fields(t)[i].kind == KFloat || Fields(t)[i].kind == KDouble
    requires InRange(Fields(t)[i].kind, v)
    ensures |ParseTop(t, s).m.slots| == |Fields(t)|
    ensures var before, row := ParseTop(t, s).m, Fields(t)[i];
            var bytes := if row.kind == KFloat then Varint(8 * row.num + 5) + LittleEndian(v, 4)
                         else Varint(8 * row.num + 1) + LittleEndian(v, 8);
            ParseTop(t, s + bytes) == Done(Message(before.slots[i := Num(v)], before.unknown))
  {
    TableOk(t);
    hide Fields, ParseTop, Varint, LittleEndian;
    var row := Fields(t)[i];
    FieldComesLast(t, s, i, if row.kind == KFloat then Fixed32Record(row.num, v) else Fixed64Record(row.num, v));
  }
}
