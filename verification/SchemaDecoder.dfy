/** ProtobufSchemaDeserializer: from the bytes of a Schema message to the fields of an Arrow schema. */
module SchemaDecoder {
  import opened Wire
  import opened Messages
  import opened Codec
  import opened CodecLaws
  import opened MessageObjects

  datatype TimeUnit = SECOND | MILLI | MICRO | NANO

  datatype ArrowType =
    | NA | BOOL | UINT8 | INT8 | UINT16 | INT16 | UINT32 | INT32 | UINT64 | INT64
    | HALF_FLOAT | FLOAT | DOUBLE | STRING | BINARY | DATE32 | DATE64
    | Timestamp(unit: TimeUnit) | Time32(unit: TimeUnit) | Time64(unit: TimeUnit)
    | MonthInterval | DayTimeInterval
    | Decimal(precision: int, scale: int)

  /** `None` for the type is a null pointer: `arrow::field` accepts one. */
  datatype ArrowField = ArrowField(name: seq<byte>, ty: Option<ArrowType>, nullable: bool)

  /** What the getters of ExtGandivaType return. */
  datatype ExtType = ExtType(code: int, precision: int, scale: int, timeUnit: int, intervalType: int)

  // ---------------------------------------------------------------- the type switches

  function ProtoTypeToTime32(e: ExtType): Option<ArrowType> {
    match e.timeUnit
    case 0 => Some(Time32(SECOND))
    case 1 => Some(Time32(MILLI))
    case _ => None
  }

  function ProtoTypeToTime64(e: ExtType): Option<ArrowType> {
    match e.timeUnit
    case 2 => Some(Time64(MICRO))
    case 3 => Some(Time64(NANO))
    case _ => None
  }

  function ProtoTypeToTimestamp(e: ExtType): Option<ArrowType> {
    match e.timeUnit
    case 0 => Some(Timestamp(SECOND))
    case 1 => Some(Timestamp(MILLI))
    case 2 => Some(Timestamp(MICRO))
    case 3 => Some(Timestamp(NANO))
    case _ => None
  }

  function ProtoTypeToInterval(e: ExtType): Option<ArrowType> {
    match e.intervalType
    case 0 => Some(MonthInterval)
    case 1 => Some(DayTimeInterval)
    case _ => None
  }

  function ProtoTypeToDataType(e: ExtType): Option<ArrowType> {
    match e.code
    case 0 => Some(NA)
    case 1 => Some(BOOL)
    case 2 => Some(UINT8)
    case 3 => Some(INT8)
    case 4 => Some(UINT16)
    case 5 => Some(INT16)
    case 6 => Some(UINT32)
    case 7 => Some(INT32)
    case 8 => Some(UINT64)
    case 9 => Some(INT64)
    case 10 => Some(HALF_FLOAT)
    case 11 => Some(FLOAT)
    case 12 => Some(DOUBLE)
    case 13 => Some(STRING)
    case 14 => Some(BINARY)
    case 16 => Some(DATE32)
    case 17 => Some(DATE64)
    case 22 => Some(Decimal(e.precision, e.scale))
    case 19 => ProtoTypeToTime32(e)
    case 20 => ProtoTypeToTime64(e)
    case 18 => ProtoTypeToTimestamp(e)
    case 21 => ProtoTypeToInterval(e)
    case _ => None
  }

  // ---------------------------------------------------------------- what a type is called

  /** The number of a type in the enum GandivaType. */
  function CodeOf(ty: ArrowType): nat {
    match ty
    case NA => 0
    case BOOL => 1
    case UINT8 => 2
    case INT8 => 3
    case UINT16 => 4
    case INT16 => 5
    case UINT32 => 6
    case INT32 => 7
    case UINT64 => 8
    case INT64 => 9
    case HALF_FLOAT => 10
    case FLOAT => 11
    case DOUBLE => 12
    case STRING => 13
    case BINARY => 14
    case DATE32 => 16
    case DATE64 => 17
    case Timestamp(_) => 18
    case Time32(_) => 19
    case Time64(_) => 20
    case MonthInterval => 21
    case DayTimeInterval => 21
    case Decimal(_, _) => 22
  }

  function UnitCode(u: TimeUnit): nat { match u case SECOND => 0 case MILLI => 1 case MICRO => 2 case NANO => 3 }

  predicate HasUnit(ty: ArrowType) { ty.Timestamp? || ty.Time32? || ty.Time64? }

  /** Types Arrow has: 32-bit times count seconds or milliseconds, 64-bit times finer units. */
  predicate Exists(ty: ArrowType) {
    && (ty.Time32? ==> ty.unit == SECOND || ty.unit == MILLI)
    && (ty.Time64? ==> ty.unit == MICRO || ty.unit == NANO)
    && (ty.Decimal? ==> -TWO31 <= ty.precision < TWO31 && -TWO31 <= ty.scale < TWO31)
  }

  /** The getters name the type: its number, and the details that matter for it. */
  predicate Names(e: ExtType, ty: ArrowType) {
    && e.code == CodeOf(ty)
    && (HasUnit(ty) ==> e.timeUnit == UnitCode(ty.unit))
    && (ty == MonthInterval ==> e.intervalType == 0)
    && (ty == DayTimeInterval ==> e.intervalType == 1)
    && (ty.Decimal? ==> e.precision == ty.precision && e.scale == ty.scale)
  }

  /** The switches find a type exactly when the getters name it; details of other types are ignored. */
  lemma DataTypeExact(e: ExtType, ty: ArrowType)
    requires -TWO31 <= e.precision < TWO31 && -TWO31 <= e.scale < TWO31
    ensures ProtoTypeToDataType(e) == Some(ty) <==> Exists(ty) && Names(e, ty)
  {
    match ty case NA => case _ =>
  }

  /** When no type is found: the enum values Arrow has no factory for here, 32-bit times in micro- or
      nanoseconds, 64-bit times in seconds or milliseconds. */
  lemma UnsupportedExact(e: ExtType)
    requires 0 <= e.code < 28 && 0 <= e.timeUnit < 4 && 0 <= e.intervalType < 2
    ensures ProtoTypeToDataType(e).None? <==>
            || e.code == 15 || e.code >= 23
            || (e.code == 19 && e.timeUnit >= 2) || (e.code == 20 && e.timeUnit < 2)
  {
  }

  const PLAIN: seq<ArrowType> := [NA, BOOL, UINT8, INT8, UINT16, INT16, UINT32, INT32, UINT64, INT64,
                                  HALF_FLOAT, FLOAT, DOUBLE, STRING, BINARY]
  const UNITS: seq<TimeUnit> := [SECOND, MILLI, MICRO, NANO]

  /** The enum in full: fifteen plain types, two dates, then types with details. */
  lemma TypesSpelledOut(e: ExtType)
    ensures 0 <= e.code < 15 ==> ProtoTypeToDataType(e) == Some(PLAIN[e.code])
    ensures e.code == 16 ==> ProtoTypeToDataType(e) == Some(DATE32)
    ensures e.code == 17 ==> ProtoTypeToDataType(e) == Some(DATE64)
    ensures e.code == 18 && 0 <= e.timeUnit < 4 ==> ProtoTypeToDataType(e) == Some(Timestamp(UNITS[e.timeUnit]))
    ensures e.code == 19 && 0 <= e.timeUnit < 2 ==> ProtoTypeToDataType(e) == Some(Time32(UNITS[e.timeUnit]))
    ensures e.code == 20 && 2 <= e.timeUnit < 4 ==> ProtoTypeToDataType(e) == Some(Time64(UNITS[e.timeUnit]))
    ensures e.code == 21 && e.intervalType == 0 ==> ProtoTypeToDataType(e) == Some(MonthInterval)
    ensures e.code == 21 && e.intervalType == 1 ==> ProtoTypeToDataType(e) == Some(DayTimeInterval)
    ensures e.code == 22 ==> ProtoTypeToDataType(e) == Some(Decimal(e.precision, e.scale))
  {
  }

  // ---------------------------------------------------------------- messages

  function NumOf(s: Slot): int { if s.Num? then s.v else 0 }

  function ExtTypeOf(m: Message): ExtType
    requires |m.slots| == 8
  {
    ExtType(NumOf(m.slots[0]), NumOf(m.slots[2]), NumOf(m.slots[3]), NumOf(m.slots[5]), NumOf(m.slots[7]))
  }

  /** ProtoTypeToField: no type reads as the default instance, that is, as NONE; no nullable as true. */
  function FieldOf(m: Message): ArrowField
    requires Shape(Field, m)
  {
    var ext := if m.slots[1].One? then m.slots[1].m else Empty(ExtGandivaType);
    assert SlotShape(Fields(Field)[1].kind, m.slots[1]);
    ArrowField(if m.slots[0].Blob? then m.slots[0].b else [],
               ProtoTypeToDataType(ExtTypeOf(ext)),
               if m.slots[2].Num? then m.slots[2].v != 0 else true)
  }

  /** The slot of the field with this number. */
  function Numbered(t: MessageType, m: Message, num: nat): Slot
    requires |m.slots| == |Fields(t)|
  {
    NumberedFrom(t, m, num, |Fields(t)|)
  }

  function NumberedFrom(t: MessageType, m: Message, num: nat, n: nat): Slot
    requires n <= |m.slots| == |Fields(t)|
  {
    if n == 0 then Absent
    else if Fields(t)[n - 1].num == num then m.slots[n - 1]
    else NumberedFrom(t, m, num, n - 1)
  }

  lemma {:induction false} NumberedAt(t: MessageType, m: Message, i: nat, n: nat)
    requires i < n <= |m.slots| == |Fields(t)|
    ensures NumberedFrom(t, m, Fields(t)[i].num, n) == m.slots[i]
  {
    TableOk(t);
    if i < n - 1 {
      NumberedAt(t, m, i, n - 1);
    }
  }

  /** What a column is read from, by field numbers: its name from field 1, its type from field 2, or from
      the default instance when it has none, nullable from field 3; of the type the number from field 1,
      precision and scale from 3 and 4, time unit from 6, interval type from 8. */
  lemma {:induction false} ColumnByNumbers(m: Message)
    requires Shape(Field, m)
    ensures var name, ty, nullable := Numbered(Field, m, 1), Numbered(Field, m, 2), Numbered(Field, m, 3);
            && FieldOf(m).name == (if name.Blob? then name.b else [])
            && FieldOf(m).nullable == (nullable.Num? ==> nullable.v != 0)
            && (ty.One? ==> Shape(ExtGandivaType, ty.m) && FieldOf(m).ty == TypeByNumbers(ty.m))
            && (!ty.One? ==> FieldOf(m).ty == Some(NA))
  {
    FieldRows();
    NumberedAt(Field, m, 0, 4);
    NumberedAt(Field, m, 1, 4);
    NumberedAt(Field, m, 2, 4);
    assert SlotShape(Fields(Field)[1].kind, m.slots[1]);
    if m.slots[1].One? {
      TypeNumbers(m.slots[1].m);
    }
  }

  function TypeByNumbers(m: Message): Option<ArrowType>
    requires Shape(ExtGandivaType, m)
  {
    ProtoTypeToDataType(ExtType(code := NumOf(Numbered(ExtGandivaType, m, 1)),
                                precision := NumOf(Numbered(ExtGandivaType, m, 3)),
                                scale := NumOf(Numbered(ExtGandivaType, m, 4)),
                                timeUnit := NumOf(Numbered(ExtGandivaType, m, 6)),
                                intervalType := NumOf(Numbered(ExtGandivaType, m, 8))))
  }

  lemma {:induction false} TypeNumbers(m: Message)
    requires Shape(ExtGandivaType, m)
    ensures TypeByNumbers(m) == ProtoTypeToDataType(ExtTypeOf(m))
  {
    FieldRows();
    hide ProtoTypeToDataType;
    NumberedAt(ExtGandivaType, m, 0, 8);
    NumberedAt(ExtGandivaType, m, 2, 8);
    NumberedAt(ExtGandivaType, m, 3, 8);
    NumberedAt(ExtGandivaType, m, 5, 8);
    NumberedAt(ExtGandivaType, m, 7, 8);
  }

  /** A column without a type is a column of nothing, not one without a type. */
  lemma {:induction false} TypelessIsNone(m: Message)
    requires Shape(Field, m) && m.slots[1] == Absent
    ensures FieldOf(m).ty == Some(NA)
  {
    FieldRows();
  }

  function FieldsOf(ms: seq<Message>): (r: seq<ArrowField>)
    requires forall i :: 0 <= i < |ms| ==> Shape(Field, ms[i])
    ensures |r| == |ms| && forall i :: 0 <= i < |ms| ==> r[i] == FieldOf(ms[i])
  {
    seq(|ms|, i requires 0 <= i < |ms| => FieldOf(ms[i]))
  }

  function SchemaOf(m: Message): seq<ArrowField>
    requires Shape(Schema, m)
  {
    assert SlotShape(Fields(Schema)[0].kind, m.slots[0]);
    FieldsOf(m.slots[0].ms)
  }

  // ---------------------------------------------------------------- the code

  lemma SchemaRows()
    ensures |Fields(Schema)| == 1 && Fields(Schema)[0].kind == KRepeated(Field)
  {
  }

  lemma FieldRows()
    ensures |Fields(Field)| == 4 && Fields(Field)[0].kind == KString
    ensures Fields(Field)[1].kind == KMessage(ExtGandivaType) && Fields(Field)[2].kind == KBool
    ensures Fields(Field)[3].kind == KRepeated(Field)
    ensures |Fields(ExtGandivaType)| == 8
    ensures forall i :: 0 <= i < 8 && i != 6 ==> IsScalar(Fields(ExtGandivaType)[i].kind)
    ensures Empty(ExtGandivaType).slots == [Absent, Absent, Absent, Absent, Absent, Absent, Absent, Absent]
  {
  }

  method ReadExtType(ext: MessageObject?) returns (e: ExtType)
    requires ext != null ==> ext.Valid() && ext.t == ExtGandivaType
    ensures ext == null ==> e == ExtTypeOf(Empty(ExtGandivaType))
    ensures ext != null ==> |ext.Model.slots| == 8 && e == ExtTypeOf(ext.Model)
  {
    hide Fields, HasBit, CellMatches, Empty;
    FieldRows();
    e := ExtType(0, 0, 0, 0, 0);
    if ext != null {
      e := ExtType(ext.GetScalar(0), ext.GetScalar(2), ext.GetScalar(3), ext.GetScalar(5), ext.GetScalar(7));
    }
  }

  method ProtoTypeToField(f: MessageObject) returns (r: ArrowField)
    requires f.Valid() && f.t == Field
    ensures Shape(Field, f.Model) && r == FieldOf(f.Model)
  {
    hide Fields, HasBit, Empty, ProtoTypeToDataType, ExtTypeOf, CellMatches;
    ShapeOk(f);
    FieldRows();
    f.HasTells(2);
    var name := f.GetText(0);
    var e := ReadExtType(f.GetMessage(1));
    var nullable := true;
    if f.Has(2) {
      nullable := f.GetScalar(2) != 0;
    }
    r := ArrowField(name, ProtoTypeToDataType(e), nullable);
  }

  /** The null check of the source is on the field, which is never null, so no column is ever refused. */
  method ProtoTypeToSchema(schema: MessageObject) returns (fields: seq<ArrowField>)
    requires schema.Valid() && schema.t == Schema
    ensures Shape(Schema, schema.Model) && fields == SchemaOf(schema.Model)
  {
    hide Fields, HasBit, FieldOf, CellMatches;
    ShapeOk(schema);
    SchemaRows();
    schema.FieldOk(0);
    ghost var ms := schema.Model.slots[0].ms;
    var columns := schema.cells[0].ps;
    fields := [];
    var i := 0;
    while i < |columns|
      invariant 0 <= i <= |columns| == |ms| && |fields| == i
      invariant forall j :: 0 <= j < i ==> Shape(Field, ms[j]) && fields[j] == FieldOf(ms[j])
    {
      var field := ProtoTypeToField(columns[i]);
      fields := fields + [field];
      i := i + 1;
    }
  }

  method ReadSchemaFromProtobufBytes(bytes: seq<byte>) returns (r: Option<seq<ArrowField>>)
    ensures r.None? <==> ParseTop(Schema, bytes).Failed?
    ensures r.Some? ==> Shape(Schema, ParseTop(Schema, bytes).m) && r.value == SchemaOf(ParseTop(Schema, bytes).m)
  {
    hide Fields, HasBit, CellMatches, Parse, Empty;
    var schema := new MessageObject(Schema);
    var ok, rest := schema.MergePartialFromCodedStream(bytes, RECURSION_LIMIT);
    if !ok { return None; }
    var fields := ProtoTypeToSchema(schema);
    r := Some(fields);
  }

  // ---------------------------------------------------------------- end to end

  /** A column as a writer sees it. Time zones and children are written, and dropped by the decoder. */
  datatype Column = Column(name: seq<byte>, ty: ArrowType, nullable: Option<bool>,
                           zone: Option<seq<byte>>, children: seq<Message>)

  predicate Writable(c: Column) {
    && Exists(c.ty) && |c.name| <= INT_MAX
    && (c.zone.Some? ==> |c.zone.value| <= INT_MAX)
    && forall i :: 0 <= i < |c.children| ==> Good(Field, c.children[i], RECURSION_LIMIT - 2)
  }

  function NumSlot(there: bool, v: int): Slot { if there then Num(v) else Absent }

  function EncodeType(ty: ArrowType, zone: Option<seq<byte>>): (m: Message)
    ensures |m.slots| == 8
  {
    Message([Num(CodeOf(ty)),
             Absent,
             NumSlot(ty.Decimal?, if ty.Decimal? then ty.precision else 0),
             NumSlot(ty.Decimal?, if ty.Decimal? then ty.scale else 0),
             Absent,
             NumSlot(HasUnit(ty), if HasUnit(ty) then UnitCode(ty.unit) else 0),
             if zone.Some? then Blob(zone.value) else Absent,
             NumSlot(ty == MonthInterval || ty == DayTimeInterval, if ty == DayTimeInterval then 1 else 0)],
            [])
  }

  function EncodeField(c: Column): Message {
    Message([Blob(c.name),
             One(EncodeType(c.ty, c.zone)),
             NumSlot(c.nullable.Some?, if c.nullable == Some(true) then 1 else 0),
             Many(c.children)],
            [])
  }

  function EncodeFields(cs: seq<Column>): (ms: seq<Message>)
    ensures |ms| == |cs| && forall i :: 0 <= i < |cs| ==> ms[i] == EncodeField(cs[i])
  {
    seq(|cs|, i requires 0 <= i < |cs| => EncodeField(cs[i]))
  }

  function EncodeSchema(cs: seq<Column>): Message { Message([Many(EncodeFields(cs))], []) }

  lemma EncodedTypeDecodes(ty: ArrowType, zone: Option<seq<byte>>)
    requires Exists(ty)
    ensures ProtoTypeToDataType(ExtTypeOf(EncodeType(ty, zone))) == Some(ty)
  {
    hide ProtoTypeToDataType, EncodeType, ExtTypeOf, Names, Exists;
    EncodedTypeNames(ty, zone);
    DataTypeExact(ExtTypeOf(EncodeType(ty, zone)), ty);
  }

  lemma EncodedTypeNames(ty: ArrowType, zone: Option<seq<byte>>)
    requires Exists(ty)
    ensures var e := ExtTypeOf(EncodeType(ty, zone));
            Names(e, ty) && -TWO31 <= e.precision < TWO31 && -TWO31 <= e.scale < TWO31
  {
    hide CodeOf, UnitCode;
  }

  lemma {:induction false} EncodedTypeGood(ty: ArrowType, zone: Option<seq<byte>>, depth: nat)
    requires Exists(ty) && (zone.Some? ==> |zone.value| <= INT_MAX)
    ensures Good(ExtGandivaType, EncodeType(ty, zone), depth)
  {
    hide Fields, Good, CodeOf, UnitCode, NumSlot, GoodSlot;
    var m := EncodeType(ty, zone);
    CodesFit(ty);
    NumSlotGood(KEnum(28), true, CodeOf(ty), depth);
    assert m.slots[0] == NumSlot(true, CodeOf(ty)) by { NumSlotThere(CodeOf(ty)); }
    NumSlotGood(KInt32, ty.Decimal?, if ty.Decimal? then ty.precision else 0, depth);
    NumSlotGood(KInt32, ty.Decimal?, if ty.Decimal? then ty.scale else 0, depth);
    NumSlotGood(KEnum(4), HasUnit(ty), if HasUnit(ty) then UnitCode(ty.unit) else 0, depth);
    NumSlotGood(KEnum(2), ty == MonthInterval || ty == DayTimeInterval, if ty == DayTimeInterval then 1 else 0, depth);
    OtherSlotGood(KUInt32, Absent, depth);
    OtherSlotGood(KEnum(2), Absent, depth);
    OtherSlotGood(KString, m.slots[6], depth);
    TypeGood(m, depth);
  }

  lemma {:induction false} OtherSlotGood(k: Kind, s: Slot, depth: nat)
    requires !k.KRepeated? && (s == Absent || (k.KString? && s.Blob? && |s.b| <= INT_MAX))
    ensures GoodSlot(k, s, depth)
  {
  }

  lemma NumSlotThere(v: int)
    ensures NumSlot(true, v) == Num(v)
  {
  }

  lemma {:induction false} NumSlotGood(k: Kind, there: bool, v: int, depth: nat)
    requires IsScalar(k) && (there ==> InRange(k, v))
    ensures GoodSlot(k, NumSlot(there, v), depth)
  {
  }

  lemma CodesFit(ty: ArrowType)
    ensures CodeOf(ty) < 28 && (HasUnit(ty) ==> UnitCode(ty.unit) < 4)
  {
  }

  lemma {:induction false} TypeGood(m: Message, depth: nat)
    requires |m.slots| == 8 && m.unknown == []
    requires GoodSlot(KEnum(28), m.slots[0], depth) && GoodSlot(KUInt32, m.slots[1], depth)
    requires GoodSlot(KInt32, m.slots[2], depth) && GoodSlot(KInt32, m.slots[3], depth)
    requires GoodSlot(KEnum(2), m.slots[4], depth) && GoodSlot(KEnum(4), m.slots[5], depth)
    requires GoodSlot(KString, m.slots[6], depth) && GoodSlot(KEnum(2), m.slots[7], depth)
    ensures Good(ExtGandivaType, m, depth)
  {
    hide Fields, GoodSlot, UnknownFor;
    TypeRows();
    forall i | 0 <= i < |m.slots|
      ensures GoodSlot(Fields(ExtGandivaType)[i].kind, m.slots[i], depth)
    {
      assert i == 0 || i == 1 || i == 2 || i == 3 || i == 4 || i == 5 || i == 6 || i == 7;
    }
  }

  lemma TypeRows()
    ensures |Fields(ExtGandivaType)| == 8
    ensures Fields(ExtGandivaType)[0].kind == KEnum(28) && Fields(ExtGandivaType)[1].kind == KUInt32
    ensures Fields(ExtGandivaType)[2].kind == KInt32 && Fields(ExtGandivaType)[3].kind == KInt32
    ensures Fields(ExtGandivaType)[4].kind == KEnum(2) && Fields(ExtGandivaType)[5].kind == KEnum(4)
    ensures Fields(ExtGandivaType)[6].kind == KString && Fields(ExtGandivaType)[7].kind == KEnum(2)
  {
  }

  lemma EncodedFieldGood(c: Column)
    requires Writable(c)
    ensures Good(Field, EncodeField(c), RECURSION_LIMIT - 1)
  {
    hide Fields, EncodeType, InRange;
    var m, depth := EncodeField(c), RECURSION_LIMIT - 1;
    FieldRows();
    EncodedTypeGood(c.ty, c.zone, depth - 1);
    assert GoodSlot(KString, m.slots[0], depth) && GoodSlot(KMessage(ExtGandivaType), m.slots[1], depth);
    assert GoodSlot(KBool, m.slots[2], depth) by { BoolInRange(c); }
    assert GoodSlot(KRepeated(Field), m.slots[3], depth);
  }

  lemma BoolInRange(c: Column)
    ensures GoodSlot(KBool, EncodeField(c).slots[2], 0) && InRange(KBool, 0) && InRange(KBool, 1)
  {
  }

  lemma EncodedFieldDecodes(c: Column)
    requires Writable(c)
    ensures Shape(Field, EncodeField(c))
    ensures FieldOf(EncodeField(c)) ==
            ArrowField(c.name, Some(c.ty), if c.nullable.Some? then c.nullable.value else true)
  {
    hide Fields, EncodeType, ProtoTypeToDataType, ExtTypeOf;
    EncodedFieldGood(c);
    GoodShape(Field, EncodeField(c), RECURSION_LIMIT - 1);
    EncodedTypeDecodes(c.ty, c.zone);
  }

  lemma EncodedSchemaGood(cs: seq<Column>)
    requires forall i :: 0 <= i < |cs| ==> Writable(cs[i])
    ensures Good(Schema, EncodeSchema(cs), RECURSION_LIMIT)
  {
    hide Fields, EncodeField, Writable, Good;
    SchemaRows();
    forall i | 0 <= i < |cs|
      ensures Good(Field, EncodeField(cs[i]), RECURSION_LIMIT - 1)
    {
      EncodedFieldGood(cs[i]);
    }
    assert GoodSlot(KRepeated(Field), Many(EncodeFields(cs)), RECURSION_LIMIT);
    OneSlotGood(EncodeFields(cs));
  }

  lemma OneSlotGood(ms: seq<Message>)
    requires GoodSlot(KRepeated(Field), Many(ms), RECURSION_LIMIT)
    ensures Good(Schema, Message([Many(ms)], []), RECURSION_LIMIT)
  {
    hide Fields;
    SchemaRows();
  }

  /** End to end: whatever columns are written, what is decoded from the bytes is one field per column,
      in order, of the same name and type, nullable unless the writer said otherwise. */
  lemma DecodeUndoesEncode(cs: seq<Column>)
    requires forall i :: 0 <= i < |cs| ==> Writable(cs[i])
    requires |Serialize(Schema, EncodeSchema(cs))| <= INT_MAX
    ensures var o := ParseTop(Schema, Serialize(Schema, EncodeSchema(cs)));
            && o.Done? && Shape(Schema, o.m)
            && |SchemaOf(o.m)| == |cs|
            && forall i :: 0 <= i < |cs| ==>
                 SchemaOf(o.m)[i] == ArrowField(cs[i].name, Some(cs[i].ty),
                                                if cs[i].nullable.Some? then cs[i].nullable.value else true)
  {
    hide Fields, EncodeField, Writable, Good, Serialize, ParseTop, FieldOf;
    var m := EncodeSchema(cs);
    EncodedSchemaGood(cs);
    ParseUndoesSerialize(Schema, m);
    GoodShape(Schema, m, RECURSION_LIMIT);
    forall i | 0 <= i < |cs|
      ensures Shape(Field, EncodeField(cs[i]))
      ensures FieldOf(EncodeField(cs[i])) == ArrowField(cs[i].name, Some(cs[i].ty),
                                                if cs[i].nullable.Some? then cs[i].nullable.value else true)
    {
      EncodedFieldDecodes(cs[i]);
    }
  }

  /** Six bytes of a schema with one column of type FIXED_SIZE_BINARY. */
  const UNSUPPORTED: seq<byte> := [10, 4, 18, 2, 8, 15]

  function UnsupportedType(): Message {
    Message([Num(15), Absent, Absent, Absent, Absent, Absent, Absent, Absent], [])
  }

  function UnsupportedColumn(): Message { Message([Absent, One(UnsupportedType()), Absent, Many([])], []) }

  lemma UnsupportedTypeBytes()
    ensures Serialize(ExtGandivaType, UnsupportedType()) == [8, 15]
  {
    hide Fields, Serialize, FieldRecords;
    TypeRows();
    FirstNumbers();
    var m, r := UnsupportedType(), VarintRecord(1, 15);
    OnlySlot(ExtGandivaType, m, 0, 8);
    assert SlotRecords(Fields(ExtGandivaType)[0], m.slots[0]) == [r];
    OneRecordBytes(ExtGandivaType, m, r);
    assert Varint(8) == [8] && Varint(15) == [15];
  }

  lemma FirstNumbers()
    ensures Fields(ExtGandivaType)[0].num == 1 && Fields(Field)[1].num == 2 && Fields(Schema)[0].num == 1
  {
  }

  lemma UnsupportedColumnRecords()
    ensures FieldRecords(Field, UnsupportedColumn(), |Fields(Field)|) == [BytesRecord(2, [8, 15])]
  {
    hide Fields, Serialize;
    FieldRows();
    FirstNumbers();
    UnsupportedTypeBytes();
    var m, r := UnsupportedColumn(), BytesRecord(2, [8, 15]);
    assert FieldRecords(Field, m, 0) == [] && FieldRecords(Field, m, 1) == [];
    assert FieldRecords(Field, m, 2) == [r] && FieldRecords(Field, m, 3) == [r];
  }

  lemma UnsupportedColumnBytes()
    ensures Serialize(Field, UnsupportedColumn()) == [18, 2, 8, 15]
  {
    hide Fields, Serialize;
    FieldRows();
    FirstNumbers();
    UnsupportedTypeBytes();
    var m, r := UnsupportedColumn(), BytesRecord(2, [8, 15]);
    UnsupportedColumnRecords();
    OneRecordBytes(Field, m, r);
    assert Varint(18) == [18] && Varint(2) == [2];
    assert RecordBytes(r) == [18] + ([2] + [8, 15]);
  }

  lemma {:induction false} OneRecordBytes(t: MessageType, m: Message, r: Record)
    requires FieldRecords(t, m, |Fields(t)|) == [r] && m.unknown == []
    ensures Serialize(t, m) == RecordBytes(r)
  {
    hide Fields, FieldRecords;
    assert Records(t, m) == [r];
    BytesOne(r);
  }

  lemma UnsupportedSchemaBytes()
    ensures Serialize(Schema, Message([Many([UnsupportedColumn()])], [])) == UNSUPPORTED
  {
    hide Fields, Serialize, UnsupportedColumn;
    SchemaRows();
    FirstNumbers();
    UnsupportedColumnBytes();
    var m := Message([Many([UnsupportedColumn()])], []);
    var r := BytesRecord(1, [18, 2, 8, 15]);
    assert FieldRecords(Schema, m, 0) == [];
    assert SlotRecords(Fields(Schema)[0], m.slots[0]) == [r];
    assert FieldRecords(Schema, m, 1) == [r];
    OneRecordBytes(Schema, m, r);
    assert Varint(10) == [10] && Varint(4) == [4];
    assert RecordBytes(r) == [10] + ([4] + [18, 2, 8, 15]);
  }

  lemma UnsupportedColumnGood()
    ensures Good(Field, UnsupportedColumn(), RECURSION_LIMIT - 1)
  {
    hide Fields, Good, UnsupportedType;
    var column, depth := UnsupportedColumn(), RECURSION_LIMIT - 1;
    UnsupportedTypeGood(depth - 1);
    assert GoodSlot(KString, column.slots[0], depth) && GoodSlot(KMessage(ExtGandivaType), column.slots[1], depth);
    assert GoodSlot(KBool, column.slots[2], depth) && GoodSlot(KRepeated(Field), column.slots[3], depth);
    ColumnGood(column, depth);
  }

  lemma {:induction false} UnsupportedTypeGood(depth: nat)
    ensures Good(ExtGandivaType, UnsupportedType(), depth)
  {
    hide Fields, Good;
    TypeGood(UnsupportedType(), depth);
  }

  lemma {:induction false} ColumnGood(m: Message, depth: nat)
    requires |m.slots| == 4 && m.unknown == []
    requires GoodSlot(KString, m.slots[0], depth) && GoodSlot(KMessage(ExtGandivaType), m.slots[1], depth)
    requires GoodSlot(KBool, m.slots[2], depth) && GoodSlot(KRepeated(Field), m.slots[3], depth)
    ensures Good(Field, m, depth)
  {
    hide Fields, GoodSlot, UnknownFor;
    FieldRows();
  }

  lemma UnsupportedGood()
    ensures Good(Schema, Message([Many([UnsupportedColumn()])], []), RECURSION_LIMIT)
  {
    hide Fields, Good, UnsupportedColumn;
    UnsupportedColumnGood();
    assert GoodSlot(KRepeated(Field), Many([UnsupportedColumn()]), RECURSION_LIMIT);
    OneSlotGood([UnsupportedColumn()]);
  }

  /** A column of an unsupported type is not refused: it comes out with a null type. */
  lemma UnsupportedIsNotRefused()
    ensures var o := ParseTop(Schema, UNSUPPORTED);
            && o.Done? && Shape(Schema, o.m)
            && SchemaOf(o.m) == [ArrowField([], None, true)]
  {
    hide Fields, Serialize, Parse, Good, Shape;
    var m := Message([Many([UnsupportedColumn()])], []);
    UnsupportedSchemaBytes();
    UnsupportedGood();
    ParseUndoesSerialize(Schema, m);
    GoodShape(Schema, m, RECURSION_LIMIT);
  }
}
