/** The message types of Types_.proto as tables, one row per `case` of the generated parser, and
    message values: one slot per field (the has-bit and its contents) plus unknown fields. */
module Messages {
  import opened Wire

  datatype MessageType =
    | ExtGandivaType | Field | FieldNode | FunctionNode | IfNode | AndNode | OrNode | NullNode
    | IntNode | FloatNode | DoubleNode | BooleanNode | LongNode | StringNode | BinaryNode
    | DecimalNode | TreeNode | ExpressionRoot | ExpressionList | Condition | Schema
    | GandivaDataTypes | GandivaFunctions | FunctionSignature | InNode
    | IntConstants | LongConstants | StringConstants | BinaryConstants

  /** How a field is read and written. An enum knows the number of its values, which start at 0. */
  datatype Kind =
    | KEnum(values: nat)
    | KUInt32 | KInt32 | KInt64 | KBool
    | KFloat | KDouble
    | KString
    | KMessage(t: MessageType)
    | KRepeated(t: MessageType)

  datatype FieldRow = FieldRow(num: nat, kind: Kind)

  function Fields(t: MessageType): seq<FieldRow> {
    match t
    case ExtGandivaType => [
      FieldRow(1, KEnum(28)), FieldRow(2, KUInt32), FieldRow(3, KInt32), FieldRow(4, KInt32),
      FieldRow(5, KEnum(2)), FieldRow(6, KEnum(4)), FieldRow(7, KString), FieldRow(8, KEnum(2))]
    case Field => [
      FieldRow(1, KString), FieldRow(2, KMessage(ExtGandivaType)), FieldRow(3, KBool),
      FieldRow(4, KRepeated(Field))]
    case FieldNode => [FieldRow(1, KMessage(Field))]
    case FunctionNode => [
      FieldRow(1, KString), FieldRow(2, KRepeated(TreeNode)), FieldRow(3, KMessage(ExtGandivaType))]
    case IfNode => [
      FieldRow(1, KMessage(TreeNode)), FieldRow(2, KMessage(TreeNode)), FieldRow(3, KMessage(TreeNode)),
      FieldRow(4, KMessage(ExtGandivaType))]
    case AndNode => [FieldRow(1, KRepeated(TreeNode))]
    case OrNode => [FieldRow(1, KRepeated(TreeNode))]
    case NullNode => [FieldRow(1, KMessage(ExtGandivaType))]
    case IntNode => [FieldRow(1, KInt32)]
    case FloatNode => [FieldRow(1, KFloat)]
    case DoubleNode => [FieldRow(1, KDouble)]
    case BooleanNode => [FieldRow(1, KBool)]
    case LongNode => [FieldRow(1, KInt64)]
    case StringNode => [FieldRow(1, KString)]
    case BinaryNode => [FieldRow(1, KString)]
    case DecimalNode => [FieldRow(1, KString), FieldRow(2, KInt32), FieldRow(3, KInt32)]
    case TreeNode => [
      FieldRow(1, KMessage(FieldNode)), FieldRow(2, KMessage(FunctionNode)), FieldRow(6, KMessage(IfNode)),
      FieldRow(7, KMessage(AndNode)), FieldRow(8, KMessage(OrNode)), FieldRow(11, KMessage(NullNode)),
      FieldRow(12, KMessage(IntNode)), FieldRow(13, KMessage(FloatNode)), FieldRow(14, KMessage(LongNode)),
      FieldRow(15, KMessage(BooleanNode)), FieldRow(16, KMessage(DoubleNode)), FieldRow(17, KMessage(StringNode)),
      FieldRow(18, KMessage(BinaryNode)), FieldRow(19, KMessage(DecimalNode)), FieldRow(21, KMessage(InNode))]
    case ExpressionRoot => [FieldRow(1, KMessage(TreeNode)), FieldRow(2, KMessage(Field))]
    case ExpressionList => [FieldRow(2, KRepeated(ExpressionRoot))]
    case Condition => [FieldRow(1, KMessage(TreeNode))]
    case Schema => [FieldRow(1, KRepeated(Field))]
    case GandivaDataTypes => [FieldRow(1, KRepeated(ExtGandivaType))]
    case GandivaFunctions => [FieldRow(1, KRepeated(FunctionSignature))]
    case FunctionSignature => [
      FieldRow(1, KString), FieldRow(2, KMessage(ExtGandivaType)), FieldRow(3, KRepeated(ExtGandivaType))]
    case InNode => [
      FieldRow(1, KMessage(FieldNode)), FieldRow(2, KMessage(IntConstants)), FieldRow(3, KMessage(LongConstants)),
      FieldRow(4, KMessage(StringConstants)), FieldRow(5, KMessage(BinaryConstants))]
    case IntConstants => [FieldRow(1, KRepeated(IntNode))]
    case LongConstants => [FieldRow(1, KRepeated(LongNode))]
    case StringConstants => [FieldRow(1, KRepeated(StringNode))]
    case BinaryConstants => [FieldRow(1, KRepeated(BinaryNode))]
  }

  /** The argument of ReadTagWithCutoffNoLastTag: tags above it go straight to the unknown fields. */
  function Cutoff(t: MessageType): nat { if t == TreeNode then 16383 else 127 }

  function KindWireType(k: Kind): nat {
    match k
    case KFloat => 5
    case KDouble => 1
    case KString => 2
    case KMessage(_) => 2
    case KRepeated(_) => 2
    case _ => 0
  }

  function RowTag(row: FieldRow): nat { MakeTag(row.num, KindWireType(row.kind)) }

  /** The switch of the parser: the row whose number is the tag's and whose low tag byte matches. */
  function LookupFrom(t: MessageType, tag: nat, i: nat): (r: Option<nat>)
    requires i <= |Fields(t)|
    ensures r.Some? ==> i <= r.value < |Fields(t)| && Fields(t)[r.value].num == tag / 8
                        && RowTag(Fields(t)[r.value]) % 256 == tag % 256
    ensures r.None? ==> forall j :: i <= j < |Fields(t)| ==>
              !(Fields(t)[j].num == tag / 8 && RowTag(Fields(t)[j]) % 256 == tag % 256)
    decreases |Fields(t)| - i
  {
    if i == |Fields(t)| then None
    else if Fields(t)[i].num == tag / 8 && RowTag(Fields(t)[i]) % 256 == tag % 256 then Some(i)
    else LookupFrom(t, tag, i + 1)
  }

  function Lookup(t: MessageType, tag: nat): Option<nat> {
    if 1 <= tag <= Cutoff(t) then LookupFrom(t, tag, 0) else None
  }

  lemma TagsFit(t: MessageType)
    ensures forall i :: 0 <= i < |Fields(t)| ==> 1 <= Fields(t)[i].num <= 21 && RowTag(Fields(t)[i]) <= Cutoff(t)
  {
    match t
    case ExtGandivaType => case Field => case FieldNode => case FunctionNode => case IfNode =>
    case AndNode => case OrNode => case NullNode => case IntNode => case FloatNode => case DoubleNode =>
    case BooleanNode => case LongNode => case StringNode => case BinaryNode => case DecimalNode =>
    case TreeNode => case ExpressionRoot => case ExpressionList => case Condition => case Schema =>
    case GandivaDataTypes => case GandivaFunctions => case FunctionSignature => case InNode =>
    case IntConstants => case LongConstants => case StringConstants => case BinaryConstants =>
  }

  lemma NumbersAscend(t: MessageType)
    ensures forall i, j :: 0 <= i < j < |Fields(t)| ==> Fields(t)[i].num < Fields(t)[j].num
  {
    match t
    case ExtGandivaType => case Field => case FieldNode => case FunctionNode => case IfNode =>
    case AndNode => case OrNode => case NullNode => case IntNode => case FloatNode => case DoubleNode =>
    case BooleanNode => case LongNode => case StringNode => case BinaryNode => case DecimalNode =>
    case TreeNode => case ExpressionRoot => case ExpressionList => case Condition => case Schema =>
    case GandivaDataTypes => case GandivaFunctions => case FunctionSignature => case InNode =>
    case IntConstants => case LongConstants => case StringConstants => case BinaryConstants =>
  }

  /** Field numbers ascend and fit, and every tag of the table is within the cutoff. */
  lemma TableOk(t: MessageType)
    ensures forall i :: 0 <= i < |Fields(t)| ==> 1 <= Fields(t)[i].num <= 21 && RowTag(Fields(t)[i]) <= Cutoff(t)
    ensures forall i, j :: 0 <= i < j < |Fields(t)| ==> Fields(t)[i].num < Fields(t)[j].num
  {
    hide Fields, Cutoff, RowTag;
    TagsFit(t);
    NumbersAscend(t);
  }

  lemma LowByte(num: nat, wireType: nat, tag: nat)
    requires wireType < 8
    ensures num == tag / 8 && MakeTag(num, wireType) % 256 == tag % 256 <==> tag == MakeTag(num, wireType)
  {
    var own := MakeTag(num, wireType);
    if num == tag / 8 && own % 256 == tag % 256 {
      assert own - tag == 256 * (own / 256 - tag / 256);
      assert -8 < own - tag < 8;
    }
  }

  lemma LowByteDecides(row: FieldRow, tag: nat)
    ensures row.num == tag / 8 && RowTag(row) % 256 == tag % 256 <==> tag == RowTag(row)
  {
    LowByte(row.num, KindWireType(row.kind), tag);
  }

  /** The number and low-byte test of the switch accepts a tag exactly when it is the row's own tag. */
  lemma LookupExact(t: MessageType, tag: nat, i: nat)
    requires i < |Fields(t)|
    ensures Lookup(t, tag) == Some(i) <==> tag == RowTag(Fields(t)[i])
  {
    TableOk(t);
    hide Fields;
    var rows := Fields(t);
    LowByteDecides(rows[i], tag);
    var r := LookupFrom(t, tag, 0);
    if r.Some? {
      LowByteDecides(rows[r.value], tag);
    }
  }

  // ---------------------------------------------------------------- values

  datatype Slot =
    | Absent
    | Num(v: int)
    | Blob(b: seq<byte>)
    | One(m: Message)
    | Many(ms: seq<Message>)

  datatype Message = Message(slots: seq<Slot>, unknown: seq<Record>)

  function EmptySlot(k: Kind): Slot { if k.KRepeated? then Many([]) else Absent }

  function Empty(t: MessageType): (m: Message)
    ensures |m.slots| == |Fields(t)|
  {
    Message(seq(|Fields(t)|, i requires 0 <= i < |Fields(t)| => EmptySlot(Fields(t)[i].kind)), [])
  }

  // ---------------------------------------------------------------- scalars

  predicate IsScalar(k: Kind) { !k.KString? && !k.KMessage? && !k.KRepeated? }

  predicate InRange(k: Kind, v: int) {
    match k
    case KEnum(values) => 0 <= v < values
    case KUInt32 => 0 <= v < TWO32
    case KInt32 => -TWO31 <= v < TWO31
    case KInt64 => -0x8000_0000_0000_0000 <= v < 0x8000_0000_0000_0000
    case KBool => 0 <= v <= 1
    case KFloat => 0 <= v < TWO32       // the bit pattern
    case KDouble => 0 <= v < TWO64      // the bit pattern
    case _ => false
  }

  function Signed32(w: nat): int { if w % TWO32 < TWO31 then w % TWO32 else w % TWO32 - TWO32 }

  function Signed64(w: nat): int {
    if w % TWO64 < 0x8000_0000_0000_0000 then w % TWO64 else w % TWO64 - TWO64
  }

  /** `static_cast<uint64>`: negative values are sign-extended to ten bytes. */
  function Unsigned64(v: int): (w: nat)
    ensures w < TWO64
  {
    v % TWO64
  }

  /** ReadPrimitive; nothing when an enum value is out of range. */
  function FromWire(k: Kind, w: nat): (r: Option<int>) {
    match k
    case KEnum(values) => if 0 <= Signed32(w) < values then Some(Signed32(w)) else None
    case KUInt32 => Some(w % TWO32)
    case KInt32 => Some(Signed32(w))
    case KInt64 => Some(Signed64(w))
    case KBool => Some(if w != 0 then 1 else 0)
    case _ => Some(w)
  }

  predicate SmallEnum(k: Kind) { k.KEnum? ==> k.values <= 28 }

  lemma ScalarRoundTrip(k: Kind, v: int)
    requires IsScalar(k) && InRange(k, v) && SmallEnum(k)
    ensures FromWire(k, Unsigned64(v)) == Some(v)
  {
  }

  lemma FromWireInRange(k: Kind, w: nat)
    requires IsScalar(k) && (k == KFloat ==> w < TWO32) && (k == KDouble ==> w < TWO64)
    ensures FromWire(k, w).Some? ==> InRange(k, FromWire(k, w).value)
    ensures FromWire(k, w).None? ==> k.KEnum?
  {
  }

  // ---------------------------------------------------------------- merging

  function MergeSlot(x: Slot, y: Slot): Slot
    decreases y
  {
    match y
    case Absent => x
    case Num(_) => y
    case Blob(_) => y
    case One(n) => if x.One? then One(Merge(x.m, n)) else y
    case Many(ns) => if x.Many? then Many(x.ms + ns) else y
  }

  /** MergeFrom: present scalars and strings replace, sub-messages merge, repeated and unknown fields
      append. */
  function Merge(a: Message, b: Message): (m: Message)
    ensures |m.slots| == |b.slots|
    decreases b
  {
    Message(seq(|b.slots|, i requires 0 <= i < |b.slots| =>
                  if i < |a.slots| then MergeSlot(a.slots[i], b.slots[i]) else b.slots[i]),
            a.unknown + b.unknown)
  }

  /** Slots that can sit in a field of kind k: this is all that merging depends on. */
  predicate SlotShape(k: Kind, s: Slot)
    decreases s
  {
    match s
    case Absent => !k.KRepeated?
    case Num(_) => IsScalar(k)
    case Blob(_) => k.KString?
    case One(m) => k.KMessage? && Shape(k.t, m)
    case Many(ms) => k.KRepeated? && forall i :: 0 <= i < |ms| ==> Shape(k.t, ms[i])
  }

  predicate Shape(t: MessageType, m: Message)
    decreases m
  {
    |m.slots| == |Fields(t)| && forall i :: 0 <= i < |m.slots| ==> SlotShape(Fields(t)[i].kind, m.slots[i])
  }

  lemma {:induction false} EmptyShape(t: MessageType)
    ensures Shape(t, Empty(t))
  {
  }

  lemma {:induction false} MergeSlotShape(k: Kind, x: Slot, y: Slot)
    requires SlotShape(k, x) && SlotShape(k, y)
    ensures SlotShape(k, MergeSlot(x, y))
    decreases y
  {
    if x.One? && y.One? {
      MergeShape(k.t, x.m, y.m);
    }
  }

  lemma {:induction false} MergeShape(t: MessageType, a: Message, b: Message)
    requires Shape(t, a) && Shape(t, b)
    ensures Shape(t, Merge(a, b))
    decreases b
  {
    forall i | 0 <= i < |b.slots|
      ensures SlotShape(Fields(t)[i].kind, Merge(a, b).slots[i])
    {
      MergeSlotShape(Fields(t)[i].kind, a.slots[i], b.slots[i]);
    }
  }

  /** The empty message is a left identity. */
  lemma {:induction false} MergeEmptyLeft(t: MessageType, b: Message)
    requires Shape(t, b)
    ensures Merge(Empty(t), b) == b
  {
    forall i | 0 <= i < |b.slots|
      ensures Merge(Empty(t), b).slots[i] == b.slots[i]
    {
      assert SlotShape(Fields(t)[i].kind, b.slots[i]);
      if b.slots[i].Many? {
        assert [] + b.slots[i].ms == b.slots[i].ms;
      }
    }
    assert [] + b.unknown == b.unknown;
  }

  /** The empty message is a right identity. */
  lemma {:induction false} MergeEmptyRight(t: MessageType, a: Message)
    requires Shape(t, a)
    ensures Merge(a, Empty(t)) == a
  {
    forall i | 0 <= i < |a.slots|
      ensures Merge(a, Empty(t)).slots[i] == a.slots[i]
    {
      assert SlotShape(Fields(t)[i].kind, a.slots[i]);
      if a.slots[i].Many? {
        assert a.slots[i].ms + [] == a.slots[i].ms;
      }
    }
    assert a.unknown + [] == a.unknown;
  }

  lemma {:induction false} MergeSlotAssociative(k: Kind, x: Slot, y: Slot, z: Slot)
    requires SlotShape(k, x) && SlotShape(k, y) && SlotShape(k, z)
    ensures MergeSlot(MergeSlot(x, y), z) == MergeSlot(x, MergeSlot(y, z))
    decreases z
  {
    if z.One? && y.One? && x.One? {
      MergeAssociative(k.t, x.m, y.m, z.m);
    } else if z.Many? {
      assert x.ms + (y.ms + z.ms) == (x.ms + y.ms) + z.ms;
    }
  }

  /** MergeFrom is associative. */
  lemma {:induction false} MergeAssociative(t: MessageType, a: Message, b: Message, c: Message)
    requires Shape(t, a) && Shape(t, b) && Shape(t, c)
    ensures Merge(Merge(a, b), c) == Merge(a, Merge(b, c))
    decreases c
  {
    var l, r := Merge(Merge(a, b), c), Merge(a, Merge(b, c));
    forall i | 0 <= i < |c.slots|
      ensures l.slots[i] == r.slots[i]
    {
      MergeSlotAssociative(Fields(t)[i].kind, a.slots[i], b.slots[i], c.slots[i]);
    }
    assert (a.unknown + b.unknown) + c.unknown == a.unknown + (b.unknown + c.unknown);
  }

  /** The slot at the end of a path of fields through sub-messages. */
  function SlotAt(m: Message, path: seq<nat>): Slot
    decreases |path|
  {
    if path == [] || path[0] >= |m.slots| then Absent
    else if |path| == 1 then m.slots[path[0]]
    else if m.slots[path[0]].One? then SlotAt(m.slots[path[0]].m, path[1..])
    else Absent
  }

  /** The second slot wins where it is a scalar or a string; where it is absent the first one stays;
      elements are appended, and a sub-message is there when either has it. */
  predicate SecondWins(x: Slot, y: Slot, z: Slot) {
    && (y.Num? || y.Blob? ==> z == y)
    && (y.Absent? ==> z == x)
    && (y.Many? ==> z == Many((if x.Many? then x.ms else []) + y.ms))
    && (y.One? ==> z.One? && z.m.unknown == (if x.One? then x.m.unknown else []) + y.m.unknown)
  }

  lemma {:induction false} MergedSlot(k: Kind, x: Slot, y: Slot)
    requires SlotShape(k, x) && SlotShape(k, y)
    ensures SecondWins(x, y, MergeSlot(x, y))
  {
    NothingBefore(y);
  }

  lemma NothingBefore(y: Slot)
    ensures SecondWins(Absent, y, y)
  {
    if y.Many? { assert [] + y.ms == y.ms; }
    if y.One? { assert [] + y.m.unknown == y.m.unknown; }
  }

  /** So it is at any depth: what merging does to a slot at the end of any path. */
  lemma {:induction false} MergedSlotAt(t: MessageType, a: Message, b: Message, path: seq<nat>)
    requires Shape(t, a) && Shape(t, b)
    ensures SecondWins(SlotAt(a, path), SlotAt(b, path), SlotAt(Merge(a, b), path))
    decreases |path|
  {
    if path == [] || path[0] >= |b.slots| {
      NothingBefore(Absent);
    } else {
      var i, c := path[0], Merge(a, b);
      var k, x, y := Fields(t)[i].kind, a.slots[i], b.slots[i];
      assert SlotShape(k, x) && SlotShape(k, y) && c.slots[i] == MergeSlot(x, y);
      hide Fields, Merge, SecondWins;
      if |path| == 1 {
        MergedSlot(k, x, y);
      } else if x.One? && y.One? {
        MergedSlotAt(k.t, x.m, y.m, path[1..]);
      } else {
        NothingBefore(SlotAt(b, path));
        StaysAsItWas(SlotAt(a, path));
      }
    }
  }

  lemma StaysAsItWas(x: Slot)
    ensures SecondWins(x, Absent, x)
  {
  }
}
