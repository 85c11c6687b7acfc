/** The generated message classes as objects on the heap: a word of has-bits, fields that are reset
    selectively, and sub-messages that are allocated when first needed and owned by their parent. The
    classes are generated from one template and differ in their tables, so one class serves them all. */
module MessageObjects {
  import opened Wire
  import opened Messages
  import opened Codec
  import opened Sizes

  // ---------------------------------------------------------------- has-bits

  /** The number of the has-bit of field i: strings first, then sub-messages, then scalars. */
  function HasBit(t: MessageType, i: nat): nat
    requires i < |Fields(t)|
  {
    if t == ExtGandivaType then [1, 2, 3, 4, 5, 6, 0, 7][i]
    else if t == FunctionNode && i == 2 then 1
    else i
  }

  /** The masks under which Clear resets scalars: a shared one where several lie side by side, none
      where there is only one. */
  predicate ClearsScalar(t: MessageType, hasBits: set<nat>) {
    if t == ExtGandivaType then hasBits * {1, 2, 3, 4, 5, 6, 7} != {}
    else if t == DecimalNode then hasBits * {1, 2} != {}
    else true
  }

  predicate Optional(t: MessageType, i: nat)
    requires i < |Fields(t)|
  {
    !Fields(t)[i].kind.KRepeated?
  }

  predicate IsSet(t: MessageType, hasBits: set<nat>, i: nat)
    requires i < |Fields(t)|
  {
    Optional(t, i) && HasBit(t, i) in hasBits
  }

  /** No two optional fields share a has-bit, and all fit the 32-bit word. */
  lemma HasBitsDistinct(t: MessageType, i: nat, j: nat)
    requires i < |Fields(t)| && j < |Fields(t)| && i != j && Optional(t, i) && Optional(t, j)
    ensures HasBit(t, i) != HasBit(t, j)
    ensures HasBit(t, i) < 32
  {
    hide InRange;
    match t
    case ExtGandivaType => case FunctionNode => case TreeNode => case _ =>
  }

  /** The mask under which a scalar is reset contains its own has-bit. */
  lemma MaskCoversBit(t: MessageType, i: nat, hasBits: set<nat>)
    requires i < |Fields(t)| && IsScalar(Fields(t)[i].kind) && HasBit(t, i) in hasBits
    ensures ClearsScalar(t, hasBits)
  {
    if t == ExtGandivaType {
      assert HasBit(t, i) in hasBits * {1, 2, 3, 4, 5, 6, 7};
    } else if t == DecimalNode {
      assert HasBit(t, i) in hasBits * {1, 2};
    }
  }

  lemma ZeroInRange(t: MessageType, i: nat)
    requires i < |Fields(t)| && IsScalar(Fields(t)[i].kind)
    ensures InRange(Fields(t)[i].kind, 0)
  {
    match t
    case ExtGandivaType => case _ =>
  }

  // ---------------------------------------------------------------- cells

  datatype Cell =
    | Scalar(v: int)
    | Text(b: seq<byte>)
    | Owned(p: MessageObject?)
    | List(ps: seq<MessageObject>)

  function DefaultCell(k: Kind): Cell {
    match k
    case KString => Text([])
    case KMessage(_) => Owned(null)
    case KRepeated(_) => List([])
    case _ => Scalar(0)
  }

  ghost predicate OwnedBy(p: MessageObject, t: MessageType, own: set<MessageObject>)
    reads own`hasBits, own`cells, own`unknown, own`Model, own`parts, own`Repr
    decreases own, 1, 0
  {
    p in own && p.Repr <= own && p.t == t && p.Valid()
  }

  /** The representation invariant of one field, and the slot it stands for: a set has-bit means that
      the sub-message is there, a clear one that the field is at its default. */
  ghost predicate CellMatches(k: Kind, has: bool, c: Cell, own: set<MessageObject>, s: Slot)
    reads own`hasBits, own`cells, own`unknown, own`Model, own`parts, own`Repr
    decreases own, 2
  {
    match k
    case KString => c.Text? && (has || c.b == []) && s == if has then Blob(c.b) else Absent
    case KMessage(t) =>
      && c.Owned?
      && (if c.p == null then !has && s == Absent
          else && OwnedBy(c.p, t, own)
               && if has then s == One(c.p.Model) else s == Absent && c.p.Model == Empty(t))
    case KRepeated(t) => c.List? && ListMatches(t, c.ps, own, s)
    case _ => c.Scalar? && InRange(k, c.v) && (has || c.v == 0) && s == if has then Num(c.v) else Absent
  }

  ghost predicate ListMatches(t: MessageType, ps: seq<MessageObject>, own: set<MessageObject>, s: Slot)
    reads own`hasBits, own`cells, own`unknown, own`Model, own`parts, own`Repr
    decreases own, 1, 1
  {
    && s.Many? && |s.ms| == |ps|
    && (forall j :: 0 <= j < |ps| ==> OwnedBy(ps[j], t, own))
    && (forall j :: 0 <= j < |ps| ==> ps[j].Model == s.ms[j])
    && (forall i, j :: 0 <= i < j < |ps| ==> ps[i].Repr !! ps[j].Repr)
  }

  ghost predicate CellSized(has: bool, c: Cell, own: set<MessageObject>)
    reads own`hasBits, own`cells, own`Model, own`Repr, own`cachedSize
    decreases own, 1
  {
    match c
    case Owned(p) => has && p != null ==> p in own && p.Repr <= own && p.Sized()
    case List(ps) => forall j :: 0 <= j < |ps| ==> ps[j] in own && ps[j].Repr <= own && ps[j].Sized()
    case _ => true
  }

  lemma {:induction false} CellSizedMore(has: bool, c: Cell, own: set<MessageObject>, more: set<MessageObject>)
    requires CellSized(has, c, own) && own <= more
    ensures CellSized(has, c, more)
  {
  }

  lemma {:induction false} OwnedMatches(k: Kind, p: MessageObject, own: set<MessageObject>)
    requires k.KMessage? && p in own && p.Repr <= own && p.t == k.t && p.Valid()
    ensures CellMatches(k, true, Owned(p), own, One(p.Model))
  {
  }

  lemma {:induction false} OwnedByMore(p: MessageObject, t: MessageType,
                                       own: set<MessageObject>, more: set<MessageObject>)
    requires OwnedBy(p, t, own) && own <= more
    ensures OwnedBy(p, t, more)
  {
  }

  lemma {:induction false} ListGrows(t: MessageType, ps: seq<MessageObject>, own: set<MessageObject>, s: Slot,
                                     p: MessageObject)
    requires ListMatches(t, ps, own, s)
    requires p.Valid() && p.Repr !! own && p.t == t
    ensures s.Many? && ListMatches(t, ps + [p], own + p.Repr, Many(s.ms + [p.Model]))
  {
    hide Fields, CellMatches;
    var all := ps + [p];
    forall j | 0 <= j < |all|
      ensures OwnedBy(all[j], t, own + p.Repr)
    {
      if j < |ps| { OwnedByMore(ps[j], t, own, own + p.Repr); }
    }
  }

  lemma {:induction false} ListsJoin(t: MessageType, ps: seq<MessageObject>, own: set<MessageObject>, s: Slot,
                  qs: seq<MessageObject>, more: set<MessageObject>, u: Slot)
    requires ListMatches(t, ps, own, s) && ListMatches(t, qs, more, u) && own !! more
    ensures ListMatches(t, ps + qs, own + more, Many(s.ms + u.ms))
  {
    hide Fields, CellMatches;
    var all := ps + qs;
    forall j | 0 <= j < |all|
      ensures OwnedBy(all[j], t, own + more)
    {
      if j < |ps| {
        OwnedByMore(ps[j], t, own, own + more);
      } else {
        OwnedByMore(qs[j - |ps|], t, more, own + more);
      }
    }
  }

  lemma {:induction false} DefaultMatches(t: MessageType, i: nat, own: set<MessageObject>)
    requires i < |Fields(t)|
    ensures CellMatches(Fields(t)[i].kind, false, DefaultCell(Fields(t)[i].kind), own, EmptySlot(Fields(t)[i].kind))
  {
    hide Fields;
    if IsScalar(Fields(t)[i].kind) { ZeroInRange(t, i); }
  }

  lemma {:induction false} EmptiedMatches(k: Kind, p: MessageObject, own: set<MessageObject>)
    requires k.KMessage? && OwnedBy(p, k.t, own) && p.Model == Empty(k.t)
    ensures CellMatches(k, false, Owned(p), own, EmptySlot(k))
  {
    hide Fields, Empty;
  }

  /** A field whose has-bit is clear stands for an absent one. */
  lemma {:induction false} UnsetIsAbsent(k: Kind, c: Cell, own: set<MessageObject>, s: Slot)
    requires !k.KRepeated? && CellMatches(k, false, c, own, s)
    ensures s == EmptySlot(k)
  {
  }

  lemma {:induction false} MessageCell(k: Kind, has: bool, c: Cell, own: set<MessageObject>, s: Slot)
    requires k.KMessage? && CellMatches(k, has, c, own, s)
    ensures c.Owned? && (has ==> c.p != null) && (c.p != null ==> OwnedBy(c.p, k.t, own))
  {
  }

  /** No pointer to a sub-message has changed in these objects. */
  twostate predicate PointersStay(os: set<MessageObject>)
    reads os`cells
  {
    forall o, i :: o in os && 0 <= i < |old(o.cells)| && old(o.cells[i].Owned?) ==>
      i < |o.cells| && o.cells[i] == old(o.cells[i])
  }

  class MessageObject {
    const t: MessageType
    var hasBits: set<nat>
    var cells: seq<Cell>
    var unknown: seq<Record>
    var cachedSize: int

    ghost var Model: Message
    ghost var parts: seq<set<MessageObject>>
    ghost var Repr: set<MessageObject>

    predicate Has(i: nat)
      requires i < |Fields(t)|
      reads this`hasBits
    {
      IsSet(t, hasBits, i)
    }

    /** Everything but the fields: what each field owns is inside, and shared with no other field. */
    ghost predicate Arranged()
      reads this`cells, this`unknown, this`Model, this`parts, this`Repr
    {
      && this in Repr
      && |cells| == |parts| == |Model.slots| == |Fields(t)|
      && (forall i :: 0 <= i < |parts| ==> parts[i] <= Repr && this !in parts[i])
      && (forall i, j :: 0 <= i < j < |parts| ==> parts[i] !! parts[j])
      && Model.unknown == unknown
    }

    /** Model is the message this object represents. */
    ghost predicate Valid()
      reads this`hasBits, this`cells, this`unknown, this`Model, this`parts, this`Repr
      reads Repr`hasBits, Repr`cells, Repr`unknown, Repr`Model, Repr`parts, Repr`Repr
      decreases Repr, 0
    {
      && Arranged()
      && forall i :: 0 <= i < |cells| ==>
           CellMatches(Fields(t)[i].kind, Has(i), cells[i], parts[i], Model.slots[i])
    }

    ghost predicate ValidBut(x: nat)
      reads this`hasBits, this`cells, this`unknown, this`Model, this`parts, this`Repr
      reads Repr`hasBits, Repr`cells, Repr`unknown, Repr`Model, Repr`parts, Repr`Repr
    {
      && Arranged()
      && forall i :: 0 <= i < |cells| && i != x ==>
           CellMatches(Fields(t)[i].kind, Has(i), cells[i], parts[i], Model.slots[i])
    }

    constructor (t: MessageType)
      ensures Valid() && this.t == t && Model == Empty(t)
      ensures fresh(Repr) && Repr == {this}
    {
      this.t := t;
      hasBits := {};
      cells := seq(|Fields(t)|, i requires 0 <= i < |Fields(t)| => DefaultCell(Fields(t)[i].kind));
      unknown := [];
      cachedSize := 0;
      Model := Empty(t);
      parts := seq(|Fields(t)|, i => {});
      Repr := {this};
      new;
      forall i | 0 <= i < |cells|
        ensures CellMatches(Fields(t)[i].kind, Has(i), cells[i], parts[i], Model.slots[i])
      {
        DefaultMatches(t, i, {});
      }
    }

    /** Records that field i now owns `own` and stands for `s`. */
    ghost method Settle(i: nat, own: set<MessageObject>, s: Slot)
      requires i < |Fields(t)| && ValidBut(i)
      requires this !in own && forall j :: 0 <= j < |parts| && j != i ==> own !! parts[j]
      requires CellMatches(Fields(t)[i].kind, Has(i), cells[i], own, s)
      modifies this`Model, this`parts, this`Repr
      ensures Valid()
      ensures Model == WithSlot(old(Model), i, s)
      ensures Repr == (old(Repr) - old(parts)[i]) + own && parts == old(parts)[i := own]
    {
      hide Fields, HasBit;
      Repr := (Repr - parts[i]) + own;
      Model := WithSlot(Model, i, s);
      parts := parts[i := own];
    }

    lemma OtherBits(i: nat)
      requires i < |Fields(t)| && Optional(t, i)
      ensures forall j :: 0 <= j < |Fields(t)| && j != i && Optional(t, j) ==> HasBit(t, j) != HasBit(t, i)
    {
      hide Fields, HasBit;
      forall j | 0 <= j < |Fields(t)| && j != i && Optional(t, j)
        ensures HasBit(t, j) != HasBit(t, i)
      {
        HasBitsDistinct(t, i, j);
      }
    }

    // -------------------------------------------------------------- accessors

    /** What Valid says of one field. */
    lemma {:induction false} FieldOk(i: nat)
      requires i < |Fields(t)| && Valid()
      ensures CellMatches(Fields(t)[i].kind, Has(i), cells[i], parts[i], Model.slots[i])
      ensures !Optional(t, i) ==>
                cells[i].List? && ListMatches(Fields(t)[i].kind.t, cells[i].ps, parts[i], Model.slots[i])
      ensures parts[i] <= Repr
    {
      hide Fields, HasBit;
    }

    /** The representation invariant, field by field: a set has-bit means that the sub-message is there,
        a clear one that string, scalar or sub-message is at its default. */
    lemma {:induction false} RepresentationInvariant(i: nat)
      requires i < |Fields(t)| && Valid()
      ensures Fields(t)[i].kind.KMessage? ==>
                && cells[i].Owned?
                && (Has(i) ==> cells[i].p != null)
                && (cells[i].p != null ==> cells[i].p in Repr && cells[i].p.Valid() && this !in cells[i].p.Repr)
                && (!Has(i) && cells[i].p != null ==> cells[i].p.Model == Empty(Fields(t)[i].kind.t))
      ensures Fields(t)[i].kind.KString? && !Has(i) ==> cells[i] == Text([])
      ensures IsScalar(Fields(t)[i].kind) && !Has(i) ==> cells[i] == Scalar(0)
    {
      hide Fields, HasBit;
      FieldOk(i);
    }

    lemma {:induction false} MessageOk(i: nat)
      requires i < |Fields(t)| && Valid() && Fields(t)[i].kind.KMessage?
      ensures cells[i].Owned? && (Model.slots[i].One? || Model.slots[i].Absent?)
      ensures Has(i) ==> cells[i].p != null && OwnedBy(cells[i].p, Fields(t)[i].kind.t, parts[i])
                         && Model.slots[i] == One(cells[i].p.Model)
    {
      hide Fields, HasBit;
      FieldOk(i);
    }

    lemma {:induction false} OwnedByPart(i: nat)
      requires i < |Fields(t)| && Valid() && Fields(t)[i].kind.KMessage?
      ensures cells[i].Owned? && (cells[i].p != null ==> OwnedBy(cells[i].p, Fields(t)[i].kind.t, parts[i]))
    {
      hide Fields, HasBit;
      FieldOk(i);
    }

    /** has_: the has-bit says whether the message has the field. */
    lemma {:induction false} HasTells(i: nat)
      requires i < |Fields(t)| && Valid()
      ensures Optional(t, i) ==> (Has(i) <==> Model.slots[i] != Absent)
    {
      hide Fields, HasBit;
      FieldOk(i);
    }

    function GetScalar(i: nat): (v: int)
      requires i < |Fields(t)| && Valid() && IsScalar(Fields(t)[i].kind)
      reads this, Repr
      ensures v == if Model.slots[i].Num? then Model.slots[i].v else 0
    {
      FieldOk(i);
      cells[i].v
    }

    function GetText(i: nat): (b: seq<byte>)
      requires i < |Fields(t)| && Valid() && Fields(t)[i].kind.KString?
      reads this, Repr
      ensures b == if Model.slots[i].Blob? then Model.slots[i].b else []
    {
      FieldOk(i);
      cells[i].b
    }

    /** Null stands for the shared default instance. */
    function GetMessage(i: nat): (p: MessageObject?)
      requires i < |Fields(t)| && Valid() && Fields(t)[i].kind.KMessage?
      reads this, Repr
      ensures p == null ==> Model.slots[i] == Absent
      ensures p != null ==> p in Repr && p.Valid() && p.t == Fields(t)[i].kind.t
      ensures p != null ==> p.Model == if Model.slots[i].One? then Model.slots[i].m else Empty(Fields(t)[i].kind.t)
    {
      FieldOk(i);
      cells[i].p
    }

    method SetScalar(i: nat, v: int)
      requires i < |Fields(t)| && Valid()
      requires IsScalar(Fields(t)[i].kind) && InRange(Fields(t)[i].kind, v)
      modifies this
      ensures Valid() && Repr == old(Repr) && parts == old(parts)
      ensures Model == WithSlot(old(Model), i, Num(v))
    {
      hide Fields, HasBit;
      OtherBits(i);
      hasBits := hasBits + {HasBit(t, i)};
      cells := cells[i := Scalar(v)];
      Settle(i, parts[i], Num(v));
    }

    /** Also what mutable_ does for strings, once the caller has written through the pointer. */
    method SetText(i: nat, b: seq<byte>)
      requires i < |Fields(t)| && Valid() && Fields(t)[i].kind.KString?
      modifies this
      ensures Valid() && Repr == old(Repr) && parts == old(parts)
      ensures Model == WithSlot(old(Model), i, Blob(b))
    {
      hide Fields, HasBit;
      OtherBits(i);
      hasBits := hasBits + {HasBit(t, i)};
      cells := cells[i := Text(b)];
      Settle(i, parts[i], Blob(b));
    }

    method ReleaseText(i: nat) returns (b: Option<seq<byte>>)
      requires i < |Fields(t)| && Valid() && Fields(t)[i].kind.KString?
      modifies this
      ensures Valid() && Repr == old(Repr)
      ensures Model == WithSlot(old(Model), i, Absent)
      ensures b == if old(Model).slots[i].Blob? then Some(old(Model).slots[i].b) else None
    {
      hide Fields, HasBit;
      if !Has(i) {
        assert Model.slots[i := Absent] == Model.slots;
        return None;
      }
      OtherBits(i);
      b := Some(cells[i].b);
      hasBits := hasBits - {HasBit(t, i)};
      cells := cells[i := Text([])];
      Settle(i, parts[i], Absent);
    }

    /** Allocates the sub-message when it is not there; what was left in it shows again. */
    method MutableMessage(i: nat) returns (p: MessageObject)
      requires i < |Fields(t)| && Valid() && Fields(t)[i].kind.KMessage?
      modifies this
      ensures Valid() && fresh(Repr - old(Repr)) && |parts| == |old(parts)|
      ensures forall j :: 0 <= j < |parts| && j != i ==> parts[j] == old(parts)[j]
      ensures cells[i] == Owned(p) && Has(i) && OwnedBy(p, Fields(t)[i].kind.t, parts[i])
      ensures p.Model == old(if Model.slots[i].One? then Model.slots[i].m else Empty(Fields(t)[i].kind.t))
      ensures Model == WithSlot(old(Model), i, One(p.Model))
    {
      hide Fields, HasBit;
      OtherBits(i);
      hasBits := hasBits + {HasBit(t, i)};
      ghost var own := parts[i];
      if cells[i].p == null {
        p := new MessageObject(Fields(t)[i].kind.t);
        cells := cells[i := Owned(p)];
        own := p.Repr;
      } else {
        p := cells[i].p;
      }
      Settle(i, own, One(p.Model));
    }

    /** Ownership passes to the caller, also of a sub-message whose has-bit was clear. */
    method ReleaseMessage(i: nat) returns (p: MessageObject?)
      requires i < |Fields(t)| && Valid() && Fields(t)[i].kind.KMessage?
      modifies this
      ensures Valid() && Repr <= old(Repr)
      ensures Model == WithSlot(old(Model), i, Absent)
      ensures p == null ==> old(Model).slots[i] == Absent
      ensures p != null ==> p.Valid() && p.Repr !! Repr && p.t == Fields(t)[i].kind.t
      ensures p != null ==> p.Model == old(if Model.slots[i].One? then Model.slots[i].m else Empty(Fields(t)[i].kind.t))
    {
      hide Fields, HasBit;
      FieldOk(i);
      OtherBits(i);
      hasBits := hasBits - {HasBit(t, i)};
      p := cells[i].p;
      cells := cells[i := Owned(null)];
      assert p != null ==> OwnedBy(p, Fields(t)[i].kind.t, parts[i]);
      Settle(i, {}, Absent);
    }

    /** Takes ownership of p, or clears the field when p is null. */
    method SetAllocatedMessage(i: nat, p: MessageObject?)
      requires i < |Fields(t)| && Valid() && Fields(t)[i].kind.KMessage?
      requires p != null ==> p.Valid() && p.Repr !! Repr && p.t == Fields(t)[i].kind.t
      modifies this
      ensures Valid()
      ensures p != null ==> Repr == (old(Repr) - old(parts)[i]) + p.Repr && cells[i] == Owned(p)
      ensures Model == WithSlot(old(Model), i, if p == null then Absent else One(p.Model))
    {
      hide Fields, HasBit;
      OtherBits(i);
      hasBits := if p != null then hasBits + {HasBit(t, i)} else hasBits - {HasBit(t, i)};
      cells := cells[i := Owned(p)];
      Settle(i, if p == null then {} else p.Repr, if p == null then Absent else One(p.Model));
    }

    method AddElement(i: nat) returns (p: MessageObject)
      requires i < |Fields(t)| && Valid() && Fields(t)[i].kind.KRepeated?
      modifies this
      ensures Valid() && fresh(Repr - old(Repr)) && |parts| == |old(parts)|
      ensures forall j :: 0 <= j < |parts| && j != i ==> parts[j] == old(parts)[j]
      ensures fresh(p.Repr) && parts[i] == old(parts)[i] + p.Repr && OwnedBy(p, Fields(t)[i].kind.t, parts[i])
      ensures old(cells[i].List? && Model.slots[i].Many?) && cells[i] == List(old(cells[i].ps) + [p])
      ensures p.Model == Empty(Fields(t)[i].kind.t)
      ensures Model == WithSlot(old(Model), i, Many(old(Model).slots[i].ms + [p.Model]))
    {
      hide Fields, HasBit;
      FieldOk(i);
      p := new MessageObject(Fields(t)[i].kind.t);
      ListGrows(Fields(t)[i].kind.t, cells[i].ps, parts[i], Model.slots[i], p);
      cells := cells[i := List(cells[i].ps + [p])];
      Settle(i, parts[i] + p.Repr, Many(Model.slots[i].ms + [p.Model]));
    }

    // -------------------------------------------------------------- Clear

    /** Resets field i under the mask that guards it; has-bits are dropped by the caller at the end. */
    method ClearCell(i: nat)
      requires i < |Fields(t)| && Arranged()
      requires CellMatches(Fields(t)[i].kind, Has(i), cells[i], parts[i], Model.slots[i])
      modifies this`cells, parts[i]
      ensures Arranged() && |cells| == |old(cells)|
      ensures forall j :: 0 <= j < |cells| && j != i ==> cells[j] == old(cells)[j]
      ensures CellMatches(Fields(t)[i].kind, false, cells[i], parts[i], EmptySlot(Fields(t)[i].kind))
      ensures (Fields(t)[i].kind.KMessage? ==> cells[i] == old(cells[i])) && PointersStay(parts[i])
      decreases Repr, 0
    {
      hide Fields, HasBit, ClearsScalar, CellMatches, EmptySlot;
      var k, has := Fields(t)[i].kind, HasBit(t, i) in hasBits;
      var reset := k.KRepeated? || if IsScalar(k) then ClearsScalar(t, hasBits) else has;
      if !reset {
        assert !has by {
          if has { MaskCoversBit(t, i, hasBits); }
        }
        UnsetIsAbsent(k, cells[i], parts[i], Model.slots[i]);
      } else if k.KMessage? {
        MessageCell(k, has, cells[i], parts[i], Model.slots[i]);
        cells[i].p.Clear();
        EmptiedMatches(k, cells[i].p, parts[i]);
      } else {
        DefaultMatches(t, i, parts[i]);
        cells := cells[i := DefaultCell(k)];
      }
    }

    /** Clear: although each field is reset only when its has-bit calls for it, nothing is left behind. */
    method Clear()
      requires Valid()
      modifies Repr
      ensures Valid() && Model == Empty(t) && Repr == old(Repr) && PointersStay(Repr)
      decreases Repr, 1
    {
      hide Fields, HasBit;
      var i := 0;
      while i < |Fields(t)|
        invariant 0 <= i <= |Fields(t)| && Arranged()
        invariant Repr == old(Repr) && parts == old(parts) && Model == old(Model) && hasBits == old(hasBits)
        invariant forall j :: 0 <= j < i ==>
                    CellMatches(Fields(t)[j].kind, false, cells[j], parts[j], EmptySlot(Fields(t)[j].kind))
        invariant forall j :: i <= j < |cells| ==>
                    CellMatches(Fields(t)[j].kind, Has(j), cells[j], parts[j], Model.slots[j])
        invariant PointersStay(Repr)
      {
        ClearCell(i);
        i := i + 1;
      }
      hasBits := {};
      unknown := [];
      Model := Empty(t);
    }

    method DefaultOf(i: nat)
      requires i < |Fields(t)| && Arranged()
      requires CellMatches(Fields(t)[i].kind, Has(i), cells[i], parts[i], Model.slots[i])
      modifies this`cells, parts[i]
      ensures Arranged() && |cells| == |old(cells)|
      ensures forall j :: 0 <= j < |cells| && j != i ==> cells[j] == old(cells)[j]
      ensures CellMatches(Fields(t)[i].kind, false, cells[i], parts[i], EmptySlot(Fields(t)[i].kind))
      ensures Fields(t)[i].kind.KMessage? ==> cells[i] == old(cells[i])
    {
      hide Fields, HasBit, CellMatches, EmptySlot;
      var k := Fields(t)[i].kind;
      if k.KMessage? {
        MessageCell(k, Has(i), cells[i], parts[i], Model.slots[i]);
        if cells[i].p != null {
          cells[i].p.Clear();
          EmptiedMatches(k, cells[i].p, parts[i]);
        } else {
          DefaultMatches(t, i, parts[i]);
        }
      } else {
        DefaultMatches(t, i, parts[i]);
        cells := cells[i := DefaultCell(k)];
      }
    }

    /** clear_ of one field: resets it and drops its has-bit. */
    method ClearField(i: nat)
      requires i < |Fields(t)| && Valid()
      modifies Repr
      ensures Valid() && Repr == old(Repr)
      ensures Model == WithSlot(old(Model), i, EmptySlot(Fields(t)[i].kind))
      ensures Fields(t)[i].kind.KMessage? ==> cells[i] == old(cells[i])
    {
      hide Fields, HasBit, CellMatches;
      FieldOk(i);
      DefaultOf(i);
      if Optional(t, i) {
        OtherBits(i);
        hasBits := hasBits - {HasBit(t, i)};
      }
      Settle(i, parts[i], EmptySlot(Fields(t)[i].kind));
    }

    // -------------------------------------------------------------- merging and copying

    static method CopyElement(p: MessageObject) returns (q: MessageObject)
      requires p.Valid()
      ensures q.Valid() && fresh(q.Repr) && q.t == p.t && q.Model == p.Model
      decreases p.Repr, 3
    {
      hide Fields, HasBit, CellMatches, Shape, Merge, Empty;
      q := new MessageObject(p.t);
      q.MergeFrom(p);
      ShapeOk(p);
      MergeEmptyLeft(p.t, p.Model);
    }

    /** RepeatedPtrField::MergeFrom: a new element for each, merged from its original. */
    static method CopyElements(t: MessageType, ps: seq<MessageObject>, ghost own: set<MessageObject>, ghost s: Slot)
      returns (qs: seq<MessageObject>, ghost new_: set<MessageObject>)
      requires ListMatches(t, ps, own, s)
      ensures fresh(new_) && ListMatches(t, qs, new_, s)
      decreases own, 4
    {
      hide Fields, HasBit, CellMatches, Shape, Merge, MergeSlot, Empty;
      qs, new_ := [], {};
      var k := 0;
      while k < |ps|
        invariant 0 <= k <= |ps| == |s.ms| && fresh(new_)
        invariant ListMatches(t, qs, new_, Many(s.ms[..k]))
      {
        var q := CopyElement(ps[k]);
        ListGrows(t, qs, new_, Many(s.ms[..k]), q);
        assert s.ms[..k] + [s.ms[k]] == s.ms[..k + 1];
        qs, new_ := qs + [q], new_ + q.Repr;
        k := k + 1;
      }
      assert s.ms[..k] == s.ms;
    }

    method MergeMessage(i: nat, from: MessageObject)
      requires i < |Fields(t)| && Valid() && from.Valid() && from.t == t && from.Repr !! Repr
      requires Fields(t)[i].kind.KMessage? && from.Has(i)
      modifies Repr
      ensures Valid() && fresh(Repr - old(Repr))
      ensures Model == WithSlot(old(Model), i, MergeSlot(old(Model).slots[i], from.Model.slots[i]))
      decreases from.Repr, 0
    {
      hide Fields, HasBit, Shape, Merge, MergeSlot, Empty, CellMatches;
      from.MessageOk(i);
      MessageOk(i);
      var q := from.cells[i].p;
      var p := MutableMessage(i);
      ghost var was := p.Model;
      p.MergeFrom(q);
      ShapeOk(q);
      MergeIntoSlot(q.t, old(Model).slots[i], q.Model);
      ghost var merged := One(p.Model);
      OwnedMatches(Fields(t)[i].kind, p, parts[i] + p.Repr);
      Settle(i, parts[i] + p.Repr, merged);
      WithSlotTwice(old(Model), i, One(was), merged);
    }

    method MergeElements(i: nat, from: MessageObject)
      requires i < |Fields(t)| && Valid() && MayMerge(from)
      requires Fields(t)[i].kind.KRepeated?
      modifies this
      ensures Valid() && fresh(Repr - old(Repr))
      ensures Model == WithSlot(old(Model), i, MergeSlot(old(Model).slots[i], from.Model.slots[i]))
      decreases from.Repr, 0
    {
      hide Fields, HasBit;
      FieldOk(i);
      from.FieldOk(i);
      var e := Fields(t)[i].kind.t;
      var qs, own := CopyElements(e, from.cells[i].ps, from.parts[i], from.Model.slots[i]);
      ListsJoin(e, cells[i].ps, parts[i], Model.slots[i], qs, own, from.Model.slots[i]);
      cells := cells[i := List(cells[i].ps + qs)];
      Settle(i, parts[i] + own, Many(Model.slots[i].ms + from.Model.slots[i].ms));
    }

    method MergeField(i: nat, from: MessageObject)
      requires i < |Fields(t)| && Valid() && MayMerge(from)
      modifies Repr
      ensures Valid() && fresh(Repr - old(Repr))
      ensures Model == WithSlot(old(Model), i, MergeSlot(old(Model).slots[i], old(from.Model).slots[i]))
      ensures old(from.Model == Empty(t)) ==> unchanged(old(Repr) - {this})
      decreases from.Repr, 1
    {
      hide Fields, HasBit;
      from.FieldOk(i);
      if !Optional(t, i) {
        MergeElements(i, from);
      } else if !from.Has(i) {
        assert Model.slots[i := Model.slots[i]] == Model.slots;
      } else if Fields(t)[i].kind.KString? {
        SetText(i, from.cells[i].b);
      } else if Fields(t)[i].kind.KMessage? {
        assert from.Model != Empty(t) by { from.HasTells(i); }
        MergeMessage(i, from);
      } else {
        SetScalar(i, from.cells[i].v);
      }
    }

    /** What can be merged in here: an object apart, or one that stands for the empty message. */
    ghost predicate MayMerge(from: MessageObject)
      reads this, Repr, from, from.Repr
    {
      from.Valid() && from.t == t && this !in from.Repr && (from.Repr !! Repr || from.Model == Empty(t))
    }

    /** MergeFrom. */
    method MergeFrom(from: MessageObject)
      requires Valid() && MayMerge(from)
      modifies Repr
      ensures Valid() && fresh(Repr - old(Repr))
      ensures Model == Merge(old(Model), old(from.Model))
      ensures forall i :: 0 <= i < |Fields(t)| ==>
                var x, y := old(Model.slots[i]), old(from.Model.slots[i]);
                && (y.Num? || y.Blob? ==> Model.slots[i] == y)
                && (y.Absent? ==> Model.slots[i] == x)
                && (y.Many? ==> x.Many? && Model.slots[i] == Many(x.ms + y.ms))
                && (y.One? && !x.One? ==> Model.slots[i] == y)
      ensures Model.unknown == old(Model.unknown) + old(from.Model.unknown)
      decreases from.Repr, 2
    {
      hide Fields, HasBit, CellMatches, Empty, Merge, MergeSlot, Shape;
      ShapeOk(this);
      ShapeOk(from);
      MergedSlots(t, Model, from.Model);
      unknown := unknown + from.unknown;
      Model := Model.(unknown := Model.unknown + from.Model.unknown);
      var i := 0;
      while i < |Fields(t)|
        invariant 0 <= i <= |Fields(t)|
        invariant Valid() && fresh(Repr - old(Repr)) && MayMerge(from)
        invariant from.Model == old(from.Model) && from.Repr == old(from.Repr)
        invariant Model.unknown == old(Model).unknown + from.Model.unknown
        invariant forall j :: 0 <= j < i ==> Model.slots[j] == MergeSlot(old(Model).slots[j], from.Model.slots[j])
        invariant forall j :: i <= j < |Fields(t)| ==> Model.slots[j] == old(Model).slots[j]
      {
        MergeField(i, from);
        i := i + 1;
      }
      AllMerged(old(Model), from.Model, Model);
    }

    lemma {:induction false} Below(i: nat)
      requires Valid() && i < |cells| && cells[i].Owned? && cells[i].p != null
      ensures OwnedBy(cells[i].p, cells[i].p.t, parts[i]) && parts[i] <= Repr && this !in parts[i]
      ensures Fields(t)[i].kind.KMessage? && (Model.slots[i] == Absent ==> cells[i].p.Model == Empty(cells[i].p.t))
    {
      hide Fields, HasBit;
      FieldOk(i);
    }

    /** The sub-message that this path of fields leads to by pointers is q. */
    ghost predicate Leads(path: seq<nat>, q: MessageObject)
      requires Valid()
      reads this, Repr
      decreases |path|
    {
      if path == [] then q == this
      else
        && path[0] < |cells| && cells[path[0]].Owned? && cells[path[0]].p != null
        && OwnedBy(cells[path[0]].p, cells[path[0]].p.t, parts[path[0]])
        && cells[path[0]].p.Leads(path[1..], q)
    }

    ghost predicate HasWithin(q: MessageObject)
      requires Valid()
      reads this, Repr
    {
      exists path :: path != [] && Leads(path, q)
    }

    lemma {:induction false} WithinIsInside(q: MessageObject)
      requires Valid() && HasWithin(q)
      ensures q in Repr
    {
      var path :| path != [] && Leads(path, q);
      LeadsInside(path, q);
    }

    lemma {:induction false} LeadsInside(path: seq<nat>, q: MessageObject)
      requires Valid() && Leads(path, q)
      ensures q in Repr
      decreases |path|
    {
      if path != [] {
        Below(path[0]);
        cells[path[0]].p.LeadsInside(path[1..], q);
      }
    }

    /** CopyFrom: because Clear leaves nothing behind, the copy equals its source, unless the source is one
        of the object's own sub-messages, which Clear empties before it is read. */
    method CopyFrom(from: MessageObject)
      requires Valid() && from.Valid() && from.t == t
      requires from == this || from.Repr !! Repr || HasWithin(from)
      modifies Repr
      ensures Valid() && fresh(Repr - old(Repr))
      ensures Model == old(if from != this && from in Repr then Empty(t) else from.Model)
      ensures Model == old(from.Model) <==> old(from == this || from !in Repr || from.Model == Empty(t))
    {
      hide Fields, HasBit, CellMatches;
      if from == this { return; }
      if HasWithin(from) { WithinIsInside(from); }
      Clear();
      EmptyBelow(this);
      ShapeOk(from);
      MergeEmptyLeft(t, from.Model);
      MergeFrom(from);
    }

    /** One member of the copy constructor: strings and sub-messages only under their has-bit, scalars
        in one block whatever the has-bits say. */
    static method CopyCell(k: Kind, has: bool, c: Cell, ghost own: set<MessageObject>, ghost s: Slot)
      returns (d: Cell, ghost copied: set<MessageObject>)
      requires CellMatches(k, has, c, own, s)
      ensures fresh(copied) && CellMatches(k, has, d, copied, s)
      decreases own, 6
    {
      hide Fields, HasBit;
      copied := {};
      if k.KString? {
        d := if has then c else Text([]);
      } else if k.KMessage? && has {
        var p := new MessageObject.Copy(c.p);
        d, copied := Owned(p), p.Repr;
      } else if k.KMessage? {
        d := Owned(null);
      } else if k.KRepeated? {
        var ps: seq<MessageObject>;
        ps, copied := CopyElements(k.t, c.ps, own, s);
        d := List(ps);
      } else {
        d := c;
      }
    }

    constructor Copy(from: MessageObject)
      requires from.Valid()
      ensures Valid() && fresh(Repr)
      ensures t == from.t && Model == from.Model
      decreases from.Repr, 5
    {
      hide Fields, HasBit, CellMatches;
      t := from.t;
      hasBits := from.hasBits;
      cells := [];
      unknown := from.unknown;
      cachedSize := 0;
      new;
      var cs: seq<Cell> := [];
      ghost var ps: seq<set<MessageObject>> := [];
      ghost var owned: set<MessageObject> := {};
      while |cs| < |Fields(t)|
        invariant |cs| == |ps| <= |Fields(t)| && fresh(owned) && this !in owned && from.Valid()
        invariant hasBits == from.hasBits && unknown == from.unknown
        invariant forall j :: 0 <= j < |ps| ==> ps[j] <= owned
        invariant forall j, k :: 0 <= j < k < |ps| ==> ps[j] !! ps[k]
        invariant forall j :: 0 <= j < |cs| ==>
                    CellMatches(Fields(t)[j].kind, IsSet(t, from.hasBits, j), cs[j], ps[j], from.Model.slots[j])
      {
        var i := |cs|;
        from.FieldOk(i);
        var c, own := CopyCell(Fields(t)[i].kind, from.Has(i), from.cells[i], from.parts[i], from.Model.slots[i]);
        cs, ps, owned := cs + [c], ps + [own], owned + own;
      }
      TakeOver(hasBits, cs, unknown, ps, from.Model, owned);
    }

    /** Takes over fields, with everything they own. */
    method TakeOver(hasBits: set<nat>, cells: seq<Cell>, unknown: seq<Record>,
                    ghost parts: seq<set<MessageObject>>, ghost m: Message, ghost owned: set<MessageObject>)
      requires |cells| == |parts| == |m.slots| == |Fields(t)| && m.unknown == unknown && this !in owned
      requires forall i :: 0 <= i < |parts| ==> parts[i] <= owned
      requires forall i, j :: 0 <= i < j < |parts| ==> parts[i] !! parts[j]
      requires forall i :: 0 <= i < |cells| ==>
                 CellMatches(Fields(t)[i].kind, IsSet(t, hasBits, i), cells[i], parts[i], m.slots[i])
      modifies this
      ensures Valid() && Model == m && Repr == {this} + owned
    {
      hide Fields, HasBit, CellMatches;
      this.hasBits, this.cells, this.unknown := hasBits, cells, unknown;
      this.parts, this.Model, this.Repr := parts, m, {this} + owned;
    }

    /** Swap exchanges the fields of two objects; what the fields own changes hands, no deeper object is
        touched. */
    method Swap(other: MessageObject)
      requires Valid() && other.Valid() && other.t == t && (other == this || other.Repr !! Repr)
      modifies this, other
      ensures Valid() && other.Valid() && (other == this || other.Repr !! Repr)
      ensures Model == old(other.Model) && other.Model == old(Model)
      ensures Repr + other.Repr == old(Repr + other.Repr)
    {
      hide Fields, HasBit, CellMatches;
      if other == this { return; }
      var h, c, u := hasBits, cells, unknown;
      ghost var ps, m, owned := parts, Model, Repr - {this};
      TakeOver(other.hasBits, other.cells, other.unknown, other.parts, other.Model, other.Repr - {other});
      other.TakeOver(h, c, u, ps, m, owned);
    }

    // -------------------------------------------------------------- parsing

    method StoreElement(i: nat, r: Record, depth: nat) returns (ok: bool)
      requires i < |Fields(t)| && Valid() && Fields(t)[i].kind.KRepeated?
      modifies Repr
      ensures Valid() && fresh(Repr - old(Repr))
      ensures Update(old(Model), i, StoreRecord(Fields(t)[i].kind, old(Model).slots[i], r, depth))
              == if ok then Some(Model) else None
      decreases PayloadSize(r), 1
    {
      hide Fields, HasBit, Parse;
      if !r.BytesRecord? || depth == 0 { return false; }
      FieldOk(i);
      ghost var e, ps, own, s := Fields(t)[i].kind.t, cells[i].ps, parts[i], Model.slots[i];
      var p := AddElement(i);
      var good, rest := p.MergePartialFromCodedStream(r.b, depth - 1);
      ListGrows(e, ps, own, s, p);
      Settle(i, own + p.Repr, Many(s.ms + [p.Model]));
      WithSlotTwice(old(Model), i, Many(s.ms + [Empty(e)]), Many(s.ms + [p.Model]));
      ok := good && rest == [];
    }

    method StoreMessage(i: nat, r: Record, depth: nat) returns (ok: bool)
      requires i < |Fields(t)| && Valid() && Fields(t)[i].kind.KMessage?
      modifies Repr
      ensures Valid() && fresh(Repr - old(Repr))
      ensures Update(old(Model), i, StoreRecord(Fields(t)[i].kind, old(Model).slots[i], r, depth))
              == if ok then Some(Model) else None
      decreases PayloadSize(r), 1
    {
      hide Fields, HasBit, Parse, CellMatches;
      if !r.BytesRecord? || depth == 0 { return false; }
      var p := MutableMessage(i);
      ghost var was := p.Model;
      var good, rest := p.MergePartialFromCodedStream(r.b, depth - 1);
      OwnedMatches(Fields(t)[i].kind, p, parts[i] + p.Repr);
      Settle(i, parts[i] + p.Repr, One(p.Model));
      WithSlotTwice(old(Model), i, One(was), One(p.Model));
      ok := good && rest == [];
    }

    method StoreField(i: nat, r: Record, depth: nat) returns (ok: bool)
      requires i < |Fields(t)| && Valid() && ValidRecord(r) && WireType(r) == KindWireType(Fields(t)[i].kind)
      modifies Repr
      ensures Valid() && fresh(Repr - old(Repr))
      ensures Update(old(Model), i, StoreRecord(Fields(t)[i].kind, old(Model).slots[i], r, depth))
              == if ok then Some(Model) else None
      decreases PayloadSize(r), 2
    {
      hide Fields, HasBit, Parse, FromWire;
      var k := Fields(t)[i].kind;
      if k.KRepeated? {
        ok := StoreElement(i, r, depth);
      } else if k.KMessage? {
        ok := StoreMessage(i, r, depth);
      } else if k.KString? {
        SetText(i, r.b);
        ok := true;
      } else {
        FromWireInRange(k, r.v);
        match FromWire(k, r.v)
        case Some(v) =>
          SetScalar(i, v);
          ok := true;
        case None =>
          AddUnknown(VarintRecord(r.num, Unsigned64(Signed32(r.v))));
          ok := true;
      }
    }

    method AddUnknown(r: Record)
      requires Valid()
      modifies this
      ensures Valid() && Repr == old(Repr)
      ensures Model == WithUnknown(old(Model), r)
    {
      hide Fields, HasBit;
      unknown := unknown + [r];
      Model := WithUnknown(Model, r);
    }

    /** The parse loop. It ends at the end of its input, at a tag that reads as zero, or in failure;
        the object is valid in every case, and unless it fails holds the parsed message. */
    method MergePartialFromCodedStream(s: seq<byte>, depth: nat) returns (ok: bool, rest: seq<byte>)
      requires Valid()
      modifies Repr
      ensures Valid() && fresh(Repr - old(Repr))
      ensures Parse(t, s, depth, old(Model)) ==
              if !ok then Failed else if rest == [] then Done(Model) else Stopped(Model)
      decreases |s|, 0
    {
      hide Fields, HasBit, StoreRecord, Update, CellMatches;
      rest := s;
      while rest != []
        invariant Valid() && fresh(Repr - old(Repr)) && |rest| <= |s|
        invariant Parse(t, s, depth, old(Model)) == Parse(t, rest, depth, Model)
        decreases |rest|
      {
        var (tag, body) := ReadTag(rest);
        if tag == 0 { return true, rest; }
        var read := ReadPayload(tag, body);
        if read.None? { return false, rest; }
        var (r, next) := read.value;
        var found := Lookup(t, TagOf(r));
        if found.None? {
          AddUnknown(r);
        } else {
          LookupExact(t, TagOf(r), found.value);
          var stored := StoreField(found.value, r, depth);
          if !stored { return false, rest; }
        }
        rest := next;
      }
      ok := true;
    }

    // -------------------------------------------------------------- sizes and bytes

    /** Every cached size below this object, itself included, is that of the message it stands for. */
    ghost predicate Sized()
      reads this`hasBits, this`cells, this`Model, this`Repr, this`cachedSize
      reads Repr`hasBits, Repr`cells, Repr`Model, Repr`Repr, Repr`cachedSize
      decreases Repr, 0
    {
      && this in Repr && |cells| == |Fields(t)|
      && cachedSize == Signed32(Size(t, Model))
      && forall i :: 0 <= i < |cells| ==> CellSized(Has(i), cells[i], Repr - {this})
    }

    /** LengthDelimitedSize of every element, with the tag of its field. */
    method ElementsByteSize(i: nat, ps: seq<MessageObject>, ghost s: Slot) returns (n: nat)
      requires i < |Fields(t)| && Valid() && Fields(t)[i].kind.KRepeated?
      requires s.Many? && ListMatches(Fields(t)[i].kind.t, ps, parts[i], s)
      modifies parts[i]`cachedSize
      ensures n == ElementsSize(Fields(t)[i], s.ms)
      ensures forall j :: 0 <= j < |ps| ==> ps[j] in parts[i] && ps[j].Repr <= parts[i] && ps[j].Sized()
      decreases Repr, 0
    {
      hide Fields, HasBit, CellMatches, Size;
      n := 0;
      var j := 0;
      while j < |ps|
        invariant 0 <= j <= |ps| && Valid()
        invariant ListMatches(Fields(t)[i].kind.t, ps, parts[i], s)
        invariant n == ElementsSize(Fields(t)[i], s.ms[..j])
        invariant forall k :: 0 <= k < j ==> ps[k] in parts[i] && ps[k].Repr <= parts[i] && ps[k].Sized()
      {
        var size := ps[j].ByteSizeLong();
        ElementsSizeNext(Fields(t)[i], s.ms[..j], s.ms[j]);
        assert s.ms[..j + 1] == s.ms[..j] + [s.ms[j]];
        n := n + TagSize(Fields(t)[i]) + LengthDelimitedSize(size);
        j := j + 1;
      }
      assert s.ms[..j] == s.ms;
    }

    method FieldByteSize(i: nat) returns (n: nat)
      requires i < |Fields(t)| && Valid()
      modifies parts[i]`cachedSize
      ensures n == SlotSize(Fields(t)[i], Model.slots[i])
      ensures CellSized(Has(i), cells[i], parts[i])
      decreases Repr, 1
    {
      hide Fields, HasBit, Size;
      FieldOk(i);
      var row := Fields(t)[i];
      if row.kind.KRepeated? {
        n := ElementsByteSize(i, cells[i].ps, Model.slots[i]);
      } else if !Has(i) {
        n := 0;
      } else if row.kind.KString? {
        n := TagSize(row) + LengthDelimitedSize(|cells[i].b|);
      } else if row.kind.KMessage? {
        var size := cells[i].p.ByteSizeLong();
        n := TagSize(row) + LengthDelimitedSize(size);
      } else {
        n := TagSize(row) + ScalarSize(row.kind, cells[i].v);
      }
    }

    /** ByteSizeLong: the first pass, which leaves its results behind in the cached sizes. */
    method ByteSizeLong() returns (n: nat)
      requires Valid()
      modifies Repr`cachedSize
      ensures n == Size(t, Model) && Sized()
      decreases Repr, 2
    {
      hide Fields, HasBit, CellMatches, CellSized, SlotSize;
      n := UnknownSize(unknown);
      var i := 0;
      while i < |Fields(t)|
        invariant 0 <= i <= |Fields(t)|
        invariant n == UnknownSize(unknown) + FieldsSize(t, Model, i)
        invariant forall j :: 0 <= j < i ==> CellSized(Has(j), cells[j], parts[j])
      {
        var size := FieldByteSize(i);
        n := n + size;
        i := i + 1;
      }
      cachedSize := Signed32(n);
      forall j | 0 <= j < |cells|
        ensures CellSized(Has(j), cells[j], Repr - {this})
      {
        CellSizedMore(Has(j), cells[j], parts[j], Repr - {this});
      }
    }

    /** WriteMessageMaybeToArray: the length prefix is the cached size, not a length that is measured. */
    method WriteMessage(num: nat, ghost depth: nat) returns (out: seq<byte>)
      requires Valid() && Sized() && Good(t, Model, depth) && |Serialize(t, Model)| <= INT_MAX
      ensures out == RecordBytes(BytesRecord(num, Serialize(t, Model)))
      decreases Repr, 3
    {
      hide Fields, HasBit, Has, CellMatches, CellSized, Good, Size, Serialize, Varint;
      SizeExact(t, Model, depth);
      var content := SerializeWithCachedSizes(depth);
      out := Varint(MakeTag(num, 2)) + Varint(cachedSize) + content;
      assert out == Varint(MakeTag(num, 2)) + (Varint(cachedSize) + content);
    }

    method WriteElements(i: nat, ghost depth: nat) returns (out: seq<byte>)
      requires i < |Fields(t)| && Valid() && Fields(t)[i].kind.KRepeated?
      requires CellSized(Has(i), cells[i], Repr - {this})
      requires GoodSlot(Fields(t)[i].kind, Model.slots[i], depth)
      requires |Bytes(SlotRecords(Fields(t)[i], Model.slots[i]))| <= INT_MAX
      ensures out == Bytes(SlotRecords(Fields(t)[i], Model.slots[i]))
      decreases Repr, 0
    {
      hide Fields, HasBit, CellMatches, Good, Size, Serialize, RecordBytes, Bytes;
      FieldOk(i);
      var row := Fields(t)[i];
      var ps := cells[i].ps;
      ghost var rs := SlotRecords(row, Model.slots[i]);
      out := [];
      BytesNone();
      var j := 0;
      while j < |ps|
        invariant 0 <= j <= |ps| == |rs|
        invariant out == Bytes(rs[..j])
      {
        RecordWithinBytes(rs, j);
        assert rs[j] == BytesRecord(row.num, Serialize(row.kind.t, ps[j].Model));
        var one := ps[j].WriteMessage(row.num, depth - 1);
        out := out + one;
        BytesAppend(rs[..j], [rs[j]]);
        BytesOne(rs[j]);
        assert rs[..j + 1] == rs[..j] + [rs[j]];
        j := j + 1;
      }
      assert rs[..j] == rs;
    }

    method WriteField(i: nat, ghost depth: nat) returns (out: seq<byte>)
      requires i < |Fields(t)| && Valid() && CellSized(Has(i), cells[i], Repr - {this})
      requires GoodSlot(Fields(t)[i].kind, Model.slots[i], depth)
      requires |Bytes(SlotRecords(Fields(t)[i], Model.slots[i]))| <= INT_MAX
      ensures out == Bytes(SlotRecords(Fields(t)[i], Model.slots[i]))
      decreases Repr, 1
    {
      hide Fields, HasBit, Good, Size, Serialize, RecordBytes, Bytes;
      FieldOk(i);
      var row := Fields(t)[i];
      ghost var rs := SlotRecords(row, Model.slots[i]);
      if row.kind.KRepeated? {
        out := WriteElements(i, depth);
      } else if !Has(i) {
        BytesNone();
        out := [];
      } else if row.kind.KMessage? {
        RecordWithinBytes(rs, 0);
        BytesOne(rs[0]);
        out := cells[i].p.WriteMessage(row.num, depth - 1);
      } else {
        var r := if row.kind.KString? then BytesRecord(row.num, cells[i].b) else ScalarRecord(row, cells[i].v);
        BytesOne(r);
        out := RecordBytes(r);
      }
    }

    /** SerializeWithCachedSizes: the second pass. */
    method SerializeWithCachedSizes(ghost depth: nat) returns (out: seq<byte>)
      requires Valid() && Sized() && Good(t, Model, depth) && |Serialize(t, Model)| <= INT_MAX
      ensures out == Serialize(t, Model)
      decreases Repr, 2
    {
      hide Fields, HasBit, CellMatches, CellSized, Size, GoodSlot, Bytes, SlotRecords, UnknownFor;
      ghost var all := Records(t, Model);
      out := [];
      BytesNone();
      var i := 0;
      while i < |Fields(t)|
        invariant 0 <= i <= |Fields(t)|
        invariant out == Bytes(FieldRecords(t, Model, i))
      {
        BytesAppend(FieldRecords(t, Model, i), SlotRecords(Fields(t)[i], Model.slots[i]));
        FieldsWithin(t, Model, i + 1);
        var one := WriteField(i, depth);
        out := out + one;
        i := i + 1;
      }
      BytesAppend(FieldRecords(t, Model, i), unknown);
      out := out + Bytes(unknown);
    }
  }

  lemma BytesNone()
    ensures Bytes([]) == []
  {
    var none: seq<Record> := [];
    BytesAppend(none, none);
    assert none + none == none;
  }

  lemma {:induction false} FieldsWithin(t: MessageType, m: Message, n: nat)
    requires n <= |Fields(t)|
    ensures |Bytes(FieldRecords(t, m, n))| <= |Serialize(t, m)|
    decreases |Fields(t)| - n
  {
    hide Fields, SlotRecords, Bytes;
    if n == |Fields(t)| {
      BytesAppend(FieldRecords(t, m, n), m.unknown);
    } else {
      FieldsWithin(t, m, n + 1);
      BytesAppend(FieldRecords(t, m, n), if n < |m.slots| then SlotRecords(Fields(t)[n], m.slots[n]) else []);
    }
  }

  lemma MergeIntoSlot(t: MessageType, x: Slot, m: Message)
    requires Shape(t, m) && (x.One? || x.Absent?)
    ensures MergeSlot(x, One(m)) == One(Merge(if x.One? then x.m else Empty(t), m))
  {
    hide Fields, Shape, Merge;
    MergeEmptyLeft(t, m);
  }

  lemma WithSlotTwice(m: Message, i: nat, a: Slot, b: Slot)
    requires i < |m.slots|
    ensures WithSlot(WithSlot(m, i, a), i, b) == WithSlot(m, i, b)
  {
  }

  // ---------------------------------------------------------------- what objects stand for

  lemma {:induction false} AllMerged(a: Message, b: Message, m: Message)
    requires |a.slots| == |b.slots| == |m.slots| && m.unknown == a.unknown + b.unknown
    requires forall i :: 0 <= i < |b.slots| ==> m.slots[i] == MergeSlot(a.slots[i], b.slots[i])
    ensures m == Merge(a, b)
  {
    assert m.slots == Merge(a, b).slots;
  }

  lemma {:induction false} MergedSlots(t: MessageType, a: Message, b: Message)
    requires Shape(t, a) && Shape(t, b)
    ensures forall i :: 0 <= i < |Fields(t)| ==>
              var x, y, z := a.slots[i], b.slots[i], Merge(a, b).slots[i];
              && (y.Num? || y.Blob? ==> z == y)
              && (y.Absent? ==> z == x)
              && (y.Many? ==> x.Many? && z == Many(x.ms + y.ms))
              && (y.One? && !x.One? ==> z == y)
  {
    hide Fields;
    forall i | 0 <= i < |Fields(t)|
      ensures b.slots[i].Many? ==> a.slots[i].Many?
    {
      assert SlotShape(Fields(t)[i].kind, a.slots[i]) && SlotShape(Fields(t)[i].kind, b.slots[i]);
    }
  }

  lemma {:induction false} ShapeOk(o: MessageObject)
    requires o.Valid()
    ensures Shape(o.t, o.Model)
    decreases o.Repr
  {
    hide Fields, HasBit;
    forall i | 0 <= i < |o.cells|
      ensures SlotShape(Fields(o.t)[i].kind, o.Model.slots[i])
    {
      o.FieldOk(i);
      var s := o.Model.slots[i];
      if s.One? {
        ShapeOk(o.cells[i].p);
      } else if s.Many? {
        forall j | 0 <= j < |s.ms|
          ensures Shape(Fields(o.t)[i].kind.t, s.ms[j])
        {
          ShapeOk(o.cells[i].ps[j]);
        }
      }
    }
  }

  /** When an object has become empty and no pointer has changed, so have the sub-messages below it. */
  twostate lemma {:induction false} EmptyBelow(o: MessageObject)
    requires old(o.Valid()) && PointersStay(old(o.Repr)) && o.Valid() && o.Model == Empty(o.t)
    ensures forall q: MessageObject, path: seq<nat> :: old(allocated(q)) && old(o.Leads(path, q)) ==>
              q.Valid() && q.Model == Empty(q.t) && q.Repr <= o.Repr && (path != [] ==> o !in q.Repr)
    decreases old(o.Repr)
  {
    hide Fields, HasBit;
    forall q: MessageObject, path: seq<nat> | old(allocated(q)) && old(o.Leads(path, q))
      ensures q.Valid() && q.Model == Empty(q.t) && q.Repr <= o.Repr && (path != [] ==> o !in q.Repr)
    {
      if path != [] {
        var i := path[0];
        o.Below(i);
        EmptyBelow(o.cells[i].p);
        assert old(o.cells[i].p.Leads(path[1..], q));
      }
    }
  }

  /** The two passes of printing and the parse loop, one after the other on objects: the size announced
      is the number of bytes written, and they rebuild an equal message in fresh objects. */
  method PrintAndParse(o: MessageObject) returns (size: nat, bytes: seq<byte>, q: MessageObject)
    requires o.Valid() && Good(o.t, o.Model, RECURSION_LIMIT) && Size(o.t, o.Model) <= INT_MAX
    modifies o.Repr`cachedSize
    ensures size == |bytes|
    ensures q.Valid() && fresh(q.Repr) && q.t == o.t && q.Model == o.Model
  {
    hide Fields, HasBit, CellMatches, Good, Size, Serialize, Parse, CellSized;
    size := o.ByteSizeLong();
    SizeExact(o.t, o.Model, RECURSION_LIMIT);
    bytes := o.SerializeWithCachedSizes(RECURSION_LIMIT);
    q := new MessageObject(o.t);
    var ok, rest := q.MergePartialFromCodedStream(bytes, RECURSION_LIMIT);
    ParseUndoesSerialize(o.t, o.Model);
  }

  /** A caller writes a scalar through a pointer to the sub-message in field i. Whatever the parent was
      and whatever is written, the field afterwards still stands for something, under some ownership, if
      and only if its has-bit is set: this is what a caller has to check before writing. */
  method WriteThrough(f: MessageObject, i: nat, p: MessageObject, j: nat, v: int)
    requires f.Valid() && i < |Fields(f.t)| && Fields(f.t)[i].kind.KMessage? && f.cells[i] == Owned(p)
    requires OwnedBy(p, Fields(f.t)[i].kind.t, f.parts[i]) && p.Valid()
    requires j < |Fields(p.t)| && IsScalar(Fields(p.t)[j].kind) && InRange(Fields(p.t)[j].kind, v)
    modifies p
    ensures p.Valid() && p.Model == WithSlot(old(p.Model), j, Num(v))
    ensures f.cells == old(f.cells) && f.hasBits == old(f.hasBits)
    ensures (exists own: set<MessageObject>, s: Slot :: CellMatches(Fields(f.t)[i].kind, f.Has(i), f.cells[i], own, s))
            <==> f.Has(i)
  {
    hide Fields, HasBit, InRange, CellMatches;
    var row, has := Fields(f.t)[i], f.Has(i);
    p.SetScalar(j, v);
    if has {
      PresentStands(row.kind, p);
    } else {
      assert p.Model.slots[j] != Empty(p.t).slots[j];
      StaleStandsForNothing(row.kind, p);
    }
    assert row.kind == Fields(f.t)[i].kind && has == f.Has(i) && f.cells[i] == Owned(p);
  }

  lemma {:induction false} PresentStands(k: Kind, p: MessageObject)
    requires k.KMessage? && p.t == k.t && p.Valid()
    ensures exists own: set<MessageObject>, s: Slot :: CellMatches(k, true, Owned(p), own, s)
  {
    OwnedMatches(k, p, p.Repr);
    assert CellMatches(k, true, Owned(p), p.Repr, One(p.Model));
  }

  lemma {:induction false} StaleStandsForNothing(k: Kind, p: MessageObject)
    requires k.KMessage? && p.t == k.t && p.Model != Empty(k.t)
    ensures !exists own: set<MessageObject>, s: Slot :: CellMatches(k, false, Owned(p), own, s)
  {
  }

  /** Written through a present field, mutable_type()->set_width(..), the value shows in the message. */
  method WriteThroughPresent(f: MessageObject, i: nat, p: MessageObject, j: nat, v: int)
    requires f.Valid() && i < |Fields(f.t)| && Fields(f.t)[i].kind.KMessage? && f.cells[i] == Owned(p) && f.Has(i)
    requires OwnedBy(p, Fields(f.t)[i].kind.t, f.parts[i]) && p.Valid()
    requires j < |Fields(p.t)| && IsScalar(Fields(p.t)[j].kind) && InRange(Fields(p.t)[j].kind, v)
    modifies p, f`Model, f`parts, f`Repr
    ensures f.Valid() && f.Model == WithSlot(old(f.Model), i, One(WithSlot(old(p.Model), j, Num(v))))
    ensures p.Model == WithSlot(old(p.Model), j, Num(v))
  {
    hide Fields, HasBit, InRange, CellMatches;
    p.SetScalar(j, v);
    OwnedMatches(Fields(f.t)[i].kind, p, f.parts[i] + p.Repr);
    f.Settle(i, f.parts[i] + p.Repr, One(p.Model));
  }

  /** Such a write can happen: through a pointer that was handed out before its field was cleared. The
      has-bit is clear, the content is not, and nothing in the field stands for a message any more. */
  method LateWrite() returns (f: MessageObject, p: MessageObject)
    ensures f.t == Field && |f.cells| == |Fields(Field)| == 4 && !f.Has(1) && f.cells[1] == Owned(p)
    ensures p.Valid() && p.t == ExtGandivaType && p.Model != Empty(ExtGandivaType)
    ensures !exists own: set<MessageObject>, s: Slot :: CellMatches(Fields(Field)[1].kind, f.Has(1), f.cells[1], own, s)
  {
    hide Fields, HasBit, CellMatches, Empty, ListMatches;
    TypeRow();
    f := new MessageObject(Field);
    p := f.MutableMessage(1);
    f.ClearField(1);
    f.HasTells(1);
    f.RepresentationInvariant(1);
    f.OwnedByPart(1);
    WriteThrough(f, 1, p, 1, 7);
  }

  lemma TypeRow()
    ensures |Fields(Field)| == 4 && Fields(Field)[1].kind == KMessage(ExtGandivaType)
    ensures |Fields(ExtGandivaType)| == 8 && Fields(ExtGandivaType)[1].kind == KUInt32
    ensures Empty(ExtGandivaType).slots[1] == Absent
  {
  }

  /** A new message of type t with p in field i. */
  method Holding(t: MessageType, i: nat, p: MessageObject) returns (o: MessageObject)
    requires p.Valid() && i < |Fields(t)| && Fields(t)[i].kind == KMessage(p.t)
    ensures o.Valid() && o.t == t && fresh(o) && |o.cells| == |Fields(t)| && o.cells[i] == Owned(p)
    ensures o.Repr == {o} + p.Repr && p.Valid() && o.Model != Empty(t)
  {
    hide Fields, HasBit, CellMatches;
    assert Empty(t).slots[i] == Absent;
    hide Empty;
    o := new MessageObject(t);
    o.SetAllocatedMessage(i, p);
    o.Below(i);
    assert o.Model.slots[i] != Absent;
  }

  /** Replacing an if-tree by its own condition that way loses the condition. */
  method CopyOfOwnPart() returns (n: MessageObject, ghost was: Message)
    ensures n.Valid() && n.t == TreeNode && n.Model == Empty(TreeNode) && was != Empty(TreeNode)
  {
    hide *;
    TreeRows();
    var a := new MessageObject(AndNode);
    var c := Holding(TreeNode, 3, a);
    was := c.Model;
    var f := Holding(IfNode, 0, c);
    n := Holding(TreeNode, 2, f);
    TwoDown(n, 2, 0);
    n.CopyFrom(c);
  }

  lemma {:induction false} TwoDown(o: MessageObject, i: nat, j: nat)
    requires o.Valid() && i < |o.cells| && o.cells[i].Owned? && o.cells[i].p != null
    requires o.cells[i].p.Valid() && j < |o.cells[i].p.cells|
    requires o.cells[i].p.cells[j].Owned? && o.cells[i].p.cells[j].p != null
    ensures o.HasWithin(o.cells[i].p.cells[j].p)
  {
    hide Fields, HasBit, CellMatches;
    var p := o.cells[i].p;
    var q := p.cells[j].p;
    o.Below(i);
    p.Below(j);
    assert q.Leads([], q);
    assert [j][1..] == [] && p.Leads([j], q);
    assert [i, j][1..] == [j] && o.Leads([i, j], q);
  }

  lemma TreeRows()
    ensures |Fields(TreeNode)| == 15 && |Fields(IfNode)| == 4
    ensures Fields(TreeNode)[2].kind == KMessage(IfNode) && Fields(TreeNode)[3].kind == KMessage(AndNode)
    ensures Fields(IfNode)[0].kind == KMessage(TreeNode)
  {
  }
}
