/** Laws of the codec on arbitrary bytes: parsing normalises in one pass, the recursion limit decides
    which messages come back, and concatenation is merging when the first part is read to its end. */
module CodecLaws {
  import opened Wire
  import opened Messages
  import opened Codec

  // ---------------------------------------------------------------- what parsing keeps

  lemma {:induction false} ParseKeepsGood(t: MessageType, s: seq<byte>, depth: nat, m: Message)
    requires Good(t, m, depth)
    ensures var o := Parse(t, s, depth, m); o.Failed? || Good(t, o.m, depth)
    decreases |s|, 0
  {
    if s != [] {
      var (tag, body) := ReadTag(s);
      if tag != 0 && ReadPayload(tag, body).Some? {
        var (r, rest) := ReadPayload(tag, body).value;
        AddKeepsGood(t, m, r, depth);
        match AddRecord(t, m, r, depth)
        case None =>
        case Some(n) => ParseKeepsGood(t, rest, depth, n);
      }
    }
  }

  lemma {:induction false} UnknownKeepsGood(t: MessageType, m: Message, r: Record, depth: nat)
    requires Good(t, m, depth) && UnknownFor(t, r)
    ensures Good(t, WithUnknown(m, r), depth)
  {
    hide Fields, UnknownFor, GoodSlot;
  }

  lemma UnlistedIsUnknown(t: MessageType, r: Record)
    requires ValidRecord(r) && Lookup(t, TagOf(r)).None?
    ensures UnknownFor(t, r)
  {
  }

  lemma {:induction false} SlotKeepsGood(t: MessageType, m: Message, i: nat, s: Slot, depth: nat)
    requires Good(t, m, depth) && i < |m.slots| && i < |Fields(t)| && GoodSlot(Fields(t)[i].kind, s, depth)
    ensures Good(t, WithSlot(m, i, s), depth)
  {
    hide Fields, UnknownFor, GoodSlot;
  }

  lemma {:induction false} SlotIsGood(t: MessageType, m: Message, i: nat, depth: nat)
    requires Good(t, m, depth) && i < |Fields(t)|
    ensures |m.slots| == |Fields(t)| && GoodSlot(Fields(t)[i].kind, m.slots[i], depth)
  {
    hide Fields, GoodSlot, UnknownFor;
  }

  lemma {:induction false} AddKeepsGood(t: MessageType, m: Message, r: Record, depth: nat)
    requires Good(t, m, depth) && ValidRecord(r)
    ensures AddRecord(t, m, r, depth).Some? ==> Good(t, AddRecord(t, m, r, depth).value, depth)
    decreases PayloadSize(r), 2
  {
    hide Fields, StoreRecord, GoodSlot, UnknownFor, Good;
    match Lookup(t, TagOf(r))
    case None =>
      UnlistedIsUnknown(t, r);
      UnknownKeepsGood(t, m, r, depth);
    case Some(i) =>
      LookupExact(t, TagOf(r), i);
      SlotIsGood(t, m, i, depth);
      var o := StoreRecord(Fields(t)[i].kind, m.slots[i], r, depth);
      StoreKeepsGood(Fields(t)[i].kind, m.slots[i], r, depth);
      if o.Diverted? {
        DivertedIsUnknown(t, i, r, m.slots[i], depth);
        UnknownKeepsGood(t, m, o.r, depth);
      } else if o.Stored? {
        SlotKeepsGood(t, m, i, o.s, depth);
      }
  }

  lemma {:induction false} StoreKeepsGood(k: Kind, was: Slot, r: Record, depth: nat)
    requires GoodSlot(k, was, depth) && ValidRecord(r) && WireType(r) == KindWireType(k)
    ensures var o := StoreRecord(k, was, r, depth); o.Stored? ==> GoodSlot(k, o.s, depth)
    decreases PayloadSize(r), 1
  {
    hide Fields, Lookup, Parse, Good;
    match k
    case KString =>
    case KMessage(t) =>
      if r.BytesRecord? && depth > 0 {
        EmptyGood(t, depth - 1);
        ParseKeepsGood(t, r.b, depth - 1, if was.One? then was.m else Empty(t));
      }
    case KRepeated(t) =>
      if r.BytesRecord? && depth > 0 {
        EmptyGood(t, depth - 1);
        ParseKeepsGood(t, r.b, depth - 1, Empty(t));
      }
    case _ =>
      FromWireInRange(k, r.v);
  }

  /** An out-of-range enum value is kept as a record that will be diverted again, unchanged. */
  lemma {:induction false} DivertedIsUnknown(t: MessageType, i: nat, r: Record, was: Slot, depth: nat)
    requires i < |Fields(t)| && ValidRecord(r) && TagOf(r) == RowTag(Fields(t)[i])
    requires StoreRecord(Fields(t)[i].kind, was, r, depth).Diverted?
    ensures UnknownFor(t, StoreRecord(Fields(t)[i].kind, was, r, depth).r)
  {
    hide Fields, Lookup, Signed32, Unsigned64;
    var u := StoreRecord(Fields(t)[i].kind, was, r, depth).r;
    SignedTwice(r.v);
    LookupExact(t, TagOf(u), i);
  }

  lemma SignedTwice(w: nat)
    ensures Signed32(Unsigned64(Signed32(w))) == Signed32(w)
  {
  }

  // ---------------------------------------------------------------- normalisation

  /** Every accepted byte string normalises in one pass: printing what was parsed and parsing that
      gives the same message, with nothing left unread, provided the printed size fits an int. */
  lemma {:induction false} Normalises(t: MessageType, s: seq<byte>)
    requires Accepted(ParseTop(t, s)) && |Serialize(t, ParseTop(t, s).m)| <= INT_MAX
    ensures ParseTop(t, Serialize(t, ParseTop(t, s).m)) == Done(ParseTop(t, s).m)
  {
    EmptyGood(t, RECURSION_LIMIT);
    ParseKeepsGood(t, s, RECURSION_LIMIT, Empty(t));
    ParseUndoesSerialize(t, ParseTop(t, s).m);
  }

  // ---------------------------------------------------------------- the recursion limit

  /** What is accepted with some depth to spare is accepted alike with more. */
  lemma {:induction false} ParseDeeper(t: MessageType, s: seq<byte>, depth: nat, more: nat, m: Message)
    requires depth <= more && !Parse(t, s, depth, m).Failed?
    ensures Parse(t, s, more, m) == Parse(t, s, depth, m)
    decreases |s|, 0
  {
    hide Fields, AddRecord, ReadTag, ReadPayload;
    if s != [] {
      var (tag, body) := ReadTag(s);
      if tag != 0 {
        var (r, rest) := ReadPayload(tag, body).value;
        AddDeeper(t, m, r, depth, more);
        ParseDeeper(t, rest, depth, more, AddRecord(t, m, r, depth).value);
      }
    }
  }

  lemma {:induction false} AddDeeper(t: MessageType, m: Message, r: Record, depth: nat, more: nat)
    requires depth <= more && AddRecord(t, m, r, depth).Some?
    ensures AddRecord(t, m, r, more) == AddRecord(t, m, r, depth)
    decreases PayloadSize(r), 2
  {
    hide Fields, StoreRecord;
    match Lookup(t, TagOf(r))
    case None =>
    case Some(i) => StoreDeeper(Fields(t)[i].kind, m.slots[i], r, depth, more);
  }

  lemma {:induction false} StoreDeeper(k: Kind, was: Slot, r: Record, depth: nat, more: nat)
    requires depth <= more && !StoreRecord(k, was, r, depth).Refused?
    ensures StoreRecord(k, was, r, more) == StoreRecord(k, was, r, depth)
    decreases PayloadSize(r), 1
  {
    hide Fields, Parse, FromWire;
    match k
    case KMessage(t) =>
      ParseDeeper(t, r.b, depth - 1, more - 1, if was.One? then was.m else Empty(t));
    case KRepeated(t) =>
      ParseDeeper(t, r.b, depth - 1, more - 1, Empty(t));
    case _ =>
  }

  /** Exactly the messages nested within the recursion limit come back from their own bytes; the bytes
      of any other message are refused. */
  lemma {:induction false} RoundTripExact(t: MessageType, m: Message, depth: nat)
    requires Good(t, m, depth) && |Serialize(t, m)| <= INT_MAX
    ensures ParseTop(t, Serialize(t, m)) == Done(m) <==> Good(t, m, RECURSION_LIMIT)
    ensures ParseTop(t, Serialize(t, m)).Failed? <==> !Good(t, m, RECURSION_LIMIT)
  {
    hide Fields, Parse, Good, Serialize, Shape;
    var s, e := Serialize(t, m), Empty(t);
    EmptyShape(t);
    GoodShape(t, m, depth);
    SerializedMerges(t, m, depth, e);
    MergeEmptyLeft(t, m);
    if Good(t, m, RECURSION_LIMIT) {
      ParseUndoesSerialize(t, m);
    } else if !ParseTop(t, s).Failed? {
      if depth <= RECURSION_LIMIT {
        ParseDeeper(t, s, depth, RECURSION_LIMIT, e);
      } else {
        ParseDeeper(t, s, RECURSION_LIMIT, depth, e);
      }
      EmptyGood(t, RECURSION_LIMIT);
      ParseKeepsGood(t, s, RECURSION_LIMIT, e);
    }
  }

  /** A field whose first child has a first child, and so on, n levels down. */
  function Nested(n: nat): Message {
    Message([Absent, Absent, Absent, Many(if n == 0 then [] else [Nested(n - 1)])], [])
  }

  lemma ChildRows()
    ensures |Fields(Field)| == 4 && Fields(Field)[3] == FieldRow(4, KRepeated(Field))
    ensures forall i :: 0 <= i < 3 ==> !Fields(Field)[i].kind.KRepeated?
  {
  }

  lemma {:induction false} NestedGood(n: nat, depth: nat)
    ensures Good(Field, Nested(n), depth) <==> n <= depth
  {
    hide Fields;
    ChildRows();
    var m := Nested(n);
    if n > 0 && depth > 0 {
      NestedGood(n - 1, depth - 1);
      assert m.slots[3].ms[0] == Nested(n - 1);
    }
    assert GoodSlot(Fields(Field)[3].kind, m.slots[3], depth) <==> n <= depth;
  }

  lemma {:induction false} AbsentWritesNothing(row: FieldRow)
    ensures SlotRecords(row, Absent) == []
  {
  }

  lemma {:induction false} NextFieldRecords(t: MessageType, m: Message, n: nat)
    requires |m.slots| == |Fields(t)| && 0 < n <= |Fields(t)|
    ensures FieldRecords(t, m, n) == FieldRecords(t, m, n - 1) + SlotRecords(Fields(t)[n - 1], m.slots[n - 1])
    ensures FieldRecords(t, m, 0) == []
  {
    hide Fields, SlotRecords;
  }

  /** With one slot to write, the records are those of that slot. */
  lemma {:induction false} OnlySlot(t: MessageType, m: Message, i: nat, n: nat)
    requires |m.slots| == |Fields(t)| && i < |m.slots| && 0 < n <= |Fields(t)|
    requires forall j :: 0 <= j < |m.slots| && j != i ==> m.slots[j] == Absent
    ensures FieldRecords(t, m, n) == if i < n then SlotRecords(Fields(t)[i], m.slots[i]) else []
  {
    hide Fields, SlotRecords, FieldRecords;
    NextFieldRecords(t, m, n);
    if n > 1 {
      OnlySlot(t, m, i, n - 1);
    }
    if n - 1 != i {
      AbsentWritesNothing(Fields(t)[n - 1]);
    }
  }

  lemma NestedBytes(n: nat)
    ensures n == 0 ==> Serialize(Field, Nested(n)) == []
    ensures n > 0 ==> Serialize(Field, Nested(n)) == RecordBytes(BytesRecord(4, Serialize(Field, Nested(n - 1))))
  {
    hide Fields, RecordBytes;
    ChildRows();
    var m := Nested(n);
    var rs := SlotRecords(Fields(Field)[3], m.slots[3]);
    OnlySlot(Field, m, 3, 4);
    assert Records(Field, m) == rs;
    if n > 0 {
      var r := BytesRecord(4, Serialize(Field, Nested(n - 1)));
      assert rs == [r];
      BytesOne(r);
    }
  }

  lemma {:induction false} NestedSize(n: nat)
    requires n <= 2000
    ensures |Serialize(Field, Nested(n))| <= 6 * n
  {
    hide Fields, Serialize, Varint, VarintSize, Power128;
    NestedBytes(n);
    if n > 0 {
      NestedSize(n - 1);
      var b := Serialize(Field, Nested(n - 1));
      VarintSizeExact(|b|);
      VarintSizeExact(34);
      assert Power128(2) == 16384 by { SmallPowers(); }
      VarintSizeBound(|b|, 2);
      VarintSizeBound(34, 2);
    }
  }

  lemma SmallPowers()
    ensures Power128(2) == 16384
  {
  }

  /** A field nested one level beyond the limit is written without complaint, and refused when read. */
  lemma TooDeepIsRefused()
    ensures Good(Field, Nested(1001), 1001) && |Serialize(Field, Nested(1001))| <= 6006
    ensures ParseTop(Field, Serialize(Field, Nested(1001))).Failed?
  {
    hide Fields, Serialize, Good, Nested;
    NestedGood(1001, 1001);
    NestedGood(1001, RECURSION_LIMIT);
    NestedSize(1001);
    RoundTripExact(Field, Nested(1001), 1001);
  }

  // ---------------------------------------------------------------- how deep a message is

  function Max(a: nat, b: nat): nat { if a < b then b else a }

  /** How many levels of sub-messages there are. */
  function Height(m: Message): nat
    decreases m, |m.slots| + 1
  {
    SlotsHeight(m, |m.slots|)
  }

  function SlotsHeight(m: Message, n: nat): nat
    requires n <= |m.slots|
    decreases m, n
  {
    if n == 0 then 0 else Max(SlotsHeight(m, n - 1), SlotHeight(m.slots[n - 1]))
  }

  function SlotHeight(s: Slot): nat
    decreases s, 0
  {
    match s
    case One(m) => 1 + Height(m)
    case Many(ms) => if ms == [] then 0 else 1 + ElementsHeight(ms)
    case _ => 0
  }

  function ElementsHeight(ms: seq<Message>): nat
    decreases ms
  {
    if ms == [] then 0 else Max(Height(ms[0]), ElementsHeight(ms[1..]))
  }

  lemma {:induction false} SlotsAtMost(m: Message, n: nat, e: int)
    requires n <= |m.slots|
    ensures SlotsHeight(m, n) <= e <==> 0 <= e && forall i :: 0 <= i < n ==> SlotHeight(m.slots[i]) <= e
  {
    if n > 0 { SlotsAtMost(m, n - 1, e); }
  }

  lemma {:induction false} ElementsAtMost(ms: seq<Message>, e: int)
    ensures ElementsHeight(ms) <= e <==> 0 <= e && forall i :: 0 <= i < |ms| ==> Height(ms[i]) <= e
  {
    if ms != [] {
      ElementsAtMost(ms[1..], e);
      assert forall i :: 1 <= i < |ms| ==> ms[i] == ms[1..][i - 1];
    }
  }

  lemma {:induction false} SlotGoodAtHeight(k: Kind, s: Slot, depth: nat, e: nat)
    requires GoodSlot(k, s, depth)
    ensures GoodSlot(k, s, e) <==> SlotHeight(s) <= e
    decreases s, 0
  {
    hide Fields, Good;
    match s
    case One(m) =>
      if e > 0 { GoodAtHeight(k.t, m, depth - 1, e - 1); }
    case Many(ms) =>
      if ms != [] && e > 0 {
        ElementsAtMost(ms, e - 1);
        forall i | 0 <= i < |ms|
          ensures Good(k.t, ms[i], e - 1) <==> Height(ms[i]) <= e - 1
        {
          GoodAtHeight(k.t, ms[i], depth - 1, e - 1);
        }
      }
    case _ =>
  }

  /** The limit a message needs is its height: kept by every sub-message, single or in a list. */
  lemma {:induction false} GoodAtHeight(t: MessageType, m: Message, depth: nat, e: nat)
    requires Good(t, m, depth)
    ensures Good(t, m, e) <==> Height(m) <= e
    decreases m, 1
  {
    hide Fields, GoodSlot, UnknownFor, SlotHeight;
    SlotsAtMost(m, |m.slots|, e);
    forall i | 0 <= i < |m.slots|
      ensures GoodSlot(Fields(t)[i].kind, m.slots[i], e) <==> SlotHeight(m.slots[i]) <= e
    {
      SlotGoodAtHeight(Fields(t)[i].kind, m.slots[i], depth, e);
    }
  }

  /** So a message comes back from its bytes exactly when it is at most a thousand levels high. */
  lemma {:induction false} RoundTripByHeight(t: MessageType, m: Message, depth: nat)
    requires Good(t, m, depth) && |Serialize(t, m)| <= INT_MAX
    ensures ParseTop(t, Serialize(t, m)) == Done(m) <==> Height(m) <= 1000
    ensures Height(m) > 1000 ==> ParseTop(t, Serialize(t, m)).Failed?
  {
    hide Fields, Good, Serialize, Parse, Height;
    RoundTripExact(t, m, depth);
    GoodAtHeight(t, m, depth, RECURSION_LIMIT);
  }

  // ---------------------------------------------------------------- concatenation

  /** A parse that reached its end continues on whatever is appended. */
  lemma {:induction false} ParseAppend(t: MessageType, a: seq<byte>, b: seq<byte>, depth: nat, m: Message)
    requires Parse(t, a, depth, m).Done?
    ensures Parse(t, a + b, depth, m) == Parse(t, b, depth, Parse(t, a, depth, m).m)
    decreases |a|
  {
    if a == [] {
      assert a + b == b;
    } else {
      var (tag, body) := ReadTag(a);
      var (r, rest) := ReadPayload(tag, body).value;
      ReadTagAppend(a, b);
      ReadPayloadAppend(tag, body, b);
      assert a + b != [];
      ParseAppend(t, rest, b, depth, AddRecord(t, m, r, depth).value);
    }
  }

  /** A parse that stopped at a literal zero tag never sees what is appended. */
  lemma {:induction false} ZeroTagHidesTheRest(t: MessageType, a: seq<byte>, b: seq<byte>, depth: nat, m: Message)
    requires Parse(t, a, depth, m).Done?
    ensures Parse(t, a + ([0] + b), depth, m) == Stopped(Parse(t, a, depth, m).m)
  {
    hide Fields, AddRecord, ReadPayload;
    ParseAppend(t, a, [0] + b, depth, m);
    assert ReadTag([0] + b).0 == 0;
  }

  function Lift(m: Message, o: Outcome): Outcome {
    match o
    case Failed => Failed
    case Stopped(n) => Stopped(Merge(m, n))
    case Done(n) => Done(Merge(m, n))
  }

  lemma {:induction false} ParseKeepsShape(t: MessageType, s: seq<byte>, depth: nat, m: Message)
    requires Shape(t, m)
    ensures var o := Parse(t, s, depth, m); o.Failed? || Shape(t, o.m)
    decreases |s|, 0
  {
    if s != [] {
      var (tag, body) := ReadTag(s);
      if tag != 0 && ReadPayload(tag, body).Some? {
        var (r, rest) := ReadPayload(tag, body).value;
        AddKeepsShape(t, m, r, depth);
        match AddRecord(t, m, r, depth)
        case None =>
        case Some(n) => ParseKeepsShape(t, rest, depth, n);
      }
    }
  }

  lemma {:induction false} AddKeepsShape(t: MessageType, m: Message, r: Record, depth: nat)
    requires Shape(t, m)
    ensures AddRecord(t, m, r, depth).Some? ==> Shape(t, AddRecord(t, m, r, depth).value)
    decreases PayloadSize(r), 2
  {
    match Lookup(t, TagOf(r))
    case None =>
    case Some(i) => StoreKeepsShape(Fields(t)[i].kind, m.slots[i], r, depth);
  }

  lemma {:induction false} StoreKeepsShape(k: Kind, was: Slot, r: Record, depth: nat)
    requires SlotShape(k, was)
    ensures var o := StoreRecord(k, was, r, depth); o.Stored? ==> SlotShape(k, o.s)
    decreases PayloadSize(r), 1
  {
    hide Fields, Lookup, Parse, Shape;
    match k
    case KMessage(t) =>
      if r.BytesRecord? && depth > 0 {
        EmptyShape(t);
        ParseKeepsShape(t, r.b, depth - 1, if was.One? then was.m else Empty(t));
      }
    case KRepeated(t) =>
      if r.BytesRecord? && depth > 0 {
        EmptyShape(t);
        ParseKeepsShape(t, r.b, depth - 1, Empty(t));
      }
    case _ =>
  }

  /** Parsing into a merged message is merging into it what is parsed. */
  lemma {:induction false} ParseInto(t: MessageType, s: seq<byte>, depth: nat, m: Message, acc: Message)
    requires Shape(t, m) && Shape(t, acc)
    ensures Parse(t, s, depth, Merge(m, acc)) == Lift(m, Parse(t, s, depth, acc))
    decreases |s|, 0
  {
    hide Fields, AddRecord, ReadTag, ReadPayload, Merge, Shape;
    if s != [] {
      var (tag, body) := ReadTag(s);
      if tag != 0 && ReadPayload(tag, body).Some? {
        var (r, rest) := ReadPayload(tag, body).value;
        AddInto(t, m, r, depth, acc);
        AddKeepsShape(t, acc, r, depth);
        match AddRecord(t, acc, r, depth)
        case None =>
        case Some(n) => ParseInto(t, rest, depth, m, n);
      }
    }
  }

  function LiftSlot(x: Slot, o: SlotOutcome): SlotOutcome {
    match o
    case Stored(s) => Stored(MergeSlot(x, s))
    case _ => o
  }

  lemma {:induction false} UpdateInto(m: Message, acc: Message, i: nat, o: SlotOutcome)
    requires |m.slots| == |acc.slots| && i < |acc.slots|
    ensures Update(Merge(m, acc), i, LiftSlot(m.slots[i], o)) ==
            match Update(acc, i, o) case None => None case Some(n) => Some(Merge(m, n))
  {
    match o
    case Refused =>
    case Diverted(u) => MergeWithUnknown(m, acc, u);
    case Stored(s) => MergeWithSlot(m, acc, i, s);
  }

  lemma {:induction false} AddInto(t: MessageType, m: Message, r: Record, depth: nat, acc: Message)
    requires Shape(t, m) && Shape(t, acc)
    ensures AddRecord(t, Merge(m, acc), r, depth) ==
            match AddRecord(t, acc, r, depth) case None => None case Some(n) => Some(Merge(m, n))
    decreases PayloadSize(r), 3
  {
    hide Fields, StoreRecord, SlotShape, Update;
    match Lookup(t, TagOf(r))
    case None =>
      MergeWithUnknown(m, acc, r);
    case Some(i) =>
      StoreInto(Fields(t)[i].kind, m.slots[i], r, depth, acc.slots[i]);
      UpdateInto(m, acc, i, StoreRecord(Fields(t)[i].kind, acc.slots[i], r, depth));
  }

  lemma {:induction false} MergeWithUnknown(m: Message, acc: Message, r: Record)
    ensures Merge(m, WithUnknown(acc, r)) == WithUnknown(Merge(m, acc), r)
  {
    assert (m.unknown + acc.unknown) + [r] == m.unknown + (acc.unknown + [r]);
  }

  lemma {:induction false} MergeWithSlot(m: Message, acc: Message, i: nat, s: Slot)
    requires |m.slots| == |acc.slots| && i < |acc.slots|
    ensures Merge(m, WithSlot(acc, i, s)) == WithSlot(Merge(m, acc), i, MergeSlot(m.slots[i], s))
  {
  }

  ghost predicate StoresInto(k: Kind, x: Slot, r: Record, depth: nat, y: Slot) {
    StoreRecord(k, MergeSlot(x, y), r, depth) == LiftSlot(x, StoreRecord(k, y, r, depth))
  }

  lemma {:induction false} StoreInto(k: Kind, x: Slot, r: Record, depth: nat, y: Slot)
    requires SlotShape(k, x) && SlotShape(k, y)
    ensures StoresInto(k, x, r, depth, y)
    decreases PayloadSize(r), 2
  {
    hide Fields, Parse;
    if k.KMessage? {
      if r.BytesRecord? && depth > 0 { StoreMessageInto(k.t, x, r, depth, y); }
    } else if k.KRepeated? {
      StoreElementInto(k.t, x, r, depth, y);
    }
  }

  lemma {:induction false} StoreMessageInto(t: MessageType, x: Slot, r: Record, depth: nat, y: Slot)
    requires SlotShape(KMessage(t), x) && SlotShape(KMessage(t), y) && r.BytesRecord? && depth > 0
    ensures StoresInto(KMessage(t), x, r, depth, y)
    decreases PayloadSize(r), 1
  {
    hide Fields, Parse, Merge;
    if x.One? {
      EmptyShape(t);
      var from := if y.One? then y.m else Empty(t);
      assert Shape(t, x.m) && Shape(t, from);
      ParseInto(t, r.b, depth - 1, x.m, from);
      MergeEmptyRight(t, x.m);
    }
  }

  lemma {:induction false} StoreElementInto(t: MessageType, x: Slot, r: Record, depth: nat, y: Slot)
    requires SlotShape(KRepeated(t), x) && SlotShape(KRepeated(t), y)
    ensures StoresInto(KRepeated(t), x, r, depth, y)
  {
    hide Fields, Parse;
    if r.BytesRecord? && depth > 0 {
      var o := Parse(t, r.b, depth - 1, Empty(t));
      if o.Done? {
        assert (x.ms + y.ms) + [o.m] == x.ms + (y.ms + [o.m]);
      }
    }
  }

  /** When the first byte string is read to its end, parsing the concatenation is parsing both and
      merging the second message into the first, whether or not the second one is acceptable. */
  lemma ConcatenationMerges(t: MessageType, a: seq<byte>, b: seq<byte>)
    requires ParseTop(t, a).Done?
    ensures ParseTop(t, a + b) == Lift(ParseTop(t, a).m, ParseTop(t, b))
  {
    ParseAppend(t, a, b, RECURSION_LIMIT, Empty(t));
    EmptyShape(t);
    ParseKeepsShape(t, a, RECURSION_LIMIT, Empty(t));
    var m := ParseTop(t, a).m;
    ParseInto(t, b, RECURSION_LIMIT, m, Empty(t));
    MergeEmptyRight(t, m);
  }

  /** The law as it is wanted: two accepted byte strings, parsed together or parsed apart and merged. */
  ghost predicate ConcatenatesAsMerge(t: MessageType, a: seq<byte>, b: seq<byte>)
    requires Accepted(ParseTop(t, a))
  {
    Accepted(ParseTop(t, b)) ==>
      && Accepted(ParseTop(t, a + b))
      && ParseTop(t, a + b).m == Merge(ParseTop(t, a).m, ParseTop(t, b).m)
  }

  /** A varint field no message type knows, its tag stretched over all ten bytes a varint may take. */
  const STRETCHED: seq<byte> := [192, 190, 128, 128, 128, 128, 128, 128, 128, 0, 1]
  const STRANGER: Record := VarintRecord(1000, 1)

  lemma {:induction false} AllContinue(w: seq<byte>, limit: nat)
    requires limit <= |w| && forall i :: 0 <= i < limit ==> w[i] >= 128
    ensures ReadGroups(w, limit).None?
  {
    if limit > 0 {
      AllContinue(w[1..], limit - 1);
    }
  }

  /** Bytes that end inside a varint are not completed by nine bytes that all continue. */
  lemma {:induction false} StaysIncomplete(a: seq<byte>, w: seq<byte>, limit: nat)
    requires ReadGroups(a, limit).None? && limit <= |a| + 9
    requires |w| >= 9 && forall i :: 0 <= i < 9 ==> w[i] >= 128
    ensures ReadGroups(a + w, limit).None?
  {
    if a == [] {
      assert a + w == w;
      AllContinue(w, limit);
    } else if limit > 0 {
      assert (a + w)[1..] == a[1..] + w;
      StaysIncomplete(a[1..], w, limit - 1);
    }
  }

  lemma ZeroTagStays(a: seq<byte>)
    requires a != [] && ReadTag(a).0 == 0
    ensures ReadTag(a + STRETCHED).0 == 0
  {
    hide ReadGroups;
    if ReadVarint(a).Some? {
      ReadGroupsAppend(a, STRETCHED, MAX_VARINT_BYTES);
    } else {
      StaysIncomplete(a, STRETCHED, MAX_VARINT_BYTES);
    }
  }

  /** A parse that stopped short stops at the same place with the stranger appended. */
  lemma {:induction false} StoppedStays(t: MessageType, a: seq<byte>, depth: nat, m: Message)
    requires Parse(t, a, depth, m).Stopped?
    ensures Parse(t, a + STRETCHED, depth, m) == Parse(t, a, depth, m)
    decreases |a|
  {
    hide Fields, AddRecord, ReadPayload, ReadGroups, ReadTag;
    var (tag, body) := ReadTag(a);
    assert a + STRETCHED != [];
    if tag == 0 {
      ZeroTagStays(a);
    } else {
      var (r, rest) := ReadPayload(tag, body).value;
      assert ReadVarint(a).Some? by { NonzeroTagIsRead(a); }
      ReadTagAppend(a, STRETCHED);
      ReadPayloadAppend(tag, body, STRETCHED);
      StoppedStays(t, rest, depth, AddRecord(t, m, r, depth).value);
    }
  }

  lemma NonzeroTagIsRead(a: seq<byte>)
    requires ReadTag(a).0 != 0
    ensures ReadVarint(a).Some?
  {
  }

  lemma StretchedTag()
    ensures ReadTag(STRETCHED) == (8000, [1])
  {
    assert ReadGroups(STRETCHED[9..], 1) == Some((0, [1]));
    assert ReadGroups(STRETCHED[8..], 2) == Some((0, [1]));
    assert ReadGroups(STRETCHED[7..], 3) == Some((0, [1]));
    assert ReadGroups(STRETCHED[6..], 4) == Some((0, [1]));
    assert ReadGroups(STRETCHED[5..], 5) == Some((0, [1]));
    assert ReadGroups(STRETCHED[4..], 6) == Some((0, [1]));
    assert ReadGroups(STRETCHED[3..], 7) == Some((0, [1]));
    assert ReadGroups(STRETCHED[2..], 8) == Some((0, [1]));
    assert ReadGroups(STRETCHED[1..], 9) == Some((62, [1]));
    assert ReadGroups(STRETCHED, 10) == Some((8000, [1]));
  }

  lemma StrangerIsUnknown(t: MessageType)
    ensures Lookup(t, 8000).None?
  {
    hide Fields;
    TableOk(t);
  }

  lemma StretchedParses(t: MessageType)
    ensures ParseTop(t, STRETCHED) == Done(WithUnknown(Empty(t), STRANGER))
  {
    hide Fields, ReadTag, ReadGroups, Lookup;
    StretchedTag();
    var m := Empty(t);
    assert ReadPayload(8000, [1]) == Some((STRANGER, [])) by {
      VarintRoundTrip(1, []);
      assert Varint(1) + [] == [1];
    }
    StrangerIsUnknown(t);
    assert AddRecord(t, m, STRANGER, RECURSION_LIMIT) == Some(WithUnknown(m, STRANGER));
  }

  /** The law holds for every second byte string exactly when the first one is read to its end: one
      that is accepted because its tail reads as a zero tag hides whatever follows. */
  lemma ConcatenationExact(t: MessageType, a: seq<byte>)
    requires Accepted(ParseTop(t, a))
    ensures ParseTop(t, a).Done? <==> forall b: seq<byte> :: ConcatenatesAsMerge(t, a, b)
  {
    hide Parse, Fields;
    if ParseTop(t, a).Done? {
      forall b: seq<byte>
        ensures ConcatenatesAsMerge(t, a, b)
      {
        ConcatenationMerges(t, a, b);
      }
    } else {
      StoppedStays(t, a, RECURSION_LIMIT, Empty(t));
      StretchedParses(t);
      MergedStrangerShows(t, ParseTop(t, a).m);
      assert !ConcatenatesAsMerge(t, a, STRETCHED);
    }
  }

  /** A concrete failure, for every message type: a single zero byte is accepted as the empty message,
      and swallows the record that follows it. */
  lemma ConcatenationNeedsTheEnd(t: MessageType)
    ensures Accepted(ParseTop(t, [0])) && Accepted(ParseTop(t, STRETCHED))
    ensures !ConcatenatesAsMerge(t, [0], STRETCHED)
  {
    hide Parse, Fields, Merge;
    ParseNothing(t, RECURSION_LIMIT, Empty(t));
    ZeroTagHidesTheRest(t, [], [], RECURSION_LIMIT, Empty(t));
    ZeroTagHidesTheRest(t, [], STRETCHED, RECURSION_LIMIT, Empty(t));
    assert [] + ([0] + []) == [0] && [] + ([0] + STRETCHED) == [0] + STRETCHED;
    StretchedParses(t);
    MergedStrangerShows(t, Empty(t));
  }

  lemma {:induction false} ParseNothing(t: MessageType, depth: nat, m: Message)
    ensures Parse(t, [], depth, m) == Done(m)
  {
  }

  lemma {:induction false} MergedStrangerShows(t: MessageType, m: Message)
    ensures Merge(m, WithUnknown(Empty(t), STRANGER)) != m
  {
    hide Fields;
    assert |Merge(m, WithUnknown(Empty(t), STRANGER)).unknown| > |m.unknown|;
  }
}
