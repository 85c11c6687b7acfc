/** The wire primitives of the Protocol Buffers encoding: base-128 varints, fixed-width values,
    length-delimited records, and the tags that introduce them. */
module Wire {
  type byte = b: int | 0 <= b < 256
  const TWO31: int := 0x8000_0000
  const TWO32: int := 0x1_0000_0000
  const TWO64: int := 0x1_0000_0000_0000_0000
  const INT_MAX: int := 0x7FFF_FFFF
  const MAX_FIELD: int := 0x1FFF_FFFF
  const MAX_VARINT_BYTES: nat := 10

  datatype Option<+T> = None | Some(value: T)

  // ---------------------------------------------------------------- varints

  /** Seven bits a byte, least significant group first, high bit set on all but the last. */
  function Varint(v: nat): (s: seq<byte>)
    ensures |s| > 0
  {
    if v < 128 then [v] else [128 + v % 128] + Varint(v / 128)
  }

  function VarintSize(v: nat): nat {
    if v < 128 then 1 else 1 + VarintSize(v / 128)
  }

  /** Reads at most `limit` bytes. */
  function ReadGroups(s: seq<byte>, limit: nat): (r: Option<(nat, seq<byte>)>)
    ensures r.Some? ==> |r.value.1| < |s|
  {
    if limit == 0 || s == [] then None
    else if s[0] < 128 then Some((s[0], s[1..]))
    else
      match ReadGroups(s[1..], limit - 1)
      case None => None
      case Some((v, rest)) => Some((128 * v + (s[0] - 128), rest))
  }

  /** A 64-bit varint: ten bytes at most, surplus high bits dropped. */
  function ReadVarint(s: seq<byte>): (r: Option<(nat, seq<byte>)>)
    ensures r.Some? ==> r.value.0 < TWO64 && |r.value.1| < |s|
  {
    match ReadGroups(s, MAX_VARINT_BYTES)
    case None => None
    case Some((v, rest)) => Some((v % TWO64, rest))
  }

  lemma {:induction false} VarintSizeExact(v: nat)
    ensures |Varint(v)| == VarintSize(v)
  {
    if v >= 128 {
      VarintSizeExact(v / 128);
    }
  }

  lemma {:induction false} ReadGroupsOfVarint(v: nat, rest: seq<byte>, limit: nat)
    requires VarintSize(v) <= limit
    ensures ReadGroups(Varint(v) + rest, limit) == Some((v, rest))
  {
    var s := Varint(v) + rest;
    if v < 128 {
      assert s[1..] == rest;
    } else {
      ReadGroupsOfVarint(v / 128, rest, limit - 1);
      assert s[1..] == Varint(v / 128) + rest;
    }
  }

  lemma {:induction false} VarintSizeBound(v: nat, n: nat)
    requires 1 <= n && v < Power128(n)
    ensures VarintSize(v) <= n
  {
    if v >= 128 && n > 1 {
      VarintSizeBound(v / 128, n - 1);
    }
  }

  function Power128(n: nat): nat { if n == 0 then 1 else 128 * Power128(n - 1) }

  lemma Powers128()
    ensures Power128(10) > TWO64
  {
    assert Power128(5) == 0x8_0000_0000 by {
      assert Power128(3) == 128 * 128 * 128;
    }
    assert Power128(10) == 128 * 128 * 128 * 128 * 128 * Power128(5);
  }

  /** A varint below 2^64 takes at most ten bytes, and reads back as itself whatever follows it. */
  lemma {:induction false} VarintRoundTrip(v: nat, rest: seq<byte>)
    requires v < TWO64
    ensures |Varint(v)| <= MAX_VARINT_BYTES
    ensures ReadVarint(Varint(v) + rest) == Some((v, rest))
  {
    hide Varint, VarintSize, ReadGroups, Power128;
    Powers128();
    VarintSizeExact(v);
    VarintSizeBound(v, MAX_VARINT_BYTES);
    ReadGroupsOfVarint(v, rest, MAX_VARINT_BYTES);
  }

  /** What seven-bit groups amount to, the least significant one first. */
  function GroupSum(s: seq<byte>): nat {
    if s == [] then 0 else s[0] % 128 + 128 * GroupSum(s[1..])
  }

  /** All bytes but the last have their high bit set. */
  predicate OneVarint(s: seq<byte>) {
    s != [] && forall i :: 0 <= i < |s| ==> (s[i] >= 128 <==> i < |s| - 1)
  }

  /** The bytes of a varint: the groups of its value, marked as one, and no group too many. */
  lemma {:induction false} VarintGroups(v: nat)
    ensures OneVarint(Varint(v)) && GroupSum(Varint(v)) == v
    ensures |Varint(v)| > 1 ==> Varint(v)[|Varint(v)| - 1] != 0
  {
    if v >= 128 {
      var rest := Varint(v / 128);
      VarintGroups(v / 128);
      assert Varint(v)[1..] == rest;
      forall i | 0 <= i < |Varint(v)|
        ensures Varint(v)[i] >= 128 <==> i < |Varint(v)| - 1
      {
        assert i > 0 ==> Varint(v)[i] == rest[i - 1];
      }
    }
  }

  /** Any varint of at most `limit` bytes is read as the sum of its groups, minimal or not. */
  lemma {:induction false} ReadsGroups(s: seq<byte>, rest: seq<byte>, limit: nat)
    requires OneVarint(s) && |s| <= limit
    ensures ReadGroups(s + rest, limit) == Some((GroupSum(s), rest))
  {
    if |s| == 1 {
      assert (s + rest)[1..] == rest && s[1..] == [];
    } else {
      forall i | 0 <= i < |s[1..]|
        ensures s[1..][i] >= 128 <==> i < |s[1..]| - 1
      {
        assert s[1..][i] == s[i + 1];
      }
      ReadsGroups(s[1..], rest, limit - 1);
      assert (s + rest)[1..] == s[1..] + rest;
      assert (s + rest)[0] == s[0] >= 128;
    }
  }

  /** Nothing is read exactly when no byte within the limit ends the varint. */
  lemma {:induction false} ReadsNothing(s: seq<byte>, limit: nat)
    ensures ReadGroups(s, limit).None? <==> forall i :: 0 <= i < |s| && i < limit ==> s[i] >= 128
  {
    if limit > 0 && s != [] && s[0] >= 128 {
      ReadsNothing(s[1..], limit - 1);
      assert forall i :: 1 <= i < |s| ==> s[i] == s[1..][i - 1];
    }
  }

  lemma {:induction false} ReadGroupsAppend(s: seq<byte>, t: seq<byte>, limit: nat)
    requires ReadGroups(s, limit).Some?
    ensures ReadGroups(s + t, limit) ==
            Some((ReadGroups(s, limit).value.0, ReadGroups(s, limit).value.1 + t))
  {
    assert (s + t)[1..] == s[1..] + t;
    if s[0] >= 128 {
      ReadGroupsAppend(s[1..], t, limit - 1);
    }
  }

  // ---------------------------------------------------------------- fixed width

  function LittleEndian(v: nat, n: nat): (s: seq<byte>)
    ensures |s| == n
  {
    if n == 0 then [] else [v % 256] + LittleEndian(v / 256, n - 1)
  }

  function FromLittleEndian(s: seq<byte>): nat {
    if s == [] then 0 else s[0] + 256 * FromLittleEndian(s[1..])
  }

  function Power256(n: nat): nat { if n == 0 then 1 else 256 * Power256(n - 1) }

  lemma {:induction false} LittleEndianRoundTrip(v: nat, n: nat)
    requires v < Power256(n)
    ensures FromLittleEndian(LittleEndian(v, n)) == v
  {
    if n > 0 {
      LittleEndianRoundTrip(v / 256, n - 1);
      assert LittleEndian(v, n)[1..] == LittleEndian(v / 256, n - 1);
    }
  }

  /** Four bytes taken together, least significant first. */
  function Quad(a: nat, b: nat, c: nat, d: nat): nat { a + 0x100 * b + 0x1_0000 * c + 0x100_0000 * d }

  lemma FirstFour(v: nat, n: nat)
    requires n >= 4
    ensures var s := LittleEndian(v, n);
            Quad(s[0], s[1], s[2], s[3]) + TWO32 * (v / TWO32) == v && s[4..] == LittleEndian(v / TWO32, n - 4)
  {
    var v1 := v / 256;
    var v2 := v1 / 256;
    var v3 := v2 / 256;
    var v4 := v3 / 256;
    assert v4 == v / TWO32;
    assert LittleEndian(v3, n - 3) == [v3 % 256] + LittleEndian(v4, n - 4);
    assert LittleEndian(v2, n - 2) == [v2 % 256] + LittleEndian(v3, n - 3);
    assert LittleEndian(v1, n - 1) == [v1 % 256] + LittleEndian(v2, n - 2);
    assert LittleEndian(v, n) == [v % 256] + LittleEndian(v1, n - 1);
  }

  /** A value in four or eight bytes, least significant first. */
  lemma {:induction false} LittleEndianBytes(v: nat)
    ensures v < TWO32 ==> var s := LittleEndian(v, 4); v == Quad(s[0], s[1], s[2], s[3])
    ensures v < TWO64 ==>
              var s := LittleEndian(v, 8);
              v == Quad(s[0], s[1], s[2], s[3]) + TWO32 * Quad(s[4], s[5], s[6], s[7])
  {
    hide LittleEndian, Quad;
    FirstFour(v, 4);
    FirstFour(v, 8);
    FirstFour(v / TWO32, 4);
  }

  lemma {:induction false} FromLittleEndianBound(s: seq<byte>)
    ensures FromLittleEndian(s) < Power256(|s|)
  {
    if s != [] {
      FromLittleEndianBound(s[1..]);
    }
  }

  lemma Powers256()
    ensures Power256(4) == TWO32 && Power256(8) == TWO64
  {
    assert Power256(4) == 256 * 256 * 256 * 256;
    assert Power256(8) == 256 * 256 * 256 * 256 * Power256(4);
  }

  // ---------------------------------------------------------------- records

  /** One tag with its value. Groups are not part of this model. */
  datatype Record =
    | VarintRecord(num: nat, v: nat)
    | Fixed64Record(num: nat, v: nat)
    | BytesRecord(num: nat, b: seq<byte>)
    | Fixed32Record(num: nat, v: nat)

  function WireType(r: Record): nat {
    match r
    case VarintRecord(_, _) => 0
    case Fixed64Record(_, _) => 1
    case BytesRecord(_, _) => 2
    case Fixed32Record(_, _) => 5
  }

  function MakeTag(num: nat, wireType: nat): nat { 8 * num + wireType }

  function TagOf(r: Record): nat { MakeTag(r.num, WireType(r)) }

  predicate ValidRecord(r: Record) {
    && 1 <= r.num <= MAX_FIELD
    && match r
       case VarintRecord(_, v) => v < TWO64
       case Fixed64Record(_, v) => v < TWO64
       case BytesRecord(_, b) => |b| <= INT_MAX
       case Fixed32Record(_, v) => v < TWO32
  }

  function Payload(r: Record): (s: seq<byte>)
    ensures |s| > 0
  {
    match r
    case VarintRecord(_, v) => Varint(v)
    case Fixed64Record(_, v) => LittleEndian(v, 8)
    case BytesRecord(_, b) => Varint(|b|) + b
    case Fixed32Record(_, v) => LittleEndian(v, 4)
  }

  function RecordBytes(r: Record): (s: seq<byte>)
    ensures |s| > 1
  {
    Varint(TagOf(r)) + Payload(r)
  }

  /** The low 32 bits of a varint; zero stands for a tag that cannot be read. */
  function ReadTag(s: seq<byte>): (r: (nat, seq<byte>))
    ensures r.0 < TWO32
    ensures r.0 != 0 ==> |r.1| < |s|
  {
    match ReadVarint(s)
    case None => (0, s)
    case Some((v, rest)) => (v % TWO32, rest)
  }

  function PayloadSize(r: Record): nat { if r.BytesRecord? then |r.b| else 0 }

  /** The value that follows a tag. Field number 0, groups and unused wire types are refused, and so
      is a length that does not fit an int or exceeds what is left. */
  function ReadPayload(tag: nat, s: seq<byte>): (r: Option<(Record, seq<byte>)>)
    requires 0 < tag < TWO32
    ensures r.Some? ==> ValidRecord(r.value.0) && TagOf(r.value.0) == tag
    ensures r.Some? ==> |r.value.1| + PayloadSize(r.value.0) < |s|
  {
    var num, wireType := tag / 8, tag % 8;
    if num == 0 then None
    else if wireType == 0 then
      match ReadVarint(s)
      case None => None
      case Some((v, rest)) => Some((VarintRecord(num, v), rest))
    else if wireType == 1 then
      if |s| < 8 then None
      else
        Powers256();
        FromLittleEndianBound(s[..8]);
        Some((Fixed64Record(num, FromLittleEndian(s[..8])), s[8..]))
    else if wireType == 2 then
      match ReadVarint(s)
      case None => None
      case Some((n, rest)) =>
        if n > INT_MAX || n > |rest| then None
        else Some((BytesRecord(num, rest[..n]), rest[n..]))
    else if wireType == 5 then
      if |s| < 4 then None
      else
        Powers256();
        FromLittleEndianBound(s[..4]);
        Some((Fixed32Record(num, FromLittleEndian(s[..4])), s[4..]))
    else None
  }

  lemma TagRoundTrip(r: Record, rest: seq<byte>)
    requires ValidRecord(r)
    ensures ReadTag(RecordBytes(r) + rest) == (TagOf(r), Payload(r) + rest)
  {
    hide Payload, ReadVarint, Varint;
    VarintRoundTrip(TagOf(r), Payload(r) + rest);
    assert RecordBytes(r) + rest == Varint(TagOf(r)) + (Payload(r) + rest);
  }

  lemma TagParts(r: Record)
    requires ValidRecord(r)
    ensures TagOf(r) / 8 == r.num && TagOf(r) % 8 == WireType(r) && 0 < TagOf(r) < TWO32
  {
  }

  lemma {:induction false} FixedRoundTrip(v: nat, n: nat, rest: seq<byte>)
    requires v < Power256(n)
    ensures var s := LittleEndian(v, n) + rest;
            |s| >= n && FromLittleEndian(s[..n]) == v && s[n..] == rest
  {
    LittleEndianRoundTrip(v, n);
    var s := LittleEndian(v, n) + rest;
    assert s[..n] == LittleEndian(v, n) && s[n..] == rest;
  }

  lemma PayloadRoundTrip(r: Record, rest: seq<byte>)
    requires ValidRecord(r)
    ensures 0 < TagOf(r) < TWO32
    ensures ReadPayload(TagOf(r), Payload(r) + rest) == Some((r, rest))
  {
    hide ReadVarint, Varint, LittleEndian, FromLittleEndian, TagOf, Power256;
    TagParts(r);
    match r
    case VarintRecord(_, v) =>
      VarintRoundTrip(v, rest);
    case Fixed64Record(_, v) =>
      Powers256();
      FixedRoundTrip(v, 8, rest);
    case BytesRecord(_, b) =>
      VarintRoundTrip(|b|, b + rest);
      assert Payload(r) + rest == Varint(|b|) + (b + rest);
      assert (b + rest)[..|b|] == b && (b + rest)[|b|..] == rest;
    case Fixed32Record(_, v) =>
      Powers256();
      FixedRoundTrip(v, 4, rest);
  }

  /** What is written as a record is read as that record, whatever follows. */
  lemma RecordRoundTrip(r: Record, rest: seq<byte>)
    requires ValidRecord(r)
    ensures ReadTag(RecordBytes(r) + rest) == (TagOf(r), Payload(r) + rest)
    ensures 0 < TagOf(r) < TWO32
    ensures ReadPayload(TagOf(r), Payload(r) + rest) == Some((r, rest))
  {
    hide ReadTag, ReadPayload, RecordBytes, Payload;
    TagRoundTrip(r, rest);
    PayloadRoundTrip(r, rest);
  }

  /** Reading looks no further than it needs. */
  lemma ReadTagAppend(s: seq<byte>, t: seq<byte>)
    requires ReadVarint(s).Some?
    ensures ReadTag(s + t) == (ReadTag(s).0, ReadTag(s).1 + t)
  {
    ReadGroupsAppend(s, t, MAX_VARINT_BYTES);
  }

  lemma ReadPayloadAppend(tag: nat, s: seq<byte>, t: seq<byte>)
    requires 0 < tag < TWO32 && ReadPayload(tag, s).Some?
    ensures ReadPayload(tag, s + t) ==
            Some((ReadPayload(tag, s).value.0, ReadPayload(tag, s).value.1 + t))
  {
    var wireType := tag % 8;
    if wireType == 0 {
      ReadGroupsAppend(s, t, MAX_VARINT_BYTES);
    } else if wireType == 1 {
      assert (s + t)[..8] == s[..8] && (s + t)[8..] == s[8..] + t;
    } else if wireType == 2 {
      ReadGroupsAppend(s, t, MAX_VARINT_BYTES);
      var (n, rest) := ReadVarint(s).value;
      assert (rest + t)[..n] == rest[..n] && (rest + t)[n..] == rest[n..] + t;
    } else {
      assert (s + t)[..4] == s[..4] && (s + t)[4..] == s[4..] + t;
    }
  }

  function Concat(ss: seq<seq<byte>>): seq<byte> {
    if ss == [] then [] else ss[0] + Concat(ss[1..])
  }

  lemma {:induction false} ConcatAppend(a: seq<seq<byte>>, b: seq<seq<byte>>)
    ensures Concat(a + b) == Concat(a) + Concat(b)
  {
    if a == [] {
      assert a + b == b;
    } else {
      ConcatAppend(a[1..], b);
      assert (a + b)[1..] == a[1..] + b;
      assert a[0] + (Concat(a[1..]) + Concat(b)) == (a[0] + Concat(a[1..])) + Concat(b);
    }
  }

  function AllBytes(rs: seq<Record>): (ss: seq<seq<byte>>)
    ensures |ss| == |rs|
  {
    seq(|rs|, i requires 0 <= i < |rs| => RecordBytes(rs[i]))
  }

  /** A row of records laid end to end. */
  function Bytes(rs: seq<Record>): seq<byte> { Concat(AllBytes(rs)) }

  lemma BytesAppend(a: seq<Record>, b: seq<Record>)
    ensures Bytes(a + b) == Bytes(a) + Bytes(b)
  {
    assert AllBytes(a + b) == AllBytes(a) + AllBytes(b);
    ConcatAppend(AllBytes(a), AllBytes(b));
  }

  lemma BytesCons(r: Record, rs: seq<Record>)
    ensures Bytes([r] + rs) == RecordBytes(r) + Bytes(rs)
  {
    assert AllBytes([r] + rs)[1..] == AllBytes(rs);
  }

  lemma BytesOne(r: Record)
    ensures Bytes([r]) == RecordBytes(r)
  {
    assert [r] + [] == [r];
    BytesCons(r, []);
  }

  lemma {:induction false} RecordWithinBytes(rs: seq<Record>, i: nat)
    requires i < |rs|
    ensures PayloadSize(rs[i]) < |RecordBytes(rs[i])| <= |Bytes(rs)|
  {
    assert rs == [rs[0]] + rs[1..];
    BytesCons(rs[0], rs[1..]);
    if i > 0 {
      RecordWithinBytes(rs[1..], i - 1);
    }
  }
}
