/** The wire format of Protocol Buffers ("Encoding", Base 128 Varints and Message Structure): the
    reader of the workers, and an encoder as its specification. */
module Protobuf {
  import opened Options

  type Byte = x: int | 0 <= x < 256

  const MAX_SAFE: nat := 9_007_199_254_740_991
  const TWO_64: nat := 0x1_0000_0000_0000_0000

  /** A value read and the offset after it. */
  datatype Read<+T> = Read(value: T, next: nat)

  // ---- varints ------------------------------------------------------------------------------

  /** Groups of seven bits, the lowest first: at most ten bytes, the tenth at most 1. */
  function Groups(bytes: seq<Byte>, at: nat, index: nat): Option<Read<nat>>
    decreases |bytes| - at
  {
    if at >= |bytes| || index >= 10 || (index == 9 && bytes[at] > 1) then None
    else if bytes[at] < 128 then Some(Read(bytes[at], at + 1))
    else
      match Groups(bytes, at + 1, index + 1)
      case None => None
      case Some(rest) => Some(Read(bytes[at] - 128 + 128 * rest.value, rest.next))
  }

  function Varint(bytes: seq<Byte>, start: nat): Option<Read<nat>> { Groups(bytes, start, 0) }

  /** What is left of 64 bits after some groups. */
  function Room(index: nat): nat
    requires index <= 10
  {
    if index == 0 then TWO_64
    else if index == 1 then 0x200_0000_0000_0000
    else if index == 2 then 0x4_0000_0000_0000
    else if index == 3 then 0x800_0000_0000
    else if index == 4 then 0x10_0000_0000
    else if index == 5 then 0x2000_0000
    else if index == 6 then 0x40_0000
    else if index == 7 then 0x8000
    else if index == 8 then 0x100
    else if index == 9 then 2
    else 1
  }

  lemma {:induction false} GroupsFit(bytes: seq<Byte>, at: nat, index: nat)
    requires index <= 10
    ensures var r := Groups(bytes, at, index); r.Some? ==> r.value.value < Room(index) && at < r.value.next <= |bytes|
    ensures var r := Groups(bytes, at, index); r.Some? ==> r.value.next <= at + 10 - index
    decreases 10 - index
  {
    if index < 10 && at < |bytes| {
      GroupsFit(bytes, at + 1, index + 1);
    }
  }

  /** A value whose lower groups are read already. */
  ghost function Extended(rest: Option<Read<int>>, value: int, weight: int): Option<Read<int>> {
    match rest
    case None => None
    case Some(r) => Some(Read(value + weight * r.value, r.next))
  }

  /** One more group. */
  lemma ExtendedStep(bytes: seq<Byte>, at: nat, index: nat, value: int, weight: int)
    requires at < |bytes| && index < 10
    ensures var current: int := bytes[at];
      Extended(Groups(bytes, at, index), value, weight)
      == if index == 9 && current > 1 then None
         else if current < 128 then Some(Read(value + current * weight, at + 1))
         else Extended(Groups(bytes, at + 1, index + 1), value + (current - 128) * weight, weight * 128)
  {
    var current: int := bytes[at];
    var rest := Groups(bytes, at + 1, index + 1);
    if current >= 128 && rest.Some? { Distributes(value, weight, current - 128, rest.value.value); }
  }

  lemma Distributes(value: int, weight: int, low: int, high: int)
    ensures value + weight * (low + 128 * high) == value + low * weight + weight * 128 * high
  {
  }

  lemma ExtendedStart(rest: Option<Read<int>>)
    ensures Extended(rest, 0, 1) == rest
  {
  }

  /** `readProtobufVarint`.  The bits above `shift` are still clear, so OR adds. */
  method ReadVarint(bytes: seq<Byte>, start: nat) returns (read: Option<Read<nat>>)
    ensures read == Varint(bytes, start)
  {
    hide Extended;
    var value: int, weight: int, offset: nat := 0, 1, start;
    read := None;
    var done := false;
    ExtendedStart(Groups(bytes, start, 0));
    while offset < |bytes| && offset < start + 10 && !done
      invariant start <= offset <= start + 10
      invariant !done ==> read == None && Extended(Groups(bytes, offset, offset - start), value, weight) == Varint(bytes, start)
      invariant done ==> read == Varint(bytes, start)
      decreases start + 10 - offset, !done
    {
      ExtendedStep(bytes, offset, offset - start, value, weight);
      var current: int := bytes[offset];
      if offset == start + 9 && current > 1 {
        done := true;
      } else if current < 128 {
        read := Some(Read(value + current * weight, offset + 1));
        done := true;
      } else {
        value := value + (current - 128) * weight;
        weight := weight * 128;
        offset := offset + 1;
      }
    }
    if !done { NothingLeft(bytes, offset, offset - start, value, weight); }
  }

  lemma NothingLeft(bytes: seq<Byte>, at: nat, index: nat, value: int, weight: int)
    requires at >= |bytes| || index >= 10
    ensures Extended(Groups(bytes, at, index), value, weight) == None
  {
  }

  function EncodeVarint(value: nat): (bytes: seq<Byte>)
    ensures |bytes| > 0
  {
    if value < 128 then [value] else [128 + value % 128] + EncodeVarint(value / 128)
  }

  /** Reading inverts the encoding for every value of 64 bits, whatever follows. */
  lemma VarintInverts(before: seq<Byte>, value: nat, tail: seq<Byte>)
    requires value < TWO_64
    ensures Varint(before + EncodeVarint(value) + tail, |before|) == Some(Read(value, |before| + |EncodeVarint(value)|))
  {
    GroupsInvert(before, value, tail, 0);
  }

  lemma {:induction false} GroupsInvert(before: seq<Byte>, value: nat, tail: seq<Byte>, index: nat)
    requires index < 10 && value < Room(index)
    ensures Groups(before + EncodeVarint(value) + tail, |before|, index)
         == Some(Read(value, |before| + |EncodeVarint(value)|))
    decreases value
  {
    var bytes := before + EncodeVarint(value) + tail;
    assert bytes[|before|] == EncodeVarint(value)[0];
    if value >= 128 {
      var first: seq<Byte> := [128 + value % 128];
      assert bytes == before + first + EncodeVarint(value / 128) + tail;
      GroupsInvert(before + first, value / 128, tail, index + 1);
    }
  }

  /** The reader also takes longer forms.  For whatever it reads, the bytes are the encoding of the
      value exactly when they are a single byte or do not end in a zero byte. */
  lemma ShortestFormIff(bytes: seq<Byte>, start: nat)
    requires Varint(bytes, start).Some?
    ensures var r := Varint(bytes, start).value;
      && start < r.next <= |bytes|
      && (EncodeVarint(r.value) == bytes[start..r.next] <==> r.next == start + 1 || bytes[r.next - 1] != 0)
  {
    ShortestGroupsIff(bytes, start, 0);
  }

  lemma {:induction false} ShortestGroupsIff(bytes: seq<Byte>, at: nat, index: nat)
    requires index <= 10 && Groups(bytes, at, index).Some?
    ensures var r := Groups(bytes, at, index).value;
      && at < r.next <= |bytes|
      && (EncodeVarint(r.value) == bytes[at..r.next] <==> r.next == at + 1 || bytes[r.next - 1] != 0)
    decreases 10 - index
  {
    GroupsFit(bytes, at, index);
    var r := Groups(bytes, at, index).value;
    if bytes[at] < 128 {
      assert bytes[at..r.next] == [bytes[at]];
    } else {
      ShortestGroupsIff(bytes, at + 1, index + 1);
      LastGroup(bytes, at + 1, index + 1);
      var rest := Groups(bytes, at + 1, index + 1).value;
      assert bytes[at..r.next] == [bytes[at]] + bytes[at + 1..r.next];
      if rest.value > 0 {
        assert r.value % 128 == bytes[at] - 128 && r.value / 128 == rest.value;
        assert EncodeVarint(r.value) == [bytes[at]] + EncodeVarint(rest.value);
      }
    }
  }

  /** A single byte is its own value, and a value of zero ends in a zero byte. */
  lemma {:induction false} LastGroup(bytes: seq<Byte>, at: nat, index: nat)
    requires index <= 10 && Groups(bytes, at, index).Some?
    ensures var r := Groups(bytes, at, index).value;
      && at < r.next <= |bytes|
      && (r.next == at + 1 ==> r.value == bytes[at])
      && (r.value == 0 ==> bytes[r.next - 1] == 0)
    decreases 10 - index
  {
    GroupsFit(bytes, at, index);
    if bytes[at] >= 128 {
      GroupsFit(bytes, at + 1, index + 1);
      LastGroup(bytes, at + 1, index + 1);
    }
  }

  lemma LongFormsAreRead()
    ensures Varint([128, 0], 0) == Some(Read(0, 2)) && EncodeVarint(0) == [0]
  {
    assert Groups([128, 0], 1, 1) == Some(Read(0, 2));
  }

  // ---- fields -------------------------------------------------------------------------------

  datatype Payload = Number(value: nat) | Fixed64(bytes: seq<Byte>) | Bytes(bytes: seq<Byte>) | Fixed32(bytes: seq<Byte>)

  datatype Field = Field(number: nat, payload: Payload)

  function WireType(payload: Payload): nat {
    match payload
    case Number(_) => 0
    case Fixed64(_) => 1
    case Bytes(_) => 2
    case Fixed32(_) => 5
  }

  function ReadPayload(bytes: seq<Byte>, offset: nat, wireType: nat): Option<Read<Payload>> {
    match wireType
    case 0 => (
      match Varint(bytes, offset)
      case None => None
      case Some(r) => Some(Read(Number(r.value), r.next)))
    case 1 => if offset + 8 > |bytes| then None else Some(Read(Fixed64(bytes[offset..offset + 8]), offset + 8))
    case 2 => (
      match Varint(bytes, offset)
      case None => None
      case Some(length) =>
        if length.value > MAX_SAFE || length.next + length.value > |bytes| then None
        else Some(Read(Bytes(bytes[length.next..length.next + length.value]), length.next + length.value)))
    case 5 => if offset + 4 > |bytes| then None else Some(Read(Fixed32(bytes[offset..offset + 4]), offset + 4))
    case _ => None
  }

  function ReadField(bytes: seq<Byte>, offset: nat): Option<Read<Field>> {
    match Varint(bytes, offset)
    case None => None
    case Some(tag) =>
      match ReadPayload(bytes, tag.next, tag.value % 8)
      case None => None
      case Some(r) => Some(Read(Field(tag.value / 8, r.value), r.next))
  }

  lemma PayloadMovesOn(bytes: seq<Byte>, offset: nat, wireType: nat)
    ensures var r := ReadPayload(bytes, offset, wireType); r.Some? ==> offset <= r.value.next <= |bytes|
  {
    GroupsFit(bytes, offset, 0);
  }

  lemma FieldMovesOn(bytes: seq<Byte>, offset: nat)
    ensures var r := ReadField(bytes, offset); r.Some? ==> offset < r.value.next <= |bytes|
  {
    GroupsFit(bytes, offset, 0);
    var tag := Varint(bytes, offset);
    if tag.Some? { PayloadMovesOn(bytes, tag.value.next, tag.value.value % 8); }
  }

  /** The fields of a message from an offset on; None when it is malformed. */
  function Fields(bytes: seq<Byte>, offset: nat): Option<seq<Field>>
    decreases |bytes| - offset
  {
    if offset >= |bytes| then Some([])
    else
      match ReadField(bytes, offset)
      case None => None
      case Some(r) =>
        FieldMovesOn(bytes, offset);
        match Fields(bytes, r.next)
        case None => None
        case Some(rest) => Some([r.value] + rest)
  }

  /** `skipProtobufField`: the offset after a field of any kind. */
  method SkipField(bytes: seq<Byte>, offset: nat, wireType: nat) returns (next: Option<nat>)
    ensures var r := ReadPayload(bytes, offset, wireType); next == if r.Some? then Some(r.value.next) else None
  {
    next := None;
    if wireType == 0 {
      var read := ReadVarint(bytes, offset);
      if read.Some? { next := Some(read.value.next); }
    } else if wireType == 1 {
      if offset + 8 <= |bytes| { next := Some(offset + 8); }
    } else if wireType == 2 {
      var length := ReadVarint(bytes, offset);
      if length.Some? && length.value.value <= MAX_SAFE && length.value.next + length.value.value <= |bytes| {
        next := Some(length.value.next + length.value.value);
      }
    } else if wireType == 5 {
      if offset + 4 <= |bytes| { next := Some(offset + 4); }
    }
  }

  // ---- the encoder --------------------------------------------------------------------------

  predicate Encodable(field: Field) {
    && field.number * 8 + 7 < TWO_64
    && match field.payload
       case Number(value) => value < TWO_64
       case Fixed64(bytes) => |bytes| == 8
       case Bytes(bytes) => |bytes| <= MAX_SAFE
       case Fixed32(bytes) => |bytes| == 4
  }

  function EncodePayload(payload: Payload): seq<Byte> {
    match payload
    case Number(value) => EncodeVarint(value)
    case Bytes(bytes) => EncodeVarint(|bytes|) + bytes
    case _ => payload.bytes
  }

  function EncodeField(field: Field): (bytes: seq<Byte>)
    ensures |bytes| > 0
  {
    EncodeVarint(field.number * 8 + WireType(field.payload)) + EncodePayload(field.payload)
  }

  function Encode(fields: seq<Field>): seq<Byte> {
    if fields == [] then [] else EncodeField(fields[0]) + Encode(fields[1..])
  }

  lemma PayloadInverts(before: seq<Byte>, payload: Payload, tail: seq<Byte>)
    requires Encodable(Field(0, payload))
    ensures ReadPayload(before + EncodePayload(payload) + tail, |before|, WireType(payload))
         == Some(Read(payload, |before| + |EncodePayload(payload)|))
  {
    hide Groups, EncodeVarint;
    match payload {
      case Number(value) => VarintInverts(before, value, tail);
      case Bytes(content) => BytesInvert(before, content, tail);
      case _ => Middle(before, payload.bytes, tail);
    }
  }

  lemma Middle<T>(a: seq<T>, b: seq<T>, c: seq<T>)
    ensures (a + b + c)[|a|..|a| + |b|] == b
  {
  }

  lemma BytesInvert(before: seq<Byte>, content: seq<Byte>, tail: seq<Byte>)
    requires |content| <= MAX_SAFE
    ensures var payload := Bytes(content);
      ReadPayload(before + EncodePayload(payload) + tail, |before|, 2) == Some(Read(payload, |before| + |EncodePayload(payload)|))
  {
    hide Groups, EncodeVarint;
    var length := EncodeVarint(|content|);
    VarintInverts(before, |content|, content + tail);
    Middle(before + length, content, tail);
    assert before + EncodePayload(Bytes(content)) + tail == before + length + (content + tail);
    assert before + EncodePayload(Bytes(content)) + tail == before + length + content + tail;
  }

  lemma FieldInverts(before: seq<Byte>, field: Field, tail: seq<Byte>)
    requires Encodable(field)
    ensures ReadField(before + EncodeField(field) + tail, |before|) == Some(Read(field, |before| + |EncodeField(field)|))
  {
    hide Groups, EncodeVarint, EncodePayload, ReadPayload;
    var tag := field.number * 8 + WireType(field.payload);
    var bytes := before + EncodeField(field) + tail;
    assert bytes == before + EncodeVarint(tag) + (EncodePayload(field.payload) + tail);
    VarintInverts(before, tag, EncodePayload(field.payload) + tail);
    assert bytes == before + EncodeVarint(tag) + EncodePayload(field.payload) + tail;
    PayloadInverts(before + EncodeVarint(tag), field.payload, tail);
  }

  lemma Unfolded(before: seq<Byte>, fields: seq<Field>)
    requires fields != []
    ensures before + Encode(fields) == before + EncodeField(fields[0]) + Encode(fields[1..])
    ensures fields == [fields[0]] + fields[1..]
  {
    assert Encode(fields) == EncodeField(fields[0]) + Encode(fields[1..]);
  }

  lemma FieldsOnward(bytes: seq<Byte>, offset: nat, first: Read<Field>, rest: seq<Field>)
    requires offset < |bytes| && ReadField(bytes, offset) == Some(first) && Fields(bytes, first.next) == Some(rest)
    ensures Fields(bytes, offset) == Some([first.value] + rest)
  {
    hide ReadField;
    FieldMovesOn(bytes, offset);
  }

  /** Reading a message gives back the fields it was written from. */
  lemma {:induction false} FieldsInvert(before: seq<Byte>, fields: seq<Field>)
    requires forall f | f in fields :: Encodable(f)
    ensures Fields(before + Encode(fields), |before|) == Some(fields)
    decreases |fields|
  {
    hide EncodeField, ReadField, Encodable;
    if fields != [] {
      hide Encode, Fields;
      var bytes := before + Encode(fields);
      Unfolded(before, fields);
      FieldInverts(before, fields[0], Encode(fields[1..]));
      FieldsInvert(before + EncodeField(fields[0]), fields[1..]);
      FieldsOnward(bytes, |before|, Read(fields[0], |before| + |EncodeField(fields[0])|), fields[1..]);
    }
  }
}
