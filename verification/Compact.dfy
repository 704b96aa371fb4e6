/** The compact Thrift codec: what the writer appends and what the reader makes of any bytes. */
module Compact {
  import opened Options
  import opened Bytes
  import opened Thrift

  const STOP: byte := 0
  const TRUE: byte := 1
  const FALSE: byte := 2
  const BYTE: byte := 3
  const INT16: byte := 4
  const INT32: byte := 5
  const INT64: byte := 6
  const DOUBLE: byte := 7
  const BINARY: byte := 8
  const LIST: byte := 9
  const SET: byte := 10
  const MAP: byte := 11
  const STRUCT: byte := 12

  const PROTOCOL_ID: byte := 0x82
  const CALL_VERSION: byte := 0x21

  function TypeOf(kind: Kind): (ctype: Option<byte>)
    ensures ctype.Some? ==> 0 < ctype.value < 16
  {
    match kind
    case Bool => Some(TRUE)
    case Byte => Some(BYTE)
    case I16 => Some(INT16)
    case I32 => Some(INT32)
    case I64 => Some(INT64)
    case Double => Some(DOUBLE)
    case Binary => Some(BINARY)
    case String => Some(BINARY)
    case List => Some(LIST)
    case Set => Some(SET)
    case Map => Some(MAP)
    case Struct => Some(STRUCT)
    case Unsupported(_) => None
  }

  datatype Header = Header(kind: byte, sequence: u64, name: Octets)

  // ---- Writing

  function EncodeVarint(v: nat): (s: Octets)
    ensures s != []
  {
    if v < 0x80 then [v] else [v % 0x80 + 0x80] + EncodeVarint(v / 0x80)
  }

  /** Numbers near zero of either sign become small: even for non-negative, odd for negative ones. */
  function ZigZag(n: i64): u64 {
    if n >= 0 then 2 * n else -2 * n - 1
  }

  function EncodeSigned(n: i64): Octets { EncodeVarint(ZigZag(n)) }

  function EncodeBytes(s: Octets): Octets { EncodeVarint(|s|) + s }

  function FieldType(f: Field): (ctype: Option<byte>)
    ensures ctype.Some? ==> 0 < ctype.value < 16
  {
    if f.kind.Bool? && f.value == Boolean(false) then Some(FALSE) else TypeOf(f.kind)
  }

  /** Short form when the ID is 1 to 15 above the previous one, in 16-bit arithmetic. */
  function FieldHeader(previous: i16, id: i16, ctype: byte): Octets
    requires ctype < 16
  {
    var delta := Wrap16(id - previous);
    if 0 < delta <= 15 then [delta * 16 + ctype] else [ctype] + EncodeSigned(id)
  }

  function EncodeField(previous: i16, f: Field): Option<Octets>
    decreases f, 2
  {
    match FieldType(f)
    case None => None
    case Some(ctype) =>
      Then(Some(FieldHeader(previous, f.id, ctype)),
           if f.kind.Bool? then Some([]) else EncodeValue(f.kind, f.value, f))
  }

  function EncodeFields(fields: seq<Field>, previous: i16): Option<Octets>
    decreases fields, 0
  {
    if fields == [] then Some([STOP])
    else Then(EncodeField(previous, fields[0]), EncodeFields(fields[1..], fields[0].id))
  }

  function ListHeader(size: nat, ctype: byte): Octets
    requires ctype < 16
  {
    if size <= 14 then [size * 16 + ctype] else [0xF0 + ctype] + EncodeVarint(size)
  }

  function EncodeItems(kind: Kind, items: seq<Value>): Option<Octets>
    decreases items, 0
  {
    if items == [] then Some([])
    else Then(EncodeValue(kind, items[0], NO_SPEC), EncodeItems(kind, items[1..]))
  }

  function EncodeEntry(keyKind: Kind, valueKind: Kind, entry: Entry): Option<Octets>
    decreases entry, 2
  {
    Then(EncodeValue(keyKind, entry.key, NO_SPEC), EncodeValue(valueKind, entry.item, NO_SPEC))
  }

  function EncodeEntries(keyKind: Kind, valueKind: Kind, entries: seq<Entry>): Option<Octets>
    decreases entries, 0
  {
    if entries == [] then Some([])
    else Then(EncodeEntry(keyKind, valueKind, entries[0]), EncodeEntries(keyKind, valueKind, entries[1..]))
  }

  function EncodeList(kind: Kind, items: seq<Value>): Option<Octets>
    decreases items, 1
  {
    match TypeOf(kind)
    case None => None
    case Some(ctype) => Then(Some(ListHeader(|items|, ctype)), EncodeItems(kind, items))
  }

  function MapHeader(size: nat, keyType: byte, valueType: byte): Octets
    requires keyType < 16 && valueType < 16
  {
    EncodeVarint(size) + [keyType * 16 + valueType]
  }

  /** An empty map is the single byte 0: its key and value kinds are not even looked at. */
  function EncodeMap(keyKind: Kind, valueKind: Kind, entries: seq<Entry>): Option<Octets>
    decreases entries, 1
  {
    if entries == [] then Some(EncodeVarint(0))
    else
      match (TypeOf(keyKind), TypeOf(valueKind))
      case (Some(keyType), Some(valueType)) =>
        Then(Some(MapHeader(|entries|, keyType, valueType)), EncodeEntries(keyKind, valueKind, entries))
      case _ => None
  }

  function EncodeValue(kind: Kind, value: Value, spec: Field): Option<Octets>
    decreases value, 1
  {
    match kind
    case Bool => if value.Boolean? then Some([if value.b then TRUE else FALSE]) else None
    case Byte => if value.Integer? then Some([value.n % 0x100]) else None
    case I16 | I32 | I64 => if value.Integer? then Some(EncodeSigned(value.n)) else None
    case Double => if value.Float? then Some(LittleEndian(value.bits, 8)) else None
    case String => if value.Text? then Some(EncodeBytes(value.text)) else None
    case Binary => if value.Raw? then Some(EncodeBytes(value.raw)) else None
    case Struct => if value.Fields? then EncodeFields(value.fields, 0) else None
    case List | Set => if value.Items? then EncodeList(spec.elementKind, value.items) else None
    case Map => if value.Entries? then EncodeMap(spec.keyKind, spec.valueKind, value.entries) else None
    case Unsupported(_) => None
  }

  function EncodeCall(name: Octets, fields: seq<Field>, sequence: u64): Option<Octets> {
    Then(Some(CallHeader(name, sequence)), EncodeFields(fields, 0))
  }

  function CallHeader(name: Octets, sequence: u64): Octets {
    [PROTOCOL_ID, CALL_VERSION] + EncodeVarint(sequence) + EncodeBytes(name)
  }

  // ---- Reading

  function ParseByte(data: Octets, pos: nat): (r: Parsed<byte>)
    requires pos <= |data|
    ensures r.Ok? ==> pos < r.pos <= |data|
  {
    if pos == |data| then Err else Ok(data[pos], pos + 1)
  }

  function ParseTake(data: Octets, pos: nat, size: nat): (r: Parsed<Octets>)
    requires pos <= |data|
    ensures r.Ok? ==> pos <= r.pos <= |data| && |r.value| == size
  {
    if pos + size > |data| then Err else Ok(data[pos..pos + size], pos + size)
  }

  /** 128 to the power `step`; the reader's shift is 7 * step. */
  function Pow128(step: nat): (p: nat)
    ensures p > 0
  {
    if step == 0 then 1 else 0x80 * Pow128(step - 1)
  }

  function Shifted(group: nat, step: nat): nat { group * Pow128(step) }

  /** Up to ten bytes, low group first; bits above the 64th are dropped. Because the accumulated
      value stays below the shifted group, the reader's bitwise or is an addition. */
  function ParseVarintFrom(data: Octets, pos: nat, step: nat, acc: u64): (r: Parsed<u64>)
    requires pos <= |data|
    requires acc < Pow128(step)
    ensures r.Ok? ==> pos < r.pos <= |data|
    decreases |data| - pos
  {
    if step >= 10 then Err
    else
      var (b, p) :- ParseByte(data, pos);
      var value := acc + Shifted(b % 0x80, step) % 0x1_0000_0000_0000_0000;
      VarintStep(acc, b, step);
      if b < 0x80 then Ok(value, p) else ParseVarintFrom(data, p, step + 1, value)
  }

  lemma VarintStep(acc: u64, b: byte, step: nat)
    requires acc < Pow128(step) && step < 10
    ensures acc + Shifted(b % 0x80, step) % 0x1_0000_0000_0000_0000 < Pow128(step + 1)
    ensures acc + Shifted(b % 0x80, step) % 0x1_0000_0000_0000_0000 < 0x1_0000_0000_0000_0000
  {
    Pow128Values();
    assert step == 0 || step == 1 || step == 2 || step == 3 || step == 4
           || step == 5 || step == 6 || step == 7 || step == 8 || step == 9;
  }

  lemma Pow128Values()
    ensures Pow128(0) == 1 && Pow128(1) == 0x80 && Pow128(2) == 0x4000 && Pow128(3) == 0x20_0000
    ensures Pow128(4) == 0x1000_0000 && Pow128(5) == 0x8_0000_0000 && Pow128(6) == 0x400_0000_0000
    ensures Pow128(7) == 0x2_0000_0000_0000 && Pow128(8) == 0x100_0000_0000_0000
    ensures Pow128(9) == 0x8000_0000_0000_0000 && Pow128(10) == 0x40_0000_0000_0000_0000
  {
    assert Pow128(1) == 0x80;
    assert Pow128(2) == 0x4000;
    assert Pow128(3) == 0x20_0000;
    assert Pow128(4) == 0x1000_0000;
    assert Pow128(5) == 0x8_0000_0000;
    assert Pow128(6) == 0x400_0000_0000;
    assert Pow128(7) == 0x2_0000_0000_0000;
    assert Pow128(8) == 0x100_0000_0000_0000;
    assert Pow128(9) == 0x8000_0000_0000_0000;
  }

  function ParseVarint(data: Octets, pos: nat): (r: Parsed<u64>)
    requires pos <= |data|
    ensures r.Ok? ==> pos < r.pos <= |data|
  {
    ParseVarintFrom(data, pos, 0, 0)
  }

  /** The number whose zigzag form this is: the last bit is its sign. */
  function UnZigZag(u: u64): i64 {
    if u % 2 == 0 then u / 2 else -(u / 2) - 1
  }

  function ParseSigned(data: Octets, pos: nat): (r: Parsed<i64>)
    requires pos <= |data|
    ensures r.Ok? ==> pos < r.pos <= |data|
  {
    var (u, p) :- ParseVarint(data, pos);
    Ok(UnZigZag(u), p)
  }

  function ParseBytes(data: Octets, pos: nat): (r: Parsed<Octets>)
    requires pos <= |data|
    ensures r.Ok? ==> pos < r.pos <= |data|
  {
    var (size, p) :- ParseVarint(data, pos);
    if size > |data| - p then Err else Ok(data[p..p + size], p + size)
  }

  function ParseFields(data: Octets, pos: nat, previous: i16, acc: map<i16, Decoded>): (r: Parsed<map<i16, Decoded>>)
    requires pos <= |data|
    ensures r.Ok? ==> pos < r.pos <= |data|
    decreases |data| - pos, 0, 0
  {
    var (header, p0) :- ParseByte(data, pos);
    if header == STOP then Ok(acc, p0)
    else
      var (id, p1) :- ParseFieldID(data, p0, previous, header);
      var (value, p2) :- ParseValue(data, p1, header % 16);
      ParseFields(data, p2, id, acc[id := value])
  }

  function ParseFieldID(data: Octets, pos: nat, previous: i16, header: byte): (r: Parsed<i16>)
    requires pos <= |data|
    ensures r.Ok? ==> pos <= r.pos <= |data|
  {
    if header / 16 == 0 then
      var (signed, p) :- ParseSigned(data, pos);
      Ok(Wrap16(signed), p)
    else Ok(Wrap16(previous + header / 16), pos)
  }

  function ParseListSize(data: Octets, pos: nat, header: byte): (r: Parsed<u64>)
    requires pos <= |data|
    ensures r.Ok? ==> pos <= r.pos <= |data|
  {
    if header / 16 == 15 then ParseVarint(data, pos) else Ok(header / 16, pos)
  }

  /** `size` more elements. Bool elements take no bytes, so the count is part of the measure. */
  function ParseItems(data: Octets, pos: nat, ctype: byte, size: nat, acc: seq<Decoded>): (r: Parsed<seq<Decoded>>)
    requires pos <= |data|
    ensures r.Ok? ==> pos <= r.pos <= |data|
    decreases |data| - pos, 2, size
  {
    if size == 0 then Ok(acc, pos)
    else
      var (value, p) :- ParseValue(data, pos, ctype);
      ParseItems(data, p, ctype, size - 1, acc + [value])
  }

  function ParseEntries(data: Octets, pos: nat, keyType: byte, valueType: byte, size: nat, acc: map<Decoded, Decoded>)
    : (r: Parsed<map<Decoded, Decoded>>)
    requires pos <= |data|
    ensures r.Ok? ==> pos <= r.pos <= |data|
    decreases |data| - pos, 2, size
  {
    if size == 0 then Ok(acc, pos)
    else
      var (key, p0) :- ParseValue(data, pos, keyType);
      var (value, p1) :- ParseValue(data, p0, valueType);
      if !Hashable(key) then Panic
      else ParseEntries(data, p1, keyType, valueType, size - 1, acc[key := value])
  }

  function ParseList(data: Octets, pos: nat): (r: Parsed<seq<Decoded>>)
    requires pos <= |data|
    ensures r.Ok? ==> pos < r.pos <= |data|
    decreases |data| - pos, 0, 0
  {
    var (header, p0) :- ParseByte(data, pos);
    var (size, p1) :- ParseListSize(data, p0, header);
    if size >= 0x8000_0000_0000_0000 then Panic
    else ParseItems(data, p1, header % 16, size, [])
  }

  function ParseMap(data: Octets, pos: nat): (r: Parsed<map<Decoded, Decoded>>)
    requires pos <= |data|
    ensures r.Ok? ==> pos < r.pos <= |data|
    decreases |data| - pos, 0, 0
  {
    var (size, p0) :- ParseVarint(data, pos);
    if size == 0 then Ok(map[], p0)
    else
      var (types, p1) :- ParseByte(data, p0);
      ParseEntries(data, p1, types / 16, types % 16, size, map[])
  }

  function ParseValue(data: Octets, pos: nat, ctype: byte): (r: Parsed<Decoded>)
    requires pos <= |data|
    ensures r.Ok? ==> pos <= r.pos <= |data|
    decreases |data| - pos, 1, 0
  {
    if ctype == TRUE then Ok(DBool(true), pos)
    else if ctype == FALSE then Ok(DBool(false), pos)
    else if ctype == BYTE then
      var (b, p) :- ParseByte(data, pos);
      Ok(DInt8(Wrap8(b)), p)
    else if ctype == INT16 || ctype == INT32 || ctype == INT64 then
      var (n, p) :- ParseSigned(data, pos);
      Ok(DInt64(n), p)
    else if ctype == DOUBLE then
      var (raw, p) :- ParseTake(data, pos, 8);
      FromLittleEndianBound(raw);
      Pow256Values();
      Ok(DDouble(FromLittleEndian(raw)), p)
    else if ctype == BINARY then
      var (raw, p) :- ParseBytes(data, pos);
      Ok(DecodedBytes(raw), p)
    else if ctype == LIST || ctype == SET then
      var (items, p) :- ParseList(data, pos);
      Ok(DList(items), p)
    else if ctype == MAP then
      var (entries, p) :- ParseMap(data, pos);
      Ok(DMap(entries), p)
    else if ctype == STRUCT then
      var (fields, p) :- ParseFields(data, pos, 0, map[]);
      Ok(DStruct(fields), p)
    else Err
  }

  function ParseHeader(data: Octets): (r: Parsed<Header>)
    ensures r.Ok? ==> r.pos <= |data|
  {
    var (protocolID, p0) :- ParseByte(data, 0);
    if protocolID != PROTOCOL_ID then Err
    else
      var (versionType, p1) :- ParseByte(data, p0);
      if versionType % 0x20 != 1 then Err
      else
        var (sequence, p2) :- ParseVarint(data, p1);
        var (name, p3) :- ParseBytes(data, p2);
        Ok(Header(versionType / 0x20, sequence, name), p3)
  }

  function ParseMessage(data: Octets): (r: Parsed<Message>)
    ensures r.Ok? ==> r.pos <= |data|
  {
    var (header, p) :- ParseHeader(data);
    var (fields, end) :- ParseFields(data, p, 0, map[]);
    Ok(Message(header.name, header.kind, header.sequence, fields), end)
  }
}
