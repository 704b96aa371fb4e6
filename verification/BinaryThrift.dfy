/** The binary Thrift codec: big-endian fixed-width integers and declared sizes with limits. */
module BinaryThrift {
  import opened Options
  import opened Bytes
  import opened Thrift

  const STOP: byte := 0
  const BOOL: byte := 2
  const BYTE: byte := 3
  const DOUBLE: byte := 4
  const INT16: byte := 6
  const INT32: byte := 8
  const INT64: byte := 10
  const STRING: byte := 11
  const STRUCT: byte := 12
  const MAP: byte := 13
  const SET: byte := 14
  const LIST: byte := 15

  /** 0x80010001 as a signed 32-bit integer: version 1, message type call. */
  const CALL_VERSION: i32 := -2147418111
  const MAX_BYTES: nat := 64 * 1024 * 1024
  const MAX_SIZE: nat := 1_000_000

  function TypeOf(kind: Kind): (ctype: Option<byte>)
    ensures ctype.Some? ==> 0 < ctype.value < 16
  {
    match kind
    case Bool => Some(BOOL)
    case Byte => Some(BYTE)
    case I16 => Some(INT16)
    case I32 => Some(INT32)
    case I64 => Some(INT64)
    case Double => Some(DOUBLE)
    case Binary => Some(STRING)
    case String => Some(STRING)
    case Struct => Some(STRUCT)
    case Map => Some(MAP)
    case Set => Some(SET)
    case List => Some(LIST)
    case Unsupported(_) => None
  }

  // ---- Writing

  /** The low 16 and 64 bits of `n`: Go's narrowing conversion, then BigEndian.Put. */
  function Put16(n: int): (s: Octets)
    ensures |s| == 2
  {
    BigEndian(n % 0x1_0000, 2)
  }

  function Put64(n: int): (s: Octets)
    ensures |s| == 8
  {
    BigEndian(n % 0x1_0000_0000_0000_0000, 8)
  }

  function EncodeBytes(s: Octets): Octets { Put32(|s|) + s }

  function FieldHeader(id: i16, ctype: byte): Octets { [ctype] + Put16(id) }

  function EncodeField(f: Field): Option<Octets>
    decreases f, 2
  {
    match TypeOf(f.kind)
    case None => None
    case Some(ctype) => Then(Some(FieldHeader(f.id, ctype)), EncodeValue(f.kind, f.value, f))
  }

  function EncodeFields(fields: seq<Field>): Option<Octets>
    decreases fields, 0
  {
    if fields == [] then Some([STOP])
    else Then(EncodeField(fields[0]), EncodeFields(fields[1..]))
  }

  function EncodeItems(kind: Kind, items: seq<Value>): Option<Octets>
    decreases items, 0
  {
    if items == [] then Some([])
    else Then(EncodeValue(kind, items[0], NO_SPEC), EncodeItems(kind, items[1..]))
  }

  function EncodeEntry(keyKind: Kind, valueKind: Kind, entry: Entry): Option<Octets>
    decreases entry, 2
  {
    Then(EncodeValue(keyKind, entry.key, NO_SPEC), EncodeValue(valueKind, entry.item, NO_SPEC))
  }

  function EncodeEntries(keyKind: Kind, valueKind: Kind, entries: seq<Entry>): Option<Octets>
    decreases entries, 0
  {
    if entries == [] then Some([])
    else Then(EncodeEntry(keyKind, valueKind, entries[0]), EncodeEntries(keyKind, valueKind, entries[1..]))
  }

  function ListHeader(size: nat, ctype: byte): Octets { [ctype] + Put32(size) }

  function EncodeList(kind: Kind, items: seq<Value>): Option<Octets>
    decreases items, 1
  {
    match TypeOf(kind)
    case None => None
    case Some(ctype) => Then(Some(ListHeader(|items|, ctype)), EncodeItems(kind, items))
  }

  function MapHeader(size: nat, keyType: byte, valueType: byte): Octets { [keyType] + ([valueType] + Put32(size)) }

  /** Unlike the compact codec, an empty map still names its kinds. */
  function EncodeMap(keyKind: Kind, valueKind: Kind, entries: seq<Entry>): Option<Octets>
    decreases entries, 1
  {
    match (TypeOf(keyKind), TypeOf(valueKind))
    case (Some(keyType), Some(valueType)) =>
      Then(Some(MapHeader(|entries|, keyType, valueType)), EncodeEntries(keyKind, valueKind, entries))
    case _ => None
  }

  function EncodeValue(kind: Kind, value: Value, spec: Field): Option<Octets>
    decreases value, 1
  {
    match kind
    case Bool => if value.Boolean? then Some([if value.b then 1 else 0]) else None
    case Byte => if value.Integer? then Some([value.n % 0x100]) else None
    case I16 => if value.Integer? then Some(Put16(value.n)) else None
    case I32 => if value.Integer? then Some(Put32(value.n)) else None
    case I64 => if value.Integer? then Some(Put64(value.n)) else None
    case Double => if value.Float? then Some(Put64(value.bits)) else None
    case String => if value.Text? then Some(EncodeBytes(value.text)) else None
    case Binary => if value.Raw? then Some(EncodeBytes(value.raw)) else None
    case Struct => if value.Fields? then EncodeFields(value.fields) else None
    case List | Set => if value.Items? then EncodeList(spec.elementKind, value.items) else None
    case Map => if value.Entries? then EncodeMap(spec.keyKind, spec.valueKind, value.entries) else None
    case Unsupported(_) => None
  }

  function CallHeader(name: Octets, sequence: u64): Octets {
    Put32(CALL_VERSION) + EncodeBytes(name) + Put32(sequence)
  }

  function EncodeCall(name: Octets, fields: seq<Field>, sequence: u64): Option<Octets> {
    Then(Some(CallHeader(name, sequence)), EncodeFields(fields))
  }

  // ---- Reading

  function ParseTake(data: Octets, pos: nat, size: nat): (r: Parsed<Octets>)
    requires pos <= |data|
    ensures r.Ok? ==> r.pos == pos + size <= |data| && |r.value| == size
  {
    if pos + size > |data| then Err else Ok(data[pos..pos + size], pos + size)
  }

  /** A big-endian unsigned integer of `width` bytes. */
  function ParseNumber(data: Octets, pos: nat, width: nat): (r: Parsed<nat>)
    requires pos <= |data|
    ensures r.Ok? ==> r.pos == pos + width <= |data| && r.value < Pow256(width)
  {
    var (raw, p) :- ParseTake(data, pos, width);
    FromBigEndianBound(raw);
    Ok(FromBigEndian(raw), p)
  }

  function Parse16(data: Octets, pos: nat): (r: Parsed<i16>)
    requires pos <= |data|
    ensures r.Ok? ==> r.pos == pos + 2 <= |data|
  {
    var (u, p) :- ParseNumber(data, pos, 2);
    Ok(Wrap16(u), p)
  }

  function Parse32(data: Octets, pos: nat): (r: Parsed<i32>)
    requires pos <= |data|
    ensures r.Ok? ==> r.pos == pos + 4 <= |data|
  {
    var (u, p) :- ParseNumber(data, pos, 4);
    Ok(Wrap32(u), p)
  }

  function Parse64(data: Octets, pos: nat): (r: Parsed<i64>)
    requires pos <= |data|
    ensures r.Ok? ==> r.pos == pos + 8 <= |data|
  {
    var (u, p) :- ParseNumber(data, pos, 8);
    Ok(Wrap64(u), p)
  }

  /** A declared size, refused unless it is between 0 and `limit`. */
  function ParseSize(data: Octets, pos: nat, limit: nat): (r: Parsed<nat>)
    requires pos <= |data|
    ensures r.Ok? ==> r.pos == pos + 4 <= |data| && r.value <= limit
  {
    var (size, p) :- Parse32(data, pos);
    if size < 0 || size > limit then Err else Ok(size, p)
  }

  function ParseBytes(data: Octets, pos: nat): (r: Parsed<Octets>)
    requires pos <= |data|
    ensures r.Ok? ==> pos < r.pos <= |data|
  {
    var (size, p) :- ParseSize(data, pos, MAX_BYTES);
    ParseTake(data, p, size)
  }

  function ParseFields(data: Octets, pos: nat, acc: map<i16, Decoded>): (r: Parsed<map<i16, Decoded>>)
    requires pos <= |data|
    ensures r.Ok? ==> pos < r.pos <= |data|
    decreases |data| - pos, 0, 0
  {
    var (rawType, p0) :- ParseTake(data, pos, 1);
    if rawType[0] == STOP then Ok(acc, p0)
    else
      var (id, p1) :- Parse16(data, p0);
      var (value, p2) :- ParseValue(data, p1, rawType[0]);
      ParseFields(data, p2, acc[id := value])
  }

  function ParseItems(data: Octets, pos: nat, ctype: byte, size: nat, acc: seq<Decoded>): (r: Parsed<seq<Decoded>>)
    requires pos <= |data|
    ensures r.Ok? ==> pos <= r.pos <= |data| && |r.value| == |acc| + size
    decreases |data| - pos, 2, size
  {
    if size == 0 then Ok(acc, pos)
    else
      var (value, p) :- ParseValue(data, pos, ctype);
      ParseItems(data, p, ctype, size - 1, acc + [value])
  }

  function ParseEntries(data: Octets, pos: nat, keyType: byte, valueType: byte, size: nat, acc: map<Decoded, Decoded>)
    : (r: Parsed<map<Decoded, Decoded>>)
    requires pos <= |data|
    ensures r.Ok? ==> pos <= r.pos <= |data|
    decreases |data| - pos, 2, size
  {
    if size == 0 then Ok(acc, pos)
    else
      var (key, p0) :- ParseValue(data, pos, keyType);
      var (value, p1) :- ParseValue(data, p0, valueType);
      if !Hashable(key) then Panic
      else ParseEntries(data, p1, keyType, valueType, size - 1, acc[key := value])
  }

  function ParseList(data: Octets, pos: nat): (r: Parsed<seq<Decoded>>)
    requires pos <= |data|
    ensures r.Ok? ==> pos < r.pos <= |data| && |r.value| <= MAX_SIZE
    decreases |data| - pos, 0, 0
  {
    var (elementType, p0) :- ParseTake(data, pos, 1);
    var (size, p1) :- ParseSize(data, p0, MAX_SIZE);
    ParseItems(data, p1, elementType[0], size, [])
  }

  function ParseMap(data: Octets, pos: nat): (r: Parsed<map<Decoded, Decoded>>)
    requires pos <= |data|
    ensures r.Ok? ==> pos < r.pos <= |data|
    decreases |data| - pos, 0, 0
  {
    var (types, p0) :- ParseTake(data, pos, 2);
    var (size, p1) :- ParseSize(data, p0, MAX_SIZE);
    ParseEntries(data, p1, types[0], types[1], size, map[])
  }

  function ParseValue(data: Octets, pos: nat, ctype: byte): (r: Parsed<Decoded>)
    requires pos <= |data|
    ensures r.Ok? ==> pos <= r.pos <= |data|
    decreases |data| - pos, 1, 0
  {
    if ctype == BOOL then
      var (raw, p) :- ParseTake(data, pos, 1);
      Ok(DBool(raw[0] != 0), p)
    else if ctype == BYTE then
      var (raw, p) :- ParseTake(data, pos, 1);
      Ok(DInt8(Wrap8(raw[0])), p)
    else if ctype == INT16 then
      var (n, p) :- Parse16(data, pos);
      Ok(DInt16(n), p)
    else if ctype == INT32 then
      var (n, p) :- Parse32(data, pos);
      Ok(DInt32(n), p)
    else if ctype == INT64 then
      var (n, p) :- Parse64(data, pos);
      Ok(DInt64(n), p)
    else if ctype == DOUBLE then
      var (bits, p) :- Parse64(data, pos);
      Ok(DDouble(bits % 0x1_0000_0000_0000_0000), p)
    else if ctype == STRING then
      var (raw, p) :- ParseBytes(data, pos);
      Ok(DecodedBytes(raw), p)
    else if ctype == STRUCT then
      var (fields, p) :- ParseFields(data, pos, map[]);
      Ok(DStruct(fields), p)
    else if ctype == MAP then
      var (entries, p) :- ParseMap(data, pos);
      Ok(DMap(entries), p)
    else if ctype == LIST || ctype == SET then
      var (items, p) :- ParseList(data, pos);
      Ok(DList(items), p)
    else Err
  }

  datatype Header = Header(kind: byte, name: Octets, sequence: u64)

  function ParseHeader(data: Octets): (r: Parsed<Header>)
    ensures r.Ok? ==> r.pos <= |data|
  {
    var (versionType, p0) :- Parse32(data, 0);
    var version := versionType % 0x1_0000_0000;
    if version / 0x1_0000 != 0x8001 then Err
    else
      var (name, p1) :- ParseBytes(data, p0);
      var (sequence, p2) :- Parse32(data, p1);
      Ok(Header(version % 0x100, name, sequence % 0x1_0000_0000), p2)
  }

  function ParseMessage(data: Octets): (r: Parsed<Message>)
    ensures r.Ok? ==> r.pos <= |data|
  {
    var (header, p) :- ParseHeader(data);
    var (fields, end) :- ParseFields(data, p, map[]);
    Ok(Message(header.name, header.kind, header.sequence, fields), end)
  }
}
