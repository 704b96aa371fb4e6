/** The values both Thrift codecs carry, and the normal form each codec turns them into. */
module Thrift {
  import opened Options
  import opened Bytes

  datatype Kind =
    | Bool | Byte | I16 | I32 | I64 | Double | Binary | String
    | List | Set | Map | Struct
    | Unsupported(code: byte)

  datatype Field = Field(id: i16, kind: Kind, value: Value, elementKind: Kind, keyKind: Kind, valueKind: Kind)

  /** What a caller may put in a field. `Entries` is a Go map together with the order in which one
      iteration happens to visit it; `Foreign` is any Go value no codec accepts. */
  datatype Value =
    | Boolean(b: bool)
    | Integer(n: i64)
    | Float(bits: u64)
    | Text(text: Octets)
    | Raw(raw: Octets)
    | Fields(fields: seq<Field>)
    | Items(items: seq<Value>)
    | Entries(entries: seq<Entry>)
    | Foreign

  datatype Entry = Entry(key: Value, item: Value)

  /** The zero `Field{}` handed down to container elements: its kinds are all Bool. */
  const NO_SPEC := Field(0, Bool, Foreign, Bool, Bool, Bool)

  /** What a decoder hands back: Go's dynamic type is the constructor. */
  datatype Decoded =
    | DBool(b: bool)
    | DInt8(n8: int)
    | DInt16(n16: i16)
    | DInt32(n32: i32)
    | DInt64(n64: i64)
    | DDouble(bits: u64)
    | DText(text: Octets)
    | DRaw(raw: Octets)
    | DList(items: seq<Decoded>)
    | DMap(entries: map<Decoded, Decoded>)
    | DStruct(fields: map<i16, Decoded>)

  datatype Message = Message(name: Octets, kind: byte, sequence: u64, fields: map<i16, Decoded>)

  /** A parse either succeeds at a new position, reports an error, or panics (negative slice
      capacity, unhashable map key). */
  datatype Parsed<+T> = Ok(value: T, pos: nat) | Err | Panic {
    predicate IsFailure() { !Ok? }

    function PropagateFailure<U>(): Parsed<U>
      requires IsFailure()
    {
      if Err? then Err else Panic
    }

    function Extract(): (T, nat)
      requires !IsFailure()
    {
      (value, pos)
    }
  }

  /** How a reading method ends. */
  datatype Outcome<+T> = Success(value: T) | Failure | Panicked {
    predicate IsFailure() { !Success? }

    function PropagateFailure<U>(): Outcome<U>
      requires IsFailure()
    {
      if Failure? then Failure else Panicked
    }

    function Extract(): T
      requires !IsFailure()
    {
      value
    }

    /** The method ended, with its cursor at `pos`, the way the parsing function says. */
    ghost predicate Follows(spec: Parsed<T>, pos: nat) {
      match this
      case Success(v) => spec == Ok(v, pos)
      case Failure => spec == Err
      case Panicked => spec == Panic
    }
  }

  /** Concatenation of two writes, either of which may have failed. */
  function Then(first: Option<Octets>, second: Option<Octets>): Option<Octets> {
    if first.Some? && second.Some? then Some(first.value + second.value) else None
  }

  lemma ThenAssociative(a: Octets, b: Option<Octets>, c: Option<Octets>)
    ensures Then(Some(a), Then(b, c)) == Then(Then(Some(a), b), c)
  {
    if b.Some? && c.Some? {
      assert a + (b.value + c.value) == a + b.value + c.value;
    }
  }

  /** Slices and maps cannot be Go map keys. */
  predicate Hashable(key: Decoded) {
    !key.DRaw? && !key.DList? && !key.DMap? && !key.DStruct?
  }

  function Continuation(b: byte): bool { 0x80 <= b <= 0xBF }

  /** Length of the well-formed UTF-8 sequence at the front of `s`, or 0 (unicode/utf8.Valid). */
  function RuneLength(s: Octets): (n: nat)
    requires s != []
    ensures n <= 4 && n <= |s|
  {
    if s[0] < 0x80 then 1
    else if 0xC2 <= s[0] <= 0xDF then
      if |s| >= 2 && Continuation(s[1]) then 2 else 0
    else if 0xE0 <= s[0] <= 0xEF then
      if |s| >= 3 && Continuation(s[1]) && Continuation(s[2])
         && (s[0] == 0xE0 ==> 0xA0 <= s[1]) && (s[0] == 0xED ==> s[1] <= 0x9F) then 3 else 0
    else if 0xF0 <= s[0] <= 0xF4 then
      if |s| >= 4 && Continuation(s[1]) && Continuation(s[2]) && Continuation(s[3])
         && (s[0] == 0xF0 ==> 0x90 <= s[1]) && (s[0] == 0xF4 ==> s[1] <= 0x8F) then 4 else 0
    else 0
  }

  predicate Utf8Valid(s: Octets) {
    s == [] || (RuneLength(s) > 0 && Utf8Valid(s[RuneLength(s)..]))
  }

  /** Both decoders classify bytes by UTF-8 validity, not by the declared kind. */
  function DecodedBytes(s: Octets): Decoded {
    if Utf8Valid(s) then DText(s) else DRaw(s)
  }

  datatype Codec = CompactCodec | BinaryCodec

  function NormalInteger(codec: Codec, kind: Kind, n: i64): Decoded {
    match kind
    case Byte => DInt8(Wrap8(n))
    case I16 => if codec.CompactCodec? then DInt64(n) else DInt16(Wrap16(n))
    case I32 => if codec.CompactCodec? then DInt64(n) else DInt32(Wrap32(n))
    case _ => DInt64(n)
  }

  /** The value a peer should see for `value` sent as `kind`: integers narrowed (or, in the compact
      protocol, widened), bytes classified by UTF-8 validity, duplicate IDs and keys last-wins, and
      a field of kind Bool true unless its value is the boolean false. */
  function Normal(codec: Codec, kind: Kind, value: Value, spec: Field): Decoded
    decreases value, 1
  {
    match value
    case Boolean(b) => DBool(b)
    case Integer(n) => if kind.Bool? then DBool(true) else NormalInteger(codec, kind, n)
    case Float(bits) => if kind.Bool? then DBool(true) else DDouble(bits)
    case Text(text) => if kind.Bool? then DBool(true) else DecodedBytes(text)
    case Raw(raw) => if kind.Bool? then DBool(true) else DecodedBytes(raw)
    case Fields(fields) => if kind.Bool? then DBool(true) else DStruct(NormalFields(codec, fields, map[]))
    case Items(items) => if kind.Bool? then DBool(true) else DList(NormalItems(codec, spec.elementKind, items))
    case Entries(entries) =>
      if kind.Bool? then DBool(true)
      else DMap(NormalEntries(codec, spec.keyKind, spec.valueKind, entries, map[]))
    case Foreign => DBool(true)
  }

  function NormalFields(codec: Codec, fields: seq<Field>, acc: map<i16, Decoded>): map<i16, Decoded>
    decreases fields, 0
  {
    if fields == [] then acc
    else
      NormalFields(codec, fields[1..], acc[fields[0].id := NormalField(codec, fields[0])])
  }

  function NormalField(codec: Codec, f: Field): Decoded
    decreases f, 2
  {
    Normal(codec, f.kind, f.value, f)
  }

  function NormalItems(codec: Codec, kind: Kind, items: seq<Value>): (r: seq<Decoded>)
    ensures |r| == |items|
    decreases items, 0
  {
    if items == [] then []
    else [Normal(codec, kind, items[0], NO_SPEC)] + NormalItems(codec, kind, items[1..])
  }

  function NormalEntries(codec: Codec, keyKind: Kind, valueKind: Kind, entries: seq<Entry>, acc: map<Decoded, Decoded>)
    : map<Decoded, Decoded>
    decreases entries, 0
  {
    if entries == [] then acc
    else
      NormalEntries(codec, keyKind, valueKind, entries[1..],
        acc[NormalKey(codec, keyKind, entries[0]) := NormalItem(codec, valueKind, entries[0])])
  }

  function NormalKey(codec: Codec, keyKind: Kind, entry: Entry): Decoded
    decreases entry, 2
  {
    Normal(codec, keyKind, entry.key, NO_SPEC)
  }

  function NormalItem(codec: Codec, valueKind: Kind, entry: Entry): Decoded
    decreases entry, 2
  {
    Normal(codec, valueKind, entry.item, NO_SPEC)
  }
}
