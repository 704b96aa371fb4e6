/** What the compact reader makes of the compact writer's bytes: exactly the normal form of what was
    written, and exactly the bytes that were written, whatever surrounds them. */
module CompactRoundTrip {
  import opened Bytes
  import opened Thrift
  import opened Compact

  // ---- The values a caller may send

  const MAX_LENGTH: nat := 0x8000_0000_0000_0000

  /** Lengths fit a Go int, no non-empty container holds Bools, and map keys decode to hashable
      values. Everything else (mixed kinds, repeated IDs, wide integers, empty containers of
      anything) is allowed. */
  predicate Sendable(kind: Kind, value: Value, spec: Field)
    decreases value, 1
  {
    match value
    case Text(text) => |text| < MAX_LENGTH
    case Raw(raw) => |raw| < MAX_LENGTH
    case Fields(fields) => SendableFields(fields)
    case Items(items) =>
      |items| < MAX_LENGTH && (items != [] ==> !spec.elementKind.Bool?) && SendableItems(spec.elementKind, items)
    case Entries(entries) =>
      |entries| < MAX_LENGTH && (entries != [] ==> !spec.keyKind.Bool? && !spec.valueKind.Bool?)
      && SendableEntries(spec.keyKind, spec.valueKind, entries)
    case _ => true
  }

  predicate SendableField(f: Field)
    decreases f, 2
  {
    f.kind.Bool? || Sendable(f.kind, f.value, f)
  }

  predicate SendableFields(fields: seq<Field>)
    decreases fields, 0
  {
    fields != [] ==> SendableField(fields[0]) && SendableFields(fields[1..])
  }

  predicate SendableItems(kind: Kind, items: seq<Value>)
    decreases items, 0
  {
    items != [] ==> Sendable(kind, items[0], NO_SPEC) && SendableItems(kind, items[1..])
  }

  predicate SendableEntry(keyKind: Kind, valueKind: Kind, entry: Entry)
    decreases entry, 2
  {
    Sendable(keyKind, entry.key, NO_SPEC) && Sendable(valueKind, entry.item, NO_SPEC)
    && Hashable(NormalKey(CompactCodec, keyKind, entry))
  }

  predicate SendableEntries(keyKind: Kind, valueKind: Kind, entries: seq<Entry>)
    decreases entries, 0
  {
    entries != [] ==>
      SendableEntry(keyKind, valueKind, entries[0]) && SendableEntries(keyKind, valueKind, entries[1..])
  }

  // ---- Integers

  /** The reader, mid-number with `acc` already read, adds the rest of `v` shifted into place. */
  lemma {:induction false} VarintFrom(v: nat, data: Octets, pos: nat, step: nat, acc: u64)
    requires At(data, pos, EncodeVarint(v))
    requires step < 10 && acc < Pow128(step) && (step > 0 ==> v > 0)
    requires acc + Shifted(v, step) < 0x1_0000_0000_0000_0000
    ensures ParseVarintFrom(data, pos, step, acc) == Ok(acc + Shifted(v, step), pos + |EncodeVarint(v)|)
  {
    hide At, Shifted, Pow128;
    var low := v % 0x80;
    VarintStep(acc, low, step);
    LowGroup(v, step, acc);
    if v < 0x80 {
      AtOne(data, pos, v);
    } else {
      AtByte(data, pos, low + 0x80, EncodeVarint(v / 0x80));
      VarintFrom(v / 0x80, data, pos + 1, step + 1, acc + Shifted(low, step));
    }
  }

  /** Taking seven bits off the front of a number that fits 64 bits. */
  lemma LowGroup(v: nat, step: nat, acc: nat)
    requires step < 10 && acc + Shifted(v, step) < 0x1_0000_0000_0000_0000
    ensures Shifted(v % 0x80, step) <= Shifted(v, step)
    ensures Shifted(v % 0x80, step) % 0x1_0000_0000_0000_0000 == Shifted(v % 0x80, step)
    ensures Shifted(v % 0x80, step) + Shifted(v / 0x80, step + 1) == Shifted(v, step)
    ensures v >= 0x80 ==> step < 9
  {
    var unit := Pow128(step);
    assert v == v % 0x80 + v / 0x80 * 0x80;
    assert v % 0x80 * unit + v / 0x80 * (0x80 * unit) == v * unit;
    assert 0 <= v / 0x80 * (0x80 * unit);
    if v >= 0x80 && step == 9 {
      Pow128Values();
      assert false;
    }
  }

  lemma VarintRoundTrip(v: u64, data: Octets, pos: nat)
    requires At(data, pos, EncodeVarint(v))
    ensures ParseVarint(data, pos) == Ok(v, pos + |EncodeVarint(v)|)
  {
    assert Shifted(v, 0) == v;
    VarintFrom(v, data, pos, 0, 0);
  }

  lemma SignedRoundTrip(n: i64, data: Octets, pos: nat)
    requires At(data, pos, EncodeSigned(n))
    ensures ParseSigned(data, pos) == Ok(n, pos + |EncodeSigned(n)|)
  {
    hide At, EncodeVarint, ParseVarint;
    VarintRoundTrip(ZigZag(n), data, pos);
  }

  lemma BytesRoundTrip(s: Octets, data: Octets, pos: nat)
    requires |s| < MAX_LENGTH && At(data, pos, EncodeBytes(s))
    ensures ParseBytes(data, pos) == Ok(s, pos + |EncodeBytes(s)|)
  {
    hide EncodeVarint, ParseVarint;
    AtSplit(data, pos, EncodeVarint(|s|), s);
    VarintRoundTrip(|s|, data, pos);
  }

  // ---- Headers

  lemma Nibbles(high: nat, low: nat)
    requires low < 16
    ensures (high * 16 + low) / 16 == high && (high * 16 + low) % 16 == low
  {
  }

  lemma DeltaRestored(previous: i16, id: i16)
    ensures Wrap16(previous + Wrap16(id - previous)) == id
    ensures Wrap16(id as i64) == id
  {
  }

  /** Delta or long form, the reader recovers the ID, also across a 16-bit wrap. */
  lemma FieldHeaderRoundTrip(previous: i16, id: i16, ctype: byte, data: Octets, pos: nat)
    requires 0 < ctype < 16 && At(data, pos, FieldHeader(previous, id, ctype))
    ensures pos < |data| && data[pos] != STOP && data[pos] % 16 == ctype
    ensures ParseFieldID(data, pos + 1, previous, data[pos]) == Ok(id, pos + |FieldHeader(previous, id, ctype)|)
  {
    hide At, EncodeSigned, ParseSigned, Wrap16;
    var delta := Wrap16(id - previous);
    DeltaRestored(previous, id);
    if 0 < delta <= 15 {
      AtOne(data, pos, delta * 16 + ctype);
      Nibbles(delta, ctype);
    } else {
      AtByte(data, pos, ctype, EncodeSigned(id));
      Nibbles(0, ctype);
      SignedRoundTrip(id, data, pos + 1);
    }
  }

  lemma ListHeaderRoundTrip(size: nat, ctype: byte, data: Octets, pos: nat)
    requires size < MAX_LENGTH && ctype < 16 && At(data, pos, ListHeader(size, ctype))
    ensures pos < |data| && data[pos] % 16 == ctype
    ensures ParseListSize(data, pos + 1, data[pos]) == Ok(size, pos + |ListHeader(size, ctype)|)
  {
    hide At, EncodeVarint, ParseVarint;
    if size <= 14 {
      AtOne(data, pos, size * 16 + ctype);
      Nibbles(size, ctype);
    } else {
      AtByte(data, pos, 0xF0 + ctype, EncodeVarint(size));
      Nibbles(15, ctype);
      VarintRoundTrip(size, data, pos + 1);
    }
  }

  lemma MapHeaderRoundTrip(size: nat, keyType: byte, valueType: byte, data: Octets, pos: nat)
    requires size < MAX_LENGTH && keyType < 16 && valueType < 16
    requires At(data, pos, MapHeader(size, keyType, valueType))
    ensures var end := pos + |MapHeader(size, keyType, valueType)| - 1;
            && pos <= end < |data| && ParseVarint(data, pos) == Ok(size, end)
            && data[end] / 16 == keyType && data[end] % 16 == valueType
  {
    hide At, EncodeVarint, ParseVarint;
    AtSplit(data, pos, EncodeVarint(size), [keyType * 16 + valueType]);
    VarintRoundTrip(size, data, pos);
    AtOne(data, pos + |EncodeVarint(size)|, keyType * 16 + valueType);
    Nibbles(keyType, valueType);
  }

  // ---- Values, by mutual induction

  lemma ByteRoundTrip(n: i64, data: Octets, pos: nat)
    requires At(data, pos, [n % 0x100])
    ensures ParseValue(data, pos, BYTE) == Ok(DInt8(Wrap8(n)), pos + 1)
  {
    hide At;
    AtOne(data, pos, n % 0x100);
  }

  lemma DoubleRoundTrip(bits: u64, data: Octets, pos: nat)
    requires At(data, pos, LittleEndian(bits, 8))
    ensures ParseValue(data, pos, DOUBLE) == Ok(DDouble(bits), pos + 8)
  {
    hide LittleEndian, FromLittleEndian, Pow256;
    Pow256Values();
    LittleEndianRoundTrip(bits, 8);
  }

  lemma {:induction false} ValueRoundTrip(kind: Kind, value: Value, spec: Field, data: Octets, pos: nat)
    requires EncodeValue(kind, value, spec).Some? && Sendable(kind, value, spec) && !kind.Bool?
    requires At(data, pos, EncodeValue(kind, value, spec).value)
    ensures ParseValue(data, pos, TypeOf(kind).value)
         == Ok(Normal(CompactCodec, kind, value, spec), pos + |EncodeValue(kind, value, spec).value|)
    decreases value, 1
  {
    hide At, EncodeSigned, ParseSigned, EncodeBytes, ParseBytes, Utf8Valid, Wrap8, LittleEndian, FromLittleEndian;
    hide EncodeFields, ParseFields, NormalFields, EncodeList, ParseList, NormalItems, EncodeMap, ParseMap;
    hide NormalEntries;
    match kind {
      case Byte =>
        ByteRoundTrip(value.n, data, pos);
      case I16 | I32 | I64 =>
        SignedRoundTrip(value.n, data, pos);
      case Double =>
        DoubleRoundTrip(value.bits, data, pos);
      case String =>
        BytesRoundTrip(value.text, data, pos);
      case Binary =>
        BytesRoundTrip(value.raw, data, pos);
      case Struct =>
        FieldsRoundTrip(value.fields, 0, data, pos, map[]);
      case List | Set =>
        ListRoundTrip(spec.elementKind, value.items, data, pos);
      case Map =>
        MapRoundTrip(spec.keyKind, spec.valueKind, value.entries, data, pos);
    }
  }

  lemma {:induction false} FieldsRoundTrip(
      fields: seq<Field>, previous: i16, data: Octets, pos: nat, acc: map<i16, Decoded>)
    requires EncodeFields(fields, previous).Some? && SendableFields(fields)
    requires At(data, pos, EncodeFields(fields, previous).value)
    ensures ParseFields(data, pos, previous, acc)
         == Ok(NormalFields(CompactCodec, fields, acc), pos + |EncodeFields(fields, previous).value|)
    decreases fields, 0
  {
    hide At, EncodeField, SendableField, NormalField, ParseFieldID, ParseValue;
    if fields == [] {
      AtOne(data, pos, STOP);
    } else {
      var f := fields[0];
      var first, rest := EncodeField(previous, f).value, EncodeFields(fields[1..], f.id).value;
      AtSplit(data, pos, first, rest);
      FieldRoundTrip(f, previous, data, pos);
      FieldsRoundTrip(fields[1..], f.id, data, pos + |first|, acc[f.id := NormalField(CompactCodec, f)]);
    }
  }

  lemma {:induction false} FieldRoundTrip(f: Field, previous: i16, data: Octets, pos: nat)
    requires EncodeField(previous, f).Some? && SendableField(f)
    requires At(data, pos, EncodeField(previous, f).value)
    ensures pos < |data| && data[pos] != STOP
    ensures var id := ParseFieldID(data, pos + 1, previous, data[pos]);
            && id.Ok? && id.value == f.id
            && ParseValue(data, id.pos, data[pos] % 16)
               == Ok(NormalField(CompactCodec, f), pos + |EncodeField(previous, f).value|)
    decreases f, 2
  {
    hide At, FieldHeader, ParseFieldID, EncodeValue, Sendable;
    var ctype := FieldType(f).value;
    var header := FieldHeader(previous, f.id, ctype);
    if f.kind.Bool? {
      AtSplit(data, pos, header, []);
      FieldHeaderRoundTrip(previous, f.id, ctype, data, pos);
    } else {
      hide Normal, ParseValue;
      AtSplit(data, pos, header, EncodeValue(f.kind, f.value, f).value);
      FieldHeaderRoundTrip(previous, f.id, ctype, data, pos);
      ValueRoundTrip(f.kind, f.value, f, data, pos + |header|);
    }
  }

  lemma {:induction false} ListRoundTrip(kind: Kind, items: seq<Value>, data: Octets, pos: nat)
    requires EncodeList(kind, items).Some? && SendableItems(kind, items)
    requires |items| < MAX_LENGTH && (items != [] ==> !kind.Bool?)
    requires At(data, pos, EncodeList(kind, items).value)
    ensures ParseList(data, pos)
         == Ok(NormalItems(CompactCodec, kind, items), pos + |EncodeList(kind, items).value|)
    decreases items, 1
  {
    hide At, ListHeader, ParseListSize, EncodeItems, ParseItems, NormalItems, SendableItems;
    var ctype := TypeOf(kind).value;
    AtSplit(data, pos, ListHeader(|items|, ctype), EncodeItems(kind, items).value);
    ListHeaderRoundTrip(|items|, ctype, data, pos);
    ItemsRoundTrip(kind, items, data, pos + |ListHeader(|items|, ctype)|, []);
    assert [] + NormalItems(CompactCodec, kind, items) == NormalItems(CompactCodec, kind, items);
  }

  lemma {:induction false} ItemsRoundTrip(kind: Kind, items: seq<Value>, data: Octets, pos: nat, acc: seq<Decoded>)
    requires TypeOf(kind).Some? && EncodeItems(kind, items).Some? && SendableItems(kind, items)
    requires items != [] ==> !kind.Bool?
    requires At(data, pos, EncodeItems(kind, items).value)
    ensures ParseItems(data, pos, TypeOf(kind).value, |items|, acc)
         == Ok(acc + NormalItems(CompactCodec, kind, items), pos + |EncodeItems(kind, items).value|)
    decreases items, 0
  {
    hide At, EncodeValue, ParseValue, Normal, Sendable, TypeOf;
    if items == [] {
      assert acc + [] == acc;
    } else {
      var first := EncodeValue(kind, items[0], NO_SPEC).value;
      AtSplit(data, pos, first, EncodeItems(kind, items[1..]).value);
      ValueRoundTrip(kind, items[0], NO_SPEC, data, pos);
      var here := Normal(CompactCodec, kind, items[0], NO_SPEC);
      ItemsRoundTrip(kind, items[1..], data, pos + |first|, acc + [here]);
      assert acc + [here] + NormalItems(CompactCodec, kind, items[1..]) == acc + NormalItems(CompactCodec, kind, items);
    }
  }

  lemma {:induction false} MapRoundTrip(keyKind: Kind, valueKind: Kind, entries: seq<Entry>, data: Octets, pos: nat)
    requires EncodeMap(keyKind, valueKind, entries).Some? && SendableEntries(keyKind, valueKind, entries)
    requires |entries| < MAX_LENGTH && (entries != [] ==> !keyKind.Bool? && !valueKind.Bool?)
    requires At(data, pos, EncodeMap(keyKind, valueKind, entries).value)
    ensures ParseMap(data, pos)
         == Ok(NormalEntries(CompactCodec, keyKind, valueKind, entries, map[]),
               pos + |EncodeMap(keyKind, valueKind, entries).value|)
    decreases entries, 1
  {
    hide At, MapHeader, EncodeVarint, ParseVarint, EncodeEntries, ParseEntries, SendableEntries, TypeOf, EncodeEntry;
    if entries == [] {
      VarintRoundTrip(0, data, pos);
    } else {
      hide NormalEntries;
      var header := MapHeader(|entries|, TypeOf(keyKind).value, TypeOf(valueKind).value);
      AtSplit(data, pos, header, EncodeEntries(keyKind, valueKind, entries).value);
      MapHeaderRoundTrip(|entries|, TypeOf(keyKind).value, TypeOf(valueKind).value, data, pos);
      EntriesRoundTrip(keyKind, valueKind, entries, data, pos + |header|, map[]);
    }
  }

  lemma {:induction false} EntriesRoundTrip(
      keyKind: Kind, valueKind: Kind, entries: seq<Entry>, data: Octets, pos: nat, acc: map<Decoded, Decoded>)
    requires TypeOf(keyKind).Some? && TypeOf(valueKind).Some?
    requires EncodeEntries(keyKind, valueKind, entries).Some? && SendableEntries(keyKind, valueKind, entries)
    requires entries != [] ==> !keyKind.Bool? && !valueKind.Bool?
    requires At(data, pos, EncodeEntries(keyKind, valueKind, entries).value)
    ensures ParseEntries(data, pos, TypeOf(keyKind).value, TypeOf(valueKind).value, |entries|, acc)
         == Ok(NormalEntries(CompactCodec, keyKind, valueKind, entries, acc),
               pos + |EncodeEntries(keyKind, valueKind, entries).value|)
    decreases entries, 0
  {
    hide At, TypeOf, ParseValue, EncodeEntry, NormalKey, NormalItem, SendableEntry, Hashable;
    if entries != [] {
      var first := EncodeEntry(keyKind, valueKind, entries[0]).value;
      AtSplit(data, pos, first, EncodeEntries(keyKind, valueKind, entries[1..]).value);
      EntryRoundTrip(keyKind, valueKind, entries[0], data, pos);
      var key := NormalKey(CompactCodec, keyKind, entries[0]);
      EntriesRoundTrip(keyKind, valueKind, entries[1..], data, pos + |first|,
                       acc[key := NormalItem(CompactCodec, valueKind, entries[0])]);
    }
  }

  lemma {:induction false} EntryRoundTrip(keyKind: Kind, valueKind: Kind, entry: Entry, data: Octets, pos: nat)
    requires EncodeEntry(keyKind, valueKind, entry).Some? && SendableEntry(keyKind, valueKind, entry)
    requires !keyKind.Bool? && !valueKind.Bool?
    requires TypeOf(keyKind).Some? && TypeOf(valueKind).Some?
    requires At(data, pos, EncodeEntry(keyKind, valueKind, entry).value)
    ensures var key := ParseValue(data, pos, TypeOf(keyKind).value);
            && key.Ok? && key.value == NormalKey(CompactCodec, keyKind, entry) && Hashable(key.value)
            && ParseValue(data, key.pos, TypeOf(valueKind).value)
               == Ok(NormalItem(CompactCodec, valueKind, entry), pos + |EncodeEntry(keyKind, valueKind, entry).value|)
    decreases entry, 2
  {
    hide At, TypeOf, ParseValue, EncodeValue, Normal, Sendable;
    var key := EncodeValue(keyKind, entry.key, NO_SPEC).value;
    AtSplit(data, pos, key, EncodeValue(valueKind, entry.item, NO_SPEC).value);
    ValueRoundTrip(keyKind, entry.key, NO_SPEC, data, pos);
    ValueRoundTrip(valueKind, entry.item, NO_SPEC, data, pos + |key|);
  }

  // ---- Whole calls

  /** Every call that can be encoded is decoded to its name, type 1, its sequence and its normal
      form, using exactly the encoded bytes, whatever trailing bytes follow and whichever order the
      maps inside it were iterated in. */
  lemma CallRoundTrip(name: Octets, fields: seq<Field>, sequence: u64, suffix: Octets)
    requires EncodeCall(name, fields, sequence).Some?
    requires SendableFields(fields) && |name| < MAX_LENGTH
    ensures var call := EncodeCall(name, fields, sequence).value;
            ParseMessage(call + suffix)
              == Ok(Message(name, 1, sequence, NormalFields(CompactCodec, fields, map[])), |call|)
  {
    hide At, CallHeader, ParseHeader, EncodeFields, ParseFields, NormalFields, SendableFields;
    var header, body := CallHeader(name, sequence), EncodeFields(fields, 0).value;
    var data := header + body + suffix;
    assert [] + (header + body) + suffix == data;
    AtPrefix([], header + body, suffix);
    AtSplit(data, 0, header, body);
    HeaderRoundTrip(name, sequence, data);
    FieldsRoundTrip(fields, 0, data, |header|, map[]);
  }

  lemma HeaderRoundTrip(name: Octets, sequence: u64, data: Octets)
    requires |name| < MAX_LENGTH && At(data, 0, CallHeader(name, sequence))
    ensures ParseHeader(data) == Ok(Header(1, sequence, name), |CallHeader(name, sequence)|)
  {
    hide At, EncodeVarint, ParseVarint, EncodeBytes, ParseBytes;
    var magic, number, text := [PROTOCOL_ID] + [CALL_VERSION], EncodeVarint(sequence), EncodeBytes(name);
    assert magic == [PROTOCOL_ID, CALL_VERSION];
    AtSplit(data, 0, magic + number, text);
    AtSplit(data, 0, magic, number);
    AtByte(data, 0, PROTOCOL_ID, [CALL_VERSION]);
    AtOne(data, 1, CALL_VERSION);
    VarintRoundTrip(sequence, data, 2);
    BytesRoundTrip(name, data, 2 + |number|);
  }
}
