/** What the binary reader makes of the binary writer's bytes. */
module BinaryRoundTrip {
  import opened Bytes
  import opened Thrift
  import opened BinaryThrift

  /** Sizes within the reader's limits, and map keys that decode to hashable values. */
  predicate Sendable(kind: Kind, value: Value, spec: Field)
    decreases value, 1
  {
    match value
    case Text(text) => |text| <= MAX_BYTES
    case Raw(raw) => |raw| <= MAX_BYTES
    case Fields(fields) => SendableFields(fields)
    case Items(items) => |items| <= MAX_SIZE && SendableItems(spec.elementKind, items)
    case Entries(entries) => |entries| <= MAX_SIZE && SendableEntries(spec.keyKind, spec.valueKind, entries)
    case _ => true
  }

  predicate SendableField(f: Field)
    decreases f, 2
  {
    Sendable(f.kind, f.value, f)
  }

  predicate SendableFields(fields: seq<Field>)
    decreases fields, 0
  {
    fields != [] ==> SendableField(fields[0]) && SendableFields(fields[1..])
  }

  predicate SendableItems(kind: Kind, items: seq<Value>)
    decreases items, 0
  {
    items != [] ==> Sendable(kind, items[0], NO_SPEC) && SendableItems(kind, items[1..])
  }

  predicate SendableEntry(keyKind: Kind, valueKind: Kind, entry: Entry)
    decreases entry, 2
  {
    Sendable(keyKind, entry.key, NO_SPEC) && Sendable(valueKind, entry.item, NO_SPEC)
    && Hashable(NormalKey(BinaryCodec, keyKind, entry))
  }

  predicate SendableEntries(keyKind: Kind, valueKind: Kind, entries: seq<Entry>)
    decreases entries, 0
  {
    entries != [] ==>
      SendableEntry(keyKind, valueKind, entries[0]) && SendableEntries(keyKind, valueKind, entries[1..])
  }

  // ---- Fixed-width integers

  lemma NumberRoundTrip(n: nat, width: nat, data: Octets, pos: nat)
    requires n < Pow256(width) && At(data, pos, BigEndian(n, width))
    ensures ParseNumber(data, pos, width) == Ok(n, pos + width)
  {
    BigEndianRoundTrip(n, width);
  }

  lemma Int16RoundTrip(n: int, data: Octets, pos: nat)
    requires At(data, pos, Put16(n))
    ensures Parse16(data, pos) == Ok(Wrap16(n), pos + 2)
  {
    hide At, BigEndian, ParseNumber;
    Pow256Values();
    NumberRoundTrip(n % 0x1_0000, 2, data, pos);
  }

  lemma Int32RoundTrip(n: int, data: Octets, pos: nat)
    requires At(data, pos, Put32(n))
    ensures Parse32(data, pos) == Ok(Wrap32(n), pos + 4)
  {
    hide At, BigEndian, ParseNumber;
    Pow256Values();
    NumberRoundTrip(n % 0x1_0000_0000, 4, data, pos);
  }

  lemma Int64RoundTrip(n: int, data: Octets, pos: nat)
    requires At(data, pos, Put64(n))
    ensures Parse64(data, pos) == Ok(Wrap64(n), pos + 8)
  {
    hide At, BigEndian, ParseNumber;
    Pow256Values();
    NumberRoundTrip(n % 0x1_0000_0000_0000_0000, 8, data, pos);
  }

  lemma SizeRoundTrip(size: nat, limit: nat, data: Octets, pos: nat)
    requires size <= limit < 0x8000_0000 && At(data, pos, Put32(size))
    ensures ParseSize(data, pos, limit) == Ok(size, pos + 4)
  {
    hide At, Put32, Parse32;
    Int32RoundTrip(size, data, pos);
  }

  lemma OneByte(data: Octets, pos: nat, b: byte)
    requires At(data, pos, [b])
    ensures ParseTake(data, pos, 1) == Ok([b], pos + 1)
  {
  }

  lemma BytesRoundTrip(s: Octets, data: Octets, pos: nat)
    requires |s| <= MAX_BYTES && At(data, pos, EncodeBytes(s))
    ensures ParseBytes(data, pos) == Ok(s, pos + |EncodeBytes(s)|)
  {
    hide Put32, ParseSize;
    AtSplit(data, pos, Put32(|s|), s);
    SizeRoundTrip(|s|, MAX_BYTES, data, pos);
  }

  /** A byte string comes back exactly when it is within the reader's limit, however long it is:
      beyond it the length is refused or, wrapped to 32 bits, names a shorter string. */
  lemma BytesRoundTripIffWithinLimit(s: Octets)
    ensures ParseBytes(EncodeBytes(s), 0) == Ok(s, |EncodeBytes(s)|) <==> |s| <= MAX_BYTES
  {
    hide Put32, At, Parse32;
    var data := EncodeBytes(s);
    AtPrefix([], data, []);
    assert [] + data + [] == data;
    AtSplit(data, 0, Put32(|s|), s);
    if |s| <= MAX_BYTES {
      BytesRoundTrip(s, data, 0);
    } else {
      Int32RoundTrip(|s|, data, 0);
      assert Wrap32(|s|) > MAX_BYTES || Wrap32(|s|) < |s|;
    }
  }

  // ---- Values, by mutual induction

  lemma ScalarRoundTrip(kind: Kind, value: Value, spec: Field, data: Octets, pos: nat)
    requires EncodeValue(kind, value, spec).Some?
    requires kind.Bool? || kind.Byte? || kind.I16? || kind.I32? || kind.I64? || kind.Double?
    requires At(data, pos, EncodeValue(kind, value, spec).value)
    ensures ParseValue(data, pos, TypeOf(kind).value)
         == Ok(Normal(BinaryCodec, kind, value, spec), pos + |EncodeValue(kind, value, spec).value|)
  {
    hide At, Put16, Put32, Put64, Parse16, Parse32, Parse64, ParseTake;
    match kind {
      case Bool =>
        OneByte(data, pos, if value.b then 1 else 0);
      case Byte =>
        OneByte(data, pos, value.n % 0x100);
      case I16 =>
        Int16RoundTrip(value.n, data, pos);
      case I32 =>
        Int32RoundTrip(value.n, data, pos);
      case I64 =>
        Int64RoundTrip(value.n, data, pos);
      case Double =>
        Int64RoundTrip(value.bits, data, pos);
    }
  }

  lemma {:induction false} ValueRoundTrip(kind: Kind, value: Value, spec: Field, data: Octets, pos: nat)
    requires EncodeValue(kind, value, spec).Some? && Sendable(kind, value, spec)
    requires At(data, pos, EncodeValue(kind, value, spec).value)
    ensures ParseValue(data, pos, TypeOf(kind).value)
         == Ok(Normal(BinaryCodec, kind, value, spec), pos + |EncodeValue(kind, value, spec).value|)
    decreases value, 1
  {
    hide At, EncodeBytes, ParseBytes, Utf8Valid, Wrap8, Put16, Put32, Put64, Parse16, Parse32, Parse64;
    hide EncodeFields, ParseFields, NormalFields, EncodeList, ParseList, NormalItems, EncodeMap, ParseMap;
    hide NormalEntries;
    match kind {
      case String =>
        BytesRoundTrip(value.text, data, pos);
      case Binary =>
        BytesRoundTrip(value.raw, data, pos);
      case Struct =>
        FieldsRoundTrip(value.fields, data, pos, map[]);
      case List | Set =>
        ListRoundTrip(spec.elementKind, value.items, data, pos);
      case Map =>
        MapRoundTrip(spec.keyKind, spec.valueKind, value.entries, data, pos);
      case _ =>
        ScalarRoundTrip(kind, value, spec, data, pos);
    }
  }

  lemma {:induction false} FieldsRoundTrip(fields: seq<Field>, data: Octets, pos: nat, acc: map<i16, Decoded>)
    requires EncodeFields(fields).Some? && SendableFields(fields)
    requires At(data, pos, EncodeFields(fields).value)
    ensures ParseFields(data, pos, acc)
         == Ok(NormalFields(BinaryCodec, fields, acc), pos + |EncodeFields(fields).value|)
    decreases fields, 0
  {
    hide At, EncodeField, SendableField, NormalField, Parse16, ParseValue, ParseTake;
    if fields == [] {
      OneByte(data, pos, STOP);
    } else {
      var f := fields[0];
      var first, rest := EncodeField(f).value, EncodeFields(fields[1..]).value;
      AtSplit(data, pos, first, rest);
      FieldRoundTrip(f, data, pos);
      FieldsRoundTrip(fields[1..], data, pos + |first|, acc[f.id := NormalField(BinaryCodec, f)]);
    }
  }

  lemma {:induction false} FieldRoundTrip(f: Field, data: Octets, pos: nat)
    requires EncodeField(f).Some? && SendableField(f)
    requires At(data, pos, EncodeField(f).value)
    ensures TypeOf(f.kind).Some? && pos + 3 <= |data|
    ensures ParseTake(data, pos, 1) == Ok([TypeOf(f.kind).value], pos + 1)
    ensures Parse16(data, pos + 1) == Ok(f.id, pos + 3)
    ensures ParseValue(data, pos + 3, TypeOf(f.kind).value)
         == Ok(NormalField(BinaryCodec, f), pos + |EncodeField(f).value|)
    decreases f, 2
  {
    hide At, Put16, Parse16, EncodeValue, Sendable, Normal, ParseValue, TypeOf, ParseTake;
    var ctype := TypeOf(f.kind).value;
    AtSplit(data, pos, FieldHeader(f.id, ctype), EncodeValue(f.kind, f.value, f).value);
    AtSplit(data, pos, [ctype], Put16(f.id));
    OneByte(data, pos, ctype);
    Int16RoundTrip(f.id, data, pos + 1);
    ValueRoundTrip(f.kind, f.value, f, data, pos + 3);
  }

  lemma {:induction false} ListRoundTrip(kind: Kind, items: seq<Value>, data: Octets, pos: nat)
    requires EncodeList(kind, items).Some? && SendableItems(kind, items) && |items| <= MAX_SIZE
    requires At(data, pos, EncodeList(kind, items).value)
    ensures ParseList(data, pos)
         == Ok(NormalItems(BinaryCodec, kind, items), pos + |EncodeList(kind, items).value|)
    decreases items, 1
  {
    hide At, Put32, ParseSize, EncodeItems, ParseItems, NormalItems, SendableItems, TypeOf, ParseTake;
    var ctype := TypeOf(kind).value;
    AtSplit(data, pos, ListHeader(|items|, ctype), EncodeItems(kind, items).value);
    AtSplit(data, pos, [ctype], Put32(|items|));
    OneByte(data, pos, ctype);
    SizeRoundTrip(|items|, MAX_SIZE, data, pos + 1);
    ItemsRoundTrip(kind, items, data, pos + 5, []);
    assert [] + NormalItems(BinaryCodec, kind, items) == NormalItems(BinaryCodec, kind, items);
  }

  lemma {:induction false} ItemsRoundTrip(kind: Kind, items: seq<Value>, data: Octets, pos: nat, acc: seq<Decoded>)
    requires TypeOf(kind).Some? && EncodeItems(kind, items).Some? && SendableItems(kind, items)
    requires At(data, pos, EncodeItems(kind, items).value)
    ensures ParseItems(data, pos, TypeOf(kind).value, |items|, acc)
         == Ok(acc + NormalItems(BinaryCodec, kind, items), pos + |EncodeItems(kind, items).value|)
    decreases items, 0
  {
    hide At, EncodeValue, ParseValue, Normal, Sendable, TypeOf;
    if items == [] {
      assert acc + [] == acc;
    } else {
      var first := EncodeValue(kind, items[0], NO_SPEC).value;
      AtSplit(data, pos, first, EncodeItems(kind, items[1..]).value);
      ValueRoundTrip(kind, items[0], NO_SPEC, data, pos);
      var here := Normal(BinaryCodec, kind, items[0], NO_SPEC);
      ItemsRoundTrip(kind, items[1..], data, pos + |first|, acc + [here]);
      assert acc + [here] + NormalItems(BinaryCodec, kind, items[1..]) == acc + NormalItems(BinaryCodec, kind, items);
    }
  }

  lemma {:induction false} MapRoundTrip(keyKind: Kind, valueKind: Kind, entries: seq<Entry>, data: Octets, pos: nat)
    requires EncodeMap(keyKind, valueKind, entries).Some? && SendableEntries(keyKind, valueKind, entries)
    requires |entries| <= MAX_SIZE
    requires At(data, pos, EncodeMap(keyKind, valueKind, entries).value)
    ensures ParseMap(data, pos)
         == Ok(NormalEntries(BinaryCodec, keyKind, valueKind, entries, map[]),
               pos + |EncodeMap(keyKind, valueKind, entries).value|)
    decreases entries, 1
  {
    hide At, MapHeader, ParseSize, EncodeEntries, ParseEntries, NormalEntries, SendableEntries, TypeOf, ParseTake;
    var keyType, valueType := TypeOf(keyKind).value, TypeOf(valueKind).value;
    AtSplit(data, pos, MapHeader(|entries|, keyType, valueType), EncodeEntries(keyKind, valueKind, entries).value);
    MapHeaderRoundTrip(|entries|, keyType, valueType, data, pos);
    EntriesRoundTrip(keyKind, valueKind, entries, data, pos + 6, map[]);
  }

  lemma MapHeaderRoundTrip(size: nat, keyType: byte, valueType: byte, data: Octets, pos: nat)
    requires size <= MAX_SIZE && At(data, pos, MapHeader(size, keyType, valueType))
    ensures |MapHeader(size, keyType, valueType)| == 6
    ensures ParseTake(data, pos, 2) == Ok([keyType, valueType], pos + 2)
    ensures ParseSize(data, pos + 2, MAX_SIZE) == Ok(size, pos + 6)
  {
    hide At, Put32, ParseSize;
    AtByte(data, pos, keyType, [valueType] + Put32(size));
    AtByte(data, pos + 1, valueType, Put32(size));
    assert data[pos..pos + 2] == [keyType, valueType];
    SizeRoundTrip(size, MAX_SIZE, data, pos + 2);
  }

  lemma {:induction false} EntriesRoundTrip(
      keyKind: Kind, valueKind: Kind, entries: seq<Entry>, data: Octets, pos: nat, acc: map<Decoded, Decoded>)
    requires TypeOf(keyKind).Some? && TypeOf(valueKind).Some?
    requires EncodeEntries(keyKind, valueKind, entries).Some? && SendableEntries(keyKind, valueKind, entries)
    requires At(data, pos, EncodeEntries(keyKind, valueKind, entries).value)
    ensures ParseEntries(data, pos, TypeOf(keyKind).value, TypeOf(valueKind).value, |entries|, acc)
         == Ok(NormalEntries(BinaryCodec, keyKind, valueKind, entries, acc),
               pos + |EncodeEntries(keyKind, valueKind, entries).value|)
    decreases entries, 0
  {
    hide At, TypeOf, ParseValue, EncodeEntry, NormalKey, NormalItem, SendableEntry, Hashable;
    if entries != [] {
      FirstEntry(keyKind, valueKind, entries);
      hide EncodeEntries, SendableEntries;
      var first := EncodeEntry(keyKind, valueKind, entries[0]).value;
      AtSplit(data, pos, first, EncodeEntries(keyKind, valueKind, entries[1..]).value);
      EntryRoundTrip(keyKind, valueKind, entries[0], data, pos);
      var key := NormalKey(BinaryCodec, keyKind, entries[0]);
      EntriesRoundTrip(keyKind, valueKind, entries[1..], data, pos + |first|,
                       acc[key := NormalItem(BinaryCodec, valueKind, entries[0])]);
    }
  }

  lemma {:induction false} EntryRoundTrip(keyKind: Kind, valueKind: Kind, entry: Entry, data: Octets, pos: nat)
    requires EncodeEntry(keyKind, valueKind, entry).Some? && SendableEntry(keyKind, valueKind, entry)
    requires TypeOf(keyKind).Some? && TypeOf(valueKind).Some?
    requires At(data, pos, EncodeEntry(keyKind, valueKind, entry).value)
    ensures var key := ParseValue(data, pos, TypeOf(keyKind).value);
            && key.Ok? && key.value == NormalKey(BinaryCodec, keyKind, entry) && Hashable(key.value)
            && ParseValue(data, key.pos, TypeOf(valueKind).value)
               == Ok(NormalItem(BinaryCodec, valueKind, entry), pos + |EncodeEntry(keyKind, valueKind, entry).value|)
    decreases entry, 2
  {
    hide At, TypeOf, ParseValue, EncodeValue, Normal, Sendable;
    var key := EncodeValue(keyKind, entry.key, NO_SPEC).value;
    AtSplit(data, pos, key, EncodeValue(valueKind, entry.item, NO_SPEC).value);
    ValueRoundTrip(keyKind, entry.key, NO_SPEC, data, pos);
    ValueRoundTrip(valueKind, entry.item, NO_SPEC, data, pos + |key|);
  }

  /** Under sendable elements, a list comes back exactly when it has at most 1,000,000 of them. */
  lemma ListRoundTripIffWithinLimit(kind: Kind, items: seq<Value>)
    requires EncodeList(kind, items).Some? && SendableItems(kind, items)
    ensures ParseList(EncodeList(kind, items).value, 0)
              == Ok(NormalItems(BinaryCodec, kind, items), |EncodeList(kind, items).value|)
            <==> |items| <= MAX_SIZE
  {
    hide At, EncodeList, ParseList, NormalItems, SendableItems;
    var data := EncodeList(kind, items).value;
    AtPrefix([], data, []);
    assert [] + data + [] == data;
    if |items| <= MAX_SIZE {
      ListRoundTrip(kind, items, data, 0);
    }
  }

  lemma {:induction false} EntriesSplit(keyKind: Kind, valueKind: Kind, entries: seq<Entry>, k: nat)
    requires EncodeEntries(keyKind, valueKind, entries).Some? && SendableEntries(keyKind, valueKind, entries)
    requires k <= |entries|
    ensures EncodeEntries(keyKind, valueKind, entries[..k]).Some?
    ensures EncodeEntries(keyKind, valueKind, entries[k..]).Some?
    ensures EncodeEntries(keyKind, valueKind, entries).value
         == EncodeEntries(keyKind, valueKind, entries[..k]).value
           + EncodeEntries(keyKind, valueKind, entries[k..]).value
    ensures SendableEntries(keyKind, valueKind, entries[..k])
    decreases k
  {
    hide EncodeEntry, SendableEntry, EncodeEntries, SendableEntries;
    if k == 0 {
      NothingSplit(keyKind, valueKind, entries);
    } else {
      var first, rest := EncodeEntry(keyKind, valueKind, entries[0]), entries[1..];
      FirstEntry(keyKind, valueKind, entries);
      EntriesSplit(keyKind, valueKind, rest, k - 1);
      assert entries[..k][1..] == rest[..k - 1] && rest[k - 1..] == entries[k..] && entries[..k][0] == entries[0];
      FirstEntry(keyKind, valueKind, entries[..k]);
      ThenAssociative(first.value, EncodeEntries(keyKind, valueKind, rest[..k - 1]),
        EncodeEntries(keyKind, valueKind, entries[k..]));
    }
  }

  lemma FirstEntry(keyKind: Kind, valueKind: Kind, entries: seq<Entry>)
    requires entries != []
    ensures EncodeEntries(keyKind, valueKind, entries)
         == Then(EncodeEntry(keyKind, valueKind, entries[0]), EncodeEntries(keyKind, valueKind, entries[1..]))
    ensures SendableEntries(keyKind, valueKind, entries)
            <==> SendableEntry(keyKind, valueKind, entries[0]) && SendableEntries(keyKind, valueKind, entries[1..])
  {
    hide EncodeEntry, SendableEntry;
  }

  lemma NothingSplit(keyKind: Kind, valueKind: Kind, entries: seq<Entry>)
    requires EncodeEntries(keyKind, valueKind, entries).Some?
    ensures EncodeEntries(keyKind, valueKind, entries[..0]).Some?
    ensures EncodeEntries(keyKind, valueKind, entries[0..]) == EncodeEntries(keyKind, valueKind, entries)
    ensures EncodeEntries(keyKind, valueKind, entries).value
         == EncodeEntries(keyKind, valueKind, entries[..0]).value + EncodeEntries(keyKind, valueKind, entries).value
    ensures SendableEntries(keyKind, valueKind, entries[..0])
  {
    assert entries[..0] == [] && entries[0..] == entries;
  }

  lemma EntriesTakeBytes(keyKind: Kind, valueKind: Kind, entries: seq<Entry>)
    requires entries != [] && EncodeEntries(keyKind, valueKind, entries).Some?
    ensures EncodeEntries(keyKind, valueKind, entries).value != []
  {
    hide EncodeValue;
    ValueTakesBytes(keyKind, entries[0].key);
  }

  lemma ValueTakesBytes(kind: Kind, value: Value)
    requires EncodeValue(kind, value, NO_SPEC).Some?
    ensures EncodeValue(kind, value, NO_SPEC).value != []
  {
    hide Put16, Put32, Put64, BigEndian;
    if kind.Struct? {
      FieldsTakeBytes(value.fields);
    }
  }

  lemma {:induction false} FieldsTakeBytes(fields: seq<Field>)
    requires EncodeFields(fields).Some?
    ensures EncodeFields(fields).value != []
  {
    hide EncodeField;
    if fields != [] {
      FieldsTakeBytes(fields[1..]);
    }
  }

  /** The same for maps: past the limit the size is refused or, wrapped to 32 bits, announces fewer
      entries than were written. */
  lemma MapRoundTripIffWithinLimit(keyKind: Kind, valueKind: Kind, entries: seq<Entry>)
    requires EncodeMap(keyKind, valueKind, entries).Some? && SendableEntries(keyKind, valueKind, entries)
    ensures ParseMap(EncodeMap(keyKind, valueKind, entries).value, 0)
              == Ok(NormalEntries(BinaryCodec, keyKind, valueKind, entries, map[]),
                    |EncodeMap(keyKind, valueKind, entries).value|)
            <==> |entries| <= MAX_SIZE
  {
    hide At, EncodeMap, ParseMap, NormalEntries, SendableEntries;
    var data := EncodeMap(keyKind, valueKind, entries).value;
    AtPrefix([], data, []);
    assert [] + data + [] == data;
    if |entries| <= MAX_SIZE {
      MapRoundTrip(keyKind, valueKind, entries, data, 0);
    } else if ParseMap(data, 0).Ok? {
      WrappedMapStopsShort(keyKind, valueKind, entries);
    }
  }

  lemma WrappedMapStopsShort(keyKind: Kind, valueKind: Kind, entries: seq<Entry>)
    requires EncodeMap(keyKind, valueKind, entries).Some? && SendableEntries(keyKind, valueKind, entries)
    requires |entries| > MAX_SIZE && ParseMap(EncodeMap(keyKind, valueKind, entries).value, 0).Ok?
    ensures ParseMap(EncodeMap(keyKind, valueKind, entries).value, 0).pos
          < |EncodeMap(keyKind, valueKind, entries).value|
  {
    hide At, Put32, EncodeEntries, ParseEntries, NormalEntries, SendableEntries, TypeOf;
    var data := EncodeMap(keyKind, valueKind, entries).value;
    var keyType, valueType := TypeOf(keyKind).value, TypeOf(valueKind).value;
    var size, body := Put32(|entries|), EncodeEntries(keyKind, valueKind, entries).value;
    var k := Wrap32(|entries|);
    assert data == [keyType, valueType] + size + body;
    AtPrefix([keyType, valueType], size, body);
    Int32RoundTrip(|entries|, data, 2);
    assert data[0..2] == [keyType, valueType];
    assert 0 <= k <= MAX_SIZE < |entries|;
    EntriesSplit(keyKind, valueKind, entries, k);
    EntriesTakeBytes(keyKind, valueKind, entries[k..]);
    var prefix := EncodeEntries(keyKind, valueKind, entries[..k]).value;
    var rest := EncodeEntries(keyKind, valueKind, entries[k..]).value;
    assert data == [keyType, valueType] + size + prefix + rest;
    AtPrefix([keyType, valueType] + size, prefix, rest);
    EntriesRoundTrip(keyKind, valueKind, entries[..k], data, 6, map[]);
  }

  // ---- Whole calls

  /** Every sendable call is decoded to its name, type 1, the low 32 bits of its sequence and its
      normal form, using exactly the encoded bytes, whatever follows them. */
  lemma CallRoundTrip(name: Octets, fields: seq<Field>, sequence: u64, suffix: Octets)
    requires EncodeCall(name, fields, sequence).Some?
    requires SendableFields(fields) && |name| <= MAX_BYTES
    ensures var call := EncodeCall(name, fields, sequence).value;
            ParseMessage(call + suffix)
              == Ok(Message(name, 1, sequence % 0x1_0000_0000, NormalFields(BinaryCodec, fields, map[])), |call|)
  {
    hide At, CallHeader, ParseHeader, EncodeFields, ParseFields, NormalFields, SendableFields;
    var header, body := CallHeader(name, sequence), EncodeFields(fields).value;
    var data := header + body + suffix;
    assert [] + (header + body) + suffix == data;
    AtPrefix([], header + body, suffix);
    AtSplit(data, 0, header, body);
    HeaderRoundTrip(name, sequence, data);
    FieldsRoundTrip(fields, data, |header|, map[]);
  }

  lemma HeaderRoundTrip(name: Octets, sequence: u64, data: Octets)
    requires |name| <= MAX_BYTES && At(data, 0, CallHeader(name, sequence))
    ensures ParseHeader(data) == Ok(Header(1, name, sequence % 0x1_0000_0000), |CallHeader(name, sequence)|)
  {
    hide At, Put32, Parse32, EncodeBytes, ParseBytes;
    var version, text, number := Put32(CALL_VERSION), EncodeBytes(name), Put32(sequence);
    AtSplit(data, 0, version + text, number);
    AtSplit(data, 0, version, text);
    Int32RoundTrip(CALL_VERSION, data, 0);
    BytesRoundTrip(name, data, 4);
    Int32RoundTrip(sequence, data, 4 + |text|);
    assert Wrap32(CALL_VERSION) % 0x1_0000_0000 == 0x8001_0001;
    assert Wrap32(sequence) % 0x1_0000_0000 == sequence % 0x1_0000_0000;
  }
}
