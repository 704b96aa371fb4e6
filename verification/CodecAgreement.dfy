/** The two codecs tell a peer the same thing: what comes back through one is what comes back
    through the other, once 16- and 32-bit integers are widened. */
module CodecAgreement {
  import opened Bytes
  import opened Thrift
  import Compact
  import CompactRoundTrip
  import BinaryThrift
  import BinaryRoundTrip

  /** Map keys are scalars, so widening a key looks no deeper. */
  function WidenKey(key: Decoded): Decoded {
    match key
    case DInt16(n) => DInt64(n)
    case DInt32(n) => DInt64(n)
    case _ => key
  }

  /** `wide` is `narrow` with every 16- and 32-bit integer, at any depth, widened to 64 bits. */
  ghost predicate Widened(narrow: Decoded, wide: Decoded)
    decreases narrow
  {
    match narrow
    case DInt16(n) => wide == DInt64(n)
    case DInt32(n) => wide == DInt64(n)
    case DList(items) =>
      wide.DList? && |items| == |wide.items| && forall i | 0 <= i < |items| :: Widened(items[i], wide.items[i])
    case DMap(entries) =>
      && wide.DMap?
      && wide.entries.Keys == (set k | k in entries.Keys :: WidenKey(k))
      && forall k | k in entries && WidenKey(k) in wide.entries :: Widened(entries[k], wide.entries[WidenKey(k)])
    case DStruct(fields) =>
      && wide.DStruct?
      && wide.fields.Keys == fields.Keys
      && forall id | id in fields && id in wide.fields :: Widened(fields[id], wide.fields[id])
    case _ => wide == narrow
  }

  ghost predicate WidenedFields(narrow: map<i16, Decoded>, wide: map<i16, Decoded>) {
    Widened(DStruct(narrow), DStruct(wide))
  }

  /** Integers fit the width their kind declares. */
  predicate InRange(kind: Kind, value: Value, spec: Field)
    decreases value, 1
  {
    match value
    case Integer(n) => (kind.I16? ==> n == Wrap16(n)) && (kind.I32? ==> n == Wrap32(n))
    case Fields(fields) => InRangeFields(fields)
    case Items(items) => InRangeItems(spec.elementKind, items)
    case Entries(entries) => InRangeEntries(spec.keyKind, spec.valueKind, entries)
    case _ => true
  }

  predicate InRangeField(f: Field)
    decreases f, 2
  {
    InRange(f.kind, f.value, f)
  }

  predicate InRangeFields(fields: seq<Field>)
    decreases fields, 0
  {
    fields != [] ==> InRangeField(fields[0]) && InRangeFields(fields[1..])
  }

  predicate InRangeItems(kind: Kind, items: seq<Value>)
    decreases items, 0
  {
    items != [] ==> InRange(kind, items[0], NO_SPEC) && InRangeItems(kind, items[1..])
  }

  predicate InRangeEntry(keyKind: Kind, valueKind: Kind, entry: Entry)
    decreases entry, 2
  {
    InRange(keyKind, entry.key, NO_SPEC) && InRange(valueKind, entry.item, NO_SPEC)
  }

  predicate InRangeEntries(keyKind: Kind, valueKind: Kind, entries: seq<Entry>)
    decreases entries, 0
  {
    entries != [] ==>
      InRangeEntry(keyKind, valueKind, entries[0]) && InRangeEntries(keyKind, valueKind, entries[1..])
  }

  lemma {:induction false} NormalsAgree(kind: Kind, value: Value, spec: Field)
    requires InRange(kind, value, spec) && BinaryRoundTrip.Sendable(kind, value, spec)
    ensures Widened(Normal(BinaryCodec, kind, value, spec), Normal(CompactCodec, kind, value, spec))
    decreases value, 1
  {
    hide Utf8Valid, NormalFields, NormalItems, NormalEntries, NormalInteger, DecodedBytes;
    if !kind.Bool? {
      match value {
        case Integer(n) =>
          IntegerAgrees(kind, n);
        case Text(text) =>
          BytesAgree(text);
        case Raw(raw) =>
          BytesAgree(raw);
        case Fields(fields) =>
          FieldsAgree(fields, map[], map[]);
        case Items(items) =>
          ItemsAgree(spec.elementKind, items);
        case Entries(entries) =>
          EntriesAgree(spec.keyKind, spec.valueKind, entries, map[], map[]);
        case _ =>
      }
    }
  }

  lemma IntegerAgrees(kind: Kind, n: i64)
    requires (kind.I16? ==> n == Wrap16(n)) && (kind.I32? ==> n == Wrap32(n))
    ensures Widened(NormalInteger(BinaryCodec, kind, n), NormalInteger(CompactCodec, kind, n))
  {
  }

  lemma BytesAgree(s: Octets)
    ensures Widened(DecodedBytes(s), DecodedBytes(s))
  {
    hide Utf8Valid;
  }

  lemma {:induction false} FieldsAgree(fields: seq<Field>, narrow: map<i16, Decoded>, wide: map<i16, Decoded>)
    requires InRangeFields(fields) && BinaryRoundTrip.SendableFields(fields)
    requires WidenedFields(narrow, wide)
    ensures WidenedFields(NormalFields(BinaryCodec, fields, narrow), NormalFields(CompactCodec, fields, wide))
    decreases fields, 0
  {
    hide InRangeField, BinaryRoundTrip.SendableField, NormalField;
    if fields != [] {
      var f := fields[0];
      FieldAgrees(f);
      FieldsAgree(fields[1..], narrow[f.id := NormalField(BinaryCodec, f)], wide[f.id := NormalField(CompactCodec, f)]);
    }
  }

  lemma {:induction false} FieldAgrees(f: Field)
    requires InRangeField(f) && BinaryRoundTrip.SendableField(f)
    ensures Widened(NormalField(BinaryCodec, f), NormalField(CompactCodec, f))
    decreases f, 2
  {
    NormalsAgree(f.kind, f.value, f);
  }

  lemma {:induction false} ItemsAgree(kind: Kind, items: seq<Value>)
    requires InRangeItems(kind, items) && BinaryRoundTrip.SendableItems(kind, items)
    ensures Widened(DList(NormalItems(BinaryCodec, kind, items)), DList(NormalItems(CompactCodec, kind, items)))
    decreases items, 0
  {
    hide InRange, BinaryRoundTrip.Sendable, Normal;
    if items != [] {
      NormalsAgree(kind, items[0], NO_SPEC);
      ItemsAgree(kind, items[1..]);
    }
  }

  /** All keys of one map come from one declared kind, which is why widening keeps them apart. */
  predicate OfKind(kind: Kind, key: Decoded) {
    (key.DInt16? ==> kind.I16?) && (key.DInt32? ==> kind.I32?) && (key.DInt64? ==> !kind.I16? && !kind.I32?)
  }

  lemma {:induction false} EntriesAgree(
      keyKind: Kind, valueKind: Kind, entries: seq<Entry>, narrow: map<Decoded, Decoded>, wide: map<Decoded, Decoded>)
    requires InRangeEntries(keyKind, valueKind, entries)
    requires BinaryRoundTrip.SendableEntries(keyKind, valueKind, entries)
    requires Widened(DMap(narrow), DMap(wide)) && forall k | k in narrow :: OfKind(keyKind, k)
    ensures Widened(DMap(NormalEntries(BinaryCodec, keyKind, valueKind, entries, narrow)),
                    DMap(NormalEntries(CompactCodec, keyKind, valueKind, entries, wide)))
    decreases entries, 0
  {
    hide InRangeEntry, BinaryRoundTrip.SendableEntry, NormalKey, NormalItem, OfKind, WidenKey;
    if entries != [] {
      var e := entries[0];
      EntryAgrees(keyKind, valueKind, e);
      var key, item := NormalKey(BinaryCodec, keyKind, e), NormalItem(BinaryCodec, valueKind, e);
      var wideKey, wideItem := NormalKey(CompactCodec, keyKind, e), NormalItem(CompactCodec, valueKind, e);
      Inserted(keyKind, narrow, wide, key, item, wideItem);
      EntriesAgree(keyKind, valueKind, entries[1..], narrow[key := item], wide[wideKey := wideItem]);
    }
  }

  lemma {:induction false} EntryAgrees(keyKind: Kind, valueKind: Kind, entry: Entry)
    requires InRangeEntry(keyKind, valueKind, entry) && BinaryRoundTrip.SendableEntry(keyKind, valueKind, entry)
    ensures OfKind(keyKind, NormalKey(BinaryCodec, keyKind, entry))
    ensures NormalKey(CompactCodec, keyKind, entry) == WidenKey(NormalKey(BinaryCodec, keyKind, entry))
    ensures Widened(NormalItem(BinaryCodec, valueKind, entry), NormalItem(CompactCodec, valueKind, entry))
    decreases entry, 2
  {
    hide Normal, Widened, InRange, BinaryRoundTrip.Sendable;
    KeyAgrees(keyKind, entry.key);
    NormalsAgree(valueKind, entry.item, NO_SPEC);
  }

  lemma KeyAgrees(kind: Kind, key: Value)
    requires InRange(kind, key, NO_SPEC) && BinaryRoundTrip.Sendable(kind, key, NO_SPEC)
    requires Hashable(Normal(BinaryCodec, kind, key, NO_SPEC))
    ensures OfKind(kind, Normal(BinaryCodec, kind, key, NO_SPEC))
    ensures Normal(CompactCodec, kind, key, NO_SPEC) == WidenKey(Normal(BinaryCodec, kind, key, NO_SPEC))
  {
    hide Utf8Valid, NormalFields, NormalItems, NormalEntries;
  }

  /** Storing an entry on both sides keeps the maps in step. */
  lemma Inserted(
      kind: Kind, narrow: map<Decoded, Decoded>, wide: map<Decoded, Decoded>, key: Decoded, item: Decoded,
      wideItem: Decoded)
    requires Widened(DMap(narrow), DMap(wide)) && Widened(item, wideItem)
    requires OfKind(kind, key) && forall k | k in narrow :: OfKind(kind, k)
    ensures Widened(DMap(narrow[key := item]), DMap(wide[WidenKey(key) := wideItem]))
  {
    var next, wideNext := narrow[key := item], wide[WidenKey(key) := wideItem];
    forall k | k in next && WidenKey(k) in wideNext ensures Widened(next[k], wideNext[WidenKey(k)]) {
      if k != key {
        assert k in narrow && OfKind(kind, k) && WidenKey(k) != WidenKey(key);
        assert WidenKey(k) in wide;
      }
    }
    assert wideNext.Keys == (set k | k in next.Keys :: WidenKey(k)) by {
      assert next.Keys == narrow.Keys + {key};
      assert wideNext.Keys == wide.Keys + {WidenKey(key)};
    }
  }

  /** In the normal forms of sendable values integers are the only place the codecs part ways: they
      agree on one exactly when it fits. */
  lemma IntegersAgreeIffInRange(kind: Kind, n: i64)
    ensures Widened(NormalInteger(BinaryCodec, kind, n), NormalInteger(CompactCodec, kind, n))
            <==> (kind.I16? ==> -0x8000 <= n < 0x8000) && (kind.I32? ==> -0x8000_0000 <= n < 0x8000_0000)
  {
  }

  /** For every call both codecs accept, the two decoded messages agree: same name and type, the
      same sequence up to the 32 bits binary keeps, and the binary fields widened are the compact
      ones. */
  lemma CallsAgree(name: Octets, fields: seq<Field>, sequence: u64, suffix: Octets)
    requires Compact.EncodeCall(name, fields, sequence).Some? && BinaryThrift.EncodeCall(name, fields, sequence).Some?
    requires CompactRoundTrip.SendableFields(fields) && BinaryRoundTrip.SendableFields(fields) && InRangeFields(fields)
    requires |name| <= BinaryThrift.MAX_BYTES
    ensures var compact := Compact.ParseMessage(Compact.EncodeCall(name, fields, sequence).value + suffix);
            var binary := BinaryThrift.ParseMessage(BinaryThrift.EncodeCall(name, fields, sequence).value + suffix);
            && compact.Ok? && binary.Ok?
            && compact.value.name == binary.value.name == name
            && compact.value.kind == binary.value.kind == 1
            && compact.value.sequence == sequence && binary.value.sequence == sequence % 0x1_0000_0000
            && WidenedFields(binary.value.fields, compact.value.fields)
  {
    hide Compact.EncodeCall, Compact.ParseMessage, BinaryThrift.EncodeCall, BinaryThrift.ParseMessage;
    hide CompactRoundTrip.SendableFields, BinaryRoundTrip.SendableFields, InRangeFields, NormalFields;
    CompactRoundTrip.CallRoundTrip(name, fields, sequence, suffix);
    BinaryRoundTrip.CallRoundTrip(name, fields, sequence, suffix);
    assert WidenedFields(map[], map[]);
    FieldsAgree(fields, map[], map[]);
  }
}
