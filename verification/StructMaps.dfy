/** Which single structs under a Bool key come back through the compact codec. Reading a value takes
    some bytes however it was written; a struct that wastes fewer than three cannot hold its own map a
    second time, so only the reading from one byte early is left. */
module StructMaps {
  import opened Options
  import opened Bytes
  import opened Thrift
  import opened Compact
  import opened CompactRoundTrip
  import opened BoolContainers
  import opened BoolMaps
  import MapOrder

  // ---- The fewest bytes a value can be read from

  function LeastScalar(v: Decoded): nat {
    match v
    case DInt8(_) => 1
    case DInt64(n) => |EncodeSigned(n)|
    case DDouble(_) => 8
    case DText(text) => |EncodeBytes(text)|
    case DRaw(raw) => |EncodeBytes(raw)|
    case _ => 0
  }

  ghost function Least(v: Decoded): nat
    decreases v, 2, 0
  {
    match v
    case DList(items) => 1 + (if |items| > 14 then |EncodeVarint(|items|)| else 0) + LeastItems(v, 0)
    case DMap(entries) => if entries == map[] then 1 else 2 + LeastEntries(v, entries.Keys)
    case DStruct(fields) => 1 + LeastFields(v, fields.Keys)
    case _ => LeastScalar(v)
  }

  ghost function LeastItems(v: Decoded, i: nat): nat
    requires v.DList? && i <= |v.items|
    decreases v, 1, |v.items| - i
  {
    if i == |v.items| then 0 else Least(v.items[i]) + LeastItems(v, i + 1)
  }

  /** Keys are scalars; a Bool takes no bytes. */
  ghost function LeastEntries(v: Decoded, keys: set<Decoded>): nat
    requires v.DMap? && keys <= v.entries.Keys
    decreases v, 1, |keys|
  {
    if keys == {} then 0
    else
      var k :| k in keys;
      LeastScalar(k) + Least(v.entries[k]) + LeastEntries(v, keys - {k})
  }

  /** A field takes at least its one-byte header. */
  ghost function LeastFields(v: Decoded, ids: set<i16>): nat
    requires v.DStruct? && ids <= v.fields.Keys
    decreases v, 1, |ids|
  {
    if ids == {} then 0
    else
      var id :| id in ids;
      1 + Least(v.fields[id]) + LeastFields(v, ids - {id})
  }

  lemma {:induction false} AnyField(v: Decoded, ids: set<i16>, id: i16)
    requires v.DStruct? && ids <= v.fields.Keys && id in ids
    ensures LeastFields(v, ids) == 1 + Least(v.fields[id]) + LeastFields(v, ids - {id})
    decreases |ids|
  {
    hide Least;
    var first :| first in ids && LeastFields(v, ids) == 1 + Least(v.fields[first]) + LeastFields(v, ids - {first});
    if first != id {
      AnyField(v, ids - {first}, id);
      AnyField(v, ids - {id}, first);
      assert ids - {first} - {id} == ids - {id} - {first};
    }
  }

  lemma {:induction false} FewerFields(v: Decoded, some: set<i16>, more: set<i16>)
    requires v.DStruct? && some <= more <= v.fields.Keys
    ensures LeastFields(v, some) <= LeastFields(v, more)
    decreases |more|
  {
    hide Least, LeastFields;
    if some != more {
      var id :| id in more && id !in some;
      AnyField(v, more, id);
      FewerFields(v, some, more - {id});
    }
  }

  lemma {:induction false} AnyEntry(v: Decoded, keys: set<Decoded>, k: Decoded)
    requires v.DMap? && keys <= v.entries.Keys && k in keys
    ensures LeastEntries(v, keys) == LeastScalar(k) + Least(v.entries[k]) + LeastEntries(v, keys - {k})
    decreases |keys|
  {
    hide Least, LeastScalar;
    var first :| first in keys && LeastEntries(v, keys)
      == LeastScalar(first) + Least(v.entries[first]) + LeastEntries(v, keys - {first});
    if first != k {
      AnyEntry(v, keys - {first}, k);
      AnyEntry(v, keys - {k}, first);
      assert keys - {first} - {k} == keys - {k} - {first};
    }
  }

  lemma {:induction false} FewerEntries(v: Decoded, some: set<Decoded>, more: set<Decoded>)
    requires v.DMap? && some <= more <= v.entries.Keys
    ensures LeastEntries(v, some) <= LeastEntries(v, more)
    decreases |more|
  {
    hide Least, LeastEntries, LeastScalar;
    if some != more {
      var k :| k in more && k !in some;
      AnyEntry(v, more, k);
      FewerEntries(v, some, more - {k});
    }
  }

  // ---- Varints are written as short as they can be

  lemma {:induction false} VarintFits(v: nat, k: nat)
    requires k > 0 && v < Pow128(k)
    ensures |EncodeVarint(v)| <= k
  {
    if v >= 0x80 {
      Quotient(v, Pow128(k - 1));
      assert k > 1;
      VarintFits(v / 0x80, k - 1);
    }
  }

  lemma Quotient(v: nat, p: nat)
    requires v < 0x80 * p
    ensures v / 0x80 < p
  {}

  lemma {:induction false} VarintReadIsLong(data: Octets, pos: nat, step: nat, acc: u64)
    requires pos <= |data| && acc < Pow128(step) && ParseVarintFrom(data, pos, step, acc).Ok?
    ensures var r := ParseVarintFrom(data, pos, step, acc); r.value < Pow128(step + r.pos - pos)
    decreases |data| - pos
  {
    hide Shifted;
    var b := data[pos];
    VarintStep(acc, b, step);
    var value := acc + Shifted(b % 0x80, step) % 0x1_0000_0000_0000_0000;
    if b >= 0x80 {
      VarintReadIsLong(data, pos + 1, step + 1, value);
    }
  }

  lemma VarintTakes(data: Octets, pos: nat)
    requires pos <= |data| && ParseVarint(data, pos).Ok?
    ensures |EncodeVarint(ParseVarint(data, pos).value)| <= ParseVarint(data, pos).pos - pos
  {
    hide ParseVarintFrom, EncodeVarint;
    VarintReadIsLong(data, pos, 0, 0);
    VarintFits(ParseVarint(data, pos).value, ParseVarint(data, pos).pos - pos);
  }

  // ---- Reading takes at least that

  lemma {:induction false} ValueTakes(data: Octets, pos: nat, ctype: byte)
    requires pos <= |data| && ParseValue(data, pos, ctype).Ok?
    ensures var r := ParseValue(data, pos, ctype); pos + Least(r.value) <= r.pos
    decreases |data| - pos, 1, 0
  {
    hide ParseFields, ParseList, ParseMap, ParseBytes, ParseSigned, Utf8Valid, LeastFields, LeastItems, LeastEntries;
    if ctype == INT16 || ctype == INT32 || ctype == INT64 {
      SignedTakes(data, pos);
    } else if ctype == BINARY {
      BytesTake(data, pos);
    } else if ctype == LIST || ctype == SET {
      ListTakes(data, pos);
    } else if ctype == MAP {
      MapTakes(data, pos);
    } else if ctype == STRUCT {
      var r := ParseFields(data, pos, 0, map[]);
      FieldsTake(data, pos, 0, map[], DStruct(r.value));
      assert Missing(r.value, map[]) == r.value.Keys;
    }
  }

  lemma SignedTakes(data: Octets, pos: nat)
    requires pos <= |data| && ParseSigned(data, pos).Ok?
    ensures pos + |EncodeSigned(ParseSigned(data, pos).value)| <= ParseSigned(data, pos).pos
  {
    hide ParseVarint, EncodeVarint;
    VarintTakes(data, pos);
  }

  lemma BytesTake(data: Octets, pos: nat)
    requires pos <= |data| && ParseBytes(data, pos).Ok?
    ensures pos + |EncodeBytes(ParseBytes(data, pos).value)| <= ParseBytes(data, pos).pos
  {
    hide ParseVarint, EncodeVarint;
    VarintTakes(data, pos);
  }

  /** What the fields still to be read must supply. */
  ghost function Missing(all: map<i16, Decoded>, acc: map<i16, Decoded>): set<i16> {
    set id | id in all && (id in acc ==> acc[id] != all[id])
  }

  lemma {:induction false} FieldsTake(
      data: Octets, pos: nat, previous: i16, acc: map<i16, Decoded>, v: Decoded)
    requires pos <= |data| && ParseFields(data, pos, previous, acc).Ok?
    requires v == DStruct(ParseFields(data, pos, previous, acc).value)
    ensures pos + 1 + LeastFields(v, Missing(v.fields, acc)) <= ParseFields(data, pos, previous, acc).pos
    decreases |data| - pos, 0, 0
  {
    hide ParseFields, ParseFieldID, ParseValue, Least, LeastFields;
    FieldsEnd(data, pos, previous, acc);
    if data[pos] == STOP {
      assert Missing(v.fields, acc) == {};
      NoFields(v);
    } else {
      FieldStep(data, pos, previous, acc);
      var id := ParseFieldID(data, pos + 1, previous, data[pos]);
      var value := ParseValue(data, id.pos, data[pos] % 16);
      var next := acc[id.value := value.value];
      ValueTakes(data, id.pos, data[pos] % 16);
      FieldsTake(data, value.pos, id.value, next, v);
      OneFieldSupplies(v, acc, id.value, value.value);
    }
  }

  lemma NoFields(v: Decoded)
    requires v.DStruct?
    ensures LeastFields(v, {}) == 0
  {}

  lemma OneFieldSupplies(v: Decoded, acc: map<i16, Decoded>, id: i16, value: Decoded)
    requires v.DStruct?
    ensures LeastFields(v, Missing(v.fields, acc))
         <= 1 + Least(value) + LeastFields(v, Missing(v.fields, acc[id := value]))
  {
    hide Least, LeastFields;
    var before, after := Missing(v.fields, acc), Missing(v.fields, acc[id := value]);
    if id in before && v.fields[id] == value {
      AnyField(v, before, id);
      FewerFields(v, before - {id}, after);
    } else {
      FewerFields(v, before, after);
    }
  }

  ghost function MissingKeys(all: map<Decoded, Decoded>, acc: map<Decoded, Decoded>): set<Decoded> {
    set k | k in all && (k in acc ==> acc[k] != all[k])
  }

  lemma {:induction false} EntriesTake(
      data: Octets, pos: nat, keyType: byte, valueType: byte, size: nat, acc: map<Decoded, Decoded>, v: Decoded)
    requires pos <= |data| && ParseEntries(data, pos, keyType, valueType, size, acc).Ok?
    requires v == DMap(ParseEntries(data, pos, keyType, valueType, size, acc).value)
    ensures pos + LeastEntries(v, MissingKeys(v.entries, acc))
         <= ParseEntries(data, pos, keyType, valueType, size, acc).pos
    decreases |data| - pos, 2, size
  {
    hide ParseEntries, ParseValue, Least, LeastEntries, LeastScalar;
    if size == 0 {
      NoEntries(data, pos, keyType, valueType, acc);
      assert MissingKeys(v.entries, acc) == {};
      NoKeys(v);
    } else {
      EntryStep(data, pos, keyType, valueType, size, acc);
      var key := ParseValue(data, pos, keyType);
      var value := ParseValue(data, key.pos, valueType);
      ValueTakes(data, pos, keyType);
      ValueTakes(data, key.pos, valueType);
      ScalarLeast(key.value);
      EntriesTake(data, value.pos, keyType, valueType, size - 1, acc[key.value := value.value], v);
      OneEntrySupplies(v, acc, key.value, value.value);
    }
  }

  lemma ScalarLeast(v: Decoded)
    ensures LeastScalar(v) <= Least(v)
  {
    hide LeastItems, LeastEntries, LeastFields;
  }

  lemma NoKeys(v: Decoded)
    requires v.DMap?
    ensures LeastEntries(v, {}) == 0
  {}

  lemma OneEntrySupplies(v: Decoded, acc: map<Decoded, Decoded>, k: Decoded, value: Decoded)
    requires v.DMap?
    ensures LeastEntries(v, MissingKeys(v.entries, acc))
         <= LeastScalar(k) + Least(value) + LeastEntries(v, MissingKeys(v.entries, acc[k := value]))
  {
    hide Least, LeastEntries, LeastScalar;
    var before, after := MissingKeys(v.entries, acc), MissingKeys(v.entries, acc[k := value]);
    if k in before && v.entries[k] == value {
      AnyEntry(v, before, k);
      FewerEntries(v, before - {k}, after);
    } else {
      FewerEntries(v, before, after);
    }
  }

  lemma {:induction false} ItemsTake(
      data: Octets, pos: nat, ctype: byte, size: nat, acc: seq<Decoded>, v: Decoded)
    requires pos <= |data| && ParseItems(data, pos, ctype, size, acc).Ok?
    requires v == DList(ParseItems(data, pos, ctype, size, acc).value)
    ensures acc <= v.items && |v.items| == |acc| + size
    ensures pos + LeastItems(v, |acc|) <= ParseItems(data, pos, ctype, size, acc).pos
    decreases |data| - pos, 2, size
  {
    hide ParseValue, Least;
    if size != 0 {
      var value := ParseValue(data, pos, ctype);
      ValueTakes(data, pos, ctype);
      ItemsTake(data, value.pos, ctype, size - 1, acc + [value.value], v);
      assert v.items[|acc|] == (acc + [value.value])[|acc|];
    }
  }

  lemma {:induction false} ListTakes(data: Octets, pos: nat)
    requires pos <= |data| && ParseList(data, pos).Ok?
    ensures pos + Least(DList(ParseList(data, pos).value)) <= ParseList(data, pos).pos
    decreases |data| - pos, 0, 0
  {
    hide ParseItems, ParseVarint, EncodeVarint, LeastItems;
    var size := ParseListSize(data, pos + 1, data[pos]);
    if data[pos] / 16 == 15 {
      VarintTakes(data, pos + 1);
    }
    ItemsTake(data, size.pos, data[pos] % 16, size.value, [], DList(ParseList(data, pos).value));
  }

  lemma {:induction false} MapTakes(data: Octets, pos: nat)
    requires pos <= |data| && ParseMap(data, pos).Ok?
    ensures pos + Least(DMap(ParseMap(data, pos).value)) <= ParseMap(data, pos).pos
    decreases |data| - pos, 0, 0
  {
    hide ParseEntries, ParseVarint, LeastEntries;
    var size := ParseVarint(data, pos);
    if size.value != 0 {
      var types, v := data[size.pos], DMap(ParseMap(data, pos).value);
      EntriesTake(data, size.pos + 1, types / 16, types % 16, size.value, map[], v);
      assert MissingKeys(v.entries, map[]) == v.entries.Keys;
    }
  }

  // ---- The theorem

  /** How many bytes of a struct's encoding are not needed to denote what it denotes: long headers,
      fields overwritten by later ones, Bools in containers. */
  ghost function Wasted(entry: Entry): int
    requires EncodeValue(Struct, entry.item, NO_SPEC).Some?
  {
    |EncodeValue(Struct, entry.item, NO_SPEC).value| - Least(NormalItem(CompactCodec, Struct, entry))
  }

  /** A single struct under a Bool key that wastes fewer than three bytes comes back if and only if its
      key is true and it reads the same, to the same end, from the key's byte on. */
  lemma FrugalStructComesBackIff(id: i16, entry: Entry)
    requires EncodeFields([MapField(id, Bool, Struct, [entry])], 0).Some?
    requires EncodeValue(Struct, entry.item, NO_SPEC).Some? && Wasted(entry) < 3
    ensures StructStart(id) < |StructBytes(id, Bool, Struct, [entry])|
    ensures ComesBack(id, Bool, Struct, [entry]) <==>
            entry.key == Boolean(true) && ReadsEarly(StructBytes(id, Bool, Struct, [entry]), StructStart(id), entry)
  {
    hide *;
    StructUnderBool(id, entry);
    var data, start := StructBytes(id, Bool, Struct, [entry]), StructStart(id);
    var sent := Sent(Bool, Struct, [entry]);
    if q :| ReadFrom(data, start, q, sent) {
      LaterReadTakes(data, start, q, sent);
      OneSent(Bool, Struct, entry);
      LeastSingle(NormalKey(CompactCodec, Bool, entry), NormalItem(CompactCodec, Struct, entry));
      StructLength(id, entry);
      WastedMeans(entry);
      assert false;
    }
  }

  lemma LaterReadTakes(data: Octets, start: nat, q: nat, sent: map<Decoded, Decoded>)
    requires ReadFrom(data, start, q, sent)
    ensures start + 2 + Least(DMap(sent)) < |data|
  {
    hide ParseMap, Least;
    MapTakes(data, q);
  }

  lemma LeastSingle(k: Decoded, v: Decoded)
    ensures Least(DMap(map[k := v])) >= 2 + Least(v)
  {
    var m := DMap(map[k := v]);
    assert k in m.entries && m.entries.Keys == {k};
    AnyEntry(m, {k}, k);
    assert m.entries != map[];
  }

  lemma WastedMeans(entry: Entry)
    requires EncodeValue(Struct, entry.item, NO_SPEC).Some?
    ensures Wasted(entry)
         == |EncodeValue(Struct, entry.item, NO_SPEC).value| - Least(NormalItem(CompactCodec, Struct, entry))
  {
    hide EncodeValue, Least, NormalItem;
  }

  /** After the headers stand the key's byte, the struct and one STOP byte. */
  lemma StructLength(id: i16, entry: Entry)
    requires EncodeFields([MapField(id, Bool, Struct, [entry])], 0).Some?
    requires EncodeValue(Struct, entry.item, NO_SPEC).Some?
    ensures |StructBytes(id, Bool, Struct, [entry])|
         == StructStart(id) + 1 + |EncodeValue(Struct, entry.item, NO_SPEC).value| + 1
  {
    assert |[entry]| == 1 < MAX_LENGTH;
    StartOfStruct(id, entry);
    hide EncodeFields, StructBytes, StructStart, Start, At, MapField, EncodeEntries, EncodeValue;
    BodyAt(id, Bool, Struct, [entry]);
    OneEntryBytes(Bool, Struct, entry);
    KeyTakesOneByte(entry.key);
  }

  lemma KeyTakesOneByte(key: Value)
    requires EncodeValue(Bool, key, NO_SPEC).Some?
    ensures |EncodeValue(Bool, key, NO_SPEC).value| == 1
  {
    BoolByte(key);
  }

  // ---- Structs that waste nothing

  /** Fields under IDs that rise by at most 15, of values that waste nothing themselves. */
  ghost predicate Tidy(fields: seq<Field>, previous: i16)
    decreases fields, 0
  {
    fields != [] ==>
      0 < fields[0].id - previous <= 15 && TidyField(fields[0]) && Tidy(fields[1..], fields[0].id)
  }

  ghost predicate TidyField(f: Field)
    decreases f, 2
  {
    f.kind.Bool? || TidyValue(f.kind, f.value, f)
  }

  /** Scalars, tidy structs, and containers of such without Bools, maps with distinct keys and fewer
      than 128 of them. */
  ghost predicate TidyValue(kind: Kind, value: Value, spec: Field)
    decreases value, 1
  {
    match value
    case Fields(fields) => kind.Struct? && Tidy(fields, 0)
    case Items(items) => items != [] ==> !spec.elementKind.Bool? && TidyItems(spec.elementKind, items)
    case Entries(entries) => entries != [] ==>
      && |entries| < 128 && ScalarKind(spec.keyKind) && !spec.valueKind.Bool?
      && MapOrder.DistinctKeys(CompactCodec, spec.keyKind, entries) && TidyEntries(spec.valueKind, entries)
    case _ => ScalarKind(kind)
  }

  ghost predicate TidyItems(kind: Kind, items: seq<Value>)
    decreases items, 0
  {
    items != [] ==> TidyValue(kind, items[0], NO_SPEC) && TidyItems(kind, items[1..])
  }

  ghost predicate TidyEntry(valueKind: Kind, entry: Entry)
    decreases entry, 2
  {
    TidyValue(valueKind, entry.item, NO_SPEC)
  }

  ghost predicate TidyEntries(valueKind: Kind, entries: seq<Entry>)
    decreases entries, 0
  {
    entries != [] ==> TidyEntry(valueKind, entries[0]) && TidyEntries(valueKind, entries[1..])
  }

  lemma ScalarLength(kind: Kind, value: Value, spec: Field)
    requires ScalarKind(kind) && EncodeValue(kind, value, spec).Some?
    ensures var v := Normal(CompactCodec, kind, value, spec);
            |EncodeValue(kind, value, spec).value| == Least(v) == LeastScalar(v)
  {
    hide EncodeVarint, Utf8Valid, LittleEndian, EncodeList, EncodeMap, EncodeFields;
  }

  lemma {:induction false} ValueLength(kind: Kind, value: Value, spec: Field)
    requires TidyValue(kind, value, spec) && !kind.Bool? && EncodeValue(kind, value, spec).Some?
    ensures |EncodeValue(kind, value, spec).value| == Least(Normal(CompactCodec, kind, value, spec))
    decreases value, 1
  {
    hide EncodeVarint, Utf8Valid, LittleEndian, EncodeList, EncodeMap, EncodeFields, LeastItems, LeastEntries;
    hide LeastFields, NormalFields, NormalItems, NormalEntries;
    match value {
      case Fields(fields) =>
        var none: map<i16, Decoded> := map[];
        var v := DStruct(NormalFields(CompactCodec, fields, none));
        FieldsLength(fields, 0, none);
        assert v.fields.Keys - none.Keys == v.fields.Keys;
      case Items(items) =>
        ListLength(spec.elementKind, items);
      case Entries(entries) =>
        MapLength(spec.keyKind, spec.valueKind, entries);
      case _ =>
        ScalarLength(kind, value, spec);
    }
  }

  lemma {:induction false} FieldLength(f: Field, previous: i16)
    requires 0 < f.id - previous <= 15 && TidyField(f) && EncodeField(previous, f).Some?
    ensures |EncodeField(previous, f).value| == 1 + Least(NormalField(CompactCodec, f))
    decreases f, 2
  {
    hide EncodeValue, NormalFields, NormalItems, NormalEntries, Utf8Valid, TidyValue;
    assert |FieldHeader(previous, f.id, FieldType(f).value)| == 1;
    if !f.kind.Bool? {
      hide Normal, Least;
      ValueLength(f.kind, f.value, f);
    }
  }

  lemma {:induction false} FieldsLength(fields: seq<Field>, previous: i16, acc: map<i16, Decoded>)
    requires Tidy(fields, previous) && EncodeFields(fields, previous).Some? && forall k | k in acc :: k <= previous
    ensures var v := DStruct(NormalFields(CompactCodec, fields, acc));
            && (forall k | k in acc :: k in v.fields && v.fields[k] == acc[k])
            && |EncodeFields(fields, previous).value| == 1 + LeastFields(v, v.fields.Keys - acc.Keys)
    decreases fields, 0
  {
    hide EncodeField, NormalField, TidyField, Least, LeastFields;
    var v := DStruct(NormalFields(CompactCodec, fields, acc));
    if fields == [] {
      assert v.fields.Keys - acc.Keys == {};
      NoFields(v);
    } else {
      var f := fields[0];
      var next := acc[f.id := NormalField(CompactCodec, f)];
      FieldLength(f, previous);
      FieldsLength(fields[1..], f.id, next);
      AnyField(v, v.fields.Keys - acc.Keys, f.id);
      assert v.fields.Keys - acc.Keys - {f.id} == v.fields.Keys - next.Keys;
    }
  }

  lemma {:induction false} ItemsLength(kind: Kind, items: seq<Value>, v: Decoded, i: nat)
    requires TidyItems(kind, items) && !kind.Bool? && EncodeItems(kind, items).Some?
    requires v.DList? && i + |items| == |v.items| && v.items[i..] == NormalItems(CompactCodec, kind, items)
    ensures |EncodeItems(kind, items).value| == LeastItems(v, i)
    decreases items, 0
  {
    hide EncodeValue, Normal, Least, TidyValue;
    if items != [] {
      ValueLength(kind, items[0], NO_SPEC);
      assert v.items[i] == v.items[i..][0] && v.items[i + 1..] == v.items[i..][1..];
      ItemsLength(kind, items[1..], v, i + 1);
    }
  }

  lemma {:induction false} ListLength(kind: Kind, items: seq<Value>)
    requires EncodeList(kind, items).Some? && (items != [] ==> !kind.Bool? && TidyItems(kind, items))
    ensures |EncodeList(kind, items).value| == Least(DList(NormalItems(CompactCodec, kind, items)))
    decreases items, 1
  {
    hide EncodeItems, EncodeVarint, NormalItems, LeastItems, TidyItems;
    var v := DList(NormalItems(CompactCodec, kind, items));
    if items == [] {
      NoItems(kind, v);
    } else {
      assert v.items[0..] == v.items;
      ItemsLength(kind, items, v, 0);
    }
  }

  lemma NoItems(kind: Kind, v: Decoded)
    requires v == DList([])
    ensures LeastItems(v, 0) == 0 && EncodeItems(kind, []) == Some([])
  {}

  lemma {:induction false} EntryLength(keyKind: Kind, valueKind: Kind, entry: Entry)
    requires ScalarKind(keyKind) && !valueKind.Bool? && TidyEntry(valueKind, entry)
    requires EncodeEntry(keyKind, valueKind, entry).Some?
    ensures |EncodeEntry(keyKind, valueKind, entry).value|
         == LeastScalar(NormalKey(CompactCodec, keyKind, entry)) + Least(NormalItem(CompactCodec, valueKind, entry))
    decreases entry, 2
  {
    hide EncodeValue, Normal, Least, LeastScalar, TidyValue;
    ScalarLength(keyKind, entry.key, NO_SPEC);
    ValueLength(valueKind, entry.item, NO_SPEC);
  }

  lemma {:induction false} EntriesLength(
      keyKind: Kind, valueKind: Kind, entries: seq<Entry>, acc: map<Decoded, Decoded>)
    requires ScalarKind(keyKind) && !valueKind.Bool? && TidyEntries(valueKind, entries)
    requires MapOrder.DistinctKeys(CompactCodec, keyKind, entries) && EncodeEntries(keyKind, valueKind, entries).Some?
    requires forall i | 0 <= i < |entries| :: NormalKey(CompactCodec, keyKind, entries[i]) !in acc
    ensures var v := DMap(NormalEntries(CompactCodec, keyKind, valueKind, entries, acc));
            && (forall k | k in acc :: k in v.entries && v.entries[k] == acc[k])
            && |EncodeEntries(keyKind, valueKind, entries).value| == LeastEntries(v, v.entries.Keys - acc.Keys)
    decreases entries, 0
  {
    hide EncodeEntry, NormalKey, NormalItem, TidyEntry, Least, LeastEntries, LeastScalar;
    var v := DMap(NormalEntries(CompactCodec, keyKind, valueKind, entries, acc));
    if entries == [] {
      assert v.entries.Keys - acc.Keys == {};
      NoKeys(v);
    } else {
      var e, rest := entries[0], entries[1..];
      var k := NormalKey(CompactCodec, keyKind, e);
      var next := acc[k := NormalItem(CompactCodec, valueKind, e)];
      EntryLength(keyKind, valueKind, e);
      assert forall i | 0 <= i < |rest| :: rest[i] == entries[i + 1];
      EntriesLength(keyKind, valueKind, rest, next);
      AnyEntry(v, v.entries.Keys - acc.Keys, k);
      assert v.entries.Keys - acc.Keys - {k} == v.entries.Keys - next.Keys;
    }
  }

  lemma {:induction false} MapLength(keyKind: Kind, valueKind: Kind, entries: seq<Entry>)
    requires EncodeMap(keyKind, valueKind, entries).Some?
    requires entries != [] ==>
      && |entries| < 128 && ScalarKind(keyKind) && !valueKind.Bool?
      && MapOrder.DistinctKeys(CompactCodec, keyKind, entries) && TidyEntries(valueKind, entries)
    ensures |EncodeMap(keyKind, valueKind, entries).value|
         == Least(DMap(NormalEntries(CompactCodec, keyKind, valueKind, entries, map[])))
    decreases entries, 1
  {
    hide EncodeEntries, LeastEntries, TidyEntries, NormalKey, NormalItem, MapOrder.DistinctKeys;
    var v := DMap(NormalEntries(CompactCodec, keyKind, valueKind, entries, map[]));
    if entries != [] {
      hide NormalEntries;
      var none: map<Decoded, Decoded> := map[];
      EntriesLength(keyKind, valueKind, entries, none);
      assert v.entries.Keys - none.Keys == v.entries.Keys;
      MapOrder.EntryFound(CompactCodec, keyKind, valueKind, entries, none, 0) by {
        DistinctIsConsistent(keyKind, valueKind, entries);
      }
      assert v.entries != map[];
    }
  }

  lemma DistinctIsConsistent(keyKind: Kind, valueKind: Kind, entries: seq<Entry>)
    requires MapOrder.DistinctKeys(CompactCodec, keyKind, entries)
    ensures MapOrder.Consistent(CompactCodec, keyKind, valueKind, entries)
  {
    hide NormalKey, NormalItem;
  }

  lemma TidyWastesNothing(entry: Entry)
    requires entry.item.Fields? && Tidy(entry.item.fields, 0) && EncodeValue(Struct, entry.item, NO_SPEC).Some?
    ensures Wasted(entry) == 0
  {
    ItemIsNormal(Struct, entry);
    hide EncodeValue, Least, Normal, NormalItem, Tidy;
    ValueLength(Struct, entry.item, NO_SPEC);
  }

  // ---- Tidy structs never come back

  /** Fields once read stay. */
  lemma {:induction false} IDsPersist(data: Octets, pos: nat, previous: i16, acc: map<i16, Decoded>)
    requires pos <= |data| && ParseFields(data, pos, previous, acc).Ok?
    ensures acc.Keys <= ParseFields(data, pos, previous, acc).value.Keys
    decreases |data| - pos
  {
    hide ParseFields, ParseFieldID, ParseValue;
    FieldsEnd(data, pos, previous, acc);
    if data[pos] != STOP {
      FieldStep(data, pos, previous, acc);
      var id := ParseFieldID(data, pos + 1, previous, data[pos]);
      var value := ParseValue(data, id.pos, data[pos] % 16);
      IDsPersist(data, value.pos, id.value, acc[id.value := value.value]);
    }
  }

  lemma FieldIDRead(data: Octets, pos: nat, previous: i16)
    requires pos < |data| && ParseFieldID(data, pos + 1, previous, data[pos]).Ok?
    ensures var id := ParseFieldID(data, pos + 1, previous, data[pos]);
            if data[pos] / 16 == 0 then id.pos >= pos + 2
            else 0 < data[pos] / 16 <= 15 && id.value == Wrap16(previous + data[pos] / 16)
  {
    hide ParseSigned;
  }

  /** Short headers only lead upwards: a field with a lower ID than the one read last takes a long one. */
  lemma {:induction false} GoingBackTakes(
      data: Octets, pos: nat, previous: i16, acc: map<i16, Decoded>, v: Decoded, low: i16)
    requires pos <= |data| && ParseFields(data, pos, previous, acc).Ok?
    requires v == DStruct(ParseFields(data, pos, previous, acc).value) && forall id | id in v.fields :: id > 0
    requires low in Missing(v.fields, acc) && low <= previous
    ensures pos + 2 + LeastFields(v, Missing(v.fields, acc)) <= ParseFields(data, pos, previous, acc).pos
    decreases |data| - pos
  {
    hide ParseFields, ParseFieldID, ParseValue, Least, LeastFields;
    FieldsEnd(data, pos, previous, acc);
    assert data[pos] != STOP;
    FieldStep(data, pos, previous, acc);
    var id := ParseFieldID(data, pos + 1, previous, data[pos]);
    var value := ParseValue(data, id.pos, data[pos] % 16);
    var next := acc[id.value := value.value];
    FieldIDRead(data, pos, previous);
    ValueTakes(data, id.pos, data[pos] % 16);
    OneFieldSupplies(v, acc, id.value, value.value);
    if data[pos] / 16 == 0 {
      FieldsTake(data, value.pos, id.value, next, v);
    } else {
      IDsPersist(data, value.pos, id.value, next);
      assert id.value in v.fields;
      GoingBackTakes(data, value.pos, id.value, next, v, low);
    }
  }

  lemma {:induction false} LowGroupStays(data: Octets, pos: nat, step: nat, acc: u64)
    requires pos <= |data| && step > 0 && acc < Pow128(step) && ParseVarintFrom(data, pos, step, acc).Ok?
    ensures ParseVarintFrom(data, pos, step, acc).value % 0x80 == acc % 0x80
    decreases |data| - pos
  {
    var b := data[pos];
    VarintStep(acc, b, step);
    var value := acc + Shifted(b % 0x80, step) % 0x1_0000_0000_0000_0000;
    HigherGroup(acc, b % 0x80, step);
    hide Shifted;
    if b >= 0x80 {
      LowGroupStays(data, pos + 1, step + 1, value);
    }
  }

  lemma HigherGroup(acc: nat, group: nat, step: nat)
    requires step > 0
    ensures (acc + Shifted(group, step) % 0x1_0000_0000_0000_0000) % 0x80 == acc % 0x80
  {
    ShiftedMultiple(group, step);
    hide *;
    var q := WordMultiple(group * Pow128(step - 1));
    MultipleAdded(acc, q);
  }

  lemma ShiftedMultiple(group: nat, step: nat)
    requires step > 0
    ensures Shifted(group, step) == 0x80 * (group * Pow128(step - 1))
  {
    var p := Pow128(step - 1);
    assert Pow128(step) == 0x80 * p;
    hide Pow128;
    Regroup(group, p);
  }

  lemma Regroup(a: nat, b: nat)
    ensures a * (0x80 * b) == 0x80 * (a * b)
  {}

  lemma WordMultiple(p: nat) returns (q: int)
    ensures 0x80 * p % 0x1_0000_0000_0000_0000 == 0x80 * q
  {
    q := p - 0x80 * p / 0x1_0000_0000_0000_0000 * 0x200_0000_0000_0000;
  }

  lemma MultipleAdded(acc: int, q: int)
    ensures (acc + 0x80 * q) % 0x80 == acc % 0x80
  {}

  lemma VarintLow(data: Octets, pos: nat)
    requires pos <= |data| && ParseVarint(data, pos).Ok?
    ensures pos < |data|
    ensures var u := ParseVarint(data, pos).value;
            u % 0x80 == data[pos] % 0x80 && (data[pos] < 0x80 ==> u == data[pos])
  {
    assert Pow128(0) == 1;
    VarintStep(0, data[pos], 0);
    assert Shifted(data[pos] % 0x80, 0) == data[pos] % 0x80;
    if data[pos] >= 0x80 {
      LowGroupStays(data, pos + 1, 1, data[pos] % 0x80);
    }
  }

  /** The first field's header, read as an ID, is not that field's ID. */
  lemma NotItself(u: u64, d: int)
    requires 1 <= d <= 15 && u % 0x80 == (16 * d + TRUE) % 0x80 && (d <= 7 ==> u == 16 * d + TRUE)
    ensures Wrap16(UnZigZag(u)) != d
  {
    if d > 7 {
      var y := u / 0x80;
      var c := 16 * (d - 8) + 1;
      assert u == 0x80 * y + c;
      assert UnZigZag(u) == -64 * y - 8 * (d - 8) - 1;
      WrapLow(UnZigZag(u));
      LowBits(y, d);
    }
  }

  lemma WrapLow(n: int)
    requires -0x8000_0000_0000_0000 <= n < 0x8000_0000_0000_0000
    ensures Wrap16(n) % 64 == n % 64
  {}

  lemma LowBits(y: int, d: int)
    requires 8 <= d <= 15
    ensures (-64 * y - 8 * (d - 8) - 1) % 64 != d % 64
  {
    assert (-64 * y - 8 * (d - 8) - 1) % 64 == (-8 * (d - 8) - 1) % 64;
    assert d == 8 || d == 9 || d == 10 || d == 11 || d == 12 || d == 13 || d == 14 || d == 15;
  }

  /** What the reader makes of a true key taken for a header. */
  lemma KeyAsHeader(data: Octets, start: nat)
    requires start < |data| && data[start] == TRUE && ParseFieldID(data, start + 1, 0, TRUE).Ok?
    ensures ParseVarint(data, start + 1).Ok?
    ensures var id := ParseFieldID(data, start + 1, 0, TRUE);
            id.value == Wrap16(UnZigZag(ParseVarint(data, start + 1).value)) && id.pos >= start + 2
  {
    hide ParseVarint;
  }

  lemma TrueTakesNothing(data: Octets, pos: nat)
    requires pos <= |data|
    ensures ParseValue(data, pos, TRUE) == Ok(DBool(true), pos)
  {}

  /** Taking the key's byte for a header, the reader needs a byte more than the struct has left. */
  lemma EarlyTakesMore(data: Octets, start: nat, v: Decoded, d: i16)
    requires start + 1 < |data| && data[start] == TRUE && ParseFields(data, start, 0, map[]).Ok?
    requires v == DStruct(ParseFields(data, start, 0, map[]).value)
    requires d in v.fields && 0 < d <= 15 && forall id | id in v.fields :: d <= id
    requires v.fields[d] == DBool(true) ==> data[start + 1] == 16 * d + TRUE
    ensures start + 2 + Least(v) <= ParseFields(data, start, 0, map[]).pos
  {
    hide ParseFields, ParseFieldID, ParseVarint, ParseValue, Least, LeastFields;
    var none: map<i16, Decoded> := map[];
    FieldStep(data, start, 0, none);
    KeyAsHeader(data, start);
    var id := ParseFieldID(data, start + 1, 0, TRUE);
    TrueTakesNothing(data, id.pos);
    var next := none[id.value := DBool(true)];
    IDsPersist(data, id.pos, id.value, next);
    assert id.value in v.fields;
    assert Missing(v.fields, none) == v.fields.Keys;
    LeastTrue();
    LeastStruct(v);
    if id.value == d {
      if v.fields[d] == DBool(true) {
        VarintLow(data, start + 1);
        NotItself(ParseVarint(data, start + 1).value, d);
      } else {
        FieldsTake(data, id.pos, id.value, next, v);
        assert Missing(v.fields, next) == v.fields.Keys;
      }
    } else {
      assert d in Missing(v.fields, next);
      GoingBackTakes(data, id.pos, id.value, next, v, d);
      OneFieldSupplies(v, none, id.value, DBool(true));
    }
  }

  lemma LeastTrue()
    ensures Least(DBool(true)) == 0
  {}

  lemma LeastStruct(v: Decoded)
    requires v.DStruct?
    ensures Least(v) == 1 + LeastFields(v, v.fields.Keys)
  {
    hide LeastFields;
  }

  lemma {:induction false} TidyKeys(fields: seq<Field>, previous: i16, acc: map<i16, Decoded>)
    requires Tidy(fields, previous)
    ensures forall id | id in NormalFields(CompactCodec, fields, acc) :: id in acc || id > previous
    decreases fields
  {
    hide NormalField, TidyField;
    if fields != [] {
      TidyKeys(fields[1..], fields[0].id, acc[fields[0].id := NormalField(CompactCodec, fields[0])]);
    }
  }

  /** The first field of a tidy struct: its ID is the lowest, and a true one shows in its header. */
  lemma FirstField(fields: seq<Field>)
    requires fields != [] && Tidy(fields, 0) && EncodeFields(fields, 0).Some?
    ensures var m, f := NormalFields(CompactCodec, fields, map[]), fields[0];
            && 0 < f.id <= 15 && f.id in m && (forall id | id in m :: f.id <= id)
            && EncodeFields(fields, 0).value != []
            && (m[f.id] == DBool(true) ==> EncodeFields(fields, 0).value[0] == 16 * f.id + TRUE)
  {
    hide EncodeField, NormalField, TidyField, Least, LeastFields;
    var f, none := fields[0], map[];
    var next: map<i16, Decoded> := none[f.id := NormalField(CompactCodec, f)];
    FieldsLength(fields[1..], f.id, next);
    TidyKeys(fields[1..], f.id, next);
    FirstHeader(f);
    SomeBytes(fields);
  }

  lemma FirstHeader(f: Field)
    requires 0 < f.id <= 15 && TidyField(f) && EncodeField(0, f).Some?
    ensures EncodeField(0, f).value != []
    ensures NormalField(CompactCodec, f) == DBool(true) ==> EncodeField(0, f).value[0] == 16 * f.id + TRUE
  {
    var header := [f.id * 16 + FieldType(f).value];
    assert FieldHeader(0, f.id, FieldType(f).value) == header;
    hide FieldHeader;
    if f.kind.Bool? {
      assert header + [] == header;
      if NormalField(CompactCodec, f) == DBool(true) {
        TrueHeader(f);
      }
    } else {
      NotTrue(f);
    }
  }

  lemma TrueHeader(f: Field)
    requires f.kind.Bool? && NormalField(CompactCodec, f) == DBool(true)
    ensures FieldType(f) == Some(TRUE)
  {}

  lemma NotTrue(f: Field)
    requires !f.kind.Bool? && EncodeValue(f.kind, f.value, f).Some?
    ensures NormalField(CompactCodec, f) != DBool(true)
  {
    hide NormalFields, NormalItems, NormalEntries, EncodeFields, EncodeList, EncodeMap, Utf8Valid;
  }

  /** No struct that wastes nothing comes back under a Bool key, whatever its fields hold. */
  lemma TidyStructNeverComesBack(id: i16, entry: Entry)
    requires EncodeFields([MapField(id, Bool, Struct, [entry])], 0).Some?
    requires entry.item.Fields? && Tidy(entry.item.fields, 0)
    ensures !ComesBack(id, Bool, Struct, [entry])
  {
    assert |[entry]| == 1 < MAX_LENGTH;
    StructInside(id, entry);
    StartOfStruct(id, entry);
    hide *;
    FrugalStructComesBackIff(id, entry) by { TidyWastesNothing(entry); }
    var data, start := StructBytes(id, Bool, Struct, [entry]), StructStart(id);
    if entry.key == Boolean(true) && ReadsEarly(data, start, entry) {
      if entry.item.fields == [] {
        assert entry == UNLUCKY by { OnlyEmpty(entry); }
        EmptyStructUnderTrue(id);
      } else {
        EarlyImpossible(id, entry);
      }
    }
  }

  lemma OnlyEmpty(entry: Entry)
    requires entry.key == Boolean(true) && entry.item.Fields? && entry.item.fields == []
    ensures entry == UNLUCKY
  {}

  lemma StructInside(id: i16, entry: Entry)
    requires EncodeFields([MapField(id, Bool, Struct, [entry])], 0).Some?
    ensures EncodeValue(Struct, entry.item, NO_SPEC).Some?
  {
    assert |[entry]| == 1 < MAX_LENGTH;
    assert TypeOf(Bool) == Some(TRUE) && TypeOf(Struct) == Some(STRUCT);
    hide *;
    BodyAt(id, Bool, Struct, [entry]);
    OneEntryBytes(Bool, Struct, entry);
  }

  lemma EarlyImpossible(id: i16, entry: Entry)
    requires EncodeFields([MapField(id, Bool, Struct, [entry])], 0).Some? && entry.key == Boolean(true)
    requires entry.item.Fields? && entry.item.fields != [] && Tidy(entry.item.fields, 0)
    requires StructStart(id) < |StructBytes(id, Bool, Struct, [entry])|
    ensures !ReadsEarly(StructBytes(id, Bool, Struct, [entry]), StructStart(id), entry)
  {
    StructInside(id, entry);
    StructLength(id, entry);
    TidyWastesNothing(entry);
    StructBytesBegin(id, entry);
    EarlyParses(id, entry);
    ItemIsNormal(Struct, entry);
    FirstField(entry.item.fields);
    hide Least, Tidy, StructBytes, StructStart, EncodeFields, NormalFields, ParseFields;
    var data, start := StructBytes(id, Bool, Struct, [entry]), StructStart(id);
    if ReadsEarly(data, start, entry) {
      EarlyTakesMore(data, start, NormalItem(CompactCodec, Struct, entry), entry.item.fields[0].id);
    }
  }

  /** The key's byte and the first of the struct's. */
  lemma StructBytesBegin(id: i16, entry: Entry)
    requires EncodeFields([MapField(id, Bool, Struct, [entry])], 0).Some? && entry.key == Boolean(true)
    requires entry.item.Fields? && EncodeFields(entry.item.fields, 0).Some?
    ensures var data, start := StructBytes(id, Bool, Struct, [entry]), StructStart(id);
            && start + 1 < |data| && data[start] == TRUE
            && EncodeFields(entry.item.fields, 0).value != []
            && data[start + 1] == EncodeFields(entry.item.fields, 0).value[0]
  {
    assert |[entry]| == 1 < MAX_LENGTH;
    StartOfStruct(id, entry);
    OneStructEncoded(id, entry);
    hide StructBytes, StructStart, Start, EncodeFields, EncodeEntries, MapField;
    BodyAt(id, Bool, Struct, [entry]);
    var data, start := StructBytes(id, Bool, Struct, [entry]), StructStart(id);
    SomeBytes(entry.item.fields);
    AtByte(data, start, TRUE, EncodeFields(entry.item.fields, 0).value);
    var s := EncodeFields(entry.item.fields, 0).value;
    assert s == [s[0]] + s[1..];
    AtByte(data, start + 1, s[0], s[1..]);
  }

  lemma SomeBytes(fields: seq<Field>)
    requires EncodeFields(fields, 0).Some?
    ensures EncodeFields(fields, 0).value != []
  {
    hide EncodeField, FieldHeader;
    if fields != [] {
      HeaderBytes(fields[0]);
    }
  }

  lemma HeaderBytes(f: Field)
    requires EncodeField(0, f).Some?
    ensures EncodeField(0, f).value != []
  {
    hide EncodeValue;
  }

  lemma EarlyParses(id: i16, entry: Entry)
    requires EncodeFields([MapField(id, Bool, Struct, [entry])], 0).Some? && entry.item.Fields?
    requires StructStart(id) < |StructBytes(id, Bool, Struct, [entry])|
    ensures var data, start := StructBytes(id, Bool, Struct, [entry]), StructStart(id);
            ReadsEarly(data, start, entry) ==>
              ParseFields(data, start, 0, map[])
                == Ok(NormalFields(CompactCodec, entry.item.fields, map[]), |data| - 1)
  {
    ItemIsNormal(Struct, entry);
    hide StructBytes, StructStart, NormalFields, ParseFields, EncodeFields;
  }

  // ---- A wasteful struct that comes back another way

  /** Eight bytes that, read one byte out of step, end a struct and announce the map again. */
  const ECHO: Octets := [0x00, 0x01, 0x41, 0x00, 0x0B, 0x02, 0x01, 0x1C]

  /** They are overwritten at once: all that is sent is field 5, true. */
  const ECHOING: Entry :=
    Entry(Boolean(true), Fields([Field(5, Binary, Raw(ECHO), Bool, Bool, Bool), BoolField(5, true)]))

  const ECHOED: Octets :=
    [0x58, 0x08, 0x00, 0x01, 0x41, 0x00, 0x0B, 0x02, 0x01, 0x1C, 0x01, 0x0A, STOP]

  lemma EchoingStruct()
    ensures EncodeFields(ECHOING.item.fields, 0) == Some(ECHOED)
    ensures NormalItem(CompactCodec, Struct, ECHOING) == DStruct(map[5 := DBool(true)])
  {
    var junk, five := Field(5, Binary, Raw(ECHO), Bool, Bool, Bool), BoolField(5, true);
    JunkEncoded(junk);
    FiveEncoded(five);
    EchoNormal(junk, five);
    ItemIsNormal(Struct, ECHOING);
    EchoedBytes();
    hide EncodeFields, EncodeField, NormalFields, NormalItem;
    TwoEncoded(junk, five);
  }

  lemma EchoedBytes()
    ensures [0x58, 0x08] + ECHO + ([0x01, 0x0A] + [STOP]) == ECHOED
  {}

  lemma TwoEncoded(one: Field, other: Field)
    requires EncodeField(0, one).Some? && EncodeField(one.id, other).Some?
    ensures EncodeFields([one, other], 0)
         == Some(EncodeField(0, one).value + (EncodeField(one.id, other).value + [STOP]))
  {
    hide EncodeField;
    assert [one, other][1..] == [other] && [other][1..] == [];
    assert EncodeFields([], other.id) == Some([STOP]);
    assert EncodeFields([other], one.id) == Some(EncodeField(one.id, other).value + [STOP]);
  }

  lemma JunkEncoded(junk: Field)
    requires junk == Field(5, Binary, Raw(ECHO), Bool, Bool, Bool)
    ensures EncodeField(0, junk) == Some([0x58, 0x08] + ECHO)
  {
    assert FieldHeader(0, 5, BINARY) == [0x58];
    assert EncodeValue(Binary, Raw(ECHO), junk) == Some([0x08] + ECHO);
    assert [0x58] + ([0x08] + ECHO) == [0x58, 0x08] + ECHO;
  }

  lemma FiveEncoded(five: Field)
    requires five == BoolField(5, true)
    ensures EncodeField(5, five) == Some([0x01, 0x0A])
  {
    assert FieldHeader(5, 5, TRUE) == [0x01] + [0x0A] == [0x01, 0x0A];
    assert [0x01, 0x0A] + [] == [0x01, 0x0A];
  }

  lemma EchoNormal(junk: Field, five: Field)
    requires junk.id == 5 && five == BoolField(5, true)
    ensures NormalFields(CompactCodec, [junk, five], map[]) == map[5 := DBool(true)]
  {
    assert [junk, five][1..] == [five] && [five][1..] == [];
    assert NormalField(CompactCodec, five) == DBool(true);
    var seen := NormalField(CompactCodec, junk);
    hide NormalField;
    assert NormalFields(CompactCodec, [], map[5 := DBool(true)]) == map[5 := DBool(true)];
    assert map[5 := seen][5 := DBool(true)] == map[5 := DBool(true)];
    assert NormalFields(CompactCodec, [five], map[5 := seen]) == map[5 := DBool(true)];
    assert map[][5 := seen] == map[5 := seen];
  }

  /** What the map's entry, the struct's STOP and the outer one look like. */
  predicate EchoAt(data: Octets, pos: nat) {
    pos + 15 == |data| && data[pos..] == [TRUE] + ECHOED + [STOP]
  }

  lemma EchoBytes(data: Octets, pos: nat)
    requires EchoAt(data, pos)
    ensures data[pos] == 0x01 && data[pos + 1] == 0x58 && data[pos + 2] == 0x08 && data[pos + 3] == 0x00
    ensures data[pos + 4] == 0x01 && data[pos + 6] == 0x00 && data[pos + 7] == 0x0B && data[pos + 8] == 0x02
    ensures data[pos + 9] == 0x01 && data[pos + 10] == 0x1C && data[pos + 11] == 0x01 && data[pos + 12] == 0x0A
    ensures data[pos + 13] == STOP && data[pos + 14] == STOP
  {
    var s := data[pos..];
    assert data[pos] == s[0] && data[pos + 1] == s[1] && data[pos + 2] == s[2] && data[pos + 3] == s[3];
    assert data[pos + 4] == s[4] && data[pos + 6] == s[6] && data[pos + 7] == s[7] && data[pos + 8] == s[8];
    assert data[pos + 9] == s[9] && data[pos + 10] == s[10] && data[pos + 11] == s[11] && data[pos + 12] == s[12];
    assert data[pos + 13] == s[13] && data[pos + 14] == s[14];
  }

  /** From the key on: fields 44 and 0, and the struct is over. */
  lemma FirstTaken(data: Octets, pos: nat)
    requires EchoAt(data, pos)
    ensures var x := ParseValue(data, pos, STRUCT); x.Ok? && x.pos == pos + 7
  {
    EchoBytes(data, pos);
    hide ParseFields, ParseVarintFrom, Utf8Valid, DecodedBytes;
    SmallVarint(data, pos + 1);
    SmallVarint(data, pos + 3);
    SmallVarint(data, pos + 4);
    var one := map[44 := DBool(true)];
    AfterFirstField(data, pos, 0, 44, pos + 2, DBool(true), pos + 2, map[]);
    var text := DecodedBytes(data[pos + 5..pos + 6]);
    AfterFirstField(data, pos + 2, 44, 0, pos + 4, text, pos + 6, one);
    StopEnds(data, pos + 6, 0, one[0 := text]);
  }

  /** Then field 1 again, the map from true to the struct with field 5, and the end. */
  lemma ThenEchoed(data: Octets, pos: nat, acc: map<i16, Decoded>)
    requires EchoAt(data, pos)
    ensures ParseFields(data, pos + 7, 1, acc)
         == Ok(acc[1 := DMap(map[DBool(true) := DStruct(map[5 := DBool(true)])])], |data|)
  {
    EchoBytes(data, pos);
    hide ParseFields, ParseEntries, ParseVarintFrom, EchoAt;
    SmallVarint(data, pos + 8);
    SmallVarint(data, pos + 9);
    SmallVarint(data, pos + 12);
    AfterFirstField(data, pos + 11, 0, 5, pos + 13, DBool(true), pos + 13, map[]);
    var five := map[5 := DBool(true)];
    assert map[][5 := DBool(true)] == five;
    StopEnds(data, pos + 13, 5, five);
    assert ParseValue(data, pos + 11, STRUCT) == Ok(DStruct(five), pos + 14);
    OneEntryReads(data, pos + 11, STRUCT);
    var echo := map[DBool(true) := DStruct(five)];
    assert ParseMap(data, pos + 9) == Ok(echo, pos + 14);
    AfterFirstField(data, pos + 7, 1, 1, pos + 9, DMap(echo), pos + 14, acc);
    StopEnds(data, pos + 14, 1, acc[1 := DMap(echo)]);
  }

  /** It comes back although it does not read the same from its key on. */
  lemma StructEchoes()
    ensures EncodeFields([MapField(1, Bool, Struct, [ECHOING])], 0).Some?
    ensures ComesBack(1, Bool, Struct, [ECHOING])
    ensures StructStart(1) < |StructBytes(1, Bool, Struct, [ECHOING])|
    ensures !ReadsEarly(StructBytes(1, Bool, Struct, [ECHOING]), StructStart(1), ECHOING)
  {
    hide EchoAt, ComesBack, EncodeFields, EncodeEntries, StructBytes, At, NormalItem, ParseValue, ParseEntries;
    hide ParseFields;
    EchoingStruct();
    OneStructEncoded(1, ECHOING);
    assert |[ECHOING]| == 1 < MAX_LENGTH;
    BodyAt(1, Bool, Struct, [ECHOING]);
    StartOfStruct(1, ECHOING);
    var data, start := StructBytes(1, Bool, Struct, [ECHOING]), StructStart(1);
    TailOf(data, start, [TRUE] + ECHOED);
    assert EchoAt(data, start) by { EchoThere(data, start); }
    FirstTaken(data, start);
    OneEntryReads(data, start, STRUCT);
    var x := ParseValue(data, start, STRUCT);
    var taken := map[DBool(true) := x.value];
    ThenEchoed(data, start, map[1 := DMap(taken)]);
    OneSent(Bool, Struct, ECHOING);
    TrueKey();
    var sent := map[DBool(true) := DStruct(map[5 := DBool(true)])];
    assert map[1 := DMap(taken)][1 := DMap(sent)] == map[1 := DMap(sent)];
    LosesMeans(1, Bool, Struct, [ECHOING]);
  }

  lemma EchoThere(data: Octets, start: nat)
    requires start + 15 == |data| && data[start..] == [TRUE] + ECHOED + [STOP]
    ensures EchoAt(data, start)
  {}

  lemma TrueKey()
    ensures NormalKey(CompactCodec, Bool, ECHOING) == DBool(true)
  {}
}
