/** Which keys bring the readers down: a Go map cannot be keyed by bytes, lists, maps or structs, and bytes
    are what a text that is no UTF-8 arrives as. */
module MapKeys {
  import opened Options
  import opened Bytes
  import opened Thrift
  import Compact
  import CompactRoundTrip
  import BinaryThrift
  import BinaryRoundTrip
  import Utf8

  /** Numbers, flags and well-formed text. */
  ghost predicate Keyable(key: Value) {
    match key
    case Boolean(_) => true
    case Integer(_) => true
    case Float(_) => true
    case Text(text) => Utf8.IsText(text)
    case Raw(raw) => Utf8.IsText(raw)
    case Fields(_) => false
    case Items(_) => false
    case Entries(_) => false
    case Foreign => false
  }

  lemma KeyableIsHashable(codec: Codec, kind: Kind, key: Value)
    requires !kind.Bool? && !key.Foreign?
    ensures Hashable(Normal(codec, kind, key, NO_SPEC)) <==> Keyable(key)
  {
    hide Utf8Valid, NormalFields, NormalItems, NormalEntries, NormalInteger, Utf8.IsText;
    if key.Text? {
      Utf8.ValidIffText(key.text);
    } else if key.Raw? {
      Utf8.ValidIffText(key.raw);
    } else if key.Integer? {
      IntegersAreHashable(codec, kind, key.n);
    }
  }

  lemma IntegersAreHashable(codec: Codec, kind: Kind, n: i64)
    ensures Hashable(NormalInteger(codec, kind, n))
  {}

  /** One entry, of kinds other than Bool and of values that can be sent, over the compact protocol. */
  lemma CompactEntryReads(keyKind: Kind, valueKind: Kind, entry: Entry, suffix: Octets)
    requires !keyKind.Bool? && !valueKind.Bool? && Compact.EncodeMap(keyKind, valueKind, [entry]).Some?
    requires CompactRoundTrip.Sendable(keyKind, entry.key, NO_SPEC)
    requires CompactRoundTrip.Sendable(valueKind, entry.item, NO_SPEC)
    ensures var sent := Compact.EncodeMap(keyKind, valueKind, [entry]).value;
      Compact.ParseMap(sent + suffix, 0)
      == if Keyable(entry.key)
         then Ok(map[NormalKey(CompactCodec, keyKind, entry) := NormalItem(CompactCodec, valueKind, entry)], |sent|)
         else Panic
  {
    var key, item := CompactParts(keyKind, valueKind, entry);
    var header := Compact.MapHeader(1, Compact.TypeOf(keyKind).value, Compact.TypeOf(valueKind).value);
    var sent := header + (key + item);
    NotForeign(keyKind, entry.key);
    KeyableIsHashable(CompactCodec, keyKind, entry.key);
    NormalEntry(CompactCodec, keyKind, valueKind, entry);
    hide *;
    assert [] + sent + suffix == sent + suffix;
    AtPrefix([], sent, suffix);
    CompactEntryAt(keyKind, valueKind, entry, key, item, sent + suffix);
  }

  lemma PartsAt(data: Octets, header: Octets, key: Octets, item: Octets)
    requires At(data, 0, header + (key + item))
    ensures At(data, 0, header) && At(data, |header|, key) && At(data, |header| + |key|, item)
    ensures |header + (key + item)| == |header| + |key| + |item| <= |data|
  {
    hide At;
    AtSplit(data, 0, header, key + item);
    AtSplit(data, |header|, key, item);
  }

  lemma CompactEntryAt(
      keyKind: Kind, valueKind: Kind, entry: Entry, key: Octets, item: Octets, data: Octets)
    requires !keyKind.Bool? && !valueKind.Bool?
    requires Compact.TypeOf(keyKind).Some? && Compact.TypeOf(valueKind).Some?
    requires Compact.EncodeValue(keyKind, entry.key, NO_SPEC) == Some(key)
    requires Compact.EncodeValue(valueKind, entry.item, NO_SPEC) == Some(item)
    requires CompactRoundTrip.Sendable(keyKind, entry.key, NO_SPEC)
    requires CompactRoundTrip.Sendable(valueKind, entry.item, NO_SPEC)
    requires At(data, 0, Compact.MapHeader(1, Compact.TypeOf(keyKind).value, Compact.TypeOf(valueKind).value)
                         + (key + item))
    ensures var k, i := Normal(CompactCodec, keyKind, entry.key, NO_SPEC),
                        Normal(CompactCodec, valueKind, entry.item, NO_SPEC);
      var header := Compact.MapHeader(1, Compact.TypeOf(keyKind).value, Compact.TypeOf(valueKind).value);
      Compact.ParseMap(data, 0)
      == if Hashable(k) then Ok(map[k := i], |header + (key + item)|) else Panic
  {
    assert 1 < CompactRoundTrip.MAX_LENGTH;
    hide *;
    var keyType, valueType := Compact.TypeOf(keyKind).value, Compact.TypeOf(valueKind).value;
    var header := Compact.MapHeader(1, keyType, valueType);
    PartsAt(data, header, key, item);
    CompactRoundTrip.MapHeaderRoundTrip(1, keyType, valueType, data, 0);
    CompactBodyAt(keyKind, valueKind, entry, key, item, data, |header|);
  }

  lemma CompactBodyAt(
      keyKind: Kind, valueKind: Kind, entry: Entry, key: Octets, item: Octets, data: Octets, start: nat)
    requires !keyKind.Bool? && !valueKind.Bool?
    requires Compact.TypeOf(keyKind).Some? && Compact.TypeOf(valueKind).Some?
    requires Compact.EncodeValue(keyKind, entry.key, NO_SPEC) == Some(key)
    requires Compact.EncodeValue(valueKind, entry.item, NO_SPEC) == Some(item)
    requires CompactRoundTrip.Sendable(keyKind, entry.key, NO_SPEC)
    requires CompactRoundTrip.Sendable(valueKind, entry.item, NO_SPEC)
    requires 0 < start <= |data| && Compact.ParseVarint(data, 0) == Ok(1, start - 1)
    requires data[start - 1] / 16 == Compact.TypeOf(keyKind).value
    requires data[start - 1] % 16 == Compact.TypeOf(valueKind).value
    requires At(data, start, key) && At(data, start + |key|, item)
    ensures var k, i := Normal(CompactCodec, keyKind, entry.key, NO_SPEC),
                        Normal(CompactCodec, valueKind, entry.item, NO_SPEC);
      Compact.ParseMap(data, 0) == if Hashable(k) then Ok(map[k := i], start + |key| + |item|) else Panic
  {
    hide *;
    CompactRoundTrip.ValueRoundTrip(keyKind, entry.key, NO_SPEC, data, start);
    CompactRoundTrip.ValueRoundTrip(valueKind, entry.item, NO_SPEC, data, start + |key|);
    CompactOneRead(data, Compact.TypeOf(keyKind).value, Compact.TypeOf(valueKind).value, start - 1,
      Normal(CompactCodec, keyKind, entry.key, NO_SPEC), start + |key|,
      Normal(CompactCodec, valueKind, entry.item, NO_SPEC), start + |key| + |item|);
  }

  lemma NormalEntry(codec: Codec, keyKind: Kind, valueKind: Kind, entry: Entry)
    ensures NormalKey(codec, keyKind, entry) == Normal(codec, keyKind, entry.key, NO_SPEC)
    ensures NormalItem(codec, valueKind, entry) == Normal(codec, valueKind, entry.item, NO_SPEC)
  {
    hide Normal;
  }

  lemma CompactParts(keyKind: Kind, valueKind: Kind, entry: Entry) returns (key: Octets, item: Octets)
    requires Compact.EncodeMap(keyKind, valueKind, [entry]).Some?
    ensures Compact.TypeOf(keyKind).Some? && Compact.TypeOf(valueKind).Some?
    ensures Compact.EncodeValue(keyKind, entry.key, NO_SPEC) == Some(key)
    ensures Compact.EncodeValue(valueKind, entry.item, NO_SPEC) == Some(item)
    ensures Compact.EncodeMap(keyKind, valueKind, [entry]) ==
      Some(Compact.MapHeader(1, Compact.TypeOf(keyKind).value, Compact.TypeOf(valueKind).value) + (key + item))
  {
    hide Compact.EncodeValue, Compact.TypeOf, Compact.MapHeader;
    assert [entry][1..] == [];
    assert Compact.EncodeEntries(keyKind, valueKind, [entry]).Some?;
    assert Compact.EncodeEntry(keyKind, valueKind, entry).Some?;
    key := Compact.EncodeValue(keyKind, entry.key, NO_SPEC).value;
    item := Compact.EncodeValue(valueKind, entry.item, NO_SPEC).value;
    assert Compact.EncodeEntries(keyKind, valueKind, [entry][1..]) == Some([]);
    assert Compact.EncodeEntries(keyKind, valueKind, [entry]) == Some(key + item + []);
    assert key + item + [] == key + item;
  }

  /** The loop over one entry. */
  lemma CompactOneRead(
      data: Octets, keyType: byte, valueType: byte, types: nat, key: Decoded, between: nat, item: Decoded, end: nat)
    requires Compact.ParseVarint(data, 0) == Ok(1, types) && types < |data|
    requires data[types] / 16 == keyType && data[types] % 16 == valueType
    requires Compact.ParseValue(data, types + 1, keyType) == Ok(key, between) && between <= |data|
    requires Compact.ParseValue(data, between, valueType) == Ok(item, end)
    ensures Compact.ParseMap(data, 0) == if Hashable(key) then Ok(map[key := item], end) else Panic
  {
    hide Compact.ParseValue, Compact.ParseVarint, Hashable;
    var one: map<Decoded, Decoded> := map[];
    assert one[key := item] == map[key := item];
    assert Compact.ParseByte(data, types) == Ok(data[types], types + 1);
    assert Compact.ParseEntries(data, end, keyType, valueType, 0, one[key := item]) == Ok(map[key := item], end);
    assert Compact.ParseEntries(data, types + 1, keyType, valueType, 1, one)
        == if Hashable(key) then Ok(map[key := item], end) else Panic;
  }

  lemma NotForeign(kind: Kind, key: Value)
    requires Compact.EncodeValue(kind, key, NO_SPEC).Some?
    ensures !key.Foreign?
  {
    hide Compact.EncodeFields, Compact.EncodeList, Compact.EncodeMap;
  }

  /** The same over the binary protocol, where Bools are no exception. */
  lemma BinaryEntryReads(keyKind: Kind, valueKind: Kind, entry: Entry, suffix: Octets)
    requires !keyKind.Bool? && BinaryThrift.EncodeMap(keyKind, valueKind, [entry]).Some?
    requires BinaryRoundTrip.Sendable(keyKind, entry.key, NO_SPEC)
    requires BinaryRoundTrip.Sendable(valueKind, entry.item, NO_SPEC)
    ensures var sent := BinaryThrift.EncodeMap(keyKind, valueKind, [entry]).value;
      BinaryThrift.ParseMap(sent + suffix, 0)
      == if Keyable(entry.key)
         then Ok(map[NormalKey(BinaryCodec, keyKind, entry) := NormalItem(BinaryCodec, valueKind, entry)], |sent|)
         else Panic
  {
    var key, item := BinaryParts(keyKind, valueKind, entry);
    var header := BinaryThrift.MapHeader(1, BinaryThrift.TypeOf(keyKind).value, BinaryThrift.TypeOf(valueKind).value);
    var sent := header + (key + item);
    KeyableIsHashable(BinaryCodec, keyKind, entry.key);
    NormalEntry(BinaryCodec, keyKind, valueKind, entry);
    hide *;
    assert [] + sent + suffix == sent + suffix;
    AtPrefix([], sent, suffix);
    BinaryEntryAt(keyKind, valueKind, entry, key, item, sent + suffix);
  }

  lemma BinaryParts(keyKind: Kind, valueKind: Kind, entry: Entry) returns (key: Octets, item: Octets)
    requires BinaryThrift.EncodeMap(keyKind, valueKind, [entry]).Some?
    ensures BinaryThrift.TypeOf(keyKind).Some? && BinaryThrift.TypeOf(valueKind).Some? && !entry.key.Foreign?
    ensures BinaryThrift.EncodeValue(keyKind, entry.key, NO_SPEC) == Some(key)
    ensures BinaryThrift.EncodeValue(valueKind, entry.item, NO_SPEC) == Some(item)
    ensures BinaryThrift.EncodeMap(keyKind, valueKind, [entry]) ==
      Some(BinaryThrift.MapHeader(1, BinaryThrift.TypeOf(keyKind).value, BinaryThrift.TypeOf(valueKind).value)
           + (key + item))
  {
    assert [entry][1..] == [];
    assert BinaryThrift.EncodeEntry(keyKind, valueKind, entry).Some?;
    ForeignIsNotSent(keyKind, entry.key);
    hide BinaryThrift.EncodeValue, BinaryThrift.TypeOf, BinaryThrift.MapHeader;
    key := BinaryThrift.EncodeValue(keyKind, entry.key, NO_SPEC).value;
    item := BinaryThrift.EncodeValue(valueKind, entry.item, NO_SPEC).value;
    assert BinaryThrift.EncodeEntries(keyKind, valueKind, [entry][1..]) == Some([]);
    assert BinaryThrift.EncodeEntries(keyKind, valueKind, [entry]) == Some(key + item + []);
    assert key + item + [] == key + item;
  }

  lemma ForeignIsNotSent(kind: Kind, key: Value)
    ensures BinaryThrift.EncodeValue(kind, key, NO_SPEC).Some? ==> !key.Foreign?
  {
    hide BinaryThrift.EncodeFields, BinaryThrift.EncodeList, BinaryThrift.EncodeMap;
  }

  lemma BinaryEntryAt(
      keyKind: Kind, valueKind: Kind, entry: Entry, key: Octets, item: Octets, data: Octets)
    requires BinaryThrift.TypeOf(keyKind).Some? && BinaryThrift.TypeOf(valueKind).Some?
    requires BinaryThrift.EncodeValue(keyKind, entry.key, NO_SPEC) == Some(key)
    requires BinaryThrift.EncodeValue(valueKind, entry.item, NO_SPEC) == Some(item)
    requires BinaryRoundTrip.Sendable(keyKind, entry.key, NO_SPEC)
    requires BinaryRoundTrip.Sendable(valueKind, entry.item, NO_SPEC)
    requires At(data, 0, BinaryThrift.MapHeader(1, BinaryThrift.TypeOf(keyKind).value,
                                                BinaryThrift.TypeOf(valueKind).value) + (key + item))
    ensures var k, i := Normal(BinaryCodec, keyKind, entry.key, NO_SPEC),
                        Normal(BinaryCodec, valueKind, entry.item, NO_SPEC);
      var header := BinaryThrift.MapHeader(1, BinaryThrift.TypeOf(keyKind).value, BinaryThrift.TypeOf(valueKind).value);
      BinaryThrift.ParseMap(data, 0)
      == if Hashable(k) then Ok(map[k := i], |header + (key + item)|) else Panic
  {
    assert 1 <= BinaryThrift.MAX_SIZE;
    hide *;
    var keyType, valueType := BinaryThrift.TypeOf(keyKind).value, BinaryThrift.TypeOf(valueKind).value;
    var header := BinaryThrift.MapHeader(1, keyType, valueType);
    PartsAt(data, header, key, item);
    BinaryRoundTrip.MapHeaderRoundTrip(1, keyType, valueType, data, 0);
    BinaryRoundTrip.ValueRoundTrip(keyKind, entry.key, NO_SPEC, data, 6);
    BinaryRoundTrip.ValueRoundTrip(valueKind, entry.item, NO_SPEC, data, 6 + |key|);
    BinaryOneRead(data, keyType, valueType, Normal(BinaryCodec, keyKind, entry.key, NO_SPEC), 6 + |key|,
      Normal(BinaryCodec, valueKind, entry.item, NO_SPEC), 6 + |key| + |item|);
  }

  lemma BinaryOneRead(
      data: Octets, keyType: byte, valueType: byte, key: Decoded, between: nat, item: Decoded, end: nat)
    requires BinaryThrift.ParseTake(data, 0, 2) == Ok([keyType, valueType], 2) && 6 <= |data|
    requires BinaryThrift.ParseSize(data, 2, BinaryThrift.MAX_SIZE) == Ok(1, 6)
    requires BinaryThrift.ParseValue(data, 6, keyType) == Ok(key, between) && between <= |data|
    requires BinaryThrift.ParseValue(data, between, valueType) == Ok(item, end)
    ensures BinaryThrift.ParseMap(data, 0) == if Hashable(key) then Ok(map[key := item], end) else Panic
  {
    hide BinaryThrift.ParseValue, BinaryThrift.ParseSize, BinaryThrift.ParseTake, Hashable;
    var one: map<Decoded, Decoded> := map[];
    assert one[key := item] == map[key := item];
    assert BinaryThrift.ParseEntries(data, end, keyType, valueType, 0, one[key := item]) == Ok(map[key := item], end);
    assert BinaryThrift.ParseEntries(data, 6, keyType, valueType, 1, one)
        == if Hashable(key) then Ok(map[key := item], end) else Panic;
  }
}
