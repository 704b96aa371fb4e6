/** Maps with Bool keys or values, which the compact reader also misreads. The argument is one of
    counting: some bytes of every scalar (the last byte of a varint, the bytes of a text below 0x80, or
    all bytes of a fixed-width number) are as many whichever way the scalar was written, so a reader
    that skips the Bool bytes cannot see the same scalars and end at the same place. */
module BoolMaps {
  import opened Options
  import opened Bytes
  import opened Thrift
  import opened Compact
  import opened CompactRoundTrip
  import opened BoolContainers
  import MapOrder

  // ---- Counting marked bytes

  /** How many bytes from `p` to `q` are marked: all of them, or those below 0x80. */
  function Marked(data: Octets, p: nat, q: nat, all: bool): nat
    requires p <= q <= |data|
    decreases q - p
  {
    if p == q then 0 else Marked(data, p, q - 1, all) + (if all || data[q - 1] < 0x80 then 1 else 0)
  }

  lemma {:induction false} MarkedSplit(data: Octets, p: nat, q: nat, r: nat, all: bool)
    requires p <= q <= r <= |data|
    ensures Marked(data, p, r, all) == Marked(data, p, q, all) + Marked(data, q, r, all)
    decreases r - q
  {
    if q < r {
      MarkedSplit(data, p, q, r - 1, all);
    }
  }

  lemma {:induction false} MarkedAll(data: Octets, p: nat, q: nat)
    requires p <= q <= |data|
    ensures Marked(data, p, q, true) == q - p
    decreases q - p
  {
    if p < q {
      MarkedAll(data, p, q - 1);
    }
  }

  lemma {:induction false} MarkedSlice(data: Octets, p: nat, q: nat)
    requires p <= q <= |data|
    ensures Marked(data, p, q, false) == Marked(data[p..q], 0, q - p, false)
    decreases q - p
  {
    if p < q {
      MarkedSlice(data, p, q - 1);
      MarkedPrefix(data[p..q], data[p..q - 1], q - p - 1);
    }
  }

  lemma {:induction false} MarkedPrefix(s: Octets, t: Octets, n: nat)
    requires n <= |s| && n <= |t| && s[..n] == t[..n]
    ensures Marked(s, 0, n, false) == Marked(t, 0, n, false)
  {
    if n > 0 {
      assert s[..n - 1] == s[..n][..n - 1] == t[..n - 1];
      assert s[n - 1] == s[..n][n - 1] == t[n - 1];
      MarkedPrefix(s, t, n - 1);
    }
  }

  lemma MarkedLow(data: Octets, p: nat, all: bool)
    requires p < |data| && data[p] < 0x80
    ensures Marked(data, p, p + 1, all) == 1
  {}

  /** A varint of any length, canonical or not, has one byte below 0x80: its last. */
  lemma {:induction false} VarintMarked(data: Octets, pos: nat, step: nat, acc: u64)
    requires pos <= |data| && acc < Pow128(step) && ParseVarintFrom(data, pos, step, acc).Ok?
    ensures Marked(data, pos, ParseVarintFrom(data, pos, step, acc).pos, false) == 1
    decreases |data| - pos
  {
    var b := data[pos];
    VarintStep(acc, b, step);
    var value := acc + Shifted(b % 0x80, step) % 0x1_0000_0000_0000_0000;
    if b < 0x80 {
      MarkedLow(data, pos, false);
    } else {
      var end := ParseVarintFrom(data, pos + 1, step + 1, value).pos;
      VarintMarked(data, pos + 1, step + 1, value);
      MarkedSplit(data, pos, pos + 1, end, false);
      assert Marked(data, pos, pos, false) == 0;
    }
  }

  lemma SizeMarked(data: Octets, pos: nat, all: bool)
    requires pos <= |data| && ParseVarint(data, pos).Ok?
    ensures Marked(data, pos, ParseVarint(data, pos).pos, all) >= 1
    ensures !all ==> Marked(data, pos, ParseVarint(data, pos).pos, all) == 1
  {
    if all {
      MarkedAll(data, pos, ParseVarint(data, pos).pos);
    } else {
      VarintMarked(data, pos, 0, 0);
    }
  }

  // ---- What scalars cost

  predicate Scalar(d: Decoded) {
    d.DInt8? || d.DInt64? || d.DDouble? || d.DText? || d.DRaw?
  }

  /** Of which scalars every byte is marked. */
  predicate Fixed(d: Decoded) {
    d.DInt8? || d.DDouble?
  }

  function Cost(d: Decoded): nat {
    match d
    case DInt8(_) => 1
    case DInt64(_) => 1
    case DDouble(_) => 8
    case DText(s) => 1 + Marked(s, 0, |s|, false)
    case DRaw(s) => 1 + Marked(s, 0, |s|, false)
    case _ => 0
  }

  predicate ScalarType(ctype: byte) {
    BYTE <= ctype <= BINARY
  }

  predicate FixedType(ctype: byte) {
    ctype == BYTE || ctype == DOUBLE
  }

  /** However a scalar was read, its marked bytes are its cost. */
  lemma ScalarCost(data: Octets, pos: nat, ctype: byte)
    requires pos <= |data| && ParseValue(data, pos, ctype).Ok?
    ensures ScalarType(ctype) ==>
      Scalar(ParseValue(data, pos, ctype).value) && Fixed(ParseValue(data, pos, ctype).value) == FixedType(ctype)
    ensures var r := ParseValue(data, pos, ctype);
      Scalar(r.value) ==> Marked(data, pos, r.pos, Fixed(r.value)) == Cost(r.value) >= 1
  {
    hide ParseFields, ParseItems, ParseEntries, ParseVarintFrom, Utf8Valid, Marked;
    if ctype == BYTE {
      MarkedAll(data, pos, pos + 1);
    } else if ctype == DOUBLE {
      MarkedAll(data, pos, pos + 8);
    } else if ctype == INT16 || ctype == INT32 || ctype == INT64 {
      SizeMarked(data, pos, false);
    } else if ctype == BINARY {
      BytesCost(data, pos);
    }
  }

  lemma BytesCost(data: Octets, pos: nat)
    requires pos <= |data| && ParseBytes(data, pos).Ok?
    ensures var r := ParseBytes(data, pos); Marked(data, pos, r.pos, false) == 1 + Marked(r.value, 0, |r.value|, false)
  {
    hide ParseVarintFrom, Marked;
    var r, start := ParseBytes(data, pos), ParseVarint(data, pos).pos;
    SizeMarked(data, pos, false);
    MarkedSplit(data, pos, start, r.pos, false);
    MarkedSlice(data, start, r.pos);
    assert data[start..r.pos] == r.value;
  }

  // ---- Sums over distinct keys

  predicate AllScalar(need: seq<Decoded>, all: bool) {
    forall k | k in need :: Scalar(k) && Fixed(k) == all
  }

  predicate Distinct(need: seq<Decoded>) {
    forall i, j | 0 <= i < j < |need| :: need[i] != need[j]
  }

  function SumCost(need: seq<Decoded>): nat {
    if need == [] then 0 else Cost(need[0]) + SumCost(need[1..])
  }

  function Dropped(need: seq<Decoded>, i: nat): seq<Decoded>
    requires i < |need|
  {
    need[..i] + need[i + 1..]
  }

  lemma {:induction false} SumDropped(need: seq<Decoded>, i: nat)
    requires i < |need|
    ensures SumCost(need) == Cost(need[i]) + SumCost(Dropped(need, i))
  {
    if i == 0 {
      assert Dropped(need, 0) == need[1..];
    } else {
      SumDropped(need[1..], i - 1);
      assert Dropped(need, i)[1..] == Dropped(need[1..], i - 1);
    }
  }

  lemma DroppedKeeps(need: seq<Decoded>, i: nat)
    requires i < |need| && Distinct(need)
    ensures Distinct(Dropped(need, i)) && need[i] !in Dropped(need, i)
    ensures forall k | k in Dropped(need, i) :: k in need
    ensures forall k | k in need && k != need[i] :: k in Dropped(need, i)
  {
    var d := Dropped(need, i);
    forall j | 0 <= j < |d|
      ensures d[j] == need[if j < i then j else j + 1]
    {}
    forall k | k in need && k != need[i]
      ensures k in d
    {
      var j :| 0 <= j < |need| && need[j] == k;
      assert d[if j < i then j else j - 1] == k;
    }
  }

  /** One step of the entry loop. */
  lemma EntryStep(data: Octets, pos: nat, keyType: byte, valueType: byte, size: nat, acc: map<Decoded, Decoded>)
    requires pos <= |data| && size > 0 && ParseEntries(data, pos, keyType, valueType, size, acc).Ok?
    ensures var key := ParseValue(data, pos, keyType);
      && key.Ok?
      && var value := ParseValue(data, key.pos, valueType);
      && value.Ok?
      && ParseEntries(data, pos, keyType, valueType, size, acc)
         == ParseEntries(data, value.pos, keyType, valueType, size - 1, acc[key.value := value.value])
  {
    hide ParseValue;
  }

  lemma NoEntries(data: Octets, pos: nat, keyType: byte, valueType: byte, acc: map<Decoded, Decoded>)
    requires pos <= |data|
    ensures ParseEntries(data, pos, keyType, valueType, 0, acc) == Ok(acc, pos)
  {}

  /** Reading entries until the keys `need` have turned up takes at least what they cost. */
  lemma {:induction false} KeysCost(
      data: Octets, pos: nat, keyType: byte, valueType: byte, size: nat, acc: map<Decoded, Decoded>,
      need: seq<Decoded>, all: bool)
    requires pos <= |data| && AllScalar(need, all) && Distinct(need)
    requires ParseEntries(data, pos, keyType, valueType, size, acc).Ok?
    requires forall k | k in need :: k !in acc && k in ParseEntries(data, pos, keyType, valueType, size, acc).value
    ensures Marked(data, pos, ParseEntries(data, pos, keyType, valueType, size, acc).pos, all) >= SumCost(need)
    decreases size
  {
    hide ParseValue, ParseEntries, Marked, Cost, Scalar, Fixed, Dropped;
    NoEntries(data, pos, keyType, valueType, acc);
    assert need == [] || need[0] in need;
    if size > 0 {
      EntryStep(data, pos, keyType, valueType, size, acc);
      var key := ParseValue(data, pos, keyType);
      var value := ParseValue(data, key.pos, valueType);
      var end := ParseEntries(data, pos, keyType, valueType, size, acc).pos;
      MarkedSplit(data, pos, key.pos, end, all);
      MarkedSplit(data, key.pos, value.pos, end, all);
      var next := acc[key.value := value.value];
      if key.value in need {
        var i :| 0 <= i < |need| && need[i] == key.value;
        ScalarCost(data, pos, keyType);
        SumDropped(need, i);
        DroppedKeeps(need, i);
        KeysCost(data, value.pos, keyType, valueType, size - 1, next, Dropped(need, i), all);
      } else {
        KeysCost(data, value.pos, keyType, valueType, size - 1, next, need, all);
      }
    }
  }

  /** Reading as many scalar keys as are needed, with Bool values, takes exactly what they cost. */
  lemma {:induction false} KeysCostExactly(
      data: Octets, pos: nat, keyType: byte, size: nat, acc: map<Decoded, Decoded>, need: seq<Decoded>, all: bool)
    requires pos <= |data| && AllScalar(need, all) && Distinct(need) && ScalarType(keyType) && FixedType(keyType) == all
    requires ParseEntries(data, pos, keyType, TRUE, size, acc).Ok?
    requires forall k | k in need :: k !in acc && k in ParseEntries(data, pos, keyType, TRUE, size, acc).value
    ensures |need| <= size
    ensures Marked(data, pos, ParseEntries(data, pos, keyType, TRUE, size, acc).pos, all) >= size
    ensures |need| == size ==>
              Marked(data, pos, ParseEntries(data, pos, keyType, TRUE, size, acc).pos, all) == SumCost(need)
    decreases size
  {
    hide ParseEntries, Cost, Scalar, Fixed, Dropped, ScalarType, FixedType;
    NoEntries(data, pos, keyType, TRUE, acc);
    assert need == [] || need[0] in need;
    if size > 0 {
      EntryStep(data, pos, keyType, TRUE, size, acc);
      var key := ParseValue(data, pos, keyType);
      assert ParseValue(data, key.pos, TRUE) == Ok(DBool(true), key.pos);
      var end := ParseEntries(data, pos, keyType, TRUE, size, acc).pos;
      MarkedSplit(data, pos, key.pos, end, all);
      ScalarCost(data, pos, keyType);
      hide ParseValue, Marked;
      var next := acc[key.value := DBool(true)];
      if key.value in need {
        var i :| 0 <= i < |need| && need[i] == key.value;
        SumDropped(need, i);
        DroppedKeeps(need, i);
        DroppedLength(need, i);
        KeysCostExactly(data, key.pos, keyType, size - 1, next, Dropped(need, i), all);
      } else {
        KeysCostExactly(data, key.pos, keyType, size - 1, next, need, all);
      }
    }
  }

  lemma DroppedLength(need: seq<Decoded>, i: nat)
    requires i < |need|
    ensures |Dropped(need, i)| == |need| - 1
  {}

  /** A scalar value that turns up under some key was read, at its cost. */
  lemma {:induction false} ValueCost(
      data: Octets, pos: nat, keyType: byte, valueType: byte, size: nat, acc: map<Decoded, Decoded>, k: Decoded)
    requires pos <= |data| && ParseEntries(data, pos, keyType, valueType, size, acc).Ok?
    requires var r := ParseEntries(data, pos, keyType, valueType, size, acc).value;
      k in r && Scalar(r[k]) && (k in acc ==> acc[k] != r[k])
    ensures var r := ParseEntries(data, pos, keyType, valueType, size, acc);
      Marked(data, pos, r.pos, Fixed(r.value[k])) >= Cost(r.value[k])
    decreases size
  {
    hide ParseValue, ParseEntries, Marked, Cost, Scalar, Fixed;
    NoEntries(data, pos, keyType, valueType, acc);
    EntryStep(data, pos, keyType, valueType, size, acc);
    var key := ParseValue(data, pos, keyType);
    var value := ParseValue(data, key.pos, valueType);
    var r := ParseEntries(data, pos, keyType, valueType, size, acc);
    var all := Fixed(r.value[k]);
    MarkedSplit(data, pos, key.pos, r.pos, all);
    MarkedSplit(data, key.pos, value.pos, r.pos, all);
    var next := acc[key.value := value.value];
    if k in next && next[k] == r.value[k] {
      ScalarCost(data, key.pos, valueType);
    } else {
      ValueCost(data, value.pos, keyType, valueType, size - 1, next, k);
    }
  }

  /** All Bool keys of one map are read alike. */
  lemma {:induction false} BoolKeysAlike(
      data: Octets, pos: nat, keyType: byte, valueType: byte, size: nat, acc: map<Decoded, Decoded>, b: bool)
    requires pos <= |data| && ParseEntries(data, pos, keyType, valueType, size, acc).Ok?
    requires DBool(b) !in acc && DBool(b) in ParseEntries(data, pos, keyType, valueType, size, acc).value
    ensures keyType == if b then TRUE else FALSE
    decreases size
  {
    hide ParseEntries;
    NoEntries(data, pos, keyType, valueType, acc);
    EntryStep(data, pos, keyType, valueType, size, acc);
    var key := ParseValue(data, pos, keyType);
    var value := ParseValue(data, key.pos, valueType);
    if key.value != DBool(b) {
      BoolKeysAlike(data, value.pos, keyType, valueType, size - 1, acc[key.value := value.value], b);
    }
  }

  // ---- Where a struct's only field came from

  lemma FieldStep(data: Octets, pos: nat, previous: i16, acc: map<i16, Decoded>)
    requires pos < |data| && data[pos] != STOP && ParseFields(data, pos, previous, acc).Ok?
    ensures var id := ParseFieldID(data, pos + 1, previous, data[pos]);
      && id.Ok?
      && var value := ParseValue(data, id.pos, data[pos] % 16);
      && value.Ok?
      && ParseFields(data, pos, previous, acc) == ParseFields(data, value.pos, id.value, acc[id.value := value.value])
  {
    hide ParseFieldID, ParseValue;
  }

  lemma FieldsEnd(data: Octets, pos: nat, previous: i16, acc: map<i16, Decoded>)
    requires pos <= |data| && ParseFields(data, pos, previous, acc).Ok?
    ensures pos < |data|
    ensures data[pos] == STOP ==> ParseFields(data, pos, previous, acc) == Ok(acc, pos + 1)
  {
    hide ParseFieldID, ParseValue;
  }

  lemma MapValueRead(data: Octets, pos: nat, ctype: byte)
    requires pos <= |data| && ParseValue(data, pos, ctype).Ok? && ParseValue(data, pos, ctype).value.DMap?
    ensures ParseMap(data, pos) == Ok(ParseValue(data, pos, ctype).value.entries, ParseValue(data, pos, ctype).pos)
  {
    hide ParseMap, ParseFields, ParseList, ParseBytes, ParseSigned, Utf8Valid;
  }

  /** If reading on from `pos` ends at the end of the data with one field, a map, then either nothing
      but the STOP byte was left, or that very map was read from some later place. */
  lemma {:induction false} OnlyFieldRead(
      data: Octets, pos: nat, previous: i16, acc: map<i16, Decoded>, id: i16, entries: map<Decoded, Decoded>)
    returns (q: nat)
    requires pos <= |data| && ParseFields(data, pos, previous, acc) == Ok(map[id := DMap(entries)], |data|)
    ensures pos <= q < |data|
    ensures q == pos ==> data[pos] == STOP && pos + 1 == |data| && acc == map[id := DMap(entries)]
    ensures q > pos ==> ParseMap(data, q).Ok? && ParseMap(data, q).value == entries && ParseMap(data, q).pos < |data|
    decreases |data| - pos
  {
    hide ParseFields, ParseFieldID, ParseValue, ParseMap;
    FieldsEnd(data, pos, previous, acc);
    if data[pos] == STOP {
      q := pos;
    } else {
      FieldStep(data, pos, previous, acc);
      var fieldID := ParseFieldID(data, pos + 1, previous, data[pos]);
      var value := ParseValue(data, fieldID.pos, data[pos] % 16);
      var next := acc[fieldID.value := value.value];
      q := OnlyFieldRead(data, value.pos, fieldID.value, next, id, entries);
      if q == value.pos {
        assert fieldID.value in next;
        MapValueRead(data, fieldID.pos, data[pos] % 16);
        q := fieldID.pos;
      }
    }
  }

  // ---- Structs of one map

  function MapField(id: i16, keyKind: Kind, valueKind: Kind, entries: seq<Entry>): Field {
    Field(id, Map, Entries(entries), Bool, keyKind, valueKind)
  }

  function StructBytes(id: i16, keyKind: Kind, valueKind: Kind, entries: seq<Entry>): Octets
    requires EncodeFields([MapField(id, keyKind, valueKind, entries)], 0).Some?
  {
    EncodeFields([MapField(id, keyKind, valueKind, entries)], 0).value
  }

  function Sent(keyKind: Kind, valueKind: Kind, entries: seq<Entry>): map<Decoded, Decoded> {
    NormalEntries(CompactCodec, keyKind, valueKind, entries, map[])
  }

  /** The struct reads back as it was sent, to its last byte. */
  predicate ComesBack(id: i16, keyKind: Kind, valueKind: Kind, entries: seq<Entry>)
    requires EncodeFields([MapField(id, keyKind, valueKind, entries)], 0).Some?
  {
    ParseFields(StructBytes(id, keyKind, valueKind, entries), 0, 0, map[])
    == Ok(NormalFields(CompactCodec, [MapField(id, keyKind, valueKind, entries)], map[]),
          |StructBytes(id, keyKind, valueKind, entries)|)
  }

  lemma NormalOfMap(id: i16, keyKind: Kind, valueKind: Kind, entries: seq<Entry>)
    ensures NormalFields(CompactCodec, [MapField(id, keyKind, valueKind, entries)], map[])
         == map[id := DMap(Sent(keyKind, valueKind, entries))]
  {
    var f := MapField(id, keyKind, valueKind, entries);
    assert [f][1..] == [];
    assert NormalField(CompactCodec, f) == Normal(CompactCodec, Map, Entries(entries), f);
    assert NormalFields(CompactCodec, [f], map[])
      == NormalFields(CompactCodec, [f][1..], map[id := NormalField(CompactCodec, f)]);
  }

  lemma StructEncoded(id: i16, keyKind: Kind, valueKind: Kind, entries: seq<Entry>)
    requires EncodeFields([MapField(id, keyKind, valueKind, entries)], 0).Some? && entries != []
    ensures TypeOf(keyKind).Some? && TypeOf(valueKind).Some? && EncodeEntries(keyKind, valueKind, entries).Some?
    ensures StructBytes(id, keyKind, valueKind, entries) ==
      FieldHeader(0, id, MAP) + (MapHeader(|entries|, TypeOf(keyKind).value, TypeOf(valueKind).value)
        + (EncodeEntries(keyKind, valueKind, entries).value + [STOP]))
  {
    hide FieldHeader, MapHeader, EncodeEntries;
    var f := MapField(id, keyKind, valueKind, entries);
    assert [f][1..] == [];
    assert EncodeFields([f][1..], id) == Some([STOP]);
    assert EncodeField(0, f).Some? && EncodeValue(Map, f.value, f).Some?;
    assert EncodeValue(Map, f.value, f) == EncodeMap(keyKind, valueKind, entries);
  }

  /** Where the entries start in those bytes. */
  function Start(id: i16, keyKind: Kind, valueKind: Kind, entries: seq<Entry>): nat
    requires TypeOf(keyKind).Some? && TypeOf(valueKind).Some?
  {
    |FieldHeader(0, id, MAP)| + |MapHeader(|entries|, TypeOf(keyKind).value, TypeOf(valueKind).value)|
  }

  /** The reader gets to the entries and then reads on after whatever it took them to be. */
  lemma MapFieldRead(id: i16, keyKind: Kind, valueKind: Kind, entries: seq<Entry>)
    requires EncodeFields([MapField(id, keyKind, valueKind, entries)], 0).Some? && entries != []
    requires |entries| < MAX_LENGTH
    requires TypeOf(keyKind).Some? && TypeOf(valueKind).Some? && EncodeEntries(keyKind, valueKind, entries).Some?
    ensures var data, start := StructBytes(id, keyKind, valueKind, entries), Start(id, keyKind, valueKind, entries);
      && At(data, start, EncodeEntries(keyKind, valueKind, entries).value)
      && start + |EncodeEntries(keyKind, valueKind, entries).value| == |data| - 1 && data[|data| - 1] == STOP
      && var r := ParseEntries(data, start, TypeOf(keyKind).value, TypeOf(valueKind).value, |entries|, map[]);
      && (!r.Ok? ==> !ParseFields(data, 0, 0, map[]).Ok?)
      && (r.Ok? ==> ParseFields(data, 0, 0, map[]) == ParseFields(data, r.pos, id, map[id := DMap(r.value)]))
  {
    hide At, FieldHeader, MapHeader, EncodeEntries, ParseEntries, ParseFields, StructBytes, TypeOf;
    StructEncoded(id, keyKind, valueKind, entries);
    LayoutRead(StructBytes(id, keyKind, valueKind, entries), id, TypeOf(keyKind).value, TypeOf(valueKind).value,
               |entries|, EncodeEntries(keyKind, valueKind, entries).value);
  }

  lemma Layout(data: Octets, header: Octets, mapHeader: Octets, body: Octets)
    requires data == header + (mapHeader + (body + [STOP]))
    ensures var start := |header| + |mapHeader|;
      && At(data, 0, header) && At(data, |header|, mapHeader) && At(data, start, body)
      && start + |body| == |data| - 1 && data[|data| - 1] == STOP
  {
    AtPrefix([], header, mapHeader + (body + [STOP]));
    AtPrefix(header, mapHeader, body + [STOP]);
    AtPrefix(header + mapHeader, body, [STOP]);
    assert [] + header + (mapHeader + (body + [STOP])) == data;
    assert header + mapHeader + (body + [STOP]) == data;
    assert header + mapHeader + body + [STOP] == data;
  }

  lemma LayoutRead(data: Octets, id: i16, keyType: byte, valueType: byte, size: nat, body: Octets)
    requires keyType < 16 && valueType < 16 && 0 < size < MAX_LENGTH
    requires data == FieldHeader(0, id, MAP) + (MapHeader(size, keyType, valueType) + (body + [STOP]))
    ensures var start := |FieldHeader(0, id, MAP)| + |MapHeader(size, keyType, valueType)|;
      && At(data, start, body) && start + |body| == |data| - 1 && data[|data| - 1] == STOP
      && ReadsOn(data, start, keyType, valueType, size, id)
  {
    hide At, FieldHeader, MapHeader, ReadsOn;
    Layout(data, FieldHeader(0, id, MAP), MapHeader(size, keyType, valueType), body);
    HeadersRead(data, id, keyType, valueType, size);
  }

  /** The whole is read as whatever the entries are taken for, and then what follows them. */
  predicate ReadsOn(data: Octets, start: nat, keyType: byte, valueType: byte, size: nat, id: i16)
    requires start <= |data|
  {
    var r := ParseEntries(data, start, keyType, valueType, size, map[]);
    && (!r.Ok? ==> !ParseFields(data, 0, 0, map[]).Ok?)
    && (r.Ok? ==> ParseFields(data, 0, 0, map[]) == ParseFields(data, r.pos, id, map[id := DMap(r.value)]))
  }

  lemma HeadersRead(data: Octets, id: i16, keyType: byte, valueType: byte, size: nat)
    requires keyType < 16 && valueType < 16 && 0 < size < MAX_LENGTH
    requires At(data, 0, FieldHeader(0, id, MAP))
    requires At(data, |FieldHeader(0, id, MAP)|, MapHeader(size, keyType, valueType))
    ensures var start := |FieldHeader(0, id, MAP)| + |MapHeader(size, keyType, valueType)|;
            ReadsOn(data, start, keyType, valueType, size, id)
  {
    hide At, FieldHeader, MapHeader, ParseEntries, ParseFieldID, ParseFields, ParseValue, ParseMap;
    var header := FieldHeader(0, id, MAP);
    var start := |header| + |MapHeader(size, keyType, valueType)|;
    FieldHeaderRoundTrip(0, id, MAP, data, 0);
    MapRead(data, |header|, keyType, valueType, size, start);
    MapTyped(data, |header|);
    var r := ParseEntries(data, start, keyType, valueType, size, map[]);
    if r.Ok? {
      AfterFirstField(data, 0, 0, id, |header|, DMap(r.value), r.pos, map[]);
    } else {
      FieldFails(data, 0, 0, |header|, id, map[]);
    }
  }

  lemma MapTyped(data: Octets, pos: nat)
    requires pos <= |data|
    ensures match ParseMap(data, pos)
      case Ok(m, p) => ParseValue(data, pos, MAP) == Ok(DMap(m), p)
      case Err => ParseValue(data, pos, MAP) == Err
      case Panic => ParseValue(data, pos, MAP) == Panic
  {
    hide ParseMap;
  }

  lemma MapRead(data: Octets, pos: nat, keyType: byte, valueType: byte, size: nat, start: nat)
    requires pos <= |data| && 0 < size < MAX_LENGTH && keyType < 16 && valueType < 16
    requires At(data, pos, MapHeader(size, keyType, valueType))
    requires start == pos + |MapHeader(size, keyType, valueType)|
    ensures start <= |data| && ParseMap(data, pos) == ParseEntries(data, start, keyType, valueType, size, map[])
  {
    hide At, ParseEntries, ParseVarintFrom;
    MapHeaderRoundTrip(size, keyType, valueType, data, pos);
  }

  lemma FieldFails(data: Octets, pos: nat, previous: i16, start: nat, id: i16, acc: map<i16, Decoded>)
    requires pos < |data| && data[pos] != STOP
    requires ParseFieldID(data, pos + 1, previous, data[pos]) == Ok(id, start)
    requires start <= |data| && !ParseValue(data, start, data[pos] % 16).Ok?
    ensures !ParseFields(data, pos, previous, acc).Ok?
  {
    hide ParseFieldID, ParseValue;
  }

  /** Whatever the entries were first taken for, reading on does not end with just the map sent. */
  predicate Loses(
      data: Octets, start: nat, keyType: byte, valueType: byte, size: nat, id: i16, sent: map<Decoded, Decoded>)
    requires start <= |data|
  {
    var r := ParseEntries(data, start, keyType, valueType, size, map[]);
    r.Ok? ==> ParseFields(data, r.pos, id, map[id := DMap(r.value)]) != Ok(map[id := DMap(sent)], |data|)
  }

  lemma BodyAt(id: i16, keyKind: Kind, valueKind: Kind, entries: seq<Entry>)
    requires EncodeFields([MapField(id, keyKind, valueKind, entries)], 0).Some? && entries != []
    requires |entries| < MAX_LENGTH
    ensures TypeOf(keyKind).Some? && TypeOf(valueKind).Some? && EncodeEntries(keyKind, valueKind, entries).Some?
    ensures var data, start := StructBytes(id, keyKind, valueKind, entries), Start(id, keyKind, valueKind, entries);
      && At(data, start, EncodeEntries(keyKind, valueKind, entries).value)
      && start + |EncodeEntries(keyKind, valueKind, entries).value| == |data| - 1 && data[|data| - 1] == STOP
  {
    hide *;
    StructEncoded(id, keyKind, valueKind, entries);
    MapFieldRead(id, keyKind, valueKind, entries);
  }

  lemma LosesMeans(id: i16, keyKind: Kind, valueKind: Kind, entries: seq<Entry>)
    requires EncodeFields([MapField(id, keyKind, valueKind, entries)], 0).Some? && entries != []
    requires |entries| < MAX_LENGTH
    requires TypeOf(keyKind).Some? && TypeOf(valueKind).Some? && EncodeEntries(keyKind, valueKind, entries).Some?
    requires Start(id, keyKind, valueKind, entries) <= |StructBytes(id, keyKind, valueKind, entries)|
    ensures ComesBack(id, keyKind, valueKind, entries) <==>
      !Loses(StructBytes(id, keyKind, valueKind, entries), Start(id, keyKind, valueKind, entries),
             TypeOf(keyKind).value, TypeOf(valueKind).value, |entries|, id, Sent(keyKind, valueKind, entries))
  {
    hide ParseEntries, ParseFields, EncodeFields, EncodeEntries, TypeOf, Start, StructBytes, Sent, NormalFields;
    hide MapField;
    MapFieldRead(id, keyKind, valueKind, entries);
    NormalOfMap(id, keyKind, valueKind, entries);
  }

  // ---- Bool values under scalar keys

  predicate ScalarKind(kind: Kind) {
    kind.Byte? || kind.I16? || kind.I32? || kind.I64? || kind.Double? || kind.String? || kind.Binary?
  }

  function Keys(keyKind: Kind, entries: seq<Entry>): (r: seq<Decoded>)
    ensures |r| == |entries|
    ensures forall i | 0 <= i < |entries| :: r[i] == NormalKey(CompactCodec, keyKind, entries[i])
  {
    seq(|entries|, i requires 0 <= i < |entries| => NormalKey(CompactCodec, keyKind, entries[i]))
  }

  /** A scalar as written: it reads back, at its cost. */
  lemma WrittenScalar(kind: Kind, value: Value, data: Octets, pos: nat)
    requires ScalarKind(kind) && EncodeValue(kind, value, NO_SPEC).Some? && Sendable(kind, value, NO_SPEC)
    requires At(data, pos, EncodeValue(kind, value, NO_SPEC).value)
    ensures var d, end := Normal(CompactCodec, kind, value, NO_SPEC), pos + |EncodeValue(kind, value, NO_SPEC).value|;
      && end <= |data| && ScalarType(TypeOf(kind).value) && Scalar(d) && Fixed(d) == FixedType(TypeOf(kind).value)
      && ParseValue(data, pos, TypeOf(kind).value) == Ok(d, end)
      && Marked(data, pos, end, FixedType(TypeOf(kind).value)) == Cost(d) >= 1
  {
    KindType(kind);
    hide ParseValue, EncodeValue, Normal, Marked, Cost, Scalar, Fixed, Sendable, TypeOf, ScalarType, FixedType;
    ValueRoundTrip(kind, value, NO_SPEC, data, pos);
    ScalarCost(data, pos, TypeOf(kind).value);
  }

  lemma WrittenEntry(keyKind: Kind, entry: Entry, data: Octets, pos: nat)
    requires ScalarKind(keyKind) && EncodeEntry(keyKind, Bool, entry).Some? && Sendable(keyKind, entry.key, NO_SPEC)
    requires pos <= |data| && At(data, pos, EncodeEntry(keyKind, Bool, entry).value)
    ensures TypeOf(keyKind).Some? && ScalarType(TypeOf(keyKind).value)
    ensures var k, all, end := NormalKey(CompactCodec, keyKind, entry), FixedType(TypeOf(keyKind).value),
                               pos + |EncodeEntry(keyKind, Bool, entry).value|;
      && end <= |data| && Scalar(k) && Fixed(k) == all && Marked(data, pos, end, all) == Cost(k) + 1
  {
    hide At, ScalarType, Scalar, Fixed, FixedType, Cost, TypeOf, Sendable, Marked, Normal, EncodeValue;
    KindType(keyKind);
    var key, b := EncodeValue(keyKind, entry.key, NO_SPEC).value, EncodeValue(Bool, entry.item, NO_SPEC).value;
    BoolByte(entry.item);
    AtSplit(data, pos, key, b);
    AtOneByte(data, pos + |key|, b);
    WrittenScalar(keyKind, entry.key, data, pos);
    KeyIsNormal(keyKind, entry);
    var all := FixedType(TypeOf(keyKind).value);
    MarkedLow(data, pos + |key|, all);
    MarkedSplit(data, pos, pos + |key|, pos + |key| + 1, all);
  }

  /** The keys cost what they cost, and every Bool value one byte more. */
  lemma {:induction false} WrittenEntries(keyKind: Kind, entries: seq<Entry>, data: Octets, pos: nat)
    requires ScalarKind(keyKind) && EncodeEntries(keyKind, Bool, entries).Some?
    requires SendableEntries(keyKind, Bool, entries)
    requires pos <= |data| && At(data, pos, EncodeEntries(keyKind, Bool, entries).value)
    ensures TypeOf(keyKind).Some? && ScalarType(TypeOf(keyKind).value)
    ensures var all, end := FixedType(TypeOf(keyKind).value), pos + |EncodeEntries(keyKind, Bool, entries).value|;
      && end <= |data| && AllScalar(Keys(keyKind, entries), all)
      && Marked(data, pos, end, all) == SumCost(Keys(keyKind, entries)) + |entries|
    decreases entries
  {
    hide At, ScalarType, Scalar, Fixed, FixedType, Cost, TypeOf, NormalKey, EncodeEntry, Sendable;
    KindType(keyKind);
    if entries != [] {
      hide Marked;
      var all := FixedType(TypeOf(keyKind).value);
      var first, rest := EncodeEntry(keyKind, Bool, entries[0]).value, EncodeEntries(keyKind, Bool, entries[1..]).value;
      AtSplit(data, pos, first, rest);
      WrittenEntry(keyKind, entries[0], data, pos);
      WrittenEntries(keyKind, entries[1..], data, pos + |first|);
      MarkedSplit(data, pos, pos + |first|, pos + |first| + |rest|, all);
      assert Keys(keyKind, entries)[1..] == Keys(keyKind, entries[1..]);
      ConsScalar(Keys(keyKind, entries), all);
      SumCons(Keys(keyKind, entries));
      hide SumCost;
    }
  }

  lemma KeyIsNormal(keyKind: Kind, entry: Entry)
    ensures NormalKey(CompactCodec, keyKind, entry) == Normal(CompactCodec, keyKind, entry.key, NO_SPEC)
  {}

  lemma ConsScalar(need: seq<Decoded>, all: bool)
    requires need != [] && Scalar(need[0]) && Fixed(need[0]) == all && AllScalar(need[1..], all)
    ensures AllScalar(need, all)
  {}

  lemma SumCons(need: seq<Decoded>)
    requires need != []
    ensures SumCost(need) == Cost(need[0]) + SumCost(need[1..])
  {}

  lemma KindType(kind: Kind)
    requires ScalarKind(kind)
    ensures TypeOf(kind).Some? && ScalarType(TypeOf(kind).value)
  {}

  lemma BoolByte(value: Value)
    requires EncodeValue(Bool, value, NO_SPEC).Some?
    ensures EncodeValue(Bool, value, NO_SPEC).value == [TRUE] || EncodeValue(Bool, value, NO_SPEC).value == [FALSE]
  {}

  lemma AtOneByte(data: Octets, pos: nat, b: Octets)
    requires At(data, pos, b) && (b == [TRUE] || b == [FALSE])
    ensures pos < |data| && data[pos] == b[0] < 0x80
  {
    assert data[pos..pos + 1][0] == b[0];
  }

  /** What is sent has the keys of its entries. */
  lemma SentKeys(keyKind: Kind, valueKind: Kind, entries: seq<Entry>)
    requires MapOrder.DistinctKeys(CompactCodec, keyKind, entries)
    ensures Distinct(Keys(keyKind, entries))
    ensures forall k | k in Keys(keyKind, entries) :: k in Sent(keyKind, valueKind, entries)
  {
    hide NormalKey, NormalEntries;
    forall k | k in Keys(keyKind, entries)
      ensures k in Sent(keyKind, valueKind, entries)
    {
      var i :| 0 <= i < |entries| && Keys(keyKind, entries)[i] == k;
      MapOrder.EntryFound(CompactCodec, keyKind, valueKind, entries, map[], i);
    }
  }

  /** A non-empty map read at `q`, behind `c` and before the final STOP byte: besides its entries its
      size and that byte are marked. */
  lemma MapSpan(data: Octets, c: nat, q: nat, all: bool)
    requires c < q < |data| && data[|data| - 1] == STOP
    requires ParseMap(data, q).Ok? && ParseMap(data, q).pos < |data| && ParseMap(data, q).value != map[]
    ensures ParseVarint(data, q).Ok? && ParseVarint(data, q).pos < |data|
    ensures var size, types := ParseVarint(data, q), data[ParseVarint(data, q).pos];
      && ParseMap(data, q) == ParseEntries(data, size.pos + 1, types / 16, types % 16, size.value, map[])
      && size.pos + 1 <= ParseMap(data, q).pos
      && Marked(data, c, |data|, all) >= Marked(data, size.pos + 1, ParseMap(data, q).pos, all) + 2
  {
    hide ParseEntries, ParseVarintFrom, Marked;
    var size, end := ParseVarint(data, q), ParseMap(data, q).pos;
    SizeMarked(data, q, all);
    MarkedLow(data, |data| - 1, all);
    MarkedSplit(data, c, q, |data|, all);
    MarkedSplit(data, q, size.pos, |data|, all);
    MarkedSplit(data, size.pos, size.pos + 1, |data|, all);
    MarkedSplit(data, size.pos + 1, end, |data|, all);
    MarkedSplit(data, end, |data| - 1, |data|, all);
  }

  /** Reading the keys sent a second time takes what they cost, and two. */
  lemma SecondReading(data: Octets, c: nat, q: nat, need: seq<Decoded>, all: bool)
    requires c < q < |data| && data[|data| - 1] == STOP && need != [] && AllScalar(need, all) && Distinct(need)
    requires ParseMap(data, q).Ok? && ParseMap(data, q).pos < |data|
    requires forall k | k in need :: k in ParseMap(data, q).value
    ensures Marked(data, c, |data|, all) >= SumCost(need) + 2
  {
    hide ParseEntries, ParseVarint, ParseMap, Marked, SumCost, AllScalar, Distinct;
    assert need[0] in need;
    MapSpan(data, c, q, all);
    var size, types := ParseVarint(data, q), data[ParseVarint(data, q).pos];
    KeysCost(data, size.pos + 1, types / 16, types % 16, size.value, map[], need, all);
  }

  /** The counting: as many keys cannot have been read again in fewer bytes. */
  lemma CannotReadBack(
      data: Octets, start: nat, keyType: byte, id: i16, need: seq<Decoded>, all: bool, sent: map<Decoded, Decoded>)
    requires start < |data| && data[|data| - 1] == STOP && ScalarType(keyType) && FixedType(keyType) == all
    requires need != [] && AllScalar(need, all) && Distinct(need) && forall k | k in need :: k in sent
    requires Marked(data, start, |data| - 1, all) == SumCost(need) + |need|
    ensures Loses(data, start, keyType, TRUE, |need|, id, sent)
  {
    hide ParseEntries, ParseFields, ParseMap, Marked, SumCost, ScalarType, FixedType, Distinct, AllScalar;
    var r := ParseEntries(data, start, keyType, TRUE, |need|, map[]);
    if r.Ok? && ParseFields(data, r.pos, id, map[id := DMap(r.value)]) == Ok(map[id := DMap(sent)], |data|) {
      var q := OnlyFieldRead(data, r.pos, id, map[id := DMap(r.value)], id, sent);
      MarkedLow(data, |data| - 1, all);
      MarkedSplit(data, start, |data| - 1, |data|, all);
      MarkedSplit(data, start, r.pos, |data|, all);
      if q == r.pos {
        OneField(id, r.value, sent);
        KeysCostExactly(data, start, keyType, |need|, map[], need, all);
      } else {
        NoneNeeded(all);
        KeysCostExactly(data, start, keyType, |need|, map[], [], all);
        SecondReading(data, r.pos, q, need, all);
      }
    }
  }

  lemma NoneNeeded(all: bool)
    ensures Distinct([]) && AllScalar([], all)
  {}

  lemma BoolValuesFail(id: i16, keyKind: Kind, entries: seq<Entry>)
    requires ScalarKind(keyKind) && entries != [] && |entries| < MAX_LENGTH
    requires EncodeFields([MapField(id, keyKind, Bool, entries)], 0).Some? && SendableEntries(keyKind, Bool, entries)
    requires MapOrder.DistinctKeys(CompactCodec, keyKind, entries)
    ensures !ComesBack(id, keyKind, Bool, entries)
  {
    hide *;
    BodyAt(id, keyKind, Bool, entries);
    BoolType();
    var data, start := StructBytes(id, keyKind, Bool, entries), Start(id, keyKind, Bool, entries);
    WrittenEntries(keyKind, entries, data, start);
    SentKeys(keyKind, Bool, entries);
    CannotReadBack(data, start, TypeOf(keyKind).value, id, Keys(keyKind, entries), FixedType(TypeOf(keyKind).value),
                   Sent(keyKind, Bool, entries));
    LosesMeans(id, keyKind, Bool, entries);
  }

  lemma OneField(id: i16, a: map<Decoded, Decoded>, b: map<Decoded, Decoded>)
    requires map[id := DMap(a)] == map[id := DMap(b)]
    ensures a == b
  {
    assert map[id := DMap(a)][id] == map[id := DMap(b)][id];
  }

  lemma BoolType()
    ensures TypeOf(Bool) == Some(TRUE)
  {}

  // ---- Bool keys

  lemma OneSent(keyKind: Kind, valueKind: Kind, entry: Entry)
    ensures Sent(keyKind, valueKind, [entry])
         == map[NormalKey(CompactCodec, keyKind, entry) := NormalItem(CompactCodec, valueKind, entry)]
    ensures Sent(keyKind, valueKind, [entry]) != map[]
  {
    hide NormalKey, NormalItem;
    var k, v := NormalKey(CompactCodec, keyKind, entry), NormalItem(CompactCodec, valueKind, entry);
    NothingSent(keyKind, valueKind, map[k := v]);
    assert [entry][1..] == [] && [entry][0] == entry;
    assert Sent(keyKind, valueKind, [entry])
      == NormalEntries(CompactCodec, keyKind, valueKind, [entry][1..], map[k := v]);
    hide NormalEntries;
    assert k in map[k := v];
  }

  lemma NothingSent(keyKind: Kind, valueKind: Kind, acc: map<Decoded, Decoded>)
    ensures NormalEntries(CompactCodec, keyKind, valueKind, [], acc) == acc
  {}

  /** The same counting for one scalar value under a Bool key. */
  lemma CannotReadValueBack(
      data: Octets, start: nat, valueType: byte, id: i16, k: Decoded, v: Decoded, all: bool)
    requires start < |data| && data[|data| - 1] == STOP && ScalarType(valueType) && FixedType(valueType) == all
    requires Scalar(v) && Fixed(v) == all && Marked(data, start, |data| - 1, all) == Cost(v) + 1
    ensures Loses(data, start, TRUE, valueType, 1, id, map[k := v])
  {
    hide ParseEntries, ParseFields, ParseMap, Marked, Cost, Scalar, Fixed, ScalarType, FixedType;
    var r, sent := ParseEntries(data, start, TRUE, valueType, 1, map[]), map[k := v];
    if r.Ok? && ParseFields(data, r.pos, id, map[id := DMap(r.value)]) == Ok(map[id := DMap(sent)], |data|) {
      var q := OnlyFieldRead(data, r.pos, id, map[id := DMap(r.value)], id, sent);
      var x := ParseValue(data, start, valueType);
      OneEntryRead(data, start, valueType);
      ScalarCost(data, start, valueType);
      hide ParseValue;
      if q == r.pos {
        OneField(id, r.value, sent);
        SameSingleton(DBool(true), x.value, k, v);
      } else {
        MapHolding(data, r.pos, q, k, v, all);
        MarkedLow(data, |data| - 1, all);
        MarkedSplit(data, start, |data| - 1, |data|, all);
        MarkedSplit(data, start, r.pos, |data|, all);
      }
    }
  }

  /** A map read from `q` that holds the scalar `v` takes its cost, and two more marked bytes. */
  lemma MapHolding(data: Octets, c: nat, q: nat, k: Decoded, v: Decoded, all: bool)
    requires c < q < |data| && data[|data| - 1] == STOP && Scalar(v) && Fixed(v) == all
    requires ParseMap(data, q).Ok? && ParseMap(data, q).pos < |data| && ParseMap(data, q).value == map[k := v]
    ensures Marked(data, c, |data|, all) >= Cost(v) + 2
  {
    hide ParseEntries, ParseMap, ParseVarintFrom, Marked, Cost, Scalar, Fixed;
    assert k in map[k := v];
    MapSpan(data, c, q, all);
    var size, types := ParseVarint(data, q), data[ParseVarint(data, q).pos];
    ValueCost(data, size.pos + 1, types / 16, types % 16, size.value, map[], k);
  }

  lemma OneEntryRead(data: Octets, start: nat, valueType: byte)
    requires start <= |data| && ParseEntries(data, start, TRUE, valueType, 1, map[]).Ok?
    ensures var x, r := ParseValue(data, start, valueType), ParseEntries(data, start, TRUE, valueType, 1, map[]);
      x.Ok? && r.value == map[DBool(true) := x.value] && r.pos == x.pos
  {
    hide ParseEntries;
    EntryStep(data, start, TRUE, valueType, 1, map[]);
    var x := ParseValue(data, start, valueType);
    NoEntries(data, x.pos, TRUE, valueType, map[DBool(true) := x.value]);
  }

  lemma SameSingleton(a: Decoded, x: Decoded, b: Decoded, y: Decoded)
    requires map[a := x] == map[b := y]
    ensures a == b && x == y
  {
    assert a in map[b := y];
    assert map[a := x][a] == map[b := y][a];
  }

  lemma BoolKeyScalarFails(id: i16, valueKind: Kind, entry: Entry)
    requires ScalarKind(valueKind) && SendableEntries(Bool, valueKind, [entry])
    requires EncodeFields([MapField(id, Bool, valueKind, [entry])], 0).Some?
    ensures !ComesBack(id, Bool, valueKind, [entry])
  {
    assert |[entry]| == 1 < MAX_LENGTH;
    hide *;
    BodyAt(id, Bool, valueKind, [entry]);
    BoolType();
    KindType(valueKind);
    var data, start := StructBytes(id, Bool, valueKind, [entry]), Start(id, Bool, valueKind, [entry]);
    WrittenUnderBool(valueKind, entry, data, start);
    OneSent(Bool, valueKind, entry);
    CannotReadValueBack(data, start, TypeOf(valueKind).value, id, NormalKey(CompactCodec, Bool, entry),
                        NormalItem(CompactCodec, valueKind, entry), FixedType(TypeOf(valueKind).value));
    LosesMeans(id, Bool, valueKind, [entry]);
  }

  lemma WrittenUnderBool(valueKind: Kind, entry: Entry, data: Octets, pos: nat)
    requires ScalarKind(valueKind) && SendableEntries(Bool, valueKind, [entry])
    requires EncodeEntries(Bool, valueKind, [entry]).Some?
    requires pos <= |data| && At(data, pos, EncodeEntries(Bool, valueKind, [entry]).value) && TypeOf(valueKind).Some?
    ensures var v, all, end := NormalItem(CompactCodec, valueKind, entry), FixedType(TypeOf(valueKind).value),
                               pos + |EncodeEntries(Bool, valueKind, [entry]).value|;
      && end <= |data| && Scalar(v) && Fixed(v) == all && Marked(data, pos, end, all) == Cost(v) + 1
  {
    hide At, ScalarType, Scalar, Fixed, FixedType, Cost, TypeOf, Marked, Normal, EncodeValue, Sendable;
    OneEntryBytes(Bool, valueKind, entry);
    var key, item := EncodeValue(Bool, entry.key, NO_SPEC).value, EncodeValue(valueKind, entry.item, NO_SPEC).value;
    BoolByte(entry.key);
    AtSplit(data, pos, key, item);
    AtOneByte(data, pos, key);
    WrittenScalar(valueKind, entry.item, data, pos + 1);
    ItemIsNormal(valueKind, entry);
    var all := FixedType(TypeOf(valueKind).value);
    MarkedLow(data, pos, all);
    MarkedSplit(data, pos, pos + 1, pos + 1 + |item|, all);
  }

  lemma ItemIsNormal(valueKind: Kind, entry: Entry)
    ensures NormalItem(CompactCodec, valueKind, entry) == Normal(CompactCodec, valueKind, entry.item, NO_SPEC)
  {}

  lemma OneEntryBytes(keyKind: Kind, valueKind: Kind, entry: Entry)
    requires EncodeEntries(keyKind, valueKind, [entry]).Some?
    ensures var key, item := EncodeValue(keyKind, entry.key, NO_SPEC), EncodeValue(valueKind, entry.item, NO_SPEC);
      key.Some? && item.Some? && EncodeEntries(keyKind, valueKind, [entry]).value == key.value + item.value
    ensures SendableEntries(keyKind, valueKind, [entry]) ==> Sendable(valueKind, entry.item, NO_SPEC)
  {
    hide EncodeValue, Sendable, NormalKey;
    assert [entry][1..] == [] && [entry][0] == entry;
    assert SendableEntries(keyKind, valueKind, [entry]) ==> SendableEntry(keyKind, valueKind, [entry][0]);
    assert EncodeEntries(keyKind, valueKind, [entry][1..]) == Some([]);
  }

  /** A map with both Bool keys is never read: all its keys would be read alike. */
  lemma BothKeysLost(data: Octets, start: nat, valueType: byte, size: nat, id: i16, sent: map<Decoded, Decoded>)
    requires start <= |data| && DBool(true) in sent && DBool(false) in sent
    ensures Loses(data, start, TRUE, valueType, size, id, sent)
  {
    hide ParseEntries, ParseFields, ParseMap;
    var r := ParseEntries(data, start, TRUE, valueType, size, map[]);
    if r.Ok? && ParseFields(data, r.pos, id, map[id := DMap(r.value)]) == Ok(map[id := DMap(sent)], |data|) {
      var q := OnlyFieldRead(data, r.pos, id, map[id := DMap(r.value)], id, sent);
      if q == r.pos {
        OneField(id, r.value, sent);
        BoolKeysAlike(data, start, TRUE, valueType, size, map[], false);
      } else {
        MapEntriesRead(data, q);
        var size, types := ParseVarint(data, q), data[ParseVarint(data, q).pos];
        BoolKeysAlike(data, size.pos + 1, types / 16, types % 16, size.value, map[], true);
        BoolKeysAlike(data, size.pos + 1, types / 16, types % 16, size.value, map[], false);
      }
    }
  }

  lemma MapEntriesRead(data: Octets, q: nat)
    requires q <= |data| && ParseMap(data, q).Ok? && ParseMap(data, q).value != map[]
    ensures ParseVarint(data, q).Ok? && ParseVarint(data, q).pos < |data|
    ensures var size, types := ParseVarint(data, q), data[ParseVarint(data, q).pos];
      ParseMap(data, q) == ParseEntries(data, size.pos + 1, types / 16, types % 16, size.value, map[])
  {
    hide ParseEntries, ParseVarintFrom;
  }

  lemma TwoBoolKeysFail(id: i16, valueKind: Kind, entries: seq<Entry>)
    requires 2 <= |entries| < MAX_LENGTH && MapOrder.DistinctKeys(CompactCodec, Bool, entries)
    requires EncodeFields([MapField(id, Bool, valueKind, entries)], 0).Some?
    ensures !ComesBack(id, Bool, valueKind, entries)
  {
    hide *;
    BodyAt(id, Bool, valueKind, entries);
    BoolType();
    BothKeys(valueKind, entries);
    BothKeysLost(StructBytes(id, Bool, valueKind, entries), Start(id, Bool, valueKind, entries),
                 TypeOf(valueKind).value, |entries|, id, Sent(Bool, valueKind, entries));
    LosesMeans(id, Bool, valueKind, entries);
  }

  lemma BothKeys(valueKind: Kind, entries: seq<Entry>)
    requires |entries| >= 2 && MapOrder.DistinctKeys(CompactCodec, Bool, entries)
    requires EncodeEntries(Bool, valueKind, entries).Some?
    ensures DBool(true) in Sent(Bool, valueKind, entries) && DBool(false) in Sent(Bool, valueKind, entries)
  {
    hide NormalEntries, EncodeValue;
    BoolKey(valueKind, entries[0]);
    assert EncodeEntry(Bool, valueKind, entries[1..][0]).Some?;
    BoolKey(valueKind, entries[1]);
    assert NormalKey(CompactCodec, Bool, entries[0]) != NormalKey(CompactCodec, Bool, entries[1]);
    MapOrder.EntryFound(CompactCodec, Bool, valueKind, entries, map[], 0);
    MapOrder.EntryFound(CompactCodec, Bool, valueKind, entries, map[], 1);
  }

  lemma BoolKey(valueKind: Kind, entry: Entry)
    requires EncodeEntry(Bool, valueKind, entry).Some?
    ensures NormalKey(CompactCodec, Bool, entry).DBool?
  {}

  // ---- Bool keys over values that take no bytes to read

  /** After a byte below 0x80 only bytes below 16 follow: nothing there reads as a non-empty map. */
  predicate Tame(data: Octets, p: nat) {
    forall i | p <= i < |data| - 1 :: data[i] < 0x80 ==> data[i + 1] < 16
  }

  lemma {:induction false} VarintEnds(data: Octets, pos: nat, step: nat, acc: u64)
    requires pos <= |data| && acc < Pow128(step) && ParseVarintFrom(data, pos, step, acc).Ok?
    ensures data[ParseVarintFrom(data, pos, step, acc).pos - 1] < 0x80
    decreases |data| - pos
  {
    var b := data[pos];
    VarintStep(acc, b, step);
    if b >= 0x80 {
      VarintEnds(data, pos + 1, step + 1, acc + Shifted(b % 0x80, step) % 0x1_0000_0000_0000_0000);
    }
  }

  lemma NoMapInTame(data: Octets, p: nat, q: nat)
    requires p <= q <= |data| && Tame(data, p) && ParseMap(data, q).Ok?
    ensures ParseMap(data, q).value == map[]
  {
    hide ParseEntries, ParseVarintFrom;
    if ParseMap(data, q).value != map[] {
      MapEntriesRead(data, q);
      VarintEnds(data, q, 0, 0);
      var size := ParseVarint(data, q);
      assert data[size.pos] < 16;
      NoEntries(data, size.pos + 1, 0, data[size.pos] % 16, map[]);
      TypelessKeysFail(data, size.pos + 1, data[size.pos] % 16, size.value, map[]);
    }
  }

  lemma TypelessKeysFail(data: Octets, pos: nat, valueType: byte, size: nat, acc: map<Decoded, Decoded>)
    requires pos <= |data|
    ensures size > 0 ==> !ParseEntries(data, pos, 0, valueType, size, acc).Ok?
  {
    hide ParseEntries;
    if ParseEntries(data, pos, 0, valueType, size, acc).Ok? && size > 0 {
      EntryStep(data, pos, 0, valueType, size, acc);
    }
  }

  lemma TameLoses(data: Octets, start: nat, valueType: byte, size: nat, id: i16, sent: map<Decoded, Decoded>)
    requires start <= |data| && sent != map[]
    requires var r := ParseEntries(data, start, TRUE, valueType, size, map[]);
      r.Ok? ==> r.pos < |data| && Tame(data, r.pos) && data[r.pos] != STOP
    ensures Loses(data, start, TRUE, valueType, size, id, sent)
  {
    hide ParseEntries, ParseFields, ParseMap, Tame;
    var r := ParseEntries(data, start, TRUE, valueType, size, map[]);
    if r.Ok? && ParseFields(data, r.pos, id, map[id := DMap(r.value)]) == Ok(map[id := DMap(sent)], |data|) {
      var q := OnlyFieldRead(data, r.pos, id, map[id := DMap(r.value)], id, sent);
      if q > r.pos {
        NoMapInTame(data, r.pos, q);
      }
    }
  }

  /** What a Bool key and its value come to in bytes, when the value is a Bool or an empty container. */
  lemma SmallValueBytes(valueKind: Kind, entry: Entry)
    requires valueKind.Bool? || valueKind.List? || valueKind.Set? || valueKind.Map?
    requires SendableEntries(Bool, valueKind, [entry]) && EncodeEntries(Bool, valueKind, [entry]).Some?
    ensures var s := EncodeEntries(Bool, valueKind, [entry]).value;
      && |s| == 2 && 1 <= s[0] <= 2
      && if valueKind.Map? then s[1] == 0 else 1 <= s[1] <= 2
  {
    OneEntryBytes(Bool, valueKind, entry);
    BoolByte(entry.key);
    match valueKind {
      case Bool => BoolByte(entry.item);
      case List | Set => EmptyListBytes();
      case Map => assert EncodeValue(Map, entry.item, NO_SPEC) == Some([0]) by { EmptyMapBytes(); }
    }
  }

  lemma EmptyListBytes()
    ensures EncodeList(Bool, []) == Some([TRUE])
  {
    assert ListHeader(0, TRUE) + [] == [TRUE];
  }

  lemma EmptyMapBytes()
    ensures EncodeMap(Bool, Bool, []) == Some([0])
  {}

  lemma BoolKeySmallValueFails(id: i16, valueKind: Kind, entry: Entry)
    requires valueKind.Bool? || valueKind.List? || valueKind.Set? || valueKind.Map?
    requires SendableEntries(Bool, valueKind, [entry])
    requires EncodeFields([MapField(id, Bool, valueKind, [entry])], 0).Some?
    ensures !ComesBack(id, Bool, valueKind, [entry])
  {
    assert |[entry]| == 1 < MAX_LENGTH;
    hide *;
    BodyAt(id, Bool, valueKind, [entry]);
    BoolType();
    SmallValueBytes(valueKind, entry);
    OneSent(Bool, valueKind, entry);
    var data, start := StructBytes(id, Bool, valueKind, [entry]), Start(id, Bool, valueKind, [entry]);
    SmallValueRead(data, start, valueKind, EncodeEntries(Bool, valueKind, [entry]).value);
    TameLoses(data, start, TypeOf(valueKind).value, 1, id, Sent(Bool, valueKind, [entry]));
    LosesMeans(id, Bool, valueKind, [entry]);
  }

  lemma SmallValueRead(data: Octets, start: nat, valueKind: Kind, s: Octets)
    requires valueKind.Bool? || valueKind.List? || valueKind.Set? || valueKind.Map?
    requires |s| == 2 && 1 <= s[0] <= 2 && if valueKind.Map? then s[1] == 0 else 1 <= s[1] <= 2
    requires At(data, start, s) && start + 3 == |data| && data[|data| - 1] == STOP
    ensures TypeOf(valueKind).Some?
    ensures var r := ParseEntries(data, start, TRUE, TypeOf(valueKind).value, 1, map[]);
      r.Ok? ==> r.pos < |data| && Tame(data, r.pos) && data[r.pos] != STOP
  {
    hide ParseEntries, ParseFields, ParseVarintFrom;
    assert data[start] == data[start..start + 2][0] && data[start + 1] == data[start..start + 2][1];
    var valueType := TypeOf(valueKind).value;
    if ParseEntries(data, start, TRUE, valueType, 1, map[]).Ok? {
      OneEntryRead(data, start, valueType);
      if valueKind.List? || valueKind.Set? {
        NoBools(data, start + 1, data[start] % 16);
      } else if valueKind.Map? {
        SmallVarint(data, start);
        TypelessKeysFail(data, start + 2, 0, data[start], map[]);
      }
    }
  }

  lemma NoBools(data: Octets, pos: nat, ctype: byte)
    requires pos <= |data|
    ensures ParseItems(data, pos, ctype, 0, []) == Ok([], pos)
  {}

  // ---- The theorem

  /** No non-empty map with Bool keys or values comes back as the only field of a struct, its keys and
      values being sendable and its keys distinct; the one exception is a single struct under a Bool
      key, which `StructUnderTrue` shows can. */
  lemma BoolMapNeverComesBack(id: i16, keyKind: Kind, valueKind: Kind, entries: seq<Entry>)
    requires keyKind.Bool? || valueKind.Bool?
    requires entries != [] && |entries| < MAX_LENGTH && SendableEntries(keyKind, valueKind, entries)
    requires MapOrder.DistinctKeys(CompactCodec, keyKind, entries)
    requires EncodeFields([MapField(id, keyKind, valueKind, entries)], 0).Some?
    requires keyKind.Bool? && valueKind.Struct? ==> |entries| > 1
    ensures !ComesBack(id, keyKind, valueKind, entries)
  {
    hide ComesBack, EncodeFields, SendableEntries;
    if !keyKind.Bool? {
      HashableKind(id, keyKind, valueKind, entries);
      BoolValuesFail(id, keyKind, entries);
    } else if |entries| > 1 {
      TwoBoolKeysFail(id, valueKind, entries);
    } else {
      assert entries == [entries[0]];
      KindOfValue(id, keyKind, valueKind, entries);
      if ScalarKind(valueKind) {
        BoolKeyScalarFails(id, valueKind, entries[0]);
      } else {
        BoolKeySmallValueFails(id, valueKind, entries[0]);
      }
    }
  }

  lemma KindOfValue(id: i16, keyKind: Kind, valueKind: Kind, entries: seq<Entry>)
    requires EncodeFields([MapField(id, keyKind, valueKind, entries)], 0).Some? && entries != []
    ensures !valueKind.Unsupported?
  {
    hide FieldHeader;
    StructEncoded(id, keyKind, valueKind, entries);
  }

  /** A key that decodes to something hashable is a scalar or a Bool. */
  lemma HashableKind(id: i16, keyKind: Kind, valueKind: Kind, entries: seq<Entry>)
    requires EncodeFields([MapField(id, keyKind, valueKind, entries)], 0).Some? && entries != [] && !keyKind.Bool?
    requires SendableEntries(keyKind, valueKind, entries)
    ensures ScalarKind(keyKind)
  {
    StructEncoded(id, keyKind, valueKind, entries);
    assert EncodeEntry(keyKind, valueKind, entries[0]).Some?;
    KeyIsNormal(keyKind, entries[0]);
    assert Hashable(NormalKey(CompactCodec, keyKind, entries[0]));
  }

  // ---- The exception

  /** A single struct under a Bool key is read again from one byte early. If the key is true and that
      gives the same struct and ends where it ends, the map comes back; if it comes back otherwise, the
      whole map has been read from a later place among the struct's own bytes. Module StructMaps says for
      which structs that can happen. */
  lemma StructUnderBool(id: i16, entry: Entry)
    requires EncodeFields([MapField(id, Bool, Struct, [entry])], 0).Some?
    ensures var data, start := StructBytes(id, Bool, Struct, [entry]), StructStart(id);
      && start < |data|
      && (entry.key == Boolean(true) && ReadsEarly(data, start, entry) ==> ComesBack(id, Bool, Struct, [entry]))
      && (ComesBack(id, Bool, Struct, [entry]) ==>
            || (entry.key == Boolean(true) && ReadsEarly(data, start, entry))
            || exists q :: ReadFrom(data, start, q, Sent(Bool, Struct, [entry])))
  {
    assert |[entry]| == 1 < MAX_LENGTH;
    StartOfStruct(id, entry);
    hide *;
    BodyAt(id, Bool, Struct, [entry]);
    OneSent(Bool, Struct, entry);
    BoolKeyValue(Struct, entry);
    LosesMeans(id, Bool, Struct, [entry]);
    var data, start := StructBytes(id, Bool, Struct, [entry]), StructStart(id);
    var k, v := NormalKey(CompactCodec, Bool, entry), NormalItem(CompactCodec, Struct, entry);
    EarlyMeans(data, start, entry);
    SingleReading(data, start, id, k, v);
  }

  /** Where the entry of a one-entry map from Bool to structs begins. */
  function StructStart(id: i16): nat { |FieldHeader(0, id, MAP)| + |MapHeader(1, TRUE, STRUCT)| }

  /** From the key's own byte on the same struct is read, and it ends where the sent one ends. */
  predicate ReadsEarly(data: Octets, start: nat, entry: Entry)
    requires start < |data|
  {
    ParseValue(data, start, STRUCT) == Ok(NormalItem(CompactCodec, Struct, entry), |data| - 1)
  }

  lemma EarlyMeans(data: Octets, start: nat, entry: Entry)
    requires start < |data|
    ensures ReadsEarly(data, start, entry)
        <==> ParseValue(data, start, STRUCT) == Ok(NormalItem(CompactCodec, Struct, entry), |data| - 1)
  {
    hide ParseValue, NormalItem;
  }

  lemma StartOfStruct(id: i16, entry: Entry)
    ensures TypeOf(Bool) == Some(TRUE) && TypeOf(Struct) == Some(STRUCT)
    ensures Start(id, Bool, Struct, [entry]) == StructStart(id)
  {}

  lemma SingleReading(data: Octets, start: nat, id: i16, k: Decoded, v: Decoded)
    requires start < |data| && data[|data| - 1] == STOP
    ensures var early := k == DBool(true) && ParseValue(data, start, STRUCT) == Ok(v, |data| - 1);
      && (early ==> !Loses(data, start, TRUE, STRUCT, 1, id, map[k := v]))
      && (!Loses(data, start, TRUE, STRUCT, 1, id, map[k := v]) ==>
            early || exists q :: ReadFrom(data, start, q, map[k := v]))
  {
    hide ParseEntries, ParseFields, ParseValue, ReadFrom;
    if k == DBool(true) && ParseValue(data, start, STRUCT) == Ok(v, |data| - 1) {
      EarlyReading(data, start, id, v);
    }
    if !Loses(data, start, TRUE, STRUCT, 1, id, map[k := v]) {
      LateReading(data, start, id, k, v);
    }
  }

  lemma EarlyReading(data: Octets, start: nat, id: i16, v: Decoded)
    requires start < |data| && data[|data| - 1] == STOP && ParseValue(data, start, STRUCT) == Ok(v, |data| - 1)
    ensures var r := ParseEntries(data, start, TRUE, STRUCT, 1, map[]);
      && r == Ok(map[DBool(true) := v], |data| - 1)
      && ParseFields(data, r.pos, id, map[id := DMap(r.value)]) == Ok(map[id := DMap(map[DBool(true) := v])], |data|)
  {
    hide ParseEntries, ParseFields, ParseValue;
    OneEntryReads(data, start, STRUCT);
    StopEnds(data, |data| - 1, id, map[id := DMap(map[DBool(true) := v])]);
  }

  lemma LateReading(data: Octets, start: nat, id: i16, k: Decoded, v: Decoded)
    requires start < |data| && ParseEntries(data, start, TRUE, STRUCT, 1, map[]).Ok?
    requires var r := ParseEntries(data, start, TRUE, STRUCT, 1, map[]);
      ParseFields(data, r.pos, id, map[id := DMap(r.value)]) == Ok(map[id := DMap(map[k := v])], |data|)
    ensures || (k == DBool(true) && ParseValue(data, start, STRUCT) == Ok(v, |data| - 1))
            || exists q :: ReadFrom(data, start, q, map[k := v])
  {
    hide ParseEntries, ParseFields, ParseValue, ParseMap;
    var r, sent := ParseEntries(data, start, TRUE, STRUCT, 1, map[]), map[k := v];
    OneEntryRead(data, start, STRUCT);
    StructReadOn(data, start);
    var q := OnlyFieldRead(data, r.pos, id, map[id := DMap(r.value)], id, sent);
    if q == r.pos {
      OneField(id, r.value, sent);
      SameSingleton(DBool(true), ParseValue(data, start, STRUCT).value, k, v);
    } else {
      assert ReadFrom(data, start, q, sent);
    }
  }

  lemma StructReadOn(data: Octets, start: nat)
    requires start <= |data| && ParseValue(data, start, STRUCT).Ok?
    ensures start < ParseValue(data, start, STRUCT).pos
  {
    hide ParseFields;
  }

  predicate ReadFrom(data: Octets, start: nat, q: nat, sent: map<Decoded, Decoded>) {
    start + 1 < q < |data| && ParseMap(data, q).Ok? && ParseMap(data, q).value == sent && ParseMap(data, q).pos < |data|
  }

  lemma BoolKeyValue(valueKind: Kind, entry: Entry)
    requires EncodeEntries(Bool, valueKind, [entry]).Some?
    ensures NormalKey(CompactCodec, Bool, entry) == DBool(true) <==> entry.key == Boolean(true)
    ensures NormalKey(CompactCodec, Bool, entry).DBool?
  {
    hide EncodeValue;
    OneEntryBytes(Bool, valueKind, entry);
    KeyIsNormal(Bool, entry);
    assert entry.key.Boolean? by { BooleanOnly(entry.key); }
  }

  lemma BooleanOnly(value: Value)
    requires EncodeValue(Bool, value, NO_SPEC).Some?
    ensures value.Boolean?
  {}

  lemma OneEntryReads(data: Octets, start: nat, valueType: byte)
    requires start <= |data| && ParseValue(data, start, valueType).Ok?
    ensures var x := ParseValue(data, start, valueType);
      ParseEntries(data, start, TRUE, valueType, 1, map[]) == Ok(map[DBool(true) := x.value], x.pos)
  {
    var x := ParseValue(data, start, valueType);
    NoEntries(data, x.pos, TRUE, valueType, map[DBool(true) := x.value]);
    assert ParseValue(data, start, TRUE) == Ok(DBool(true), start);
    hide ParseValue;
  }

  function BoolField(id: i16, b: bool): Field {
    Field(id, Bool, Boolean(b), Bool, Bool, Bool)
  }

  /** Such a map, which does come back: its struct sets 1, -9 and 1 again. */
  const LUCKY: Entry := Entry(Boolean(true), Fields([BoolField(1, true), BoolField(-9, true), BoolField(1, true)]))

  /** And one that does not: the empty struct. */
  const UNLUCKY: Entry := Entry(Boolean(true), Fields([]))

  lemma LuckyStruct()
    ensures EncodeFields(LUCKY.item.fields, 0) == Some([0x11, 0x01, 0x11, 0xA1, STOP])
    ensures NormalItem(CompactCodec, Struct, LUCKY) == DStruct(map[1 := DBool(true), -9 := DBool(true)])
  {
    var one, nine := BoolField(1, true), BoolField(-9, true);
    var fields := [one, nine, one];
    TrueShort(0, 1);
    TrueShort(-9, 1);
    TrueLong(1, -9);
    LuckyEncoded(fields, one, nine);
    ItemIsNormal(Struct, LUCKY);
    LuckyNormal(fields, one, nine);
  }

  lemma TrueShort(previous: i16, id: i16)
    requires 0 < id - previous <= 15
    ensures EncodeField(previous, BoolField(id, true)) == Some([(id - previous) * 16 + 1])
  {
    var header := [(id - previous) * 16 + 1];
    assert FieldHeader(previous, id, TRUE) == header;
    assert header + [] == header;
  }

  lemma TrueLong(previous: i16, id: i16)
    requires previous > id && 0 <= ZigZag(id) < 0x80 && previous - id < 0x8000
    ensures EncodeField(previous, BoolField(id, true)) == Some([TRUE, ZigZag(id)])
  {
    var header := [TRUE, ZigZag(id)];
    assert FieldHeader(previous, id, TRUE) == [TRUE] + [ZigZag(id)] == header;
    assert header + [] == header;
  }

  lemma LuckyEncoded(fields: seq<Field>, one: Field, nine: Field)
    requires one.id == 1 && nine.id == -9 && fields == [one, nine, one]
    requires EncodeField(0, one) == Some([0x11]) && EncodeField(1, nine) == Some([0x01, 0x11])
    requires EncodeField(-9, one) == Some([0xA1])
    ensures EncodeFields(fields, 0) == Some([0x11, 0x01, 0x11, 0xA1, STOP])
  {
    hide EncodeField;
    assert fields[1..] == [nine, one] && [nine, one][1..] == [one] && [one][1..] == [];
    assert EncodeFields([], 1) == Some([STOP]);
    assert [0xA1] + [STOP] == [0xA1, STOP];
    assert EncodeFields([one], -9) == Some([0xA1, STOP]);
    assert [0x01, 0x11] + [0xA1, STOP] == [0x01, 0x11, 0xA1, STOP];
    assert EncodeFields([nine, one], 1) == Some([0x01, 0x11, 0xA1, STOP]);
    assert [0x11] + [0x01, 0x11, 0xA1, STOP] == [0x11, 0x01, 0x11, 0xA1, STOP];
  }

  lemma LuckyNormal(fields: seq<Field>, one: Field, nine: Field)
    requires one == BoolField(1, true) && nine == BoolField(-9, true) && fields == [one, nine, one]
    ensures NormalFields(CompactCodec, fields, map[]) == map[1 := DBool(true), -9 := DBool(true)]
  {
    assert fields[1..] == [nine, one] && [nine, one][1..] == [one] && [one][1..] == [];
    assert NormalField(CompactCodec, one) == DBool(true) == NormalField(CompactCodec, nine);
    hide NormalField;
    var after := map[1 := DBool(true), -9 := DBool(true)];
    assert NormalFields(CompactCodec, [], after) == after;
    assert after[1 := DBool(true)] == after && map[1 := DBool(true)][-9 := DBool(true)] == after;
    assert NormalFields(CompactCodec, [one], after) == after;
    assert NormalFields(CompactCodec, [nine, one], map[1 := DBool(true)]) == after;
    assert map[][1 := DBool(true)] == map[1 := DBool(true)];
  }

  /** `LUCKY` read from its key on: the key byte is a header, the struct's first byte its ID -9, and the
      rest sets -9 and 1. */
  lemma LuckyRead(data: Octets, pos: nat)
    requires pos + 7 == |data| && data[pos..] == [0x01, 0x11, 0x01, 0x11, 0xA1, STOP, STOP]
    ensures ParseValue(data, pos, STRUCT) == Ok(DStruct(map[1 := DBool(true), -9 := DBool(true)]), |data| - 1)
  {
    LuckyBytes(data, pos);
    hide ParseFields, ParseVarintFrom;
    SmallVarint(data, pos + 1);
    SmallVarint(data, pos + 3);
    var once := map[-9 := DBool(true)];
    AfterFirstField(data, pos, 0, -9, pos + 2, DBool(true), pos + 2, map[]);
    AfterFirstField(data, pos + 2, -9, -9, pos + 4, DBool(true), pos + 4, once);
    assert once[-9 := DBool(true)] == once;
    AfterFirstField(data, pos + 4, -9, 1, pos + 5, DBool(true), pos + 5, once);
    StopEnds(data, pos + 5, 1, once[1 := DBool(true)]);
    assert once[1 := DBool(true)] == map[1 := DBool(true), -9 := DBool(true)];
  }

  lemma LuckyBytes(data: Octets, pos: nat)
    requires pos + 7 == |data| && data[pos..] == [0x01, 0x11, 0x01, 0x11, 0xA1, STOP, STOP]
    ensures data[pos] == 0x01 && data[pos + 1] == 0x11 && data[pos + 2] == 0x01 && data[pos + 3] == 0x11
    ensures data[pos + 4] == 0xA1 && data[pos + 5] == STOP
  {
    var s := data[pos..];
    assert data[pos] == s[0] && data[pos + 1] == s[1] && data[pos + 2] == s[2] && data[pos + 3] == s[3];
    assert data[pos + 4] == s[4] && data[pos + 5] == s[5];
  }

  lemma OneStructEncoded(id: i16, entry: Entry)
    requires entry.key == Boolean(true) && entry.item.Fields? && EncodeFields(entry.item.fields, 0).Some?
    ensures EncodeFields([MapField(id, Bool, Struct, [entry])], 0).Some?
    ensures EncodeEntries(Bool, Struct, [entry]) == Some([TRUE] + EncodeFields(entry.item.fields, 0).value)
  {
    hide FieldHeader, MapHeader;
    var f := MapField(id, Bool, Struct, [entry]);
    assert [f][1..] == [] && [entry][1..] == [] && [entry][0] == entry;
    assert EncodeFields([f][1..], id) == Some([STOP]);
    assert EncodeEntries(Bool, Struct, [entry][1..]) == Some([]);
    var body := [TRUE] + EncodeFields(entry.item.fields, 0).value;
    assert EncodeEntry(Bool, Struct, entry) == Some(body);
    assert body + [] == body;
    assert EncodeMap(Bool, Struct, [entry]).Some?;
    assert EncodeValue(Map, f.value, f).Some?;
    assert EncodeField(0, f).Some?;
  }

  lemma StructUnderTrue(id: i16)
    ensures EncodeFields([MapField(id, Bool, Struct, [LUCKY])], 0).Some? && ComesBack(id, Bool, Struct, [LUCKY])
  {
    hide ComesBack, ParseValue, EncodeFields, EncodeEntries, StructBytes, At, NormalItem;
    LuckyStruct();
    OneStructEncoded(id, LUCKY);
    assert |[LUCKY]| == 1 < MAX_LENGTH;
    BodyAt(id, Bool, Struct, [LUCKY]);
    var data, start := StructBytes(id, Bool, Struct, [LUCKY]), Start(id, Bool, Struct, [LUCKY]);
    assert [TRUE] + [0x11, 0x01, 0x11, 0xA1, STOP] == [TRUE, 0x11, 0x01, 0x11, 0xA1, STOP];
    TailOf(data, start, [TRUE, 0x11, 0x01, 0x11, 0xA1, STOP]);
    LuckyRead(data, start);
    StartOfStruct(id, LUCKY);
    assert ReadsEarly(data, start, LUCKY);
    StructUnderBool(id, LUCKY);
  }

  lemma TailOf(data: Octets, start: nat, body: Octets)
    requires At(data, start, body) && start + |body| == |data| - 1 && data[|data| - 1] == STOP
    ensures data[start..] == body + [STOP]
  {}

  /** The empty struct under true runs off the end instead. */
  lemma EmptyStructUnderTrue(id: i16)
    ensures EncodeFields([MapField(id, Bool, Struct, [UNLUCKY])], 0).Some? && !ComesBack(id, Bool, Struct, [UNLUCKY])
  {
    hide ComesBack, ParseEntries, StructBytes, At;
    assert EncodeFields([], 0) == Some([STOP]);
    OneStructEncoded(id, UNLUCKY);
    hide EncodeFields, EncodeEntries;
    assert |[UNLUCKY]| == 1 < MAX_LENGTH;
    BodyAt(id, Bool, Struct, [UNLUCKY]);
    var data, start := StructBytes(id, Bool, Struct, [UNLUCKY]), Start(id, Bool, Struct, [UNLUCKY]);
    assert [TRUE] + [STOP] == [TRUE, STOP];
    TailOf(data, start, [TRUE, STOP]);
    EmptyRead(data, start);
    assert TypeOf(Bool) == Some(TRUE) && TypeOf(Struct) == Some(STRUCT);
    EmptyLoses(data, start, id, Sent(Bool, Struct, [UNLUCKY]));
    LosesMeans(id, Bool, Struct, [UNLUCKY]);
  }

  lemma EmptyRead(data: Octets, pos: nat)
    requires pos + 3 == |data| && data[pos..] == [TRUE, STOP, STOP]
    ensures ParseValue(data, pos, STRUCT) == Ok(DStruct(map[0 := DBool(true)]), |data|)
  {
    hide ParseFields, ParseVarintFrom;
    assert forall i | 0 <= i < 3 :: data[pos + i] == data[pos..][i];
    SmallVarint(data, pos + 1);
    AfterFirstField(data, pos, 0, 0, pos + 2, DBool(true), pos + 2, map[]);
    StopEnds(data, pos + 2, 0, map[0 := DBool(true)]);
  }

  lemma EmptyLoses(data: Octets, start: nat, id: i16, sent: map<Decoded, Decoded>)
    requires start <= |data| && ParseValue(data, start, STRUCT).Ok? && ParseValue(data, start, STRUCT).pos == |data|
    ensures Loses(data, start, TRUE, STRUCT, 1, id, sent)
  {
    hide ParseEntries, ParseValue;
    OneEntryReads(data, start, STRUCT);
  }
}
