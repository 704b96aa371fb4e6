/** Lists and sets of Bools anywhere in a compact struct. After the element bytes the reader takes for
    fields, its idea of the previous ID is off, so that short headers that follow name other IDs until
    a long one puts it right again. For lists of even length that is all that happens. */
module BoolStructs {
  import opened Bytes
  import opened Thrift
  import opened Compact
  import opened CompactRoundTrip
  import opened BoolContainers

  /** A field of a struct: any sendable one, or a list or set of Bools. */
  datatype Part = Plain(f: Field) | Bools(id: i16, kind: Kind, bs: seq<bool>)

  function FieldOf(p: Part): Field {
    match p
    case Plain(f) => f
    case Bools(id, kind, bs) => BoolListField(id, kind, bs)
  }

  function FieldsOf(parts: seq<Part>): seq<Field> {
    if parts == [] then [] else [FieldOf(parts[0])] + FieldsOf(parts[1..])
  }

  predicate Proper(p: Part) {
    match p
    case Plain(f) => SendableField(f)
    case Bools(_, kind, bs) => (kind.List? || kind.Set?) && |bs| % 2 == 0 && |bs| < MAX_LENGTH
  }

  /** The ID a header written after field `written` is read as after field `read`. */
  function ReadID(id: i16, written: i16, read: i16): i16 {
    var delta := Wrap16(id - written);
    if 0 < delta <= 15 then Wrap16(read + delta) else id
  }

  /** The ID of the field the reader believes it has read last. */
  function LastRead(p: Part, id: i16): i16 {
    if p.Bools? && p.bs != [] then LeftoverID(p.bs[|p.bs| - 1]) else id
  }

  /** What one field does to the map, read under `id`. */
  function Stored(p: Part, id: i16, acc: map<i16, Decoded>): map<i16, Decoded> {
    match p
    case Plain(f) => acc[id := NormalField(CompactCodec, f)]
    case Bools(_, _, bs) => Overlaid(acc[id := DList(Trues(|bs|))], bs)
  }

  /** What the struct is read as. */
  function ReadAs(parts: seq<Part>, written: i16, read: i16, acc: map<i16, Decoded>): map<i16, Decoded> {
    if parts == [] then acc
    else
      var p := parts[0];
      var id := ReadID(FieldOf(p).id, written, read);
      ReadAs(parts[1..], FieldOf(p).id, LastRead(p, id), Stored(p, id, acc))
  }

  // ---- One header

  lemma HeaderMisread(written: i16, read: i16, id: i16, ctype: byte, data: Octets, pos: nat)
    requires 0 < ctype < 16 && At(data, pos, FieldHeader(written, id, ctype))
    ensures pos < |data| && data[pos] != STOP && data[pos] % 16 == ctype
    ensures ParseFieldID(data, pos + 1, read, data[pos])
         == Ok(ReadID(id, written, read), pos + |FieldHeader(written, id, ctype)|)
  {
    hide At, EncodeSigned, ParseSigned, Wrap16;
    FieldHeaderRoundTrip(written, id, ctype, data, pos);
    var delta := Wrap16(id - written);
    if 0 < delta <= 15 {
      AtOne(data, pos, delta * 16 + ctype);
      Nibbles(delta, ctype);
    } else {
      AtByte(data, pos, ctype, EncodeSigned(id));
      Nibbles(0, ctype);
    }
  }

  // ---- One field

  lemma PlainRead(
      f: Field, written: i16, read: i16, data: Octets, pos: nat, acc: map<i16, Decoded>)
    requires SendableField(f) && EncodeField(written, f).Some? && At(data, pos, EncodeField(written, f).value)
    ensures var id := ReadID(f.id, written, read);
            && pos + |EncodeField(written, f).value| <= |data|
            && ParseFields(data, pos, read, acc)
               == ParseFields(data, pos + |EncodeField(written, f).value|, id, acc[id := NormalField(CompactCodec, f)])
  {
    hide *;
    HeaderFirst(f, written, data, pos);
    var ctype := FieldType(f).value;
    var start := pos + |FieldHeader(written, f.id, ctype)|;
    ValuePlace(f, written, data, pos);
    HeaderMisread(written, read, f.id, ctype, data, pos);
    AfterFirstField(data, pos, read, ReadID(f.id, written, read), start, NormalField(CompactCodec, f),
                    pos + |EncodeField(written, f).value|, acc);
  }

  /** The value stands after the header, whatever the header is read as. */
  lemma ValuePlace(f: Field, written: i16, data: Octets, pos: nat)
    requires SendableField(f) && EncodeField(written, f).Some? && At(data, pos, EncodeField(written, f).value)
    ensures FieldType(f).Some? && pos < |data|
    ensures var start := pos + |FieldHeader(written, f.id, FieldType(f).value)|;
            start <= |data| && ParseValue(data, start, data[pos] % 16)
              == Ok(NormalField(CompactCodec, f), pos + |EncodeField(written, f).value|)
  {
    hide *;
    HeaderFirst(f, written, data, pos);
    FieldRoundTrip(f, written, data, pos);
    FieldHeaderRoundTrip(written, f.id, FieldType(f).value, data, pos);
  }

  lemma HeaderFirst(f: Field, written: i16, data: Octets, pos: nat)
    requires EncodeField(written, f).Some? && At(data, pos, EncodeField(written, f).value)
    ensures FieldType(f).Some? && At(data, pos, FieldHeader(written, f.id, FieldType(f).value))
  {
    hide At, FieldHeader, EncodeValue;
    var header := FieldHeader(written, f.id, FieldType(f).value);
    AtSplit(data, pos, header, EncodeField(written, f).value[|header|..]);
  }

  /** An even number of element bytes is read as half as many fields. */
  lemma {:induction false} PairsRead(bs: seq<bool>, data: Octets, pos: nat, previous: i16, acc: map<i16, Decoded>)
    requires |bs| % 2 == 0 && At(data, pos, BooleanBytes(bs))
    ensures var last := if bs == [] then previous else LeftoverID(bs[|bs| - 1]);
            pos + |bs| <= |data|
            && ParseFields(data, pos, previous, acc) == ParseFields(data, pos + |bs|, last, Overlaid(acc, bs))
    decreases |bs|
  {
    hide At, ParseFields, BooleanBytes;
    if bs != [] {
      var id := LeftoverID(bs[1]);
      assert BooleanBytes(bs) + [] == BooleanBytes(bs) && BooleanBytes(bs[2..]) + [] == BooleanBytes(bs[2..]);
      LeftoverPair(bs, data, pos, previous, acc, []);
      PairsRead(bs[2..], data, pos + 2, id, acc[id := DBool(bs[0])]);
    }
  }

  lemma BoolsRead(
      id: i16, kind: Kind, bs: seq<bool>, written: i16, read: i16, data: Octets, pos: nat, acc: map<i16, Decoded>)
    requires (kind.List? || kind.Set?) && |bs| % 2 == 0 && |bs| < MAX_LENGTH
    requires At(data, pos, BoolListBytes(written, id, TypeOf(kind).value, bs))
    ensures var p, seen := Bools(id, kind, bs), ReadID(id, written, read);
            var end := pos + |BoolListBytes(written, id, TypeOf(kind).value, bs)|;
            && end <= |data|
            && ParseFields(data, pos, read, acc) == ParseFields(data, end, LastRead(p, seen), Stored(p, seen, acc))
  {
    hide At, ListHeader, FieldHeader, BooleanBytes, ParseFieldID, ParseListSize, ParseItems, ParseFields, ReadID;
    var ctype, seen := TypeOf(kind).value, ReadID(id, written, read);
    var header, listHeader := FieldHeader(written, id, ctype), ListHeader(|bs|, TRUE);
    var list := pos + |header|;
    AtSplit(data, pos, header, listHeader + BooleanBytes(bs));
    AtSplit(data, list, listHeader, BooleanBytes(bs));
    HeaderMisread(written, read, id, ctype, data, pos);
    ListHeaderRoundTrip(|bs|, TRUE, data, list);
    BoolsReadAsTrue(data, list + |listHeader|, |bs|, []);
    assert [] + Trues(|bs|) == Trues(|bs|);
    AfterFirstField(data, pos, read, seen, list, DList(Trues(|bs|)), list + |listHeader|, acc);
    PairsRead(bs, data, list + |listHeader|, seen, acc[seen := DList(Trues(|bs|))]);
  }

  lemma PartRead(p: Part, written: i16, read: i16, data: Octets, pos: nat, acc: map<i16, Decoded>)
    requires Proper(p) && EncodeField(written, FieldOf(p)).Some?
    requires At(data, pos, EncodeField(written, FieldOf(p)).value)
    ensures var id := ReadID(FieldOf(p).id, written, read);
            var end := pos + |EncodeField(written, FieldOf(p)).value|;
            && end <= |data|
            && ParseFields(data, pos, read, acc) == ParseFields(data, end, LastRead(p, id), Stored(p, id, acc))
  {
    hide At, EncodeField, ParseFields, BoolListBytes, ReadID, SendableField;
    match p {
      case Plain(f) =>
        PlainRead(f, written, read, data, pos, acc);
      case Bools(id, kind, bs) =>
        BoolListEncoded(written, id, kind, bs);
        BoolsRead(id, kind, bs, written, read, data, pos, acc);
    }
  }

  // ---- Whole structs

  /** A struct holding any number of even lists and sets of Bools among sendable fields is read to its
      end, whatever bytes surround it, and read as `ReadAs` says. */
  lemma {:induction false} StructReadAs(
      parts: seq<Part>, written: i16, read: i16, data: Octets, pos: nat, acc: map<i16, Decoded>)
    requires (forall p | p in parts :: Proper(p)) && EncodeFields(FieldsOf(parts), written).Some?
    requires At(data, pos, EncodeFields(FieldsOf(parts), written).value)
    ensures ParseFields(data, pos, read, acc)
         == Ok(ReadAs(parts, written, read, acc), pos + |EncodeFields(FieldsOf(parts), written).value|)
    decreases parts
  {
    hide At, EncodeField, ParseFields, Proper, ReadID, LastRead, Stored;
    if parts == [] {
      AtOne(data, pos, STOP);
      StopEnds(data, pos, read, acc);
    } else {
      var p := parts[0];
      var id := ReadID(FieldOf(p).id, written, read);
      assert FieldsOf(parts)[1..] == FieldsOf(parts[1..]);
      var first := EncodeField(written, FieldOf(p)).value;
      AtSplit(data, pos, first, EncodeFields(FieldsOf(parts[1..]), FieldOf(p).id).value);
      PartRead(p, written, read, data, pos, acc);
      StructReadAs(parts[1..], FieldOf(p).id, LastRead(p, id), data, pos + |first|, Stored(p, id, acc));
    }
  }

  /** So it comes back exactly when reading it that way changes nothing. */
  lemma StructComesBackIff(parts: seq<Part>, suffix: Octets)
    requires (forall p | p in parts :: Proper(p)) && EncodeFields(FieldsOf(parts), 0).Some?
    ensures var code := EncodeFields(FieldsOf(parts), 0).value;
            ParseFields(code + suffix, 0, 0, map[]) == Ok(NormalFields(CompactCodec, FieldsOf(parts), map[]), |code|)
            <==> ReadAs(parts, 0, 0, map[]) == NormalFields(CompactCodec, FieldsOf(parts), map[])
  {
    hide *;
    var code := EncodeFields(FieldsOf(parts), 0).value;
    AtPrefix([], code, suffix);
    assert [] + code + suffix == code + suffix;
    StructReadAs(parts, 0, 0, code + suffix, 0, map[]);
  }

  // ---- When nothing goes out of step

  /** No short header follows a non-empty list of Bools. */
  predicate InStep(parts: seq<Part>) {
    forall i | 0 < i < |parts| && parts[i - 1].Bools? && parts[i - 1].bs != [] ::
      !(0 < Wrap16(FieldOf(parts[i]).id - FieldOf(parts[i - 1]).id) <= 15)
  }

  /** The fields as the reader then takes them: lists as all true, and a boolean field for each pair. */
  function Pairwise(parts: seq<Part>, acc: map<i16, Decoded>): map<i16, Decoded> {
    if parts == [] then acc else Pairwise(parts[1..], Stored(parts[0], FieldOf(parts[0]).id, acc))
  }

  /** Then every field but the element bytes keeps its ID. */
  lemma {:induction false} InStepKeepsIDs(parts: seq<Part>, written: i16, read: i16, acc: map<i16, Decoded>)
    requires InStep(parts)
    requires written == read || parts == [] || !(0 < Wrap16(FieldOf(parts[0]).id - written) <= 15)
    ensures ReadAs(parts, written, read, acc) == Pairwise(parts, acc)
    decreases parts
  {
    hide Stored, Wrap16;
    if parts != [] {
      var p, rest := parts[0], parts[1..];
      DeltaRestored(written, FieldOf(p).id);
      assert ReadID(FieldOf(p).id, written, read) == FieldOf(p).id;
      forall i | 0 < i < |rest| && rest[i - 1].Bools? && rest[i - 1].bs != []
        ensures !(0 < Wrap16(FieldOf(rest[i]).id - FieldOf(rest[i - 1]).id) <= 15)
      {
        assert rest[i] == parts[i + 1] && rest[i - 1] == parts[i];
      }
      assert rest != [] ==> rest[0] == parts[1] && parts[0] == p;
      InStepKeepsIDs(rest, FieldOf(p).id, LastRead(p, FieldOf(p).id), Stored(p, FieldOf(p).id, acc));
    }
  }

  lemma InStepComesBackIff(parts: seq<Part>, suffix: Octets)
    requires (forall p | p in parts :: Proper(p)) && EncodeFields(FieldsOf(parts), 0).Some? && InStep(parts)
    ensures var code := EncodeFields(FieldsOf(parts), 0).value;
            ParseFields(code + suffix, 0, 0, map[]) == Ok(NormalFields(CompactCodec, FieldsOf(parts), map[]), |code|)
            <==> Pairwise(parts, map[]) == NormalFields(CompactCodec, FieldsOf(parts), map[])
  {
    hide *;
    StructComesBackIff(parts, suffix);
    InStepKeepsIDs(parts, 0, 0, map[]);
  }

  /** Out of step: after two trues under 5, the field 6 is read as field 0. */
  lemma NextFieldMoves()
    ensures ReadAs([Bools(5, List, [true, true]), Plain(Field(6, I32, Integer(7), Bool, Bool, Bool))], 0, 0, map[])
         == map[5 := DList(Trues(2)), -1 := DBool(true), 0 := DInt64(7)]
  {
    var list, next := Bools(5, List, [true, true]), Plain(Field(6, I32, Integer(7), Bool, Bool, Bool));
    var acc := map[5 := DList(Trues(2)), -1 := DBool(true)];
    assert [true, true][2..] == [];
    assert Stored(list, 5, map[]) == acc;
    assert [list, next][1..] == [next] && [next][1..] == [];
    assert ReadAs([next], 5, -1, acc) == acc[0 := DInt64(7)];
  }
}
