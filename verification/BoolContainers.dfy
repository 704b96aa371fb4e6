/** Where the compact round trip stops: lists and sets of Bools. The writer spends a byte on every Bool
    element, the reader none, so the elements are read again as fields. */
module BoolContainers {
  import opened Options
  import opened Bytes
  import opened Thrift
  import opened Compact
  import opened CompactRoundTrip

  function Booleans(bs: seq<bool>): (items: seq<Value>)
    ensures |items| == |bs|
  {
    if bs == [] then [] else [Boolean(bs[0])] + Booleans(bs[1..])
  }

  function BooleanBytes(bs: seq<bool>): (s: Octets)
    ensures |s| == |bs|
  {
    if bs == [] then [] else [if bs[0] then TRUE else FALSE] + BooleanBytes(bs[1..])
  }

  lemma {:induction false} BooleansEncoded(bs: seq<bool>)
    ensures EncodeItems(Bool, Booleans(bs)) == Some(BooleanBytes(bs))
  {
    if bs != [] {
      BooleansEncoded(bs[1..]);
      assert Booleans(bs)[1..] == Booleans(bs[1..]);
    }
  }

  /** Reading `size` Bool elements of the declared type TRUE succeeds without looking at a byte. */
  lemma {:induction false} BoolsReadNothing(data: Octets, pos: nat, size: nat, acc: seq<Decoded>)
    requires pos <= |data|
    ensures ParseItems(data, pos, TRUE, size, acc).Ok?
    ensures ParseItems(data, pos, TRUE, size, acc).pos == pos
    decreases size
  {
    if size != 0 {
      BoolsReadNothing(data, pos, size - 1, acc + [DBool(true)]);
    }
  }

  /** And gives as many trues as were announced, whatever was written. */
  lemma {:induction false} BoolsReadAsTrue(data: Octets, pos: nat, size: nat, acc: seq<Decoded>)
    requires pos <= |data|
    ensures ParseItems(data, pos, TRUE, size, acc) == Ok(acc + Trues(size), pos)
    decreases size
  {
    if size != 0 {
      BoolsReadAsTrue(data, pos, size - 1, acc + [DBool(true)]);
      assert acc + [DBool(true)] + Trues(size - 1) == acc + Trues(size);
    } else {
      assert acc + Trues(0) == acc;
    }
  }

  function Trues(size: nat): (r: seq<Decoded>)
    ensures |r| == size
  {
    seq(size, _ => DBool(true))
  }

  // ---- The element bytes, read as fields

  /** The ID a second element byte is taken for. */
  function LeftoverID(b: bool): i16 { if b then -1 else 1 }

  /** What pairs of leftover element bytes do to the fields read so far. */
  function Overlaid(acc: map<i16, Decoded>, bs: seq<bool>): map<i16, Decoded>
    decreases |bs|
  {
    if |bs| < 2 then acc else Overlaid(acc[LeftoverID(bs[1]) := DBool(bs[0])], bs[2..])
  }

  /** An even number of leftover bytes is read as half as many fields, up to and including the STOP
      byte; an odd number takes the STOP byte for an ID and runs on past it. */
  lemma {:induction false} LeftoverRead(bs: seq<bool>, data: Octets, pos: nat, previous: i16, acc: map<i16, Decoded>)
    requires At(data, pos, BooleanBytes(bs) + [STOP])
    ensures var r, end := ParseFields(data, pos, previous, acc), pos + |bs| + 1;
            if |bs| % 2 == 0 then r == Ok(Overlaid(acc, bs), end) else r.Ok? ==> r.pos > end
    decreases |bs|
  {
    hide At, ParseVarintFrom, ParseFields, BooleanBytes;
    if bs == [] {
      EmptyBytes();
      assert [] + [STOP] == [STOP] == [STOP] + [];
      AtByte(data, pos, STOP, []);
      StopEnds(data, pos, previous, acc);
    } else if |bs| == 1 {
      LastLeftover(bs, data, pos, previous, acc);
    } else {
      var id := LeftoverID(bs[1]);
      LeftoverPair(bs, data, pos, previous, acc, [STOP]);
      LeftoverRead(bs[2..], data, pos + 2, id, acc[id := DBool(bs[0])]);
    }
  }

  lemma EmptyBytes()
    ensures BooleanBytes([]) == []
  {}

  lemma ByteOf(b: bool)
    ensures BooleanBytes([b]) == [if b then TRUE else FALSE]
  {
    assert [b][1..] == [];
  }

  lemma StopEnds(data: Octets, pos: nat, previous: i16, acc: map<i16, Decoded>)
    requires pos < |data| && data[pos] == STOP
    ensures ParseFields(data, pos, previous, acc) == Ok(acc, pos + 1)
  {}

  lemma LastLeftover(bs: seq<bool>, data: Octets, pos: nat, previous: i16, acc: map<i16, Decoded>)
    requires |bs| == 1 && At(data, pos, BooleanBytes(bs) + [STOP])
    ensures var r := ParseFields(data, pos, previous, acc); r.Ok? ==> r.pos > pos + 2
  {
    hide At, ParseVarintFrom, ParseFields, BooleanBytes;
    assert bs == [bs[0]];
    ByteOf(bs[0]);
    AtByte(data, pos, BooleanBytes(bs)[0], [STOP]);
    AtByte(data, pos + 1, STOP, []);
    SmallVarint(data, pos + 1);
    AfterFirstField(data, pos, previous, 0, pos + 2, DBool(bs[0]), pos + 2, acc);
  }

  /** Two bytes make one field: the first is its type and its value, the second its ID. */
  lemma LeftoverPair(
      bs: seq<bool>, data: Octets, pos: nat, previous: i16, acc: map<i16, Decoded>, tail: Octets)
    requires |bs| >= 2 && At(data, pos, BooleanBytes(bs) + tail)
    ensures At(data, pos + 2, BooleanBytes(bs[2..]) + tail)
    ensures var id := LeftoverID(bs[1]);
            ParseFields(data, pos, previous, acc) == ParseFields(data, pos + 2, id, acc[id := DBool(bs[0])])
  {
    hide At, ParseVarintFrom, ParseFields;
    var rest := BooleanBytes(bs[2..]) + tail;
    assert bs[1..][1..] == bs[2..];
    assert BooleanBytes(bs) + tail == [BooleanBytes(bs)[0]] + ([BooleanBytes(bs[1..])[0]] + rest);
    AtByte(data, pos, BooleanBytes(bs)[0], [BooleanBytes(bs[1..])[0]] + rest);
    AtByte(data, pos + 1, BooleanBytes(bs[1..])[0], rest);
    SmallVarint(data, pos + 1);
    AfterFirstField(data, pos, previous, LeftoverID(bs[1]), pos + 2, DBool(bs[0]), pos + 2, acc);
  }

  lemma SmallVarint(data: Octets, pos: nat)
    requires pos < |data| && data[pos] < 0x80
    ensures ParseVarint(data, pos) == Ok(data[pos], pos + 1)
  {
    assert EncodeVarint(data[pos]) == data[pos..pos + 1];
    VarintRoundTrip(data[pos], data, pos);
  }

  // ---- A list or set of Bools at the end of a struct

  function BoolListField(id: i16, kind: Kind, bs: seq<bool>): Field {
    Field(id, kind, Items(Booleans(bs)), Bool, Bool, Bool)
  }

  /** The list's own header and its elements. */
  function BoolListBytes(previous: i16, id: i16, ctype: byte, bs: seq<bool>): Octets
    requires ctype == LIST || ctype == SET
  {
    FieldHeader(previous, id, ctype) + (ListHeader(|bs|, TRUE) + BooleanBytes(bs))
  }

  lemma BoolListEncoded(previous: i16, id: i16, kind: Kind, bs: seq<bool>)
    requires kind.List? || kind.Set?
    ensures EncodeField(previous, BoolListField(id, kind, bs))
        == Some(BoolListBytes(previous, id, TypeOf(kind).value, bs))
    ensures EncodeFields([BoolListField(id, kind, bs)], previous)
         == Some(BoolListBytes(previous, id, TypeOf(kind).value, bs) + [STOP])
  {
    hide FieldHeader, ListHeader;
    var f, body := BoolListField(id, kind, bs), ListHeader(|bs|, TRUE) + BooleanBytes(bs);
    BooleansEncoded(bs);
    assert EncodeList(Bool, Booleans(bs)) == Some(body);
    assert EncodeValue(kind, f.value, f) == Some(body);
    assert EncodeField(previous, f) == Some(FieldHeader(previous, id, TypeOf(kind).value) + body);
    assert [f][1..] == [];
    assert EncodeFields([f][1..], id) == Some([STOP]);
  }

  /** When a struct ending in the list `bs` under `id` comes back, `before` being what the fields ahead
      of it denote: it is empty, or an even number of trues, and the field -1 that its elements are
      read as is another field and is true already. */
  predicate Survives(before: map<i16, Decoded>, id: i16, bs: seq<bool>) {
    bs == [] ||
    (|bs| % 2 == 0 && (forall b | b in bs :: b) && id != -1 && -1 in before && before[-1] == DBool(true))
  }

  /** A compact struct ending in a list or set of Bools comes back as sent, and the reader stops at its
      end, exactly under that condition, whatever sendable fields precede the list and whatever bytes
      surround the struct. */
  lemma {:induction false} BoolListComesBackIff(
      before: seq<Field>, previous: i16, id: i16, kind: Kind, bs: seq<bool>, data: Octets, pos: nat,
      acc: map<i16, Decoded>)
    requires (kind.List? || kind.Set?) && |bs| < MAX_LENGTH && SendableFields(before)
    requires EncodeFields(before + [BoolListField(id, kind, bs)], previous).Some?
    requires At(data, pos, EncodeFields(before + [BoolListField(id, kind, bs)], previous).value)
    ensures var fields := before + [BoolListField(id, kind, bs)];
            ParseFields(data, pos, previous, acc)
              == Ok(NormalFields(CompactCodec, fields, acc), pos + |EncodeFields(fields, previous).value|)
            <==> Survives(NormalFields(CompactCodec, before, acc), id, bs)
    decreases before
  {
    hide At, ParseFields, ParseFieldID, ParseValue, EncodeField, NormalField, SendableField, Survives;
    var list := BoolListField(id, kind, bs);
    var fields := before + [list];
    if before == [] {
      assert fields == [list];
      BoolListAlone(previous, id, kind, bs, data, pos, acc);
    } else {
      var f := before[0];
      assert fields[0] == f && fields[1..] == before[1..] + [list];
      var first, rest := EncodeField(previous, f).value, EncodeFields(fields[1..], f.id).value;
      AtSplit(data, pos, first, rest);
      FieldRoundTrip(f, previous, data, pos);
      var next := acc[f.id := NormalField(CompactCodec, f)];
      AfterFirstField(data, pos, previous, f.id, ParseFieldID(data, pos + 1, previous, data[pos]).pos,
                      NormalField(CompactCodec, f), pos + |first|, acc);
      BoolListComesBackIff(before[1..], f.id, id, kind, bs, data, pos + |first|, next);
    }
  }

  lemma BoolListAlone(previous: i16, id: i16, kind: Kind, bs: seq<bool>, data: Octets, pos: nat, acc: map<i16, Decoded>)
    requires (kind.List? || kind.Set?) && |bs| < MAX_LENGTH
    requires EncodeFields([BoolListField(id, kind, bs)], previous).Some?
    requires At(data, pos, EncodeFields([BoolListField(id, kind, bs)], previous).value)
    ensures var fields := [BoolListField(id, kind, bs)];
            ParseFields(data, pos, previous, acc)
              == Ok(NormalFields(CompactCodec, fields, acc), pos + |EncodeFields(fields, previous).value|)
            <==> Survives(NormalFields(CompactCodec, [], acc), id, bs)
  {
    hide At, ParseFields, FieldHeader, ListHeader, EncodeFields, Survives, Overlaid;
    var ctype := TypeOf(kind).value;
    BoolListEncoded(previous, id, kind, bs);
    var start := pos + |FieldHeader(previous, id, ctype) + ListHeader(|bs|, TRUE)|;
    BoolListHeaderRead(previous, id, ctype, bs, data, pos, acc);
    LeftoverRead(bs, data, start, id, acc[id := DList(Trues(|bs|))]);
    NormalAlone(id, kind, bs, acc);
    if |bs| % 2 == 0 {
      OverlaidRestores(acc, id, bs);
    } else {
      OddFails(acc, id, bs);
    }
  }

  lemma OddFails(acc: map<i16, Decoded>, id: i16, bs: seq<bool>)
    requires |bs| % 2 == 1
    ensures !Survives(acc, id, bs)
  {}

  /** After the headers the reader stands before the element bytes, having read only trues. */
  lemma BoolListHeaderRead(
      previous: i16, id: i16, ctype: byte, bs: seq<bool>, data: Octets, pos: nat, acc: map<i16, Decoded>)
    requires (ctype == LIST || ctype == SET) && |bs| < MAX_LENGTH
    requires At(data, pos, BoolListBytes(previous, id, ctype, bs) + [STOP])
    ensures var start := pos + |FieldHeader(previous, id, ctype) + ListHeader(|bs|, TRUE)|;
            && At(data, start, BooleanBytes(bs) + [STOP])
            && ParseFields(data, pos, previous, acc) == ParseFields(data, start, id, acc[id := DList(Trues(|bs|))])
  {
    hide At, ListHeader, FieldHeader, BooleanBytes, ParseFieldID, ParseListSize, ParseItems, ParseFields;
    var header, listHeader := FieldHeader(previous, id, ctype), ListHeader(|bs|, TRUE);
    var elements := BooleanBytes(bs) + [STOP];
    var list := pos + |header|;
    assert BoolListBytes(previous, id, ctype, bs) + [STOP] == header + (listHeader + elements);
    AtSplit(data, pos, header, listHeader + elements);
    AtSplit(data, list, listHeader, elements);
    FieldHeaderRoundTrip(previous, id, ctype, data, pos);
    ListHeaderRoundTrip(|bs|, TRUE, data, list);
    BoolsReadAsTrue(data, list + |listHeader|, |bs|, []);
    assert [] + Trues(|bs|) == Trues(|bs|);
    AfterFirstField(data, pos, previous, id, list, DList(Trues(|bs|)), list + |listHeader|, acc);
  }

  lemma {:induction false} BooleansNormal(bs: seq<bool>)
    ensures |NormalItems(CompactCodec, Bool, Booleans(bs))| == |bs|
    ensures forall i | 0 <= i < |bs| :: NormalItems(CompactCodec, Bool, Booleans(bs))[i] == DBool(bs[i])
  {
    if bs != [] {
      BooleansNormal(bs[1..]);
      assert Booleans(bs)[1..] == Booleans(bs[1..]);
    }
  }

  lemma NormalAlone(id: i16, kind: Kind, bs: seq<bool>, acc: map<i16, Decoded>)
    requires kind.List? || kind.Set?
    ensures NormalFields(CompactCodec, [BoolListField(id, kind, bs)], acc)
         == acc[id := DList(NormalItems(CompactCodec, Bool, Booleans(bs)))]
    ensures NormalFields(CompactCodec, [], acc) == acc
  {
    var f := BoolListField(id, kind, bs);
    assert [f][1..] == [];
    assert NormalField(CompactCodec, f) == Normal(CompactCodec, kind, Items(Booleans(bs)), f);
    assert NormalFields(CompactCodec, [f], acc)
      == NormalFields(CompactCodec, [f][1..], acc[id := NormalField(CompactCodec, f)]);
  }

  /** Leftover fields are booleans under 1 and -1; nothing else moves. */
  lemma {:induction false} OverlaidTouches(acc: map<i16, Decoded>, bs: seq<bool>, id: i16)
    ensures id in acc ==> id in Overlaid(acc, bs)
    ensures id in Overlaid(acc, bs) ==> Overlaid(acc, bs)[id].DBool? || (id in acc && Overlaid(acc, bs)[id] == acc[id])
    decreases |bs|
  {
    if |bs| >= 2 {
      OverlaidTouches(acc[LeftoverID(bs[1]) := DBool(bs[0])], bs[2..], id);
    }
  }

  lemma {:induction false} OverlaidTrues(acc: map<i16, Decoded>, bs: seq<bool>)
    requires |bs| % 2 == 0 && forall b | b in bs :: b
    ensures Overlaid(acc, bs) == if bs == [] then acc else acc[-1 := DBool(true)]
    decreases |bs|
  {
    if bs != [] {
      assert bs[0] in bs && bs[1] in bs;
      assert forall b | b in bs[2..] :: b in bs;
      OverlaidTrues(acc[-1 := DBool(true)], bs[2..]);
    }
  }

  /** Reading trues gives the list sent exactly when all of it is true. */
  lemma TruesIffTrue(bs: seq<bool>)
    ensures Trues(|bs|) == NormalItems(CompactCodec, Bool, Booleans(bs)) <==> forall b | b in bs :: b
  {
    BooleansNormal(bs);
    var sent := NormalItems(CompactCodec, Bool, Booleans(bs));
    if forall b | b in bs :: b {
      assert forall i | 0 <= i < |bs| :: bs[i] in bs;
      assert forall i | 0 <= i < |bs| :: Trues(|bs|)[i] == sent[i];
    } else {
      var i :| 0 <= i < |bs| && !bs[i];
      assert Trues(|bs|)[i] != sent[i];
    }
  }

  /** Reading trues and overlaying the element bytes amounts to the list sent exactly when it survives. */
  lemma OverlaidRestores(acc: map<i16, Decoded>, id: i16, bs: seq<bool>)
    requires |bs| % 2 == 0
    ensures var sent := DList(NormalItems(CompactCodec, Bool, Booleans(bs)));
            Overlaid(acc[id := DList(Trues(|bs|))], bs) == acc[id := sent] <==> Survives(acc, id, bs)
  {
    hide Overlaid, NormalItems, Booleans, Trues;
    TruesIffTrue(bs);
    var read := acc[id := DList(Trues(|bs|))];
    if forall b | b in bs :: b {
      OverlaidTrues(read, bs);
      TrueOverlay(acc, id, DList(Trues(|bs|)));
    } else {
      OverlaidTouches(read, bs, id);
      assert bs != [];
      assert !Survives(acc, id, bs);
    }
  }

  lemma TrueOverlay(acc: map<i16, Decoded>, id: i16, list: Decoded)
    requires list.DList?
    ensures acc[id := list][-1 := DBool(true)] == acc[id := list] <==> id != -1 && -1 in acc && acc[-1] == DBool(true)
  {
    var read := acc[id := list];
    var overlaid := read[-1 := DBool(true)];
    if overlaid == read {
      assert -1 in read && read[-1] == DBool(true);
    }
  }

  /** In particular a struct of nothing but the list comes back exactly when the list is empty. */
  lemma BoolListRoundTripsIffEmpty(id: i16, kind: Kind, bs: seq<bool>)
    requires kind.List? || kind.Set?
    requires |bs| < MAX_LENGTH
    ensures var fields := [BoolListField(id, kind, bs)];
            && EncodeFields(fields, 0).Some?
            && (ParseFields(EncodeFields(fields, 0).value, 0, 0, map[])
                  == Ok(NormalFields(CompactCodec, fields, map[]), |EncodeFields(fields, 0).value|)
                <==> bs == [])
  {
    hide EncodeFields, ParseFields;
    BoolListEncoded(0, id, kind, bs);
    var data := EncodeFields([BoolListField(id, kind, bs)], 0).value;
    AtPrefix([], data, []);
    assert [] + data + [] == data;
    BoolListAlone(0, id, kind, bs, data, 0, map[]);
  }

  /** A non-empty list that does come back: after a true field -1, two trues. */
  lemma TwoTruesComeBack()
    ensures var fields := [Field(-1, Bool, Boolean(true), Bool, Bool, Bool), BoolListField(5, List, [true, true])];
            && EncodeFields(fields, 0).Some?
            && ParseFields(EncodeFields(fields, 0).value, 0, 0, map[])
               == Ok(NormalFields(CompactCodec, fields, map[]), |EncodeFields(fields, 0).value|)
  {
    hide ParseFields, EncodeField;
    var before := [Field(-1, Bool, Boolean(true), Bool, Bool, Bool)];
    var list := BoolListField(5, List, [true, true]);
    var fields := before + [list];
    assert fields == [before[0], list] && fields[1..] == [list] && before[1..] == [];
    BoolListEncoded(-1, 5, List, [true, true]);
    assert EncodeField(0, before[0]).Some? by { BoolFieldEncodes(0, before[0]); }
    var data := EncodeFields(fields, 0).value;
    AtPrefix([], data, []);
    assert [] + data + [] == data;
    assert NormalFields(CompactCodec, before, map[]) == map[-1 := DBool(true)];
    BoolListComesBackIff(before, 0, 5, List, [true, true], data, 0, map[]);
  }

  lemma BoolFieldEncodes(previous: i16, f: Field)
    requires f.kind.Bool?
    ensures EncodeField(previous, f).Some?
  {}

  /** One unfolding of the struct reader. */
  lemma AfterFirstField(
      data: Octets, pos: nat, previous: i16, id: i16, start: nat, value: Decoded, end: nat, acc: map<i16, Decoded>)
    requires pos < |data| && data[pos] != STOP
    requires ParseFieldID(data, pos + 1, previous, data[pos]) == Ok(id, start)
    requires start <= |data| && ParseValue(data, start, data[pos] % 16) == Ok(value, end)
    ensures ParseFields(data, pos, previous, acc) == ParseFields(data, end, id, acc[id := value])
  {
    hide ParseFieldID, ParseValue;
  }
}
