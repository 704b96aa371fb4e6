/** What a server answers with: messages of every type, read by both codecs, and what the call that
    waits makes of their fields. */
module Replies {
  import opened Options
  import opened Bytes
  import opened Thrift
  import Compact
  import CompactRoundTrip
  import BinaryThrift
  import BinaryRoundTrip
  import KnownBytes
  import Session

  // ---- The compact protocol

  /** The protocol's number, version 1 below a type of three bits, the sequence number and the name. */
  function CompactHeader(kind: byte, name: Octets, sequence: u64): Octets
    requires kind < 8
  {
    [0x82, 0x20 * kind + 1] + Compact.EncodeVarint(sequence) + Compact.EncodeBytes(name)
  }

  lemma CompactHeaderReads(kind: byte, name: Octets, sequence: u64, data: Octets)
    requires kind < 8 && |name| < CompactRoundTrip.MAX_LENGTH && At(data, 0, CompactHeader(kind, name, sequence))
    ensures Compact.ParseHeader(data)
         == Ok(Compact.Header(kind, sequence, name), |CompactHeader(kind, name, sequence)|)
  {
    hide At, Compact.EncodeVarint, Compact.ParseVarint, Compact.EncodeBytes, Compact.ParseBytes;
    var second := 0x20 * kind + 1;
    var magic, number, text := [0x82] + [second], Compact.EncodeVarint(sequence), Compact.EncodeBytes(name);
    assert magic == [0x82, second];
    AtSplit(data, 0, magic + number, text);
    AtSplit(data, 0, magic, number);
    AtByte(data, 0, 0x82, [second]);
    AtOne(data, 1, second);
    assert second / 0x20 == kind && second % 0x20 == 1;
    CompactRoundTrip.VarintRoundTrip(sequence, data, 2);
    CompactRoundTrip.BytesRoundTrip(name, data, 2 + |number|);
  }

  /** A message of any type arrives with its type, name, number and fields. */
  lemma CompactReplyArrives(kind: byte, name: Octets, sequence: u64, fields: seq<Field>, suffix: Octets)
    requires kind < 8 && |name| < CompactRoundTrip.MAX_LENGTH
    requires Compact.EncodeFields(fields, 0).Some? && CompactRoundTrip.SendableFields(fields)
    ensures var reply := CompactHeader(kind, name, sequence) + Compact.EncodeFields(fields, 0).value;
            Compact.ParseMessage(reply + suffix)
            == Ok(Message(name, kind, sequence, NormalFields(CompactCodec, fields, map[])), |reply|)
  {
    hide At, CompactHeader, Compact.ParseHeader, Compact.EncodeFields, Compact.ParseFields, NormalFields;
    hide CompactRoundTrip.SendableFields;
    var header, body := CompactHeader(kind, name, sequence), Compact.EncodeFields(fields, 0).value;
    var data := header + body + suffix;
    assert [] + (header + body) + suffix == data;
    AtPrefix([], header + body, suffix);
    AtSplit(data, 0, header, body);
    CompactHeaderReads(kind, name, sequence, data);
    CompactRoundTrip.FieldsRoundTrip(fields, 0, data, |header|, map[]);
  }

  /** Anything else at the front is refused. */
  lemma CompactRefuses(data: Octets)
    requires |data| < 2 || data[0] != 0x82 || data[1] % 0x20 != 1
    ensures Compact.ParseMessage(data) == Err
  {}

  // ---- The binary protocol

  /** 80 01, a byte that is not looked at, and the type; the name; the low half of the number. */
  function BinaryHeader(spare: byte, kind: byte, name: Octets, sequence: u64): Octets {
    [0x80, 0x01, spare, kind] + BinaryThrift.EncodeBytes(name) + Put32(sequence)
  }

  lemma BinaryHeaderReads(spare: byte, kind: byte, name: Octets, sequence: u64, data: Octets)
    requires |name| <= BinaryThrift.MAX_BYTES && At(data, 0, BinaryHeader(spare, kind, name, sequence))
    ensures BinaryThrift.ParseHeader(data)
         == Ok(BinaryThrift.Header(kind, name, sequence % 0x1_0000_0000), |BinaryHeader(spare, kind, name, sequence)|)
  {
    var version: int := 0x8001_0000 + 0x100 * spare + kind;
    KnownBytes.Put32Bytes(version);
    VersionBytes(spare, kind);
    hide At, Put32, BinaryThrift.Parse32, BinaryThrift.EncodeBytes, BinaryThrift.ParseBytes;
    var text, number := BinaryThrift.EncodeBytes(name), Put32(sequence);
    assert Put32(version) == [0x80, 0x01, spare, kind];
    AtSplit(data, 0, Put32(version) + text, number);
    AtSplit(data, 0, Put32(version), text);
    BinaryRoundTrip.Int32RoundTrip(version, data, 0);
    BinaryRoundTrip.BytesRoundTrip(name, data, 4);
    BinaryRoundTrip.Int32RoundTrip(sequence, data, 4 + |text|);
    assert Wrap32(version) % 0x1_0000_0000 == version;
    assert Wrap32(sequence) % 0x1_0000_0000 == sequence % 0x1_0000_0000;
  }

  lemma VersionBytes(spare: byte, kind: byte)
    ensures var v := 0x8001_0000 + 0x100 * spare + kind;
            && v / 0x100_0000 % 0x100 == 0x80 && v / 0x1_0000 % 0x100 == 0x01 && v / 0x100 % 0x100 == spare
            && v % 0x100 == kind && v / 0x1_0000 == 0x8001
  {}

  lemma BinaryReplyArrives(
      spare: byte, kind: byte, name: Octets, sequence: u64, fields: seq<Field>, suffix: Octets)
    requires |name| <= BinaryThrift.MAX_BYTES
    requires BinaryThrift.EncodeFields(fields).Some? && BinaryRoundTrip.SendableFields(fields)
    ensures var reply := BinaryHeader(spare, kind, name, sequence) + BinaryThrift.EncodeFields(fields).value;
            BinaryThrift.ParseMessage(reply + suffix)
            == Ok(Message(name, kind, sequence % 0x1_0000_0000, NormalFields(BinaryCodec, fields, map[])), |reply|)
  {
    hide At, BinaryHeader, BinaryThrift.ParseHeader, BinaryThrift.EncodeFields, BinaryThrift.ParseFields, NormalFields;
    hide BinaryRoundTrip.SendableFields;
    var header, body := BinaryHeader(spare, kind, name, sequence), BinaryThrift.EncodeFields(fields).value;
    var data := header + body + suffix;
    assert [] + (header + body) + suffix == data;
    AtPrefix([], header + body, suffix);
    AtSplit(data, 0, header, body);
    BinaryHeaderReads(spare, kind, name, sequence, data);
    BinaryRoundTrip.FieldsRoundTrip(fields, data, |header|, map[]);
  }

  lemma BinaryRefuses(data: Octets)
    requires |data| < 4 || data[0] != 0x80 || data[1] != 0x01
    ensures BinaryThrift.ParseMessage(data) == Err
  {
    if |data| >= 4 {
      var word := data[..4];
      WordValue(word);
      assert data[0..4] == word;
      HighHalf(data[0], data[1], data[2], data[3]);
      hide FromBigEndian, Wrap32;
    }
  }

  lemma HighHalf(a: byte, b: byte, c: byte, d: byte)
    ensures var w := 0x100_0000 * a as int + 0x1_0000 * b as int + 0x100 * c as int + d as int;
            Wrap32(w) % 0x1_0000_0000 == w && w / 0x1_0000 == 0x100 * a as int + b as int
  {}

  lemma WordValue(word: Octets)
    requires |word| == 4
    ensures FromBigEndian(word)
         == 0x100_0000 * word[0] as int + 0x1_0000 * word[1] as int + 0x100 * word[2] as int + word[3] as int
  {
    assert FromBigEndian(word[..0]) == 0;
    assert FromBigEndian(word[..1]) == word[0] by { assert word[..1][..0] == word[..0]; }
    assert FromBigEndian(word[..2]) == 256 * word[0] as int + word[1] as int by { assert word[..2][..1] == word[..1]; }
    assert FromBigEndian(word[..3]) == 256 * FromBigEndian(word[..2]) + word[2] by {
      assert word[..3][..2] == word[..2];
    }
  }

  // ---- What the caller makes of the fields

  /** The code of a service error: field 1 of the struct, if it arrived as a 64-bit integer. */
  function Code(details: Decoded): Option<i64> {
    if details.DStruct? && 1 in details.fields && details.fields[1].DInt64? then Some(details.fields[1].n64) else None
  }

  /** Field 0 is the result and field 1 an error; code 119 is an expired token. */
  function BodyOf(fields: map<i16, Decoded>): Session.Body {
    if 0 in fields then Session.Result
    else if 1 in fields then Session.ServiceError(Code(fields[1]) == Some(119))
    else if fields == map[] then Session.Empty
    else Session.ResultMissing
  }

  lemma {:induction false} FieldIDs(codec: Codec, fields: seq<Field>, acc: map<i16, Decoded>, id: i16)
    ensures var m := NormalFields(codec, fields, acc);
      && (id in m <==> id in acc || exists i :: 0 <= i < |fields| && fields[i].id == id)
      && (id in acc && (forall i | 0 <= i < |fields| :: fields[i].id != id) ==> m[id] == acc[id])
  {
    hide NormalField;
    if fields != [] {
      FieldIDs(codec, fields[1..], acc[fields[0].id := NormalField(codec, fields[0])], id);
      var rest := fields[1..];
      assert forall i | 0 <= i < |rest| :: rest[i] == fields[i + 1];
      if i :| 0 <= i < |fields| && fields[i].id == id && i > 0 {
        assert rest[i - 1].id == id;
      }
    }
  }

  /** Of several fields with one ID the last one stands. */
  lemma {:induction false} LastFieldStands(codec: Codec, fields: seq<Field>, acc: map<i16, Decoded>, k: nat)
    requires k < |fields| && forall j | k < j < |fields| :: fields[j].id != fields[k].id
    ensures var m := NormalFields(codec, fields, acc);
            fields[k].id in m && m[fields[k].id] == NormalField(codec, fields[k])
  {
    hide NormalField;
    var rest, next := fields[1..], acc[fields[0].id := NormalField(codec, fields[0])];
    assert forall j | 0 <= j < |rest| :: rest[j] == fields[j + 1];
    if k == 0 {
      FieldIDs(codec, rest, next, fields[0].id);
    } else {
      LastFieldStands(codec, rest, next, k - 1);
    }
  }

  /** A reply is a result exactly if some field has ID 0, and empty exactly if it has no fields. */
  lemma ResultsAndNothing(codec: Codec, fields: seq<Field>)
    ensures var body := BodyOf(NormalFields(codec, fields, map[]));
      && (body.Result? <==> exists i :: 0 <= i < |fields| && fields[i].id == 0)
      && (body.Empty? <==> fields == [])
      && (body.ServiceError? <==> (forall i | 0 <= i < |fields| :: fields[i].id != 0)
                                  && exists i :: 0 <= i < |fields| && fields[i].id == 1)
  {
    FieldIDs(codec, fields, map[], 0);
    FieldIDs(codec, fields, map[], 1);
    if fields != [] {
      FieldIDs(codec, fields, map[], fields[0].id);
    }
    hide NormalFields;
  }

  /** Over the compact protocol an error's code is recognised whatever width the server declared it with:
      a reply with this error alone asks for a refresh if and only if the code is 119. */
  lemma ExpiryRecognised(kind: Kind, code: i64, more: seq<Field>)
    requires kind.I16? || kind.I32? || kind.I64?
    requires forall i | 0 <= i < |more| :: more[i].id != 1
    ensures var first := Field(1, kind, Integer(code), Bool, Bool, Bool);
      var error := Field(1, Struct, Fields([first] + more), Bool, Bool, Bool);
      BodyOf(NormalFields(CompactCodec, [error], map[])) == Session.ServiceError(code == 119)
  {
    var first := Field(1, kind, Integer(code), Bool, Bool, Bool);
    var error := Field(1, Struct, Fields([first] + more), Bool, Bool, Bool);
    assert ([first] + more)[1..] == more;
    FieldIDs(CompactCodec, more, map[1 := DInt64(code)], 1);
    assert NormalField(CompactCodec, first) == DInt64(code);
    assert NormalFields(CompactCodec, [first] + more, map[])
        == NormalFields(CompactCodec, more, map[1 := DInt64(code)]);
    assert NormalField(CompactCodec, error) == DStruct(NormalFields(CompactCodec, [first] + more, map[]));
    assert [error][1..] == [];
    assert NormalFields(CompactCodec, [error], map[]) == map[1 := NormalField(CompactCodec, error)];
    hide NormalFields;
  }
}
