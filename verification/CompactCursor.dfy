/** The compact codec as the code runs it: a buffer that grows and a cursor that advances, each
    method tied to the function of module Compact that says what it must do. */
module CompactCursor {
  import opened Options
  import opened Bytes
  import opened Thrift
  import opened Compact

  class Writer {
    var data: Octets

    constructor ()
      ensures data == []
    {
      data := [];
    }

    /** `value` is a uint64 or a slice length. */
    method Varint(value: nat)
      modifies this
      ensures data == old(data) + EncodeVarint(value)
    {
      var v := value;
      while true
        invariant data + EncodeVarint(v) == old(data) + EncodeVarint(value)
        decreases v
      {
        var b := v % 0x80;
        ghost var before, rest := data, EncodeVarint(v);
        v := v / 0x80;
        if v != 0 {
          b := b + 0x80;
        }
        data := data + [b];
        if v == 0 {
          return;
        }
        assert before + rest == data + EncodeVarint(v);
      }
    }

    method Signed(value: i64)
      modifies this
      ensures data == old(data) + EncodeSigned(value)
    {
      Varint(ZigZag(value));
    }

    method Binary(value: Octets)
      modifies this
      ensures data == old(data) + EncodeBytes(value)
    {
      Varint(|value|);
      data := data + value;
    }

    /** Appends exactly the encoding of `fields`, or reports that there is none. */
    method StructValue(fields: seq<Field>) returns (ok: bool)
      modifies this
      ensures ok == EncodeFields(fields, 0).Some?
      ensures ok ==> data == old(data) + EncodeFields(fields, 0).value
      decreases fields, 0
    {
      hide EncodeField;
      var previous: i16 := 0;
      ghost var written: Octets := [];
      assert Then(Some(written), EncodeFields(fields, 0)) == EncodeFields(fields, 0) by {
        if EncodeFields(fields, 0).Some? {
          assert [] + EncodeFields(fields, 0).value == EncodeFields(fields, 0).value;
        }
      }
      for i := 0 to |fields|
        invariant data == old(data) + written
        invariant Then(Some(written), EncodeFields(fields[i..], previous)) == EncodeFields(fields, 0)
      {
        var f := fields[i];
        ghost var piece := EncodeField(previous, f);
        assert fields[i..][0] == f && fields[i..][1..] == fields[i + 1..];
        ThenAssociative(written, piece, EncodeFields(fields[i + 1..], f.id));
        var encoded := FieldValue(previous, f);
        if !encoded {
          return false;
        }
        written := written + piece.value;
        previous := f.id;
      }
      data := data + [STOP];
      return true;
    }

    method FieldValue(previous: i16, f: Field) returns (ok: bool)
      modifies this
      ensures ok == EncodeField(previous, f).Some?
      ensures ok ==> data == old(data) + EncodeField(previous, f).value
      decreases f, 2
    {
      hide EncodeValue, EncodeVarint, Wrap16;
      var ctype := FieldType(f);
      if ctype.None? {
        return false;
      }
      ghost var header := FieldHeader(previous, f.id, ctype.value);
      var delta := Wrap16(f.id - previous);
      if 0 < delta <= 15 {
        data := data + [delta * 16 + ctype.value];
      } else {
        data := data + [ctype.value];
        Signed(f.id);
      }
      assert data == old(data) + header;
      ok := true;
      if !f.kind.Bool? {
        ok := Value(f.kind, f.value, f);
      }
    }

    method Value(kind: Kind, value: Value, spec: Field) returns (ok: bool)
      modifies this
      ensures ok == EncodeValue(kind, value, spec).Some?
      ensures ok ==> data == old(data) + EncodeValue(kind, value, spec).value
      decreases value, 1
    {
      match kind {
        case Bool =>
          if !value.Boolean? {
            return false;
          }
          data := data + [if value.b then TRUE else FALSE];
        case Byte =>
          if !value.Integer? {
            return false;
          }
          data := data + [value.n % 0x100];
        case I16 | I32 | I64 =>
          if !value.Integer? {
            return false;
          }
          Signed(value.n);
        case Double =>
          if !value.Float? {
            return false;
          }
          data := data + LittleEndian(value.bits, 8);
        case String =>
          if !value.Text? {
            return false;
          }
          Binary(value.text);
        case Binary =>
          if !value.Raw? {
            return false;
          }
          Binary(value.raw);
        case Struct =>
          if !value.Fields? {
            return false;
          }
          ok := StructValue(value.fields);
          return;
        case List | Set =>
          if !value.Items? {
            return false;
          }
          ok := ListValue(spec.elementKind, value.items);
          return;
        case Map =>
          if !value.Entries? {
            return false;
          }
          ok := MapValue(spec.keyKind, spec.valueKind, value.entries);
          return;
        case Unsupported(_) =>
          return false;
      }
      return true;
    }

    method ListValue(kind: Kind, items: seq<Value>) returns (ok: bool)
      modifies this
      ensures ok == EncodeList(kind, items).Some?
      ensures ok ==> data == old(data) + EncodeList(kind, items).value
      decreases items, 1
    {
      hide EncodeValue, EncodeVarint;
      var ctype := TypeOf(kind);
      if ctype.None? {
        return false;
      }
      ghost var written := ListHeader(|items|, ctype.value);
      if |items| <= 14 {
        data := data + [|items| * 16 + ctype.value];
      } else {
        data := data + [0xF0 + ctype.value];
        Varint(|items|);
      }
      assert data == old(data) + written;
      for i := 0 to |items|
        invariant data == old(data) + written
        invariant Then(Some(written), EncodeItems(kind, items[i..])) == EncodeList(kind, items)
      {
        ghost var piece := EncodeValue(kind, items[i], NO_SPEC);
        assert items[i..][0] == items[i] && items[i..][1..] == items[i + 1..];
        ThenAssociative(written, piece, EncodeItems(kind, items[i + 1..]));
        var encoded := Value(kind, items[i], NO_SPEC);
        if !encoded {
          return false;
        }
        written := written + piece.value;
      }
      assert written + [] == written;
      return true;
    }

    /** Ranging over a map: `entries` is the order this iteration takes. */
    method MapValue(keyKind: Kind, valueKind: Kind, entries: seq<Entry>) returns (ok: bool)
      modifies this
      ensures ok == EncodeMap(keyKind, valueKind, entries).Some?
      ensures ok ==> data == old(data) + EncodeMap(keyKind, valueKind, entries).value
      decreases entries, 1
    {
      hide EncodeEntry, EncodeVarint, EncodeEntries, TypeOf;
      Varint(|entries|);
      if entries == [] {
        return true;
      }
      var keyType, valueType := TypeOf(keyKind), TypeOf(valueKind);
      if keyType.None? || valueType.None? {
        return false;
      }
      ghost var written := MapHeader(|entries|, keyType.value, valueType.value);
      AppendAssociative(old(data), EncodeVarint(|entries|), [keyType.value * 16 + valueType.value]);
      data := data + [keyType.value * 16 + valueType.value];
      assert data == old(data) + written;
      EntriesEnds(keyKind, valueKind, entries);
      assert EncodeMap(keyKind, valueKind, entries) == Then(Some(written), EncodeEntries(keyKind, valueKind, entries));
      hide MapHeader, EncodeMap;
      for i := 0 to |entries|
        invariant data == old(data) + written
        invariant EncodeMap(keyKind, valueKind, entries)
               == Then(Some(written), EncodeEntries(keyKind, valueKind, entries[i..]))
      {
        ghost var piece := EncodeEntry(keyKind, valueKind, entries[i]);
        EntriesFrom(keyKind, valueKind, entries, i);
        ThenAssociative(written, piece, EncodeEntries(keyKind, valueKind, entries[i + 1..]));
        var encoded := EntryValue(keyKind, valueKind, entries[i]);
        if !encoded {
          return false;
        }
        AppendAssociative(old(data), written, piece.value);
        written := written + piece.value;
      }
      assert written + [] == written;
      return true;
    }

    lemma EntriesEnds(keyKind: Kind, valueKind: Kind, entries: seq<Entry>)
      ensures entries[0..] == entries && EncodeEntries(keyKind, valueKind, entries[|entries|..]) == Some([])
    {
    }

    lemma EntriesFrom(keyKind: Kind, valueKind: Kind, entries: seq<Entry>, i: nat)
      requires i < |entries|
      ensures EncodeEntries(keyKind, valueKind, entries[i..])
           == Then(EncodeEntry(keyKind, valueKind, entries[i]), EncodeEntries(keyKind, valueKind, entries[i + 1..]))
    {
      hide EncodeEntry;
      assert entries[i..][0] == entries[i] && entries[i..][1..] == entries[i + 1..];
    }

    method EntryValue(keyKind: Kind, valueKind: Kind, entry: Entry) returns (ok: bool)
      modifies this
      ensures ok == EncodeEntry(keyKind, valueKind, entry).Some?
      ensures ok ==> data == old(data) + EncodeEntry(keyKind, valueKind, entry).value
      decreases entry, 2
    {
      hide EncodeValue;
      ok := Value(keyKind, entry.key, NO_SPEC);
      if ok {
        ok := Value(valueKind, entry.item, NO_SPEC);
      }
    }
  }

  method EncodeCallBytes(name: Octets, fields: seq<Field>, sequence: u64) returns (call: Option<Octets>)
    ensures call == EncodeCall(name, fields, sequence)
  {
    var w := new Writer();
    w.data := w.data + [PROTOCOL_ID, CALL_VERSION];
    w.Varint(sequence);
    w.Binary(name);
    assert w.data == CallHeader(name, sequence);
    var ok := w.StructValue(fields);
    call := if ok then Some(w.data) else None;
  }

  class Reader {
    const data: Octets
    var pos: nat

    ghost predicate Valid()
      reads this
    {
      pos <= |data|
    }

    constructor (data: Octets)
      ensures this.data == data && pos == 0 && Valid()
    {
      this.data := data;
      pos := 0;
    }

    method Take(size: nat) returns (r: Outcome<Octets>)
      requires Valid()
      modifies this
      ensures Valid() && pos >= old(pos) && r.Follows(ParseTake(data, old(pos), size), pos)
      ensures r.IsFailure() ==> pos == old(pos)
    {
      if pos + size > |data| {
        return Failure;
      }
      var value := data[pos..pos + size];
      pos := pos + size;
      return Success(value);
    }

    method Byte() returns (r: Outcome<byte>)
      requires Valid()
      modifies this
      ensures Valid() && pos >= old(pos) && r.Follows(ParseByte(data, old(pos)), pos)
    {
      var value :- Take(1);
      return Success(value[0]);
    }

    /** Ten groups at most, whatever the bytes are. */
    method Varint() returns (r: Outcome<u64>)
      requires Valid()
      modifies this
      ensures Valid() && pos >= old(pos) && r.Follows(ParseVarint(data, old(pos)), pos)
    {
      var value: u64 := 0;
      for step := 0 to 10
        invariant Valid() && pos >= old(pos) && value < Pow128(step)
        invariant ParseVarintFrom(data, pos, step, value) == ParseVarint(data, old(pos))
      {
        var b :- Byte();
        VarintStep(value, b, step);
        value := value + Shifted(b % 0x80, step) % 0x1_0000_0000_0000_0000;
        if b < 0x80 {
          return Success(value);
        }
      }
      return Failure;
    }

    method Signed() returns (r: Outcome<i64>)
      requires Valid()
      modifies this
      ensures Valid() && pos >= old(pos) && r.Follows(ParseSigned(data, old(pos)), pos)
    {
      var value :- Varint();
      return Success(UnZigZag(value));
    }

    method Binary() returns (r: Outcome<Octets>)
      requires Valid()
      modifies this
      ensures Valid() && pos >= old(pos) && r.Follows(ParseBytes(data, old(pos)), pos)
    {
      var size :- Varint();
      if size > |data| - pos {
        return Failure;
      }
      r := Take(size);
    }

    method StructValue() returns (r: Outcome<map<i16, Decoded>>)
      requires Valid()
      modifies this
      ensures Valid() && pos >= old(pos) && r.Follows(ParseFields(data, old(pos), 0, map[]), pos)
      decreases |data| - pos, 0
    {
      hide ParseValue, ParseSigned;
      var result: map<i16, Decoded> := map[];
      var previous: i16 := 0;
      while true
        invariant Valid() && pos >= old(pos)
        invariant ParseFields(data, pos, previous, result) == ParseFields(data, old(pos), 0, map[])
        decreases |data| - pos
      {
        var header :- Byte();
        if header == STOP {
          return Success(result);
        }
        var delta, ctype := header / 16, header % 16;
        var fieldID := Wrap16(previous + delta);
        if delta == 0 {
          var signed :- Signed();
          fieldID := Wrap16(signed);
        }
        var value :- Value(ctype);
        result := result[fieldID := value];
        previous := fieldID;
      }
    }

    method Value(ctype: byte) returns (r: Outcome<Decoded>)
      requires Valid()
      modifies this
      ensures Valid() && pos >= old(pos) && r.Follows(ParseValue(data, old(pos), ctype), pos)
      decreases |data| - pos, 1
    {
      if ctype == TRUE {
        return Success(DBool(true));
      } else if ctype == FALSE {
        return Success(DBool(false));
      } else if ctype == BYTE {
        var b :- Byte();
        return Success(DInt8(Wrap8(b)));
      } else if ctype == INT16 || ctype == INT32 || ctype == INT64 {
        var n :- Signed();
        return Success(DInt64(n));
      } else if ctype == DOUBLE {
        var raw :- Take(8);
        FromLittleEndianBound(raw);
        Pow256Values();
        return Success(DDouble(FromLittleEndian(raw)));
      } else if ctype == BINARY {
        var raw :- Binary();
        return Success(DecodedBytes(raw));
      } else if ctype == LIST || ctype == SET {
        var items :- ListValue();
        return Success(DList(items));
      } else if ctype == MAP {
        var entries :- MapValue();
        return Success(DMap(entries));
      } else if ctype == STRUCT {
        var fields :- StructValue();
        return Success(DStruct(fields));
      }
      return Failure;
    }

    method ListValue() returns (r: Outcome<seq<Decoded>>)
      requires Valid()
      modifies this
      ensures Valid() && pos >= old(pos) && r.Follows(ParseList(data, old(pos)), pos)
      decreases |data| - pos, 0
    {
      var header :- Byte();
      var size: u64 := header / 16;
      if size == 15 {
        size :- Varint();
      }
      if size >= 0x8000_0000_0000_0000 {
        return Panicked;
      }
      var values: seq<Decoded> := [];
      for i := 0 to size
        invariant Valid() && pos > old(pos)
        invariant ParseItems(data, pos, header % 16, size - i, values) == ParseList(data, old(pos))
      {
        var value :- Value(header % 16);
        values := values + [value];
      }
      return Success(values);
    }

    method MapValue() returns (r: Outcome<map<Decoded, Decoded>>)
      requires Valid()
      modifies this
      ensures Valid() && pos >= old(pos) && r.Follows(ParseMap(data, old(pos)), pos)
      decreases |data| - pos, 0
    {
      var size :- Varint();
      var values: map<Decoded, Decoded> := map[];
      if size == 0 {
        return Success(values);
      }
      var types :- Byte();
      for i := 0 to size
        invariant Valid() && pos > old(pos)
        invariant ParseEntries(data, pos, types / 16, types % 16, size - i, values) == ParseMap(data, old(pos))
      {
        var key :- Value(types / 16);
        var value :- Value(types % 16);
        if !Hashable(key) {
          return Panicked;
        }
        values := values[key := value];
      }
      return Success(values);
    }
  }

  method DecodeMessage(data: Octets) returns (r: Outcome<Message>)
    ensures match r
      case Success(m) => ParseMessage(data).Ok? && ParseMessage(data).value == m
      case Failure => ParseMessage(data) == Err
      case Panicked => ParseMessage(data) == Panic
  {
    var reader := new Reader(data);
    var protocolID :- reader.Byte();
    if protocolID != PROTOCOL_ID {
      return Failure;
    }
    var versionType :- reader.Byte();
    if versionType % 0x20 != 1 {
      return Failure;
    }
    var sequence :- reader.Varint();
    var name :- reader.Binary();
    var fields :- reader.StructValue();
    return Success(Message(name, versionType / 0x20, sequence, fields));
  }

  method DecodeStruct(data: Octets) returns (r: Outcome<map<i16, Decoded>>)
    ensures match r
      case Success(fields) => ParseFields(data, 0, 0, map[]).Ok? && ParseFields(data, 0, 0, map[]).value == fields
      case Failure => ParseFields(data, 0, 0, map[]) == Err
      case Panicked => ParseFields(data, 0, 0, map[]) == Panic
  {
    var reader := new Reader(data);
    r := reader.StructValue();
  }
}
