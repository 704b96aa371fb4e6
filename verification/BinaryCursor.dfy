/** The binary codec as the code runs it, each method tied to the function of module BinaryThrift
    that says what it must do. */
module BinaryCursor {
  import opened Options
  import opened Bytes
  import opened Thrift
  import opened BinaryThrift

  class Writer {
    var data: Octets

    constructor ()
      ensures data == []
    {
      data := [];
    }

    method Append(value: Octets)
      modifies this
      ensures data == old(data) + value
    {
      data := data + value;
    }

    method Bytes(value: Octets)
      modifies this
      ensures data == old(data) + EncodeBytes(value)
    {
      Append(Put32(|value|));
      Append(value);
    }

    /** Appends exactly the encoding of `fields`, or reports that there is none. */
    method StructValue(fields: seq<Field>) returns (ok: bool)
      modifies this
      ensures ok == EncodeFields(fields).Some?
      ensures ok ==> data == old(data) + EncodeFields(fields).value
      decreases fields, 0
    {
      hide EncodeField;
      ghost var written: Octets := [];
      assert Then(Some(written), EncodeFields(fields)) == EncodeFields(fields) by {
        if EncodeFields(fields).Some? {
          assert [] + EncodeFields(fields).value == EncodeFields(fields).value;
        }
      }
      for i := 0 to |fields|
        invariant data == old(data) + written
        invariant Then(Some(written), EncodeFields(fields[i..])) == EncodeFields(fields)
      {
        ghost var piece := EncodeField(fields[i]);
        assert fields[i..][0] == fields[i] && fields[i..][1..] == fields[i + 1..];
        ThenAssociative(written, piece, EncodeFields(fields[i + 1..]));
        var encoded := FieldValue(fields[i]);
        if !encoded {
          return false;
        }
        written := written + piece.value;
      }
      Append([STOP]);
      return true;
    }

    method FieldValue(f: Field) returns (ok: bool)
      modifies this
      ensures ok == EncodeField(f).Some?
      ensures ok ==> data == old(data) + EncodeField(f).value
      decreases f, 2
    {
      hide EncodeValue, Put16;
      var ctype := TypeOf(f.kind);
      if ctype.None? {
        return false;
      }
      Append([ctype.value]);
      Append(Put16(f.id));
      assert data == old(data) + FieldHeader(f.id, ctype.value);
      ok := Value(f.kind, f.value, f);
    }

    method Value(kind: Kind, value: Value, spec: Field) returns (ok: bool)
      modifies this
      ensures ok == EncodeValue(kind, value, spec).Some?
      ensures ok ==> data == old(data) + EncodeValue(kind, value, spec).value
      decreases value, 1
    {
      hide Put16, Put32, Put64, EncodeList, EncodeMap, EncodeFields, EncodeBytes;
      match kind {
        case Bool =>
          if !value.Boolean? {
            return false;
          }
          Append([if value.b then 1 else 0]);
        case Byte =>
          if !value.Integer? {
            return false;
          }
          Append([value.n % 0x100]);
        case I16 =>
          if !value.Integer? {
            return false;
          }
          Append(Put16(value.n));
        case I32 =>
          if !value.Integer? {
            return false;
          }
          Append(Put32(value.n));
        case I64 =>
          if !value.Integer? {
            return false;
          }
          Append(Put64(value.n));
        case Double =>
          if !value.Float? {
            return false;
          }
          Append(Put64(value.bits));
        case String =>
          if !value.Text? {
            return false;
          }
          Bytes(value.text);
        case Binary =>
          if !value.Raw? {
            return false;
          }
          Bytes(value.raw);
        case Struct =>
          if !value.Fields? {
            return false;
          }
          ok := StructValue(value.fields);
          return;
        case List | Set =>
          if !value.Items? {
            return false;
          }
          ok := ListValue(spec.elementKind, value.items);
          return;
        case Map =>
          if !value.Entries? {
            return false;
          }
          ok := MapValue(spec.keyKind, spec.valueKind, value.entries);
          return;
        case Unsupported(_) =>
          return false;
      }
      return true;
    }

    method ListValue(kind: Kind, items: seq<Value>) returns (ok: bool)
      modifies this
      ensures ok == EncodeList(kind, items).Some?
      ensures ok ==> data == old(data) + EncodeList(kind, items).value
      decreases items, 1
    {
      hide EncodeValue, Put32;
      var ctype := TypeOf(kind);
      if ctype.None? {
        return false;
      }
      Append([ctype.value]);
      Append(Put32(|items|));
      ghost var written := ListHeader(|items|, ctype.value);
      assert data == old(data) + written;
      for i := 0 to |items|
        invariant data == old(data) + written
        invariant Then(Some(written), EncodeItems(kind, items[i..])) == EncodeList(kind, items)
      {
        ghost var piece := EncodeValue(kind, items[i], NO_SPEC);
        assert items[i..][0] == items[i] && items[i..][1..] == items[i + 1..];
        ThenAssociative(written, piece, EncodeItems(kind, items[i + 1..]));
        var encoded := Value(kind, items[i], NO_SPEC);
        if !encoded {
          return false;
        }
        written := written + piece.value;
      }
      assert written + [] == written;
      return true;
    }

    /** Ranging over a map: `entries` is the order this iteration takes. */
    method MapValue(keyKind: Kind, valueKind: Kind, entries: seq<Entry>) returns (ok: bool)
      modifies this
      ensures ok == EncodeMap(keyKind, valueKind, entries).Some?
      ensures ok ==> data == old(data) + EncodeMap(keyKind, valueKind, entries).value
      decreases entries, 1
    {
      hide EncodeEntry, Put32;
      var keyType, valueType := TypeOf(keyKind), TypeOf(valueKind);
      if keyType.None? || valueType.None? {
        return false;
      }
      Append([keyType.value, valueType.value]);
      Append(Put32(|entries|));
      ghost var written := MapHeader(|entries|, keyType.value, valueType.value);
      assert data == old(data) + written;
      for i := 0 to |entries|
        invariant data == old(data) + written
        invariant Then(Some(written), EncodeEntries(keyKind, valueKind, entries[i..]))
            == EncodeMap(keyKind, valueKind, entries)
      {
        ghost var piece := EncodeEntry(keyKind, valueKind, entries[i]);
        assert entries[i..][0] == entries[i] && entries[i..][1..] == entries[i + 1..];
        ThenAssociative(written, piece, EncodeEntries(keyKind, valueKind, entries[i + 1..]));
        var encoded := EntryValue(keyKind, valueKind, entries[i]);
        if !encoded {
          return false;
        }
        written := written + piece.value;
      }
      assert written + [] == written;
      return true;
    }

    method EntryValue(keyKind: Kind, valueKind: Kind, entry: Entry) returns (ok: bool)
      modifies this
      ensures ok == EncodeEntry(keyKind, valueKind, entry).Some?
      ensures ok ==> data == old(data) + EncodeEntry(keyKind, valueKind, entry).value
      decreases entry, 2
    {
      hide EncodeValue;
      ok := Value(keyKind, entry.key, NO_SPEC);
      if ok {
        ok := Value(valueKind, entry.item, NO_SPEC);
      }
    }
  }

  method EncodeCallBytes(name: Octets, fields: seq<Field>, sequence: u64) returns (call: Option<Octets>)
    ensures call == EncodeCall(name, fields, sequence)
  {
    hide Put32, EncodeFields;
    var w := new Writer();
    w.Append(Put32(CALL_VERSION));
    w.Bytes(name);
    w.Append(Put32(sequence));
    assert w.data == CallHeader(name, sequence);
    var ok := w.StructValue(fields);
    call := if ok then Some(w.data) else None;
  }

  class Reader {
    const data: Octets
    var pos: nat

    ghost predicate Valid()
      reads this
    {
      pos <= |data|
    }

    constructor (data: Octets)
      ensures this.data == data && pos == 0 && Valid()
    {
      this.data := data;
      pos := 0;
    }

    method Take(size: nat) returns (r: Outcome<Octets>)
      requires Valid()
      modifies this
      ensures Valid() && pos >= old(pos) && r.Follows(ParseTake(data, old(pos), size), pos)
      ensures r.IsFailure() ==> pos == old(pos)
    {
      if pos + size > |data| {
        return Failure;
      }
      var value := data[pos..pos + size];
      pos := pos + size;
      return Success(value);
    }

    method Int16() returns (r: Outcome<i16>)
      requires Valid()
      modifies this
      ensures Valid() && pos >= old(pos) && r.Follows(Parse16(data, old(pos)), pos)
    {
      var raw :- Take(2);
      return Success(Wrap16(FromBigEndian(raw)));
    }

    method Int32() returns (r: Outcome<i32>)
      requires Valid()
      modifies this
      ensures Valid() && pos >= old(pos) && r.Follows(Parse32(data, old(pos)), pos)
    {
      var raw :- Take(4);
      return Success(Wrap32(FromBigEndian(raw)));
    }

    method Int64() returns (r: Outcome<i64>)
      requires Valid()
      modifies this
      ensures Valid() && pos >= old(pos) && r.Follows(Parse64(data, old(pos)), pos)
    {
      var raw :- Take(8);
      return Success(Wrap64(FromBigEndian(raw)));
    }

    method Bytes() returns (r: Outcome<Octets>)
      requires Valid()
      modifies this
      ensures Valid() && pos >= old(pos) && r.Follows(ParseBytes(data, old(pos)), pos)
    {
      hide Parse32;
      var size :- Int32();
      if size < 0 || size > MAX_BYTES {
        return Failure;
      }
      r := Take(size);
    }

    method StructValue() returns (r: Outcome<map<i16, Decoded>>)
      requires Valid()
      modifies this
      ensures Valid() && pos >= old(pos) && r.Follows(ParseFields(data, old(pos), map[]), pos)
      decreases |data| - pos, 0
    {
      hide Parse16, ParseValue;
      var result: map<i16, Decoded> := map[];
      while true
        invariant Valid() && pos >= old(pos)
        invariant ParseFields(data, pos, result) == ParseFields(data, old(pos), map[])
        decreases |data| - pos
      {
        var rawType :- Take(1);
        if rawType[0] == STOP {
          return Success(result);
        }
        var fieldID :- Int16();
        var value :- Value(rawType[0]);
        result := result[fieldID := value];
      }
    }

    method Value(rawType: byte) returns (r: Outcome<Decoded>)
      requires Valid()
      modifies this
      ensures Valid() && pos >= old(pos) && r.Follows(ParseValue(data, old(pos), rawType), pos)
      decreases |data| - pos, 1
    {
      hide Parse16, Parse32, Parse64, ParseBytes, ParseFields, ParseList, ParseMap, Utf8Valid;
      if rawType == BOOL {
        var raw :- Take(1);
        return Success(DBool(raw[0] != 0));
      } else if rawType == BYTE {
        var raw :- Take(1);
        return Success(DInt8(Wrap8(raw[0])));
      } else if rawType == INT16 {
        var n :- Int16();
        return Success(DInt16(n));
      } else if rawType == INT32 {
        var n :- Int32();
        return Success(DInt32(n));
      } else if rawType == INT64 {
        var n :- Int64();
        return Success(DInt64(n));
      } else if rawType == DOUBLE {
        var bits :- Int64();
        var unsigned: u64 := bits as int % 0x1_0000_0000_0000_0000;
        return Success(DDouble(unsigned));
      } else if rawType == STRING {
        var raw :- Bytes();
        return Success(DecodedBytes(raw));
      } else if rawType == STRUCT {
        var fields :- StructValue();
        return Success(DStruct(fields));
      } else if rawType == MAP {
        var entries :- MapValue();
        return Success(DMap(entries));
      } else if rawType == LIST || rawType == SET {
        var items :- ListValue();
        return Success(DList(items));
      }
      return Failure;
    }

    method MapValue() returns (r: Outcome<map<Decoded, Decoded>>)
      requires Valid()
      modifies this
      ensures Valid() && pos >= old(pos) && r.Follows(ParseMap(data, old(pos)), pos)
      decreases |data| - pos, 0
    {
      hide Parse32, ParseValue;
      var types :- Take(2);
      var size :- Int32();
      if size < 0 || size > MAX_SIZE {
        return Failure;
      }
      var values: map<Decoded, Decoded> := map[];
      for i := 0 to size
        invariant Valid() && pos > old(pos)
        invariant ParseEntries(data, pos, types[0], types[1], size - i, values) == ParseMap(data, old(pos))
      {
        var key :- Value(types[0]);
        var item :- Value(types[1]);
        if !Hashable(key) {
          return Panicked;
        }
        values := values[key := item];
      }
      return Success(values);
    }

    method ListValue() returns (r: Outcome<seq<Decoded>>)
      requires Valid()
      modifies this
      ensures Valid() && pos >= old(pos) && r.Follows(ParseList(data, old(pos)), pos)
      decreases |data| - pos, 0
    {
      hide Parse32, ParseValue;
      var elementType :- Take(1);
      var size :- Int32();
      if size < 0 || size > MAX_SIZE {
        return Failure;
      }
      var values: seq<Decoded> := [];
      for i := 0 to size
        invariant Valid() && pos > old(pos)
        invariant ParseItems(data, pos, elementType[0], size - i, values) == ParseList(data, old(pos))
      {
        var item :- Value(elementType[0]);
        values := values + [item];
      }
      return Success(values);
    }
  }

  method DecodeBinaryMessage(data: Octets) returns (r: Outcome<Message>)
    ensures match r
      case Success(m) => ParseMessage(data).Ok? && ParseMessage(data).value == m
      case Failure => ParseMessage(data) == Err
      case Panicked => ParseMessage(data) == Panic
  {
    hide Parse32, ParseBytes, ParseFields;
    var reader := new Reader(data);
    var versionType :- reader.Int32();
    var version: u32 := versionType as int % 0x1_0000_0000;
    if version / 0x1_0000 != 0x8001 {
      return Failure;
    }
    var name :- reader.Bytes();
    var sequence :- reader.Int32();
    var fields :- reader.StructValue();
    var number: u64 := sequence as int % 0x1_0000_0000;
    return Success(Message(name, version % 0x100, number, fields));
  }
}
