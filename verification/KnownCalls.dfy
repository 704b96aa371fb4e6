/** Whole structs as they must appear on the wire, with a field of each kind: what a peer that knows only
    the Thrift protocol specifications reads and writes. */
module KnownCalls {
  import opened Options
  import opened Bytes
  import opened Thrift
  import opened KnownBytes
  import Compact
  import BinaryThrift

  function Plain(id: i16, kind: Kind, value: Value): Field { Field(id, kind, value, Bool, Bool, Bool) }

  // ---- The compact protocol

  lemma CompactFirst(previous: i16, f: Field, rest: seq<Field>, head: Octets, tail: Octets)
    requires Compact.EncodeField(previous, f) == Some(head) && Compact.EncodeFields(rest, f.id) == Some(tail)
    ensures Compact.EncodeFields([f] + rest, previous) == Some(head + tail)
  {
    hide Compact.EncodeField;
    assert ([f] + rest)[1..] == rest;
  }

  lemma CompactField(previous: i16, f: Field, code: byte, body: Octets)
    requires Compact.FieldType(f) == Some(code) && 1 <= f.id as int - previous as int <= 15 && !f.kind.Bool?
    requires Compact.EncodeValue(f.kind, f.value, f) == Some(body)
    ensures Compact.EncodeField(previous, f) == Some([(f.id - previous) * 16 + code] + body)
  {}

  lemma TwoGroups(v: nat)
    requires 0x80 <= v < 0x4000
    ensures Compact.EncodeVarint(v) == [v % 0x80 + 0x80, v / 0x80]
  {
    assert Compact.EncodeVarint(v / 0x80) == [v / 0x80];
  }

  lemma CompactBool(previous: i16, id: i16, b: bool)
    requires id == previous + 1
    ensures Compact.EncodeField(previous, Plain(id, Bool, Boolean(b))) == Some([if b then 0x11 else 0x12])
  {
    assert Compact.FieldHeader(previous, id, if b then 1 else 2) + [] == [if b then 0x11 else 0x12];
  }

  lemma CompactByte()
    ensures Compact.EncodeField(2, Plain(3, Byte, Integer(-1))) == Some([0x13, 0xFF])
  {
    var n: i64 := -1;
    assert n % 0x100 == 0xFF;
    CompactField(2, Plain(3, Byte, Integer(n)), 3, [0xFF]);
    hide Compact.EncodeField;
    assert [0x13] + [0xFF] == [0x13, 0xFF];
  }

  lemma CompactInteger(previous: i16, kind: Kind, n: i64, code: byte, groups: Octets)
    requires previous < 100 && code == (if kind.I16? then 4 else if kind.I32? then 5 else 6)
    requires kind.I16? || kind.I32? || kind.I64?
    requires Compact.EncodeVarint(if n >= 0 then 2 * n else -2 * n - 1) == groups
    ensures Compact.EncodeField(previous, Plain(previous + 1, kind, Integer(n))) == Some([0x10 + code] + groups)
  {
    hide Compact.EncodeVarint;
    CompactField(previous, Plain(previous + 1, kind, Integer(n)), code, groups);
    hide Compact.EncodeField;
  }

  lemma CompactIntegers()
    ensures Compact.EncodeField(3, Plain(4, I16, Integer(-2))) == Some([0x14, 0x03])
    ensures Compact.EncodeField(4, Plain(5, I32, Integer(300))) == Some([0x15, 0xD8, 0x04])
    ensures Compact.EncodeField(5, Plain(6, I64, Integer(-300))) == Some([0x16, 0xD7, 0x04])
  {
    hide Compact.EncodeField;
    TwoGroups(600);
    TwoGroups(599);
    CompactInteger(3, I16, -2, 4, [0x03]);
    CompactInteger(4, I32, 300, 5, [0xD8, 0x04]);
    CompactInteger(5, I64, -300, 6, [0xD7, 0x04]);
    assert [0x14] + [0x03] == [0x14, 0x03] && [0x15] + [0xD8, 0x04] == [0x15, 0xD8, 0x04];
    assert [0x16] + [0xD7, 0x04] == [0x16, 0xD7, 0x04];
  }

  lemma CompactDouble()
    ensures Compact.EncodeField(6, Plain(7, Double, Float(0x3FF8_0000_0000_0000)))
         == Some([0x17, 0, 0, 0, 0, 0, 0, 0xF8, 0x3F])
  {
    var f := Plain(7, Double, Float(0x3FF8_0000_0000_0000));
    assert LittleEndian(0x3FF8_0000_0000_0000, 8) == [0, 0, 0, 0, 0, 0, 0xF8, 0x3F];
    CompactField(6, f, 7, [0, 0, 0, 0, 0, 0, 0xF8, 0x3F]);
    hide Compact.EncodeField;
    assert [0x17] + [0, 0, 0, 0, 0, 0, 0xF8, 0x3F] == [0x17, 0, 0, 0, 0, 0, 0, 0xF8, 0x3F];
  }

  /** Texts and bytes share a kind: "é" and the byte FF. */
  lemma CompactTexts()
    ensures Compact.EncodeField(7, Plain(8, String, Text([0xC3, 0xA9]))) == Some([0x18, 0x02, 0xC3, 0xA9])
    ensures Compact.EncodeField(8, Plain(9, Binary, Raw([0xFF]))) == Some([0x18, 0x01, 0xFF])
  {
    assert Compact.EncodeVarint(2) + [0xC3, 0xA9] == [0x02, 0xC3, 0xA9];
    assert Compact.EncodeVarint(1) + [0xFF] == [0x01, 0xFF];
    CompactField(7, Plain(8, String, Text([0xC3, 0xA9])), 8, [0x02, 0xC3, 0xA9]);
    CompactField(8, Plain(9, Binary, Raw([0xFF])), 8, [0x01, 0xFF]);
    hide Compact.EncodeField;
    assert [0x18] + [0x02, 0xC3, 0xA9] == [0x18, 0x02, 0xC3, 0xA9] && [0x18] + [0x01, 0xFF] == [0x18, 0x01, 0xFF];
  }

  /** The list of 1 and -1. */
  lemma CompactList()
    ensures Compact.EncodeField(9, Field(10, List, Items([Integer(1), Integer(-1)]), I32, Bool, Bool))
         == Some([0x19, 0x25, 0x02, 0x01])
  {
    CompactTwoItems();
    assert [0x25] + [0x02, 0x01] == [0x25, 0x02, 0x01];
    CompactField(9, Field(10, List, Items([Integer(1), Integer(-1)]), I32, Bool, Bool), 9, [0x25, 0x02, 0x01]);
    hide Compact.EncodeField;
    assert [0x19] + [0x25, 0x02, 0x01] == [0x19, 0x25, 0x02, 0x01];
  }

  /** The set of 5. */
  lemma CompactSet()
    ensures Compact.EncodeField(10, Field(11, Set, Items([Integer(5)]), Byte, Bool, Bool)) == Some([0x1A, 0x13, 0x05])
  {
    CompactOneItem();
    assert [0x13] + [0x05] == [0x13, 0x05];
    CompactField(10, Field(11, Set, Items([Integer(5)]), Byte, Bool, Bool), 10, [0x13, 0x05]);
    hide Compact.EncodeField;
    assert [0x1A] + [0x13, 0x05] == [0x1A, 0x13, 0x05];
  }

  lemma CompactTwoItems()
    ensures Compact.EncodeItems(I32, [Integer(1), Integer(-1)]) == Some([0x02, 0x01])
  {
    var items := [Integer(1), Integer(-1)];
    assert items[1..] == [Integer(-1)] && items[1..][1..] == [];
    assert Compact.EncodeItems(I32, items[1..]) == Some([0x01] + []);
    assert [0x02] + ([0x01] + []) == [0x02, 0x01];
  }

  lemma CompactOneItem()
    ensures Compact.EncodeItems(Byte, [Integer(5)]) == Some([0x05])
  {
    assert [Integer(5)][1..] == [] && [0x05] + [] == [0x05];
  }

  /** The map from 7 to "x". */
  lemma CompactMap()
    ensures Compact.EncodeField(11, Field(12, Map, Entries([Entry(Integer(7), Text([0x78]))]), Bool, I16, String))
         == Some([0x1B, 0x01, 0x48, 0x0E, 0x01, 0x78])
  {
    var entries := [Entry(Integer(7), Text([0x78]))];
    assert entries[1..] == [];
    assert Compact.EncodeVarint(1) + [0x78] == [0x01, 0x78];
    assert Compact.EncodeEntry(I16, String, entries[0]) == Some([0x0E] + [0x01, 0x78]);
    assert [0x0E] + [0x01, 0x78] + [] == [0x0E, 0x01, 0x78];
    assert Compact.EncodeEntries(I16, String, entries) == Some([0x0E, 0x01, 0x78]);
    assert Compact.EncodeVarint(1) + [0x48] == [0x01, 0x48];
    assert [0x01, 0x48] + [0x0E, 0x01, 0x78] == [0x01, 0x48, 0x0E, 0x01, 0x78];
    CompactField(11, Field(12, Map, Entries(entries), Bool, I16, String), 11, [0x01, 0x48, 0x0E, 0x01, 0x78]);
    hide Compact.EncodeField;
    assert [0x1B] + [0x01, 0x48, 0x0E, 0x01, 0x78] == [0x1B, 0x01, 0x48, 0x0E, 0x01, 0x78];
  }

  /** A struct with one field, the number 1. */
  lemma CompactStruct()
    ensures Compact.EncodeField(12, Plain(13, Struct, Fields([Plain(1, I32, Integer(1))])))
         == Some([0x1C, 0x15, 0x02, 0x00])
  {
    var fields := [Plain(1, I32, Integer(1))];
    assert fields[1..] == [];
    CompactInteger(0, I32, 1, 5, [0x02]);
    assert [0x15] + [0x02] + [0x00] == [0x15, 0x02, 0x00];
    CompactField(12, Plain(13, Struct, Fields(fields)), 12, [0x15, 0x02, 0x00]);
    hide Compact.EncodeField;
    assert [0x1C] + [0x15, 0x02, 0x00] == [0x1C, 0x15, 0x02, 0x00];
  }

  /** Sixteen or more above its predecessor, or below it, a field names its ID. */
  lemma CompactFarFields()
    ensures Compact.EncodeField(13, Plain(40, I32, Integer(0))) == Some([0x05, 0x50, 0x00])
    ensures Compact.EncodeField(40, Plain(39, I32, Integer(0))) == Some([0x05, 0x4E, 0x00])
  {
    assert Compact.FieldHeader(13, 40, 5) == [0x05] + [0x50] && Compact.FieldHeader(40, 39, 5) == [0x05] + [0x4E];
    assert [0x05] + [0x50] + [0x00] == [0x05, 0x50, 0x00] && [0x05] + [0x4E] + [0x00] == [0x05, 0x4E, 0x00];
  }

  /** The call "sync" of the compact protocol with sequence number 7 and the fields "chat", 42 and true. */
  lemma CompactCall()
    ensures var fields := [Plain(1, String, Text([0x63, 0x68, 0x61, 0x74]))]
              + ([Plain(2, I64, Integer(42))] + ([Plain(3, Bool, Boolean(true))] + []));
      Compact.EncodeCall([0x73, 0x79, 0x6E, 0x63], fields, 7)
      == Some([0x82, 0x21, 0x07, 0x04, 0x73, 0x79, 0x6E, 0x63]
              + ([0x18, 0x04, 0x63, 0x68, 0x61, 0x74] + ([0x16, 0x54] + ([0x11] + [0x00]))))
  {
    CompactCallHeader();
    CompactCallFields();
    hide Compact.EncodeFields, Compact.CallHeader;
  }

  lemma CompactCallHeader()
    ensures Compact.CallHeader([0x73, 0x79, 0x6E, 0x63], 7) == [0x82, 0x21, 0x07, 0x04, 0x73, 0x79, 0x6E, 0x63]
  {
    assert Compact.EncodeVarint(4) + [0x73, 0x79, 0x6E, 0x63] == [0x04, 0x73, 0x79, 0x6E, 0x63];
    assert [0x82, 0x21] + [0x07] + [0x04, 0x73, 0x79, 0x6E, 0x63]
        == [0x82, 0x21, 0x07, 0x04, 0x73, 0x79, 0x6E, 0x63];
  }

  lemma CompactCallFields()
    ensures Compact.EncodeFields([Plain(1, String, Text([0x63, 0x68, 0x61, 0x74]))]
              + ([Plain(2, I64, Integer(42))] + ([Plain(3, Bool, Boolean(true))] + [])), 0)
         == Some([0x18, 0x04, 0x63, 0x68, 0x61, 0x74] + ([0x16, 0x54] + ([0x11] + [0x00])))
  {
    var chat, number, flag := Plain(1, String, Text([0x63, 0x68, 0x61, 0x74])), Plain(2, I64, Integer(42)),
      Plain(3, Bool, Boolean(true));
    CompactChat();
    CompactInteger(1, I64, 42, 6, [0x54]);
    CompactBool(2, 3, true);
    hide Compact.EncodeField, Compact.EncodeVarint;
    assert [0x10 + 6] + [0x54] == [0x16, 0x54];
    CompactFirst(2, flag, [], [0x11], [0x00]);
    hide Compact.EncodeFields;
    CompactFirst(1, number, [flag] + [], [0x16, 0x54], [0x11] + [0x00]);
    CompactFirst(0, chat, [number] + ([flag] + []), [0x18, 0x04, 0x63, 0x68, 0x61, 0x74],
                 [0x16, 0x54] + ([0x11] + [0x00]));
  }

  lemma CompactChat()
    ensures Compact.EncodeField(0, Plain(1, String, Text([0x63, 0x68, 0x61, 0x74])))
         == Some([0x18, 0x04, 0x63, 0x68, 0x61, 0x74])
  {
    assert Compact.EncodeVarint(4) + [0x63, 0x68, 0x61, 0x74] == [0x04, 0x63, 0x68, 0x61, 0x74];
    CompactField(0, Plain(1, String, Text([0x63, 0x68, 0x61, 0x74])), 8, [0x04, 0x63, 0x68, 0x61, 0x74]);
    hide Compact.EncodeField;
    assert [0x18] + [0x04, 0x63, 0x68, 0x61, 0x74] == [0x18, 0x04, 0x63, 0x68, 0x61, 0x74];
  }

  // ---- The binary protocol

  lemma BinaryField(f: Field, code: byte, body: Octets)
    requires BinaryThrift.TypeOf(f.kind) == Some(code) && 0 <= f.id < 0x100
    requires BinaryThrift.EncodeValue(f.kind, f.value, f) == Some(body)
    ensures BinaryThrift.EncodeField(f) == Some([code, 0, f.id] + body)
  {
    Put16Bytes(f.id);
    assert [code] + [0, f.id] == [code, 0, f.id];
    hide BinaryThrift.Put16;
  }

  /** A byte for the kind, two for the ID, and the highest byte of every number first. */
  lemma BinaryNumbers()
    ensures BinaryThrift.EncodeField(Plain(1, Bool, Boolean(true))) == Some([2, 0, 1] + [1])
    ensures BinaryThrift.EncodeField(Plain(2, Byte, Integer(-1))) == Some([3, 0, 2] + [0xFF])
    ensures BinaryThrift.EncodeField(Plain(3, I16, Integer(-2))) == Some([6, 0, 3] + [0xFF, 0xFE])
    ensures BinaryThrift.EncodeField(Plain(4, I32, Integer(300))) == Some([8, 0, 4] + [0, 0, 1, 0x2C])
  {
    hide BigEndian, BinaryThrift.Put16, Put32;
    Put16Bytes(-2);
    Put32Bytes(300);
    BinaryField(Plain(1, Bool, Boolean(true)), 2, [1]);
    BinaryField(Plain(2, Byte, Integer(-1)), 3, [0xFF]);
    BinaryField(Plain(3, I16, Integer(-2)), 6, [0xFF, 0xFE]);
    BinaryField(Plain(4, I32, Integer(300)), 8, [0, 0, 1, 0x2C]);
  }

  lemma BinaryLongNumbers()
    ensures BinaryThrift.EncodeField(Plain(5, I64, Integer(-300)))
         == Some([10, 0, 5] + ([0xFF, 0xFF, 0xFF, 0xFF] + [0xFF, 0xFF, 0xFE, 0xD4]))
    ensures BinaryThrift.EncodeField(Plain(6, Double, Float(0x3FF8_0000_0000_0000)))
         == Some([4, 0, 6] + ([0x3F, 0xF8, 0, 0] + [0, 0, 0, 0]))
  {
    hide BigEndian, BinaryThrift.Put16, BinaryThrift.Put64, Put32;
    Put64Bytes(-300);
    Put32Bytes(-300 / 0x1_0000_0000);
    Put32Bytes(-300);
    Put64Bytes(0x3FF8_0000_0000_0000);
    Put32Bytes(0x3FF8_0000);
    Put32Bytes(0x3FF8_0000_0000_0000);
    BinaryField(Plain(5, I64, Integer(-300)), 10, [0xFF, 0xFF, 0xFF, 0xFF] + [0xFF, 0xFF, 0xFE, 0xD4]);
    BinaryField(Plain(6, Double, Float(0x3FF8_0000_0000_0000)), 4, [0x3F, 0xF8, 0, 0] + [0, 0, 0, 0]);
  }

  lemma BinaryTexts()
    ensures BinaryThrift.EncodeField(Plain(8, String, Text([0xC3, 0xA9])))
         == Some([11, 0, 8] + ([0, 0, 0, 2] + [0xC3, 0xA9]))
    ensures BinaryThrift.EncodeField(Plain(9, Binary, Raw([0xFF]))) == Some([11, 0, 9] + ([0, 0, 0, 1] + [0xFF]))
  {
    hide BigEndian, BinaryThrift.Put16, Put32;
    Put32Bytes(2);
    Put32Bytes(1);
    BinaryField(Plain(8, String, Text([0xC3, 0xA9])), 11, [0, 0, 0, 2] + [0xC3, 0xA9]);
    BinaryField(Plain(9, Binary, Raw([0xFF])), 11, [0, 0, 0, 1] + [0xFF]);
  }

  /** The list of -2, the set of 5, the map from 7 to "x" and a struct with the flag true. */
  lemma BinaryContainers()
    ensures BinaryThrift.EncodeField(Field(10, List, Items([Integer(-2)]), I16, Bool, Bool))
         == Some([15, 0, 10] + ([6, 0, 0, 0, 1] + [0xFF, 0xFE]))
    ensures BinaryThrift.EncodeField(Field(11, Set, Items([Integer(5)]), Byte, Bool, Bool))
         == Some([14, 0, 11] + ([3, 0, 0, 0, 1] + [5]))
    ensures BinaryThrift.EncodeField(Field(12, Map, Entries([Entry(Integer(7), Text([0x78]))]), Bool, I16, String))
         == Some([13, 0, 12] + ([6, 11, 0, 0, 0, 1] + [0, 7, 0, 0, 0, 1, 0x78]))
    ensures BinaryThrift.EncodeField(Plain(13, Struct, Fields([Plain(1, Bool, Boolean(true))])))
         == Some([12, 0, 13] + ([2, 0, 1, 1] + [0]))
  {
    BinaryItems();
    BinaryEntries();
    BinaryStruct();
    hide BinaryThrift.EncodeItems, BinaryThrift.EncodeEntries, BinaryThrift.EncodeFields, BigEndian;
    hide BinaryThrift.Put16, Put32;
    Put32Bytes(1);
    assert [6] + [0, 0, 0, 1] == [6, 0, 0, 0, 1] && [3] + [0, 0, 0, 1] == [3, 0, 0, 0, 1];
    assert [6] + ([11] + [0, 0, 0, 1]) == [6, 11, 0, 0, 0, 1];
    BinaryField(Field(10, List, Items([Integer(-2)]), I16, Bool, Bool), 15, [6, 0, 0, 0, 1] + [0xFF, 0xFE]);
    BinaryField(Field(11, Set, Items([Integer(5)]), Byte, Bool, Bool), 14, [3, 0, 0, 0, 1] + [5]);
    BinaryField(Field(12, Map, Entries([Entry(Integer(7), Text([0x78]))]), Bool, I16, String), 13,
                [6, 11, 0, 0, 0, 1] + [0, 7, 0, 0, 0, 1, 0x78]);
    BinaryField(Plain(13, Struct, Fields([Plain(1, Bool, Boolean(true))])), 12, [2, 0, 1, 1] + [0]);
  }

  lemma BinaryItems()
    ensures BinaryThrift.EncodeItems(I16, [Integer(-2)]) == Some([0xFF, 0xFE])
    ensures BinaryThrift.EncodeItems(Byte, [Integer(5)]) == Some([5])
  {
    hide BinaryThrift.Put16;
    Put16Bytes(-2);
    assert [Integer(-2)][1..] == [] && [0xFF, 0xFE] + [] == [0xFF, 0xFE];
    assert [Integer(5)][1..] == [] && [5] + [] == [5];
  }

  lemma BinaryEntries()
    ensures BinaryThrift.EncodeEntries(I16, String, [Entry(Integer(7), Text([0x78]))])
         == Some([0, 7, 0, 0, 0, 1, 0x78])
  {
    hide BinaryThrift.Put16, Put32;
    Put16Bytes(7);
    Put32Bytes(1);
    var entries := [Entry(Integer(7), Text([0x78]))];
    assert entries[1..] == [];
    assert [0, 7] + ([0, 0, 0, 1] + [0x78]) == [0, 7, 0, 0, 0, 1, 0x78];
    assert BinaryThrift.EncodeEntry(I16, String, entries[0]) == Some([0, 7, 0, 0, 0, 1, 0x78]);
    assert [0, 7, 0, 0, 0, 1, 0x78] + [] == [0, 7, 0, 0, 0, 1, 0x78];
  }

  lemma BinaryStruct()
    ensures BinaryThrift.EncodeFields([Plain(1, Bool, Boolean(true))]) == Some([2, 0, 1, 1] + [0])
  {
    hide BinaryThrift.Put16;
    BinaryField(Plain(1, Bool, Boolean(true)), 2, [1]);
    assert [2, 0, 1] + [1] == [2, 0, 1, 1] && [Plain(1, Bool, Boolean(true))][1..] == [];
    hide BinaryThrift.EncodeField;
  }

  /** The header of a call of "sync" with sequence number 9. */
  lemma BinaryCallHeader()
    ensures BinaryThrift.CallHeader([0x73, 0x79, 0x6E, 0x63], 9)
         == [0x80, 0x01, 0x00, 0x01] + ([0, 0, 0, 4] + [0x73, 0x79, 0x6E, 0x63]) + [0, 0, 0, 9]
  {
    hide Put32;
    Put32Bytes(-2147418111);
    Put32Bytes(4);
    Put32Bytes(9);
  }
}
