/** What `Utf8Valid` accepts: exactly the encodings of sequences of Unicode scalar values, as section 3
    of RFC 3629 defines them. It decides which bytes arrive as text and which as raw bytes. */
module Utf8 {
  import opened Bytes
  import opened Thrift
  import Compact
  import CompactRoundTrip
  import BinaryThrift
  import BinaryRoundTrip

  /** Code points but the surrogates. */
  type Scalar = c: int | 0 <= c < 0xD800 || 0xE000 <= c < 0x11_0000

  /** One to four bytes: the number of leading ones of the first says how many, six bits in each other. */
  function EncodeScalar(c: Scalar): (s: Octets)
    ensures s != []
  {
    if c < 0x80 then [c]
    else if c < 0x800 then [0xC0 + c / 0x40, 0x80 + c % 0x40]
    else if c < 0x1_0000 then [0xE0 + c / 0x1000, 0x80 + c / 0x40 % 0x40, 0x80 + c % 0x40]
    else [0xF0 + c / 0x4_0000, 0x80 + c / 0x1000 % 0x40, 0x80 + c / 0x40 % 0x40, 0x80 + c % 0x40]
  }

  function Encode(scalars: seq<Scalar>): Octets {
    if scalars == [] then [] else EncodeScalar(scalars[0]) + Encode(scalars[1..])
  }

  ghost predicate IsText(s: Octets) {
    exists scalars: seq<Scalar> :: s == Encode(scalars)
  }

  // ---- One scalar value

  /** The scalar value of the well-formed sequence at the front. */
  function FirstScalar(s: Octets): int
    requires s != [] && RuneLength(s) > 0
  {
    match RuneLength(s)
    case 1 => s[0] as int
    case 2 => Joined([s[0] - 0xC0, s[1] - 0x80])
    case 3 => Joined([s[0] - 0xE0, s[1] - 0x80, s[2] - 0x80])
    case _ => Joined([s[0] - 0xF0, s[1] - 0x80, s[2] - 0x80, s[3] - 0x80])
  }

  /** Groups of six bits, high group first. */
  function Joined(groups: seq<int>): int {
    if groups == [] then 0 else Joined(groups[..|groups| - 1]) * 0x40 + groups[|groups| - 1]
  }

  lemma JoinedTwo(a: int, b: int)
    requires 0 <= a && 0 <= b < 0x40
    ensures var c := Joined([a, b]); c == a * 0x40 + b && c / 0x40 == a && c % 0x40 == b
  {
    assert [a, b][..1] == [a] && [a][..0] == [];
    assert Joined([]) == 0 && Joined([a]) == a;
  }

  lemma JoinedThree(a: int, b: int, d: int)
    requires 0 <= a && 0 <= b < 0x40 && 0 <= d < 0x40
    ensures var c := Joined([a, b, d]);
            c == a * 0x1000 + b * 0x40 + d && c / 0x1000 == a && c / 0x40 % 0x40 == b && c % 0x40 == d
  {
    assert [a, b, d][..2] == [a, b];
    JoinedTwo(a, b);
    hide Joined;
  }

  lemma JoinedFour(a: int, b: int, d: int, e: int)
    requires 0 <= a && 0 <= b < 0x40 && 0 <= d < 0x40 && 0 <= e < 0x40
    ensures var c := Joined([a, b, d, e]);
            && c == a * 0x4_0000 + b * 0x1000 + d * 0x40 + e && c / 0x4_0000 == a
            && c / 0x1000 % 0x40 == b && c / 0x40 % 0x40 == d && c % 0x40 == e
  {
    assert [a, b, d, e][..3] == [a, b, d];
    JoinedThree(a, b, d);
    hide Joined;
  }

  lemma FirstScalarEncoded(s: Octets)
    requires s != [] && RuneLength(s) > 0
    ensures var c := FirstScalar(s);
            (0 <= c < 0xD800 || 0xE000 <= c < 0x11_0000) && EncodeScalar(c) == s[..RuneLength(s)]
  {
    match RuneLength(s)
    case 1 =>
    case 2 => TwoEncoded(s);
    case 3 => ThreeEncoded(s);
    case _ => FourEncoded(s);
    hide FirstScalar, EncodeScalar, RuneLength;
  }

  lemma TwoEncoded(s: Octets)
    requires s != [] && RuneLength(s) == 2
    ensures var c := FirstScalar(s); 0 <= c < 0xD800 && EncodeScalar(c) == s[..2]
  {
    hide Joined;
    JoinedTwo(s[0] - 0xC0, s[1] - 0x80);
  }

  lemma ThreeEncoded(s: Octets)
    requires s != [] && RuneLength(s) == 3
    ensures var c := FirstScalar(s);
            (0 <= c < 0xD800 || 0xE000 <= c < 0x11_0000) && EncodeScalar(c) == s[..3]
  {
    hide Joined;
    JoinedThree(s[0] - 0xE0, s[1] - 0x80, s[2] - 0x80);
  }

  lemma FourEncoded(s: Octets)
    requires s != [] && RuneLength(s) == 4
    ensures var c := FirstScalar(s); 0xE000 <= c < 0x11_0000 && EncodeScalar(c) == s[..4]
  {
    hide Joined;
    JoinedFour(s[0] - 0xF0, s[1] - 0x80, s[2] - 0x80, s[3] - 0x80);
  }

  lemma EncodedRune(c: Scalar, rest: Octets)
    ensures RuneLength(EncodeScalar(c) + rest) == |EncodeScalar(c)|
  {
    var s := EncodeScalar(c) + rest;
    assert forall i | 0 <= i < |EncodeScalar(c)| :: s[i] == EncodeScalar(c)[i];
  }

  // ---- Whole texts

  lemma {:induction false} EncodedIsValid(scalars: seq<Scalar>)
    ensures Utf8Valid(Encode(scalars))
  {
    hide RuneLength, EncodeScalar;
    if scalars != [] {
      var first, rest := EncodeScalar(scalars[0]), Encode(scalars[1..]);
      EncodedRune(scalars[0], rest);
      assert (first + rest)[|first|..] == rest;
      EncodedIsValid(scalars[1..]);
    }
  }

  lemma {:induction false} ValidIsEncoded(s: Octets) returns (scalars: seq<Scalar>)
    requires Utf8Valid(s)
    ensures s == Encode(scalars)
    decreases |s|
  {
    hide RuneLength, EncodeScalar, FirstScalar;
    if s == [] {
      return [];
    }
    var n := RuneLength(s);
    FirstScalarEncoded(s);
    var rest := ValidIsEncoded(s[n..]);
    scalars := [FirstScalar(s)] + rest;
    assert scalars[1..] == rest && s[..n] + s[n..] == s;
  }

  /** The byte-wise check accepts exactly the encodings. */
  lemma ValidIffText(s: Octets)
    ensures Utf8Valid(s) <==> IsText(s)
  {
    hide Utf8Valid, Encode;
    if Utf8Valid(s) {
      var scalars := ValidIsEncoded(s);
    }
    if scalars: seq<Scalar> :| s == Encode(scalars) {
      EncodedIsValid(scalars);
    }
  }

  // ---- What arrives

  ghost function Arrives(s: Octets): Decoded {
    if IsText(s) then DText(s) else DRaw(s)
  }

  lemma DecodedArrives(s: Octets)
    ensures DecodedBytes(s) == Arrives(s)
  {
    hide Utf8Valid, IsText;
    ValidIffText(s);
  }

  /** Bytes sent in a compact call, whether as a string or as binary, arrive as text if and only if
      they encode scalar values, and as the same bytes in either case. */
  lemma CompactBytesArrive(name: Octets, id: i16, s: Octets, asText: bool, sequence: u64, suffix: Octets)
    requires |s| < CompactRoundTrip.MAX_LENGTH && |name| < CompactRoundTrip.MAX_LENGTH
    ensures var fields := [BytesField(id, s, asText)];
            Compact.EncodeCall(name, fields, sequence).Some? &&
            var call := Compact.EncodeCall(name, fields, sequence).value;
            Compact.ParseMessage(call + suffix) == Ok(Message(name, 1, sequence, map[id := Arrives(s)]), |call|)
  {
    CompactBytesSendable(id, s, asText, name, sequence);
    hide Compact.EncodeCall, Compact.ParseMessage, CompactRoundTrip.SendableFields, BytesField;
    CompactRoundTrip.CallRoundTrip(name, [BytesField(id, s, asText)], sequence, suffix);
    NormalOfBytes(CompactCodec, id, s, asText);
    hide *;
    DecodedArrives(s);
  }

  /** The same through the binary codec, within its limit. */
  lemma BinaryBytesArrive(name: Octets, id: i16, s: Octets, asText: bool, sequence: u64, suffix: Octets)
    requires |s| <= BinaryThrift.MAX_BYTES && |name| <= BinaryThrift.MAX_BYTES
    ensures var fields := [BytesField(id, s, asText)];
            BinaryThrift.EncodeCall(name, fields, sequence).Some? &&
            var call := BinaryThrift.EncodeCall(name, fields, sequence).value;
            BinaryThrift.ParseMessage(call + suffix)
              == Ok(Message(name, 1, sequence % 0x1_0000_0000, map[id := Arrives(s)]), |call|)
  {
    BinaryBytesSendable(id, s, asText, name, sequence);
    hide BinaryThrift.EncodeCall, BinaryThrift.ParseMessage, BinaryRoundTrip.SendableFields, BytesField;
    BinaryRoundTrip.CallRoundTrip(name, [BytesField(id, s, asText)], sequence, suffix);
    NormalOfBytes(BinaryCodec, id, s, asText);
    hide *;
    DecodedArrives(s);
  }

  function BytesField(id: i16, s: Octets, asText: bool): Field {
    if asText then Field(id, String, Text(s), Bool, Bool, Bool) else Field(id, Binary, Raw(s), Bool, Bool, Bool)
  }

  lemma CompactBytesSendable(id: i16, s: Octets, asText: bool, name: Octets, sequence: u64)
    requires |s| < CompactRoundTrip.MAX_LENGTH
    ensures CompactRoundTrip.SendableFields([BytesField(id, s, asText)])
    ensures Compact.EncodeCall(name, [BytesField(id, s, asText)], sequence).Some?
  {
    var f := BytesField(id, s, asText);
    assert [f][1..] == [];
    assert Compact.EncodeFields([f][1..], id).Some?;
    assert Compact.EncodeField(0, f).Some?;
  }

  lemma BinaryBytesSendable(id: i16, s: Octets, asText: bool, name: Octets, sequence: u64)
    requires |s| <= BinaryThrift.MAX_BYTES
    ensures BinaryRoundTrip.SendableFields([BytesField(id, s, asText)])
    ensures BinaryThrift.EncodeCall(name, [BytesField(id, s, asText)], sequence).Some?
  {
    var f := BytesField(id, s, asText);
    assert [f][1..] == [];
    assert BinaryThrift.EncodeFields([f][1..]).Some?;
    assert BinaryThrift.EncodeField(f).Some?;
  }

  lemma NormalOfBytes(codec: Codec, id: i16, s: Octets, asText: bool)
    ensures NormalFields(codec, [BytesField(id, s, asText)], map[]) == map[id := DecodedBytes(s)]
  {
    var f := BytesField(id, s, asText);
    assert [f][1..] == [];
    assert NormalField(codec, f) == DecodedBytes(s);
    hide DecodedBytes, Utf8Valid;
    assert NormalFields(codec, [], map[id := DecodedBytes(s)]) == map[id := DecodedBytes(s)];
  }
}
