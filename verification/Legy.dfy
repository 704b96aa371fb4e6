/** The LEGY request envelope: length-prefixed inner headers, a marker byte, PKCS#7 and CBC under a
    fixed IV, and a four-byte xxHash MAC. */
module Legy {
  import opened Options
  import opened Bytes
  import opened Thrift
  import opened Cbc
  import XxHash
  import BinaryThrift
  import BinaryCursor
  import BinaryRoundTrip

  const IV: Octets := [78, 9, 72, 62, 56, 245, 255, 114, 128, 18, 123, 158, 251, 92, 45, 51]
  /** The `le` flags every client is created with: 4 marks, 2 authenticates. */
  const LE: byte := 7
  const MAX_U16: nat := 0xFFFF

  datatype Pair = Pair(key: Octets, value: Octets)

  function Get16(data: Octets, pos: nat): (n: u16)
    requires pos + 2 <= |data|
  {
    FromBigEndianBound(data[pos..pos + 2]);
    Pow256Values();
    FromBigEndian(data[pos..pos + 2])
  }

  lemma Get16AtPut16(n: nat, data: Octets, pos: nat)
    requires n <= MAX_U16 && At(data, pos, BinaryThrift.Put16(n))
    ensures Get16(data, pos) == n
  {
    hide BigEndian, FromBigEndian, Pow256;
    Pow256Values();
    BigEndianRoundTrip(n, 2);
    Put16Unwrapped(n);
  }

  lemma Put16Unwrapped(n: nat)
    requires n <= MAX_U16
    ensures BinaryThrift.Put16(n) == BigEndian(n, 2)
  {
    hide BigEndian;
  }

  // ---- Inner headers

  function EncodePair(p: Pair): Octets {
    BinaryThrift.Put16(|p.key|) + (p.key + (BinaryThrift.Put16(|p.value|) + p.value))
  }

  /** The pairs of the header map, in the order this iteration visits it. */
  function EncodePairs(pairs: seq<Pair>): Option<Octets> {
    if pairs == [] then Some([])
    else if |pairs[0].key| > MAX_U16 || |pairs[0].value| > MAX_U16 then None
    else Then(Some(EncodePair(pairs[0])), EncodePairs(pairs[1..]))
  }

  function EncodeInnerHeaders(pairs: seq<Pair>): Option<Octets> {
    match EncodePairs(pairs)
    case None => None
    case Some(encoded) =>
      var body := BinaryThrift.Put16(|pairs|) + encoded;
      if |body| > MAX_U16 then None else Some(BinaryThrift.Put16(|body|) + body)
  }

  datatype Headers = Headers(values: map<Octets, Octets>, rest: Octets)

  function DecodePairs(data: Octets, position: nat, end: nat, count: nat, acc: map<Octets, Octets>)
    : Option<map<Octets, Octets>>
    requires end <= |data|
    decreases count
  {
    if count == 0 then Some(acc)
    else if position + 2 > end then None
    else
      var keyLength := Get16(data, position);
      var start := position + 2;
      if start + keyLength + 2 > end then None
      else
        var valueLength := Get16(data, start + keyLength);
        var value := start + keyLength + 2;
        if value + valueLength > end then None
        else
          DecodePairs(data, value + valueLength, end, count - 1,
                      acc[data[start..start + keyLength] := data[value..value + valueLength]])
  }

  function DecodeInnerHeaders(data: Octets): Option<Headers> {
    if |data| < 4 then None
    else
      var end := Get16(data, 0) + 2;
      if end > |data| then None
      else
        match DecodePairs(data, 4, end, Get16(data, 2), map[])
        case None => None
        case Some(values) => Some(Headers(values, data[end..]))
  }

  /** The map a list of pairs denotes. */
  function AsMap(pairs: seq<Pair>, acc: map<Octets, Octets>): map<Octets, Octets> {
    if pairs == [] then acc else AsMap(pairs[1..], acc[pairs[0].key := pairs[0].value])
  }

  /** Every pair costs at least four bytes, so headers that fit never overflow their 16-bit count. */
  lemma {:induction false} PairsSize(pairs: seq<Pair>)
    requires EncodePairs(pairs).Some?
    ensures |EncodePairs(pairs).value| >= 4 * |pairs|
  {
    if pairs != [] {
      PairsSize(pairs[1..]);
    }
  }

  lemma CountNeverTruncated(pairs: seq<Pair>)
    requires EncodeInnerHeaders(pairs).Some?
    ensures |pairs| <= 16383
  {
    PairsSize(pairs);
  }

  lemma {:induction false} PairsRoundTrip(
      pairs: seq<Pair>, data: Octets, position: nat, end: nat, acc: map<Octets, Octets>)
    requires EncodePairs(pairs).Some? && At(data, position, EncodePairs(pairs).value)
    requires end == position + |EncodePairs(pairs).value|
    ensures DecodePairs(data, position, end, |pairs|, acc) == Some(AsMap(pairs, acc))
  {
    hide At, BinaryThrift.Put16, Get16;
    if pairs != [] {
      var p := pairs[0];
      var rest := EncodePairs(pairs[1..]).value;
      AtSplit(data, position, EncodePair(p), rest);
      PairAt(p, data, position);
      PairsRoundTrip(pairs[1..], data, position + |EncodePair(p)|, end, acc[p.key := p.value]);
    }
  }

  lemma PairAt(p: Pair, data: Octets, position: nat)
    requires |p.key| <= MAX_U16 && |p.value| <= MAX_U16 && At(data, position, EncodePair(p))
    ensures var start := position + 2;
            var value := start + |p.key| + 2;
            && value + |p.value| == position + |EncodePair(p)| <= |data|
            && Get16(data, position) == |p.key| && data[start..start + |p.key|] == p.key
            && Get16(data, value - 2) == |p.value| && data[value..value + |p.value|] == p.value
  {
    hide BinaryThrift.Put16, Get16;
    var start := position + 2;
    AtSplit(data, position, BinaryThrift.Put16(|p.key|), p.key + (BinaryThrift.Put16(|p.value|) + p.value));
    AtSplit(data, start, p.key, BinaryThrift.Put16(|p.value|) + p.value);
    AtSplit(data, start + |p.key|, BinaryThrift.Put16(|p.value|), p.value);
    Get16AtPut16(|p.key|, data, position);
    Get16AtPut16(|p.value|, data, start + |p.key|);
  }

  /** Headers that could be encoded are decoded to the map they came from, and what follows them is
      handed on untouched. */
  lemma InnerHeadersRoundTrip(pairs: seq<Pair>, rest: Octets)
    requires EncodeInnerHeaders(pairs).Some?
    ensures DecodeInnerHeaders(EncodeInnerHeaders(pairs).value + rest) == Some(Headers(AsMap(pairs, map[]), rest))
  {
    hide At, BinaryThrift.Put16, Get16, EncodePairs, DecodePairs, AsMap;
    CountNeverTruncated(pairs);
    var encoded := EncodePairs(pairs).value;
    var body := BinaryThrift.Put16(|pairs|) + encoded;
    var data := BinaryThrift.Put16(|body|) + body + rest;
    assert [] + (BinaryThrift.Put16(|body|) + body) + rest == data;
    AtPrefix([], BinaryThrift.Put16(|body|) + body, rest);
    AtSplit(data, 0, BinaryThrift.Put16(|body|), body);
    AtSplit(data, 2, BinaryThrift.Put16(|pairs|), encoded);
    Get16AtPut16(|body|, data, 0);
    Get16AtPut16(|pairs|, data, 2);
    PairsRoundTrip(pairs, data, 4, |body| + 2, map[]);
    assert data[|body| + 2..] == rest;
  }

  method EncodeInnerHeadersBytes(pairs: seq<Pair>) returns (r: Option<Octets>)
    ensures r == EncodeInnerHeaders(pairs)
  {
    hide BinaryThrift.Put16;
    var body := BinaryThrift.Put16(|pairs|);
    ghost var written: Octets := [];
    for i := 0 to |pairs|
      invariant body == BinaryThrift.Put16(|pairs|) + written
      invariant Then(Some(written), EncodePairs(pairs[i..])) == Then(Some([]), EncodePairs(pairs))
    {
      var p := pairs[i];
      if |p.key| > MAX_U16 || |p.value| > MAX_U16 {
        assert EncodePairs(pairs[i..]).None?;
        return None;
      }
      assert pairs[i..][1..] == pairs[i + 1..];
      ThenAssociative(written, Some(EncodePair(p)), EncodePairs(pairs[i + 1..]));
      body := body + BinaryThrift.Put16(|p.key|) + p.key + BinaryThrift.Put16(|p.value|) + p.value;
      written := written + EncodePair(p);
    }
    assert written + [] == written && [] + EncodePairs(pairs).value == EncodePairs(pairs).value;
    if |body| > MAX_U16 {
      return None;
    }
    return Some(BinaryThrift.Put16(|body|) + body);
  }

  method DecodeInnerHeadersBytes(data: Octets) returns (r: Option<Headers>)
    ensures r == DecodeInnerHeaders(data)
  {
    hide Get16;
    if |data| < 4 {
      return None;
    }
    var end := Get16(data, 0) + 2;
    if end > |data| {
      return None;
    }
    var count := Get16(data, 2);
    var position: nat := 4;
    var headers: map<Octets, Octets> := map[];
    for i := 0 to count
      invariant DecodePairs(data, position, end, count - i, headers) == DecodePairs(data, 4, end, count, map[])
    {
      if position + 2 > end {
        return None;
      }
      var keyLength := Get16(data, position);
      position := position + 2;
      if position + keyLength + 2 > end {
        return None;
      }
      var key := data[position..position + keyLength];
      position := position + keyLength;
      var valueLength := Get16(data, position);
      position := position + 2;
      if position + valueLength > end {
        return None;
      }
      headers := headers[key := data[position..position + valueLength]];
      position := position + valueLength;
    }
    return Some(Headers(headers, data[end..]));
  }

  // ---- Encryption and MAC

  function EncryptCBC(cipher: BlockCipher, plaintext: Octets): (r: Octets)
    ensures |r| % BLOCK == 0 && r != []
  {
    EncryptBlocks(cipher, IV, Pad(plaintext))
  }

  /** Whole blocks are decrypted; a shorter tail, such as the MAC, is ignored. */
  function DecryptCBC(cipher: BlockCipher, ciphertext: Octets): Option<Octets> {
    var aligned := |ciphertext| - |ciphertext| % BLOCK;
    if aligned == 0 then None
    else
      assert |ciphertext[..aligned]| % BLOCK == 0;
      Unpad(DecryptBlocks(cipher, IV, ciphertext[..aligned]))
  }

  lemma DecryptCBCUndoesEncryptCBC(cipher: BlockCipher, plaintext: Octets, tail: Octets)
    requires cipher.Invertible() && |tail| < BLOCK
    ensures DecryptCBC(cipher, EncryptCBC(cipher, plaintext) + tail) == Some(plaintext)
  {
    hide Pad, Unpad, EncryptBlocks, DecryptBlocks;
    var encrypted := EncryptCBC(cipher, plaintext);
    var ciphertext := encrypted + tail;
    assert |ciphertext| % BLOCK == |tail|;
    assert ciphertext[..|encrypted|] == encrypted;
    DecryptUndoesEncrypt(cipher, IV, Pad(plaintext));
    UnpadUndoesPad(plaintext);
  }

  function XorKey(key: Octets, mask: byte): Octets {
    seq(|key|, i requires 0 <= i < |key| => XorByte(mask, key[i]))
  }

  /** A nested keyed hash in the manner of HMAC, over XXH32. */
  function Mac(key: Octets, data: Octets): (mac: Octets)
    ensures |mac| == 4
  {
    var inner := XxHash.XXH32(XorKey(key, 0x36) + data, 0);
    BigEndian(XxHash.XXH32(XorKey(key, 0x5C) + BigEndian(inner, 4), 0), 4)
  }

  method LegyMac(key: Octets, data: Octets) returns (mac: Octets)
    requires |key| == 16
    ensures mac == Mac(key, data)
  {
    hide XorByte;
    var opad, ipad := new byte[16], new byte[16];
    for index := 0 to 16
      invariant forall i | 0 <= i < index :: opad[i] == XorByte(0x5C, key[i]) && ipad[i] == XorByte(0x36, key[i])
    {
      opad[index] := XorByte(0x5C, key[index]);
      ipad[index] := XorByte(0x36, key[index]);
    }
    assert opad[..] == XorKey(key, 0x5C) && ipad[..] == XorKey(key, 0x36);
    var inner := XxHash.Hash(ipad[..] + data, 0);
    var outer := XxHash.Hash(opad[..] + BigEndian(inner, 4), 0);
    mac := BigEndian(outer, 4);
  }

  // ---- The whole request

  const PATH_HEADER: Octets := [0x78, 0x2D, 0x6C, 0x70, 0x71, 0x73] // "x-lpqs"

  /** What `call` puts on the wire for one request, or nothing if its parts cannot be encoded. */
  function Request(
      cipher: BlockCipher, key: Octets, path: Octets, methodName: Octets, fields: seq<Field>, sequence: u64)
    : Option<Octets>
  {
    match (BinaryThrift.EncodeCall(methodName, fields, sequence), EncodeInnerHeaders([Pair(PATH_HEADER, path)]))
    case (Some(thrift), Some(headers)) =>
      var encrypted := EncryptCBC(cipher, [LE] + (headers + thrift));
      Some(encrypted + Mac(key, encrypted))
    case _ => None
  }

  method EncryptCBCBuffer(cipher: BlockCipher, plaintext: Octets) returns (encrypted: Octets)
    ensures encrypted == EncryptCBC(cipher, plaintext)
  {
    var padded := PadBuffer(plaintext);
    encrypted := EncryptBlocks(cipher, IV, padded[..]);
  }

  method DecryptCBCBuffer(cipher: BlockCipher, ciphertext: Octets) returns (r: Option<Octets>)
    ensures r == DecryptCBC(cipher, ciphertext)
  {
    hide DecryptBlocks, Unpad;
    var aligned := |ciphertext| - |ciphertext| % BLOCK;
    if aligned == 0 {
      return None;
    }
    assert |ciphertext[..aligned]| % BLOCK == 0;
    r := UnpadBuffer(DecryptBlocks(cipher, IV, ciphertext[..aligned]));
  }

  /** The framing half of `call`. */
  method BuildRequest(
      cipher: BlockCipher, key: Octets, path: Octets, methodName: Octets, fields: seq<Field>, sequence: u64)
    returns (request: Option<Octets>)
    requires |key| == 16
    ensures request == Request(cipher, key, path, methodName, fields, sequence)
  {
    hide EncryptCBC, Mac, EncodeInnerHeaders, BinaryThrift.EncodeCall;
    var thrift := BinaryCursor.EncodeCallBytes(methodName, fields, sequence);
    if thrift.None? {
      return None;
    }
    var headers := EncodeInnerHeadersBytes([Pair(PATH_HEADER, path)]);
    if headers.None? {
      return None;
    }
    var plaintext := [LE] + (headers.value + thrift.value);
    var encrypted := EncryptCBCBuffer(cipher, plaintext);
    var mac := LegyMac(key, encrypted);
    request := Some(encrypted + mac);
  }

  /** The receiving side of the same envelope: decrypt, drop the marker, split off the headers and
      parse what is left. */
  function Open(cipher: BlockCipher, raw: Octets): Option<(map<Octets, Octets>, Parsed<Message>)> {
    match DecryptCBC(cipher, raw)
    case None => None
    case Some(plaintext) =>
      if plaintext == [] then None
      else
        match DecodeInnerHeaders(plaintext[1..])
        case None => None
        case Some(inner) => Some((inner.values, BinaryThrift.ParseMessage(inner.rest)))
  }

  /** The full stack undoes itself for every path, method and sendable field list. */
  lemma RequestRoundTrip(
      cipher: BlockCipher, key: Octets, path: Octets, methodName: Octets, fields: seq<Field>, sequence: u64)
    requires cipher.Invertible()
    requires Request(cipher, key, path, methodName, fields, sequence).Some?
    requires BinaryRoundTrip.SendableFields(fields) && |methodName| <= BinaryThrift.MAX_BYTES
    ensures Open(cipher, Request(cipher, key, path, methodName, fields, sequence).value)
      == Some((map[PATH_HEADER := path],
               Ok(Message(methodName, 1, sequence % 0x1_0000_0000, NormalFields(BinaryCodec, fields, map[])),
                  |BinaryThrift.EncodeCall(methodName, fields, sequence).value|)))
  {
    hide EncryptCBC, DecryptCBC, Mac, EncodeInnerHeaders, DecodeInnerHeaders, BinaryThrift.EncodeCall;
    hide BinaryThrift.ParseMessage;
    var pairs := [Pair(PATH_HEADER, path)];
    var thrift := BinaryThrift.EncodeCall(methodName, fields, sequence).value;
    var headers := EncodeInnerHeaders(pairs).value;
    var plaintext := [LE] + (headers + thrift);
    DecryptCBCUndoesEncryptCBC(cipher, plaintext, Mac(key, EncryptCBC(cipher, plaintext)));
    assert plaintext[1..] == headers + thrift;
    InnerHeadersRoundTrip(pairs, thrift);
    assert pairs[1..] == [] && AsMap(pairs, map[]) == map[PATH_HEADER := path];
    BinaryRoundTrip.CallRoundTrip(methodName, fields, sequence, []);
    assert thrift + [] == thrift;
  }
}
