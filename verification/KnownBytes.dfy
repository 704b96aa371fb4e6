/** The bytes themselves, where another implementation must produce the same ones: numbers digit by digit,
    the authenticated data of a message, and whole calls. */
module KnownBytes {
  import opened Options
  import opened Bytes
  import opened Quotients
  import opened Thrift
  import Compact
  import BinaryThrift
  import Cbc
  import E2ee
  import Legy
  import XxHash

  // ---- Numbers

  /** Two's complement, the highest byte first. */
  lemma Put16Bytes(n: int)
    ensures BinaryThrift.Put16(n) == [n / 0x100 % 0x100, n % 0x100]
  {
    hide BigEndian;
    var q, m := n / 0x1_0000, n % 0x1_0000;
    SplitHalfWord(n);
    TwoBytes(m);
    HighOfTwo(q, m);
    LowOfTwo(q, m);
  }

  lemma SplitHalfWord(n: int)
    ensures n == n / 0x1_0000 * 0x1_0000 + n % 0x1_0000
  {}

  lemma TwoBytes(m: nat)
    ensures BigEndian(m, 2) == [m / 0x100 % 0x100, m % 0x100]
  {
    assert BigEndian(m / 0x100, 1) == BigEndian(m / 0x100 / 0x100, 0) + [m / 0x100 % 0x100];
    assert BigEndian(m, 2) == BigEndian(m / 0x100, 1) + [m % 0x100];
  }

  lemma HighOfTwo(q: int, m: int)
    ensures (q * 0x1_0000 + m) / 0x100 % 0x100 == m / 0x100 % 0x100
  {
    assert (q * 0x1_0000 + m) / 0x100 == q * 0x100 + m / 0x100;
  }

  lemma LowOfTwo(q: int, m: int)
    ensures (q * 0x1_0000 + m) % 0x100 == m % 0x100
  {}

  lemma Unsigned16(n: nat)
    requires n <= 0xFFFF
    ensures BinaryThrift.Put16(n) == [n / 0x100, n % 0x100]
  {
    Put16Bytes(n);
    hide BinaryThrift.Put16;
  }

  lemma Put32Bytes(n: int)
    ensures Put32(n) == [n / 0x100_0000 % 0x100, n / 0x1_0000 % 0x100, n / 0x100 % 0x100, n % 0x100]
  {
    hide BigEndian;
    var q, m := n / 0x1_0000_0000, n % 0x1_0000_0000;
    SplitWord(n);
    FourBytes(m);
    HighByte(q, m);
    ThirdByte(q, m);
    SecondByte(q, m);
    LowByte(q, m);
  }

  lemma SplitWord(n: int)
    ensures n == n / 0x1_0000_0000 * 0x1_0000_0000 + n % 0x1_0000_0000
  {}

  lemma LowByte(q: int, m: int)
    ensures (q * 0x1_0000_0000 + m) % 0x100 == m % 0x100
  {}

  lemma FourBytes(m: nat)
    ensures BigEndian(m, 4) == [m / 0x100_0000 % 0x100, m / 0x1_0000 % 0x100, m / 0x100 % 0x100, m % 0x100]
  {
    var a, b, c := m / 0x100, m / 0x1_0000, m / 0x100_0000;
    assert a / 0x100 == b && b / 0x100 == c;
    assert BigEndian(c, 1) == BigEndian(c / 0x100, 0) + [c % 0x100];
    assert BigEndian(b, 2) == BigEndian(c, 1) + [b % 0x100];
    assert BigEndian(a, 3) == BigEndian(b, 2) + [a % 0x100];
    assert BigEndian(m, 4) == BigEndian(a, 3) + [m % 0x100];
  }

  /** What lies above 32 bits does not reach the low four bytes. */
  lemma HighByte(q: int, m: int)
    ensures (q * 0x1_0000_0000 + m) / 0x100_0000 % 0x100 == m / 0x100_0000 % 0x100
  {
    Position(0x100_0000, q * 0x100 + m / 0x100_0000, m % 0x100_0000);
    assert (q * 0x1_0000_0000 + m) / 0x100_0000 == q * 0x100 + m / 0x100_0000;
  }

  lemma ThirdByte(q: int, m: int)
    ensures (q * 0x1_0000_0000 + m) / 0x1_0000 % 0x100 == m / 0x1_0000 % 0x100
  {
    Position(0x1_0000, q * 0x1_0000 + m / 0x1_0000, m % 0x1_0000);
    assert (q * 0x1_0000_0000 + m) / 0x1_0000 == q * 0x1_0000 + m / 0x1_0000;
  }

  lemma SecondByte(q: int, m: int)
    ensures (q * 0x1_0000_0000 + m) / 0x100 % 0x100 == m / 0x100 % 0x100
  {
    Position(0x100, q * 0x100_0000 + m / 0x100, m % 0x100);
    assert (q * 0x1_0000_0000 + m) / 0x100 == q * 0x100_0000 + m / 0x100;
  }

  lemma Put64Bytes(n: int)
    ensures BinaryThrift.Put64(n) == Put32(n / 0x1_0000_0000) + Put32(n)
  {
    hide BigEndian;
    var q, m := n / 0x1_0000_0000_0000_0000, n % 0x1_0000_0000_0000_0000;
    HighWord(q, m);
    LowWord(q, m);
    SplitLongWord(n);
    EightBytes(m);
    Put32Bytes(m);
  }

  lemma SplitLongWord(n: int)
    ensures n == n / 0x1_0000_0000_0000_0000 * 0x1_0000_0000_0000_0000 + n % 0x1_0000_0000_0000_0000
  {}

  lemma HighWord(q: int, m: int)
    requires 0 <= m < 0x1_0000_0000_0000_0000
    ensures (q * 0x1_0000_0000_0000_0000 + m) / 0x1_0000_0000 % 0x1_0000_0000 == m / 0x1_0000_0000
  {
    assert (q * 0x1_0000_0000_0000_0000 + m) / 0x1_0000_0000 == q * 0x1_0000_0000 + m / 0x1_0000_0000;
  }

  lemma LowWord(q: int, m: int)
    ensures (q * 0x1_0000_0000_0000_0000 + m) % 0x1_0000_0000 == m % 0x1_0000_0000
  {}

  lemma EightBytes(m: nat)
    ensures BigEndian(m, 8) == BigEndian(m / 0x1_0000_0000, 4)
              + [m / 0x100_0000 % 0x100, m / 0x1_0000 % 0x100, m / 0x100 % 0x100, m % 0x100]
  {
    var a, b, c, d := m / 0x100, m / 0x1_0000, m / 0x100_0000, m / 0x1_0000_0000;
    assert a / 0x100 == b && b / 0x100 == c && c / 0x100 == d;
    assert BigEndian(c, 5) == BigEndian(d, 4) + [c % 0x100];
    assert BigEndian(b, 6) == BigEndian(c, 5) + [b % 0x100];
    assert BigEndian(a, 7) == BigEndian(b, 6) + [a % 0x100];
    assert BigEndian(m, 8) == BigEndian(a, 7) + [m % 0x100];
  }

  /** Little-endian is the same bytes from the other end. */
  lemma {:induction false} LittleIsBigReversed(n: nat, width: nat, i: nat)
    requires i < width
    ensures LittleEndian(n, width)[i] == BigEndian(n, width)[width - 1 - i]
  {
    if i > 0 {
      LittleIsBigReversed(n / 256, width - 1, i - 1);
    }
  }

  /** Exclusive or, bit by bit. */
  lemma {:induction false} XorBit(a: nat, b: nat, width: nat, i: nat)
    requires i < width
    ensures Xor(a, b, width) / Pow2(i) % 2 == if a / Pow2(i) % 2 == b / Pow2(i) % 2 then 0 else 1
  {
    XorStep(a, b, width);
    if i > 0 {
      XorBit(a / 2, b / 2, width - 1, i - 1);
      Halved(a, i);
      Halved(b, i);
      Halved(Xor(a, b, width), i);
    }
  }

  lemma Halved(n: nat, i: nat)
    requires i > 0
    ensures n / Pow2(i) == n / 2 / Pow2(i - 1)
  {
    var p := Pow2(i - 1);
    var q, r := n / 2 / p, n / 2 % p;
    assert n == q * (2 * p) + (2 * r + n % 2) by {
      assert n / 2 == q * p + r;
    }
    Position(2 * p, q, 2 * r + n % 2);
  }

  /** The base-128 form: seven bits a byte, lowest first, the eighth bit on all but the last; and no byte
      more than needed. */
  lemma {:induction false} VarintGroups(v: nat, i: nat)
    requires i < |Compact.EncodeVarint(v)|
    ensures var s := Compact.EncodeVarint(v);
      && s[i] % 0x80 == v / Compact.Pow128(i) % 0x80
      && (s[i] >= 0x80 <==> i + 1 < |s|)
      && v < Compact.Pow128(|s|) && (|s| > 1 ==> v >= Compact.Pow128(|s| - 1))
  {
    if v >= 0x80 {
      var rest := Compact.EncodeVarint(v / 0x80);
      VarintGroups(v / 0x80, if i > 0 then i - 1 else 0);
      if i > 0 {
        assert v / Compact.Pow128(i) == v / 0x80 / Compact.Pow128(i - 1) by {
          Divided(v, i);
        }
      }
    }
  }

  lemma Divided(v: nat, i: nat)
    requires i > 0
    ensures v / Compact.Pow128(i) == v / 0x80 / Compact.Pow128(i - 1)
  {
    var p := Compact.Pow128(i - 1);
    var q, r := v / 0x80 / p, v / 0x80 % p;
    assert v == q * (0x80 * p) + (0x80 * r + v % 0x80) by {
      assert v / 0x80 == q * p + r;
    }
    Position(0x80 * p, q, 0x80 * r + v % 0x80);
  }

  // ---- What is authenticated with a message

  /** The receiver, the sender, and four numbers of four bytes each, the highest byte first. */
  lemma AuthenticatedBytes(
      to: Octets, from: Octets, senderKeyID: i32, receiverKeyID: i32, version: i32, contentType: i32)
    ensures var aad, t, f := E2ee.MessageAAD(to, from, senderKeyID, receiverKeyID, version, contentType), |to|, |from|;
      && |aad| == t + f + 16
      && (forall i | 0 <= i < t :: aad[i] == to[i]) && (forall i | 0 <= i < f :: aad[t + i] == from[i])
      && aad[t + f..t + f + 4] == [senderKeyID / 0x100_0000 % 0x100, senderKeyID / 0x1_0000 % 0x100,
                                   senderKeyID / 0x100 % 0x100, senderKeyID % 0x100]
      && aad[t + f + 4..t + f + 8] == [receiverKeyID / 0x100_0000 % 0x100, receiverKeyID / 0x1_0000 % 0x100,
                                       receiverKeyID / 0x100 % 0x100, receiverKeyID % 0x100]
      && aad[t + f + 8..t + f + 12] == [version / 0x100_0000 % 0x100, version / 0x1_0000 % 0x100,
                                        version / 0x100 % 0x100, version % 0x100]
      && aad[t + f + 12..] == [contentType / 0x100_0000 % 0x100, contentType / 0x1_0000 % 0x100,
                               contentType / 0x100 % 0x100, contentType % 0x100]
  {
    hide Put32;
    Put32Bytes(senderKeyID);
    Put32Bytes(receiverKeyID);
    Put32Bytes(version);
    Put32Bytes(contentType);
  }

  // ---- Blocks

  /** The padding counts itself, at most sixteen, and fills the last block. */
  lemma PaddingBytes(plaintext: Octets)
    ensures var padded, n := Cbc.Pad(plaintext), |plaintext|;
      && |padded| == n / 16 * 16 + 16 && padded[..n] == plaintext
      && forall i | n <= i < |padded| :: padded[i] == |padded| - n
  {
    var n := |plaintext|;
    var padding := 16 - n % 16;
    assert Cbc.Pad(plaintext) == plaintext + Cbc.Repeat(padding, padding);
    assert n == n / 16 * 16 + n % 16;
    hide Cbc.Pad, Cbc.Repeat;
  }

  /** Each block of the ciphertext is the cipher's image of the plaintext block combined with the ciphertext
      block before it, the first with the initial vector. */
  lemma {:induction false} ChainedBlocks(cipher: Cbc.BlockCipher, iv: Octets, plain: Octets, k: nat)
    requires |iv| == 16 && |plain| % 16 == 0 && 16 * k < |plain|
    ensures var c := Cbc.EncryptBlocks(cipher, iv, plain);
      var before := if k == 0 then iv else c[16 * k - 16..16 * k];
      c[16 * k..16 * k + 16] == Cbc.Permute(cipher.encrypt, Cbc.XorBlock(plain[16 * k..16 * k + 16], before))
    decreases k
  {
    hide Cbc.Permute, Cbc.XorBlock;
    var block := Cbc.Permute(cipher.encrypt, Cbc.XorBlock(plain[..16], iv));
    var rest, tail := plain[16..], Cbc.EncryptBlocks(cipher, block, plain[16..]);
    var c := Cbc.EncryptBlocks(cipher, iv, plain);
    assert c == block + tail;
    hide Cbc.EncryptBlocks;
    if k > 0 {
      ChainedBlocks(cipher, block, rest, k - 1);
      LaterBlock(plain[..16], rest, 16 * k);
      LaterBlock(block, tail, 16 * k);
      assert plain[..16] + rest == plain;
      if k == 1 {
        assert c[0..16] == block;
      } else {
        LaterBlock(block, tail, 16 * k - 16);
      }
    } else {
      assert c[0..16] == block && plain[0..16] == plain[..16];
    }
  }

  lemma LaterBlock(first: Octets, rest: Octets, from: nat)
    requires |first| == 16 <= from && from + 16 <= |first + rest|
    ensures (first + rest)[from..from + 16] == rest[from - 16..from]
  {}

  // ---- Sealed and wrapped

  /** What a sealed message consists of: the salt, the ciphertext under the digest of secret, salt and "Key",
      the nonce, and the two key IDs. */
  lemma SealedBytes(
      c: E2ee.Crypto, secret: Octets, to: Octets, from: Octets, senderKeyID: i32, receiverKeyID: i32, salt: Octets,
      nonce: Octets, text: Octets)
    ensures var chunks := E2ee.Sealed(c, secret, to, from, senderKeyID, receiverKeyID, salt, nonce, text);
      && |chunks| == 5 && chunks[0] == salt && chunks[2] == nonce
      && chunks[1] == c.seal(c.Digest(secret + salt + [0x4B, 0x65, 0x79]), nonce, c.marshal(text),
                             to + from + (Put32(senderKeyID) + Put32(receiverKeyID) + [0, 0, 0, 2] + [0, 0, 0, 0]))
      && chunks[3] == [senderKeyID / 0x100_0000 % 0x100, senderKeyID / 0x1_0000 % 0x100,
                       senderKeyID / 0x100 % 0x100, senderKeyID % 0x100]
      && chunks[4] == [receiverKeyID / 0x100_0000 % 0x100, receiverKeyID / 0x1_0000 % 0x100,
                       receiverKeyID / 0x100 % 0x100, receiverKeyID % 0x100]
  {
    hide Put32;
    Put32Bytes(senderKeyID);
    Put32Bytes(receiverKeyID);
    Put32Bytes(2);
    Put32Bytes(0);
    assert to + from + Put32(senderKeyID) + Put32(receiverKeyID) + Put32(2) + Put32(0)
        == to + from + (Put32(senderKeyID) + Put32(receiverKeyID) + Put32(2) + Put32(0));
  }

  /** A group key is wrapped by the block cipher under the digest of the shared secret and "Key", from the
      digest of the secret and "IV" folded in two. */
  lemma WrappedBytes(c: E2ee.Crypto, material: Octets, plaintext: Octets, i: nat)
    requires i < 16
    ensures var iv := c.Folded(material + [0x49, 0x56]);
      && E2ee.Wrap(c, material, plaintext)
         == Cbc.EncryptBlocks(c.aes(c.Digest(material + [0x4B, 0x65, 0x79])), iv, Cbc.Pad(plaintext))
      && iv[i] == XorByte(c.Digest(material + [0x49, 0x56])[i], c.Digest(material + [0x49, 0x56])[i + 16])
  {
    hide Cbc.EncryptBlocks, Cbc.Pad, XorByte;
  }

  // ---- The LEGY envelope

  /** One header: the length of what follows, the number of headers, and each text behind its length. */
  lemma HeaderBytes(key: Octets, value: Octets)
    requires |key| + |value| + 6 <= 0xFFFF
    ensures var size := |key| + |value| + 6;
      Legy.EncodeInnerHeaders([Legy.Pair(key, value)])
      == Some([size / 0x100, size % 0x100]
              + ([0, 1] + ([|key| / 0x100, |key| % 0x100] + (key + ([|value| / 0x100, |value| % 0x100] + value)))))
  {
    hide BinaryThrift.Put16;
    Unsigned16(1);
    Unsigned16(|key|);
    Unsigned16(|value|);
    Unsigned16(|key| + |value| + 6);
    var p := Legy.Pair(key, value);
    assert [p][1..] == [] && Legy.EncodePairs([p]) == Some(Legy.EncodePair(p) + []);
    assert Legy.EncodePair(p) + [] == Legy.EncodePair(p);
  }

  /** What is encrypted: the marker 7, the path under "x-lpqs", and the call; under the fixed vector, with a
      hash of the ciphertext behind it: over the key masked with 5C and the hash over the key masked with 36. */
  lemma RequestBytes(
      cipher: Cbc.BlockCipher, key: Octets, path: Octets, name: Octets, fields: seq<Field>, sequence: u64)
    requires Legy.Request(cipher, key, path, name, fields, sequence).Some?
    ensures var headers := Legy.EncodeInnerHeaders([Legy.Pair([0x78, 0x2D, 0x6C, 0x70, 0x71, 0x73], path)]);
      var call := BinaryThrift.EncodeCall(name, fields, sequence);
      && headers.Some? && call.Some?
      && var encrypted := Cbc.EncryptBlocks(
           cipher, [78, 9, 72, 62, 56, 245, 255, 114, 128, 18, 123, 158, 251, 92, 45, 51],
           Cbc.Pad([7] + headers.value + call.value));
         var inner := XxHash.XXH32(seq(|key|, i requires 0 <= i < |key| => XorByte(0x36, key[i])) + encrypted, 0);
         var outer := XxHash.XXH32(seq(|key|, i requires 0 <= i < |key| => XorByte(0x5C, key[i])) + Put32(inner), 0);
         Legy.Request(cipher, key, path, name, fields, sequence).value == encrypted + Put32(outer)
  {
    hide Cbc.EncryptBlocks, Cbc.Pad, XorByte, XxHash.XXH32, BigEndian, Legy.EncodeInnerHeaders, BinaryThrift.EncodeCall;
    var headers := Legy.EncodeInnerHeaders([Legy.Pair(Legy.PATH_HEADER, path)]).value;
    var call := BinaryThrift.EncodeCall(name, fields, sequence).value;
    assert [7] + (headers + call) == [7] + headers + call;
    assert Legy.XorKey(key, 0x36) == seq(|key|, i requires 0 <= i < |key| => XorByte(0x36, key[i]));
    assert Legy.XorKey(key, 0x5C) == seq(|key|, i requires 0 <= i < |key| => XorByte(0x5C, key[i]));
  }
}
