/** Machine integers, byte strings and the positional facts every wire format below rests on. */
module Bytes {
  type byte = x: int | 0 <= x < 0x100
  type i16 = x: int | -0x8000 <= x < 0x8000
  type u16 = x: int | 0 <= x < 0x1_0000
  type i32 = x: int | -0x8000_0000 <= x < 0x8000_0000
  type u32 = x: int | 0 <= x < 0x1_0000_0000
  type i64 = x: int | -0x8000_0000_0000_0000 <= x < 0x8000_0000_0000_0000
  type u64 = x: int | 0 <= x < 0x1_0000_0000_0000_0000

  type Octets = seq<byte>

  /** Go's conversions to a narrower signed type keep the low bits (two's complement). */
  function Wrap8(n: int): (r: int)
    ensures -0x80 <= r < 0x80
  {
    (n + 0x80) % 0x100 - 0x80
  }

  function Wrap16(n: int): i16 { (n + 0x8000) % 0x1_0000 - 0x8000 }

  function Wrap32(n: int): i32 { (n + 0x8000_0000) % 0x1_0000_0000 - 0x8000_0000 }

  function Wrap64(n: int): i64 {
    (n + 0x8000_0000_0000_0000) % 0x1_0000_0000_0000_0000 - 0x8000_0000_0000_0000
  }

  function Pow256(width: nat): (p: nat)
    ensures p > 0
  {
    if width == 0 then 1 else 256 * Pow256(width - 1)
  }

  /** The low `width` bytes of `n`, most significant first (encoding/binary.BigEndian). */
  function BigEndian(n: nat, width: nat): (s: Octets)
    ensures |s| == width
  {
    if width == 0 then [] else BigEndian(n / 256, width - 1) + [n % 256]
  }

  /** The low 32 bits of `n`, as Go's narrowing conversion and BigEndian.PutUint32 leave them. */
  function Put32(n: int): (s: Octets)
    ensures |s| == 4
  {
    BigEndian(n % 0x1_0000_0000, 4)
  }

  function FromBigEndian(s: Octets): nat {
    if |s| == 0 then 0 else 256 * FromBigEndian(s[..|s| - 1]) + s[|s| - 1]
  }

  /** Writing big-endian then reading back loses exactly the bits above `width` bytes. */
  lemma {:induction false} BigEndianRoundTrip(n: nat, width: nat)
    requires n < Pow256(width)
    ensures FromBigEndian(BigEndian(n, width)) == n
  {
    if width != 0 {
      var s := BigEndian(n, width);
      assert s[..|s| - 1] == BigEndian(n / 256, width - 1);
      BigEndianRoundTrip(n / 256, width - 1);
    }
  }

  lemma {:induction false} FromBigEndianBound(s: Octets)
    ensures FromBigEndian(s) < Pow256(|s|)
  {
    if |s| != 0 {
      FromBigEndianBound(s[..|s| - 1]);
    }
  }

  lemma Pow256Values()
    ensures Pow256(1) == 0x100 && Pow256(2) == 0x1_0000 && Pow256(4) == 0x1_0000_0000
    ensures Pow256(8) == 0x1_0000_0000_0000_0000
  {
    assert Pow256(1) == 0x100;
    assert Pow256(2) == 0x1_0000;
    assert Pow256(3) == 0x100_0000;
    assert Pow256(4) == 0x1_0000_0000;
    assert Pow256(5) == 0x100_0000_0000;
    assert Pow256(6) == 0x1_0000_0000_0000;
    assert Pow256(7) == 0x100_0000_0000_0000;
  }

  /** encoding/binary.LittleEndian.PutUint64 and Uint64. */
  function LittleEndian(n: nat, width: nat): (s: Octets)
    ensures |s| == width
  {
    if width == 0 then [] else [n % 256] + LittleEndian(n / 256, width - 1)
  }

  function FromLittleEndian(s: Octets): nat {
    if |s| == 0 then 0 else s[0] + 256 * FromLittleEndian(s[1..])
  }

  lemma {:induction false} LittleEndianRoundTrip(n: nat, width: nat)
    requires n < Pow256(width)
    ensures FromLittleEndian(LittleEndian(n, width)) == n
  {
    if width != 0 {
      LittleEndianRoundTrip(n / 256, width - 1);
    }
  }

  lemma {:induction false} FromLittleEndianBound(s: Octets)
    ensures FromLittleEndian(s) < Pow256(|s|)
  {
    if |s| != 0 {
      FromLittleEndianBound(s[1..]);
    }
  }

  /** `s` occupies `data` from `pos` on; whatever follows is unconstrained. */
  ghost predicate At(data: Octets, pos: nat, s: Octets): (found: bool)
    ensures found ==> pos + |s| <= |data|
  {
    pos + |s| <= |data| && data[pos..pos + |s|] == s
  }

  lemma AppendAssociative(a: Octets, b: Octets, c: Octets)
    ensures (a + b) + c == a + (b + c)
  {
  }

  /** A concatenation found at `pos` puts its second part right after its first. */
  lemma AtSplit(data: Octets, pos: nat, first: Octets, second: Octets)
    requires At(data, pos, first + second)
    ensures At(data, pos, first)
    ensures At(data, pos + |first|, second)
  {
    var all := first + second;
    assert data[pos..pos + |all|] == all;
    assert data[pos..pos + |first|] == all[..|first|] == first;
    assert data[pos + |first|..pos + |all|] == all[|first|..] == second;
  }

  lemma AtByte(data: Octets, pos: nat, b: byte, rest: Octets)
    requires At(data, pos, [b] + rest)
    ensures pos < |data| && data[pos] == b
    ensures At(data, pos + 1, rest)
  {
    AtSplit(data, pos, [b], rest);
    assert data[pos..pos + 1][0] == b;
  }

  lemma AtOne(data: Octets, pos: nat, b: byte)
    requires At(data, pos, [b])
    ensures data[pos] == b
  {
    assert data[pos..pos + 1][0] == b;
  }

  lemma AtPrefix(prefix: Octets, s: Octets, suffix: Octets)
    ensures At(prefix + s + suffix, |prefix|, s)
  {
  }

  /** Exclusive or on `width` bits. */
  function Xor(a: nat, b: nat, width: nat): (r: nat)
  {
    if width == 0 then 0
    else (a % 2 + b % 2) % 2 + 2 * Xor(a / 2, b / 2, width - 1)
  }

  function Pow2(width: nat): (p: nat)
    ensures p > 0
  {
    if width == 0 then 1 else 2 * Pow2(width - 1)
  }

  lemma {:induction false} Pow2Sum(a: nat, b: nat)
    ensures Pow2(a + b) == Pow2(a) * Pow2(b)
  {
    if a != 0 {
      Pow2Sum(a - 1, b);
    }
  }

  lemma Pow2Values()
    ensures Pow2(8) == 0x100 && Pow2(32) == 0x1_0000_0000
  {
    assert Pow2(8) == 0x100;
    Pow2Sum(8, 8);
    Pow2Sum(16, 16);
  }

  /** Exclusive or undoes itself: what CBC chaining needs. */
  lemma {:induction false} XorCancels(a: nat, b: nat, width: nat)
    requires a < Pow2(width)
    ensures Xor(Xor(a, b, width), b, width) == a
  {
    if width != 0 {
      var x := Xor(a, b, width);
      HalvesBelow(a, width);
      XorStep(a, b, width);
      XorStep(x, b, width);
      XorCancels(a / 2, b / 2, width - 1);
      BitCancels(a % 2, b % 2);
      hide Xor, Pow2;
      SameHalves(a, Xor(x, b, width));
    }
  }

  lemma HalvesBelow(a: nat, width: nat)
    requires width > 0 && a < Pow2(width)
    ensures a / 2 < Pow2(width - 1)
  {
  }

  /** The last bit and the rest, as they follow from the last bits and the rests. */
  lemma XorStep(a: nat, b: nat, width: nat)
    requires width > 0
    ensures Xor(a, b, width) % 2 == (a % 2 + b % 2) % 2
    ensures Xor(a, b, width) / 2 == Xor(a / 2, b / 2, width - 1)
  {
    BitAndRest((a % 2 + b % 2) % 2, Xor(a / 2, b / 2, width - 1));
  }

  lemma BitAndRest(bit: nat, rest: nat)
    requires bit < 2
    ensures (bit + 2 * rest) % 2 == bit && (bit + 2 * rest) / 2 == rest
  {
  }

  lemma BitCancels(p: nat, q: nat)
    requires p < 2 && q < 2
    ensures ((p + q) % 2 + q) % 2 == p
  {
  }

  lemma SameHalves(a: nat, b: nat)
    requires a % 2 == b % 2 && a / 2 == b / 2
    ensures a == b
  {
  }

  lemma {:induction false} XorBound(a: nat, b: nat, width: nat)
    ensures Xor(a, b, width) < Pow2(width)
  {
    if width != 0 {
      XorBound(a / 2, b / 2, width - 1);
    }
  }

  function XorByte(a: byte, b: byte): byte {
    XorBound(a, b, 8);
    Pow2Values();
    Xor(a, b, 8)
  }

  lemma XorByteCancels(a: byte, b: byte)
    ensures XorByte(XorByte(a, b), b) == a
  {
    Pow2Values();
    XorCancels(a, b, 8);
  }
}
