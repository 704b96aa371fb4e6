/** XXH32 at inputs whose hashes are published with the algorithm, computed by hand through its steps. */
module XxHashVectors {
  import opened Bytes
  import opened XxHash

  /** Exclusive or of two bits, and of two numbers below 2, 4, 8 and 16 by their highest bits. */
  function Bit(a: nat, b: nat): nat { if a == b then 0 else 1 }

  function Top(a: nat, power: nat): nat { if a >= power then 1 else 0 }

  function Rest(a: nat, power: nat): nat { if a >= power then a - power else a }

  function Digit(a: nat, b: nat): nat {
    var c, d := Rest(a, 8), Rest(b, 8);
    var e, f := Rest(c, 4), Rest(d, 4);
    8 * Bit(Top(a, 8), Top(b, 8)) + 4 * Bit(Top(c, 4), Top(d, 4)) + 2 * Bit(Top(e, 2), Top(f, 2))
    + Bit(Rest(e, 2), Rest(f, 2))
  }

  lemma BitXor(x: nat, y: nat, p: nat, q: nat, width: nat)
    requires x < 2 && y < 2
    ensures Xor(x + 2 * p, y + 2 * q, width + 1) == Bit(x, y) + 2 * Xor(p, q, width)
  {
    assert (x + 2 * p) % 2 == x && (x + 2 * p) / 2 == p && (y + 2 * q) % 2 == y && (y + 2 * q) / 2 == q;
  }

  lemma BitsXor(
      a: nat, b: nat, c: nat, d: nat, e: nat, f: nat, g: nat, h: nat, p: nat, q: nat, width: nat)
    requires a < 2 && b < 2 && c < 2 && d < 2 && e < 2 && f < 2 && g < 2 && h < 2
    ensures Xor(a + 2 * c + 4 * e + 8 * g + 16 * p, b + 2 * d + 4 * f + 8 * h + 16 * q, width + 4)
         == Bit(a, b) + 2 * Bit(c, d) + 4 * Bit(e, f) + 8 * Bit(g, h) + 16 * Xor(p, q, width)
  {
    hide Xor, Bit;
    BitXor(a, b, c + 2 * e + 4 * g + 8 * p, d + 2 * f + 4 * h + 8 * q, width + 3);
    BitXor(c, d, e + 2 * g + 4 * p, f + 2 * h + 4 * q, width + 2);
    BitXor(e, f, g + 2 * p, h + 2 * q, width + 1);
    BitXor(g, h, p, q, width);
  }

  lemma DigitXor(a: nat, b: nat, p: nat, q: nat, width: nat)
    requires a < 16 && b < 16
    ensures Xor(a + 16 * p, b + 16 * q, width + 4) == Digit(a, b) + 16 * Xor(p, q, width)
  {
    hide Xor, Bit;
    var c, d := Rest(a, 8), Rest(b, 8);
    var e, f := Rest(c, 4), Rest(d, 4);
    BitsXor(Rest(e, 2), Rest(f, 2), Top(e, 2), Top(f, 2), Top(c, 4), Top(d, 4), Top(a, 8), Top(b, 8), p, q, width);
  }

  function Sum(a: nat, b: nat, c: nat, d: nat, e: nat, f: nat, g: nat, h: nat): nat {
    a + 0x10 * b + 0x100 * c + 0x1000 * d + 0x1_0000 * e + 0x10_0000 * f + 0x100_0000 * g + 0x1000_0000 * h
  }

  /** Two words by their digits, lowest first. */
  lemma XorDigits(
      a0: nat, a1: nat, a2: nat, a3: nat, a4: nat, a5: nat, a6: nat, a7: nat,
      b0: nat, b1: nat, b2: nat, b3: nat, b4: nat, b5: nat, b6: nat, b7: nat)
    requires a0 < 16 && a1 < 16 && a2 < 16 && a3 < 16 && a4 < 16 && a5 < 16 && a6 < 16 && a7 < 16
    requires b0 < 16 && b1 < 16 && b2 < 16 && b3 < 16 && b4 < 16 && b5 < 16 && b6 < 16 && b7 < 16
    ensures Xor(Sum(a0, a1, a2, a3, a4, a5, a6, a7), Sum(b0, b1, b2, b3, b4, b5, b6, b7), 32)
         == Sum(Digit(a0, b0), Digit(a1, b1), Digit(a2, b2), Digit(a3, b3),
                Digit(a4, b4), Digit(a5, b5), Digit(a6, b6), Digit(a7, b7))
  {
    NoBits();
    hide Xor, Digit, Four, Sum;
    SumByFours(a0, a1, a2, a3, a4, a5, a6, a7);
    SumByFours(b0, b1, b2, b3, b4, b5, b6, b7);
    SumByFours(Digit(a0, b0), Digit(a1, b1), Digit(a2, b2), Digit(a3, b3),
               Digit(a4, b4), Digit(a5, b5), Digit(a6, b6), Digit(a7, b7));
    FourDigits(a4, a5, a6, a7, b4, b5, b6, b7, 0, 0, 0);
    FourDigits(a0, a1, a2, a3, b0, b1, b2, b3, Four(a4, a5, a6, a7, 0), Four(b4, b5, b6, b7, 0), 16);
  }

  /** Four digits below a number. */
  function Four(a: nat, b: nat, c: nat, d: nat, p: nat): nat {
    a + 16 * (b + 16 * (c + 16 * (d + 16 * p)))
  }

  lemma SumByFours(a: nat, b: nat, c: nat, d: nat, e: nat, f: nat, g: nat, h: nat)
    ensures Sum(a, b, c, d, e, f, g, h) == Four(a, b, c, d, Four(e, f, g, h, 0))
  {}

  lemma FourDigits(
      a0: nat, a1: nat, a2: nat, a3: nat, b0: nat, b1: nat, b2: nat, b3: nat, p: nat, q: nat, width: nat)
    requires a0 < 16 && a1 < 16 && a2 < 16 && a3 < 16 && b0 < 16 && b1 < 16 && b2 < 16 && b3 < 16
    ensures Xor(Four(a0, a1, a2, a3, p), Four(b0, b1, b2, b3, q), width + 16)
         == Four(Digit(a0, b0), Digit(a1, b1), Digit(a2, b2), Digit(a3, b3), Xor(p, q, width))
  {
    hide Xor, Digit;
    DigitXor(a3, b3, p, q, width);
    DigitXor(a2, b2, a3 + 16 * p, b3 + 16 * q, width + 4);
    DigitXor(a1, b1, a2 + 16 * (a3 + 16 * p), b2 + 16 * (b3 + 16 * q), width + 8);
    DigitXor(a0, b0, a1 + 16 * (a2 + 16 * (a3 + 16 * p)), b1 + 16 * (b2 + 16 * (b3 + 16 * q)), width + 12);
  }

  /** A word shifted and combined with itself, by its digits, those of the shifted word and those of the result. */
  lemma Shifted(
      x: u32, divisor: nat,
      a0: nat, a1: nat, a2: nat, a3: nat, a4: nat, a5: nat, a6: nat, a7: nat,
      b0: nat, b1: nat, b2: nat, b3: nat, b4: nat, b5: nat, b6: nat, b7: nat,
      c0: nat, c1: nat, c2: nat, c3: nat, c4: nat, c5: nat, c6: nat, c7: nat)
    requires divisor > 0 && Sum(a0, a1, a2, a3, a4, a5, a6, a7) == x
    requires Sum(b0, b1, b2, b3, b4, b5, b6, b7) == x / divisor
    requires a0 < 16 && a1 < 16 && a2 < 16 && a3 < 16 && a4 < 16 && a5 < 16 && a6 < 16 && a7 < 16
    requires b0 < 16 && b1 < 16 && b2 < 16 && b3 < 16 && b4 < 16 && b5 < 16 && b6 < 16 && b7 < 16
    requires Digit(a0, b0) == c0 && Digit(a1, b1) == c1 && Digit(a2, b2) == c2 && Digit(a3, b3) == c3
    requires Digit(a4, b4) == c4 && Digit(a5, b5) == c5 && Digit(a6, b6) == c6 && Digit(a7, b7) == c7
    ensures ShiftXor(x, divisor) == Sum(c0, c1, c2, c3, c4, c5, c6, c7)
  {
    hide Xor, Digit, Sum;
    XorDigits(a0, a1, a2, a3, a4, a5, a6, a7, b0, b1, b2, b3, b4, b5, b6, b7);
  }

  lemma NoBits()
    ensures Xor(0, 0, 0) == 0
  {}

  lemma WordOf(s: Octets)
    requires |s| >= 4
    ensures Word(s) == s[0] as int + 0x100 * s[1] as int + 0x1_0000 * s[2] as int + 0x100_0000 * s[3] as int
  {
    var w := s[..4];
    assert FromLittleEndian(w[4..]) == 0;
    assert FromLittleEndian(w[3..]) == s[3] by { assert w[3..][1..] == w[4..]; }
    assert FromLittleEndian(w[2..]) == s[2] as int + 256 * s[3] as int by { assert w[2..][1..] == w[3..]; }
    assert FromLittleEndian(w[1..]) == s[1] + 256 * FromLittleEndian(w[2..]) by { assert w[1..][1..] == w[2..]; }
  }

  lemma TwoStripes(s: Octets, lanes: Lanes)
    requires 32 <= |s| < 48
    ensures Stripes(lanes, s) == Stripe(Stripe(lanes, s[..16]), s[16..32])
  {
    hide Stripe;
    assert s[16..][..16] == s[16..32];
    assert Stripes(Stripe(Stripe(lanes, s[..16]), s[16..32]), s[16..][16..])
        == Stripe(Stripe(lanes, s[..16]), s[16..32]);
  }

  lemma Rounded(lane: u32, word: u32, product: u32, sum: u32, rotated: u32, result: u32)
    requires Mul(word, PRIME2) == product && Add(lane, product) == sum
    requires Rotate(sum, 0x2000, 0x8_0000) == rotated && Mul(rotated, PRIME1) == result
    ensures Round(lane, word) == result
  {}

  lemma WordStepped(acc: u32, word: u32, product: u32, sum: u32, rotated: u32, result: u32)
    requires Mul(word, PRIME3) == product && Add(acc, product) == sum
    requires Rotate(sum, 0x2_0000, 0x8000) == rotated && Mul(rotated, PRIME4) == result
    ensures WordStep(acc, word) == result
  {}

  lemma ByteStepped(acc: u32, b: byte, product: u32, sum: u32, rotated: u32, result: u32)
    requires Mul(b, PRIME5) == product && Add(acc, product) == sum
    requires Rotate(sum, 0x800, 0x20_0000) == rotated && Mul(rotated, PRIME1) == result
    ensures ByteStep(acc, b) == result
  {}

  lemma EmptyFirst()
    ensures ShiftXor(0x1656_67B1, 0x8000) == 0x1656_4B1D
  {
    hide ShiftXor;
    Shifted(0x1656_67B1, 0x8000, 1, 11, 7, 6, 6, 5, 6, 1,
            12, 10, 12, 2, 0, 0, 0, 0, 13, 1, 11, 4, 6, 5, 6, 1);
  }

  lemma EmptyThen()
    ensures ShiftXor(0x7E00_CC7B, 0x2000) == 0x7E03_3C7D
  {
    hide ShiftXor;
    Shifted(0x7E00_CC7B, 0x2000, 11, 7, 12, 12, 0, 0, 14, 7,
            6, 0, 0, 15, 3, 0, 0, 0, 13, 7, 12, 3, 3, 0, 14, 7);
  }

  lemma EmptyLast()
    ensures ShiftXor(0x02CC_5FC9, 0x1_0000) == 0x02CC_5D05
  {
    hide ShiftXor;
    Shifted(0x02CC_5FC9, 0x1_0000, 9, 12, 15, 5, 12, 12, 2, 0,
            12, 12, 2, 0, 0, 0, 0, 0, 5, 0, 13, 5, 12, 12, 2, 0);
  }

  lemma EmptyAvalanche()
    ensures Avalanche(0x1656_67B1) == 0x02CC_5D05
  {
    hide ShiftXor;
    EmptyFirst();
    EmptyThen();
    EmptyLast();
    assert Mul(0x1656_4B1D, PRIME2) == 0x7E00_CC7B;
    assert Mul(0x7E03_3C7D, PRIME3) == 0x02CC_5FC9;
  }

  lemma EmptyHash()
    ensures XXH32([], 0) == 0x02CC_5D05
  {
    EmptyAvalanche();
    assert Add(Add(0, PRIME5), 0) == 0x1656_67B1;
    hide Avalanche, Add;
    var none: Octets := [];
    assert none[0..] == none;
  }

  lemma AbcFirst()
    ensures ShiftXor(0x760A_1E67, 0x8000) == 0x760A_F273
  {
    hide ShiftXor;
    Shifted(0x760A_1E67, 0x8000, 7, 6, 14, 1, 10, 0, 6, 7,
            4, 1, 12, 14, 0, 0, 0, 0, 3, 7, 2, 15, 10, 0, 6, 7);
  }

  lemma AbcThen()
    ensures ShiftXor(0xD0F6_7175, 0x2000) == 0xD0F0_F6C6
  {
    hide ShiftXor;
    Shifted(0xD0F6_7175, 0x2000, 5, 7, 1, 7, 6, 15, 0, 13,
            3, 11, 7, 8, 6, 0, 0, 0, 6, 12, 6, 15, 0, 15, 0, 13);
  }

  lemma AbcLast()
    ensures ShiftXor(0x32D1_612E, 0x1_0000) == 0x32D1_53FF
  {
    hide ShiftXor;
    Shifted(0x32D1_612E, 0x1_0000, 14, 2, 1, 6, 1, 13, 2, 3,
            1, 13, 2, 3, 0, 0, 0, 0, 15, 15, 3, 5, 1, 13, 2, 3);
  }

  lemma AbcAvalanche()
    ensures Avalanche(0x760A_1E67) == 0x32D1_53FF
  {
    hide ShiftXor;
    AbcFirst();
    AbcThen();
    AbcLast();
    assert Mul(0x760A_F273, PRIME2) == 0xD0F6_7175;
    assert Mul(0xD0F0_F6C6, PRIME3) == 0x32D1_612E;
  }

  /** The three letters "abc". */
  lemma AbcSteps()
    ensures ByteStep(ByteStep(ByteStep(0x1656_67B4, 0x61), 0x62), 0x63) == 0x760A_1E67
    ensures Add(Add(0, PRIME5), 3) == 0x1656_67B4
  {
    ByteStepped(0x1656_67B4, 0x61, 0x76BD_4A11, 0x8D13_B1C5, 0x9D8E_2C68, 0xDCA1_DBE8);
    ByteStepped(0xDCA1_DBE8, 0x62, 0x8D13_B1C2, 0x69B5_8DAA, 0xAC6D_534D, 0x4F80_FD3D);
    ByteStepped(0x4F80_FD3D, 0x63, 0xA36A_1973, 0xF2EB_16B0, 0x58B5_8797, 0x760A_1E67);
    hide ByteStep;
  }

  lemma AbcHash()
    ensures XXH32([0x61, 0x62, 0x63], 0) == 0x32D1_53FF
  {
    AbcAvalanche();
    AbcSteps();
    hide Avalanche, ByteStep, Add, Remainder;
    var s: Octets := [0x61, 0x62, 0x63];
    ThreeLeft(s, 0x1656_67B4);
    assert s[0..] == s;
  }

  lemma ThreeLeft(s: Octets, acc: u32)
    requires |s| == 3
    ensures Remainder(acc, s) == ByteStep(ByteStep(ByteStep(acc, s[0]), s[1]), s[2])
  {
    hide ByteStep;
    assert s[1..][0] == s[1] && s[1..][1..] == s[2..] && s[2..][0] == s[2] && s[2..][1..] == [];
    var first := ByteStep(acc, s[0]);
    assert Remainder(acc, s) == Remainder(first, s[1..]);
    assert Remainder(first, s[1..]) == Remainder(ByteStep(first, s[1]), s[2..]);
    assert Remainder(ByteStep(first, s[1]), s[2..]) == Remainder(ByteStep(ByteStep(first, s[1]), s[2]), []);
  }

  lemma SentenceFirst()
    ensures ShiftXor(0xB3A7_011B, 0x8000) == 0xB3A6_6655
  {
    hide ShiftXor;
    Shifted(0xB3A7_011B, 0x8000, 11, 1, 1, 0, 7, 10, 3, 11,
            14, 4, 7, 6, 1, 0, 0, 0, 5, 5, 6, 6, 6, 10, 3, 11);
  }

  lemma SentenceThen()
    ensures ShiftXor(0xE81F_A383, 0x2000) == 0xE818_E37E
  {
    hide ShiftXor;
    Shifted(0xE81F_A383, 0x2000, 3, 8, 3, 10, 15, 1, 8, 14,
            13, 15, 0, 4, 7, 0, 0, 0, 14, 7, 3, 14, 8, 1, 8, 14);
  }

  lemma SentenceLast()
    ensures ShiftXor(0xE229_D906, 0x1_0000) == 0xE229_3B2F
  {
    hide ShiftXor;
    Shifted(0xE229_D906, 0x1_0000, 6, 0, 9, 13, 9, 2, 2, 14,
            9, 2, 2, 14, 0, 0, 0, 0, 15, 2, 11, 3, 9, 2, 2, 14);
  }

  lemma SentenceAvalanche()
    ensures Avalanche(0xB3A7_011B) == 0xE229_3B2F
  {
    hide ShiftXor;
    SentenceFirst();
    SentenceThen();
    SentenceLast();
    assert Mul(0xB3A6_6655, PRIME2) == 0xE81F_A383;
    assert Mul(0xE818_E37E, PRIME3) == 0xE229_D906;
  }

  /** "Nobody inspects the spammish repetition", in two stripes and the rest. */
  const FIRST: Octets :=
    [0x4E, 0x6F, 0x62, 0x6F, 0x64, 0x79, 0x20, 0x69, 0x6E, 0x73, 0x70, 0x65, 0x63, 0x74, 0x73, 0x20]
  const SECOND: Octets :=
    [0x74, 0x68, 0x65, 0x20, 0x73, 0x70, 0x61, 0x6D, 0x6D, 0x69, 0x73, 0x68, 0x20, 0x72, 0x65, 0x70]
  const LAST: Octets := [0x65, 0x74, 0x69, 0x74, 0x69, 0x6F, 0x6E]
  const SENTENCE := FIRST + SECOND + LAST

  lemma FirstRounds()
    ensures Round(0x2423_4428, 0x6F62_6F4E) == 0x046A_700A
    ensures Round(0x85EB_CA77, 0x6920_7964) == 0xBFAD_F8E3
    ensures Round(0x0000_0000, 0x6570_736E) == 0x5B32_B4AA
    ensures Round(0x61C8_864F, 0x2073_7463) == 0x137E_5555
  {
    Rounded(0x2423_4428, 0x6F62_6F4E, 0x252F_4942, 0x4952_8D6A, 0x51AD_492A, 0x046A_700A);
    Rounded(0x85EB_CA77, 0x6920_7964, 0xE0AD_557C, 0x6699_1FF3, 0x23FE_6CD3, 0xBFAD_F8E3);
    Rounded(0x0000_0000, 0x6570_736E, 0xFE54_7422, 0xFE54_7422, 0x8E84_5FCA, 0x5B32_B4AA);
    Rounded(0x61C8_864F, 0x2073_7463, 0x7562_3805, 0xD72A_BE54, 0x57CA_9AE5, 0x137E_5555);
    hide Round;
  }

  lemma FirstStripe()
    ensures Stripe(Lanes(0x2423_4428, 0x85EB_CA77, 0x0000_0000, 0x61C8_864F), FIRST)
         == Lanes(0x046A_700A, 0xBFAD_F8E3, 0x5B32_B4AA, 0x137E_5555)
  {
    hide Round, Word;
    FirstRounds();
    var s := FIRST;
    WordOf(s);
    assert Word(s) == 0x6F62_6F4E;
    WordOf(s[4..]);
    assert Word(s[4..]) == 0x6920_7964;
    WordOf(s[8..]);
    assert Word(s[8..]) == 0x6570_736E;
    WordOf(s[12..]);
    assert Word(s[12..]) == 0x2073_7463;
  }

  lemma SecondRounds()
    ensures Round(0x046A_700A, 0x2065_6874) == 0x719A_836E
    ensures Round(0xBFAD_F8E3, 0x6D61_7073) == 0x514C_1DE8
    ensures Round(0x5B32_B4AA, 0x6873_696D) == 0x97FA_4BA2
    ensures Round(0x137E_5555, 0x7065_7220) == 0x242A_97A2
  {
    Rounded(0x046A_700A, 0x2065_6874, 0x3A0B_15EC, 0x3E75_85F6, 0xB0BE_C7CE, 0x719A_836E);
    Rounded(0xBFAD_F8E3, 0x6D61_7073, 0xB397_0375, 0x7344_FC58, 0x9F8B_0E68, 0x514C_1DE8);
    Rounded(0x5B32_B4AA, 0x6873_696D, 0x06E5_03AB, 0x6217_B855, 0xF70A_AC42, 0x97FA_4BA2);
    Rounded(0x137E_5555, 0x7065_7220, 0xAE95_4CE0, 0xC213_A235, 0x7446_B842, 0x242A_97A2);
    hide Round;
  }

  lemma SecondStripe()
    ensures Stripe(Lanes(0x046A_700A, 0xBFAD_F8E3, 0x5B32_B4AA, 0x137E_5555), SECOND)
         == Lanes(0x719A_836E, 0x514C_1DE8, 0x97FA_4BA2, 0x242A_97A2)
  {
    hide Round, Word;
    SecondRounds();
    var s := SECOND;
    WordOf(s);
    assert Word(s) == 0x2065_6874;
    WordOf(s[4..]);
    assert Word(s[4..]) == 0x6D61_7073;
    WordOf(s[8..]);
    assert Word(s[8..]) == 0x6873_696D;
    WordOf(s[12..]);
    assert Word(s[12..]) == 0x7065_7220;
  }

  lemma SentenceEnd()
    ensures Remainder(0x8C86_B554, LAST) == 0xB3A7_011B
  {
    hide ByteStep, WordStep, Word;
    var s := LAST;
    WordOf(s);
    WordStepped(0x8C86_B554, 0x7469_7465, 0xE277_6211, 0x6EFE_1765, 0x2ECA_DDFC, 0x09B5_1544);
    ByteStepped(0x09B5_1544, 0x69, 0x2970_8799, 0x3325_9CDD, 0x2CE6_E999, 0xCDEF_D3C9);
    ByteStepped(0xCDEF_D3C9, 0x6F, 0xAF76_F5BF, 0x7D66_C988, 0x364C_43EB, 0x3852_087B);
    ByteStepped(0x3852_087B, 0x6E, 0x9920_8E0E, 0xD172_9689, 0x94B4_4E8B, 0xB3A7_011B);
    ThreeLeft(s[4..], 0x09B5_1544);
  }

  lemma SentenceLanes()
    ensures Initial(0) == Lanes(0x2423_4428, 0x85EB_CA77, 0x0000_0000, 0x61C8_864F)
    ensures Converge(Lanes(0x719A_836E, 0x514C_1DE8, 0x97FA_4BA2, 0x242A_97A2)) == 0x8C86_B52D
    ensures Add(0x8C86_B52D, 39) == 0x8C86_B554
  {
    assert Rotate(0x719A_836E, 2, 0x8000_0000) == 0xE335_06DC;
    assert Rotate(0x514C_1DE8, 0x80, 0x200_0000) == 0xA60E_F428;
    assert Rotate(0x97FA_4BA2, 0x1000, 0x10_0000) == 0xA4BA_297F;
    assert Rotate(0x242A_97A2, 0x4_0000, 0x4000) == 0x5E88_90AA;
    hide Rotate;
  }

  lemma SentenceHash()
    ensures XXH32(SENTENCE, 0) == 0xE229_3B2F
  {
    hide Stripe, Initial, Converge, Remainder, Avalanche, Add;
    FirstStripe();
    SecondStripe();
    SentenceLanes();
    SentenceEnd();
    SentenceAvalanche();
    assert SENTENCE[..16] == FIRST && SENTENCE[16..32] == SECOND && SENTENCE[32..] == LAST;
    TwoStripes(SENTENCE, Initial(0));
  }
}
