/** XXH32, as the xxHash specification describes it (section "XXH32 Algorithm Description") and as
    the code computes it. */
module XxHash {
  import opened Bytes

  const PRIME1: u32 := 2654435761
  const PRIME2: u32 := 2246822519
  const PRIME3: u32 := 3266489917
  const PRIME4: u32 := 668265263
  const PRIME5: u32 := 374761393

  function Add(a: nat, b: nat): u32 { (a + b) % 0x1_0000_0000 }

  function Sub(a: u32, b: u32): u32 { (a - b) % 0x1_0000_0000 }

  function Mul(a: u32, b: u32): u32 { (a * b) % 0x1_0000_0000 }

  /** Rotation by a constant, `up` and `down` being the two powers of two it shifts by. */
  function Rotate(x: u32, up: nat, down: nat): u32
    requires up * down == 0x1_0000_0000 && up > 0 && down > 0
  {
    RotateBound(x, up, down);
    x % down * up + x / down
  }

  lemma RotateBound(x: u32, up: nat, down: nat)
    requires up * down == 0x1_0000_0000 && up > 0 && down > 0
    ensures 0 <= x % down * up + x / down < 0x1_0000_0000
  {
    assert x % down * up <= (down - 1) * up;
    assert x / down < up;
  }

  function ShiftXor(x: u32, divisor: nat): u32
    requires divisor > 0
  {
    XorBound(x, x / divisor, 32);
    Pow2Values();
    Xor(x, x / divisor, 32)
  }

  /** A little-endian 32-bit word at the front of `s`. */
  function Word(s: Octets): u32
    requires |s| >= 4
  {
    FromLittleEndianBound(s[..4]);
    Pow256Values();
    FromLittleEndian(s[..4])
  }

  // ---- The specification, by consumption of the input

  datatype Lanes = Lanes(v1: u32, v2: u32, v3: u32, v4: u32)

  function Round(lane: u32, input: u32): u32 {
    Mul(Rotate(Add(lane, Mul(input, PRIME2)), 0x2000, 0x8_0000), PRIME1)
  }

  /** Step 1. */
  function Initial(seed: u32): Lanes {
    Lanes(Add(Add(seed, PRIME1), PRIME2), Add(seed, PRIME2), seed, Sub(seed, PRIME1))
  }

  /** Step 2: one stripe of 16 bytes, four lanes side by side. */
  function Stripe(lanes: Lanes, stripe: Octets): Lanes
    requires |stripe| == 16
  {
    Lanes(Round(lanes.v1, Word(stripe)), Round(lanes.v2, Word(stripe[4..])),
          Round(lanes.v3, Word(stripe[8..])), Round(lanes.v4, Word(stripe[12..])))
  }

  function Stripes(lanes: Lanes, input: Octets): Lanes
    decreases |input|
  {
    if |input| < 16 then lanes else Stripes(Stripe(lanes, input[..16]), input[16..])
  }

  /** Step 3. */
  function Converge(lanes: Lanes): u32 {
    Add(Add(Add(Rotate(lanes.v1, 2, 0x8000_0000), Rotate(lanes.v2, 0x80, 0x200_0000)),
            Rotate(lanes.v3, 0x1000, 0x10_0000)),
        Rotate(lanes.v4, 0x4_0000, 0x4000))
  }

  function WordStep(acc: u32, word: u32): u32 {
    Mul(Rotate(Add(acc, Mul(word, PRIME3)), 0x2_0000, 0x8000), PRIME4)
  }

  function ByteStep(acc: u32, b: byte): u32 {
    Mul(Rotate(Add(acc, Mul(b, PRIME5)), 0x800, 0x20_0000), PRIME1)
  }

  /** Step 5: what the stripes left over, by words and then by bytes. */
  function Remainder(acc: u32, input: Octets): u32
    decreases |input|
  {
    if |input| >= 4 then Remainder(WordStep(acc, Word(input)), input[4..])
    else if |input| > 0 then Remainder(ByteStep(acc, input[0]), input[1..])
    else acc
  }

  /** Step 6. */
  function Avalanche(acc: u32): u32 {
    ShiftXor(Mul(ShiftXor(Mul(ShiftXor(acc, 0x8000), PRIME2), 0x2000), PRIME3), 0x1_0000)
  }

  function XXH32(input: Octets, seed: u32): u32 {
    var start := if |input| >= 16 then Converge(Stripes(Initial(seed), input)) else Add(seed, PRIME5);
    Avalanche(Remainder(Add(start, |input|), input[|input| - |input| % 16..]))
  }

  // ---- The code, by position

  lemma WordAt(data: Octets, from: nat, offset: nat, to: nat)
    requires from + offset + 4 <= to <= |data|
    ensures Word(data[from + offset..]) == Word(data[from..to][offset..])
  {
    assert data[from + offset..][..4] == data[from..to][offset..][..4];
  }

  lemma StripeAt(lanes: Lanes, data: Octets, position: nat)
    requires position + 16 <= |data|
    ensures Stripes(lanes, data[position..]) ==
      Stripes(Lanes(Round(lanes.v1, Word(data[position..])), Round(lanes.v2, Word(data[position + 4..])),
                    Round(lanes.v3, Word(data[position + 8..])), Round(lanes.v4, Word(data[position + 12..]))),
              data[position + 16..])
  {
    hide Word, Round;
    WordAt(data, position, 0, position + 16);
    WordAt(data, position, 4, position + 16);
    WordAt(data, position, 8, position + 16);
    WordAt(data, position, 12, position + 16);
    assert data[position..][..16] == data[position..position + 16];
    assert data[position..][16..] == data[position + 16..];
  }

  lemma NoStripeLeft(lanes: Lanes, data: Octets, position: nat)
    requires position <= |data| < position + 16
    ensures Stripes(lanes, data[position..]) == lanes
  {}

  /** The loop over whole stripes. */
  method ConsumeStripes(data: Octets, seed: u32) returns (lanes: Lanes, position: nat)
    ensures position == |data| - |data| % 16
    ensures lanes == Stripes(Initial(seed), data)
  {
    hide Word, Round, Stripes, Initial;
    position := 0;
    lanes := Initial(seed);
    assert data[0..] == data;
    while position + 16 <= |data|
      invariant 0 <= position <= |data| && position % 16 == 0
      invariant Stripes(lanes, data[position..]) == Stripes(Initial(seed), data)
      decreases |data| - position
    {
      StripeAt(lanes, data, position);
      lanes := Lanes(Round(lanes.v1, Word(data[position..])), Round(lanes.v2, Word(data[position + 4..])),
                     Round(lanes.v3, Word(data[position + 8..])), Round(lanes.v4, Word(data[position + 12..])));
      position := position + 16;
    }
    NoStripeLeft(lanes, data, position);
  }

  /** The loops over what is left: words, then bytes. */
  method ConsumeRemainder(data: Octets, start: nat, acc: u32) returns (hash: u32)
    requires start <= |data|
    ensures hash == Remainder(acc, data[start..])
  {
    hide Word, WordStep, ByteStep;
    var position := start;
    hash := acc;
    while position + 4 <= |data|
      invariant start <= position <= |data|
      invariant Remainder(hash, data[position..]) == Remainder(acc, data[start..])
      decreases |data| - position
    {
      assert data[position..][4..] == data[position + 4..];
      hash := WordStep(hash, Word(data[position..]));
      position := position + 4;
    }
    while position < |data|
      invariant |data| - 4 < position <= |data|
      invariant Remainder(hash, data[position..]) == Remainder(acc, data[start..])
    {
      assert data[position..][1..] == data[position + 1..];
      hash := ByteStep(hash, data[position]);
      position := position + 1;
    }
  }

  method Hash(data: Octets, seed: u32) returns (hash: u32)
    ensures hash == XXH32(data, seed)
  {
    hide Add, Stripes, Initial, Converge, Remainder, Avalanche;
    var position := 0;
    if |data| >= 16 {
      var lanes;
      lanes, position := ConsumeStripes(data, seed);
      hash := Converge(lanes);
    } else {
      hash := Add(seed, PRIME5);
    }
    hash := ConsumeRemainder(data, position, Add(hash, |data|));
    hash := Avalanche(hash);
  }
}
