/** PKCS#7 padding (section 6.3 of RFC 5652) and CBC chaining (section 6.2 of NIST SP 800-38A), over
    any keyed permutation of 16-byte blocks. */
module Cbc {
  import opened Options
  import opened Bytes

  const BLOCK: nat := 16

  // ---- Padding

  function Repeat(b: byte, count: nat): (s: Octets)
    ensures |s| == count
    ensures forall i | 0 <= i < count :: s[i] == b
  {
    seq(count, i => b)
  }

  function Pad(plaintext: Octets): (padded: Octets)
    ensures |padded| % BLOCK == 0 && |plaintext| < |padded| <= |plaintext| + BLOCK
  {
    var padding := BLOCK - |plaintext| % BLOCK;
    plaintext + Repeat(padding, padding)
  }

  function Unpad(value: Octets): Option<Octets> {
    if value == [] then None
    else
      var padding := value[|value| - 1];
      if padding == 0 || padding > BLOCK || padding > |value| then None
      else if value[|value| - padding..] != Repeat(padding, padding) then None
      else Some(value[..|value| - padding])
  }

  lemma UnpadUndoesPad(plaintext: Octets)
    ensures Unpad(Pad(plaintext)) == Some(plaintext)
  {
    var padding := BLOCK - |plaintext| % BLOCK;
    var padded := Pad(plaintext);
    assert padded[|padded| - 1] == padding;
    assert padded[|padded| - padding..] == Repeat(padding, padding);
    assert padded[..|padded| - padding] == plaintext;
  }

  /** On whole blocks nothing else unpads to `plaintext`: the two are mutual inverses. */
  lemma PadUndoesUnpad(value: Octets)
    requires |value| % BLOCK == 0 && Unpad(value).Some?
    ensures Pad(Unpad(value).value) == value
  {
    var padding := value[|value| - 1];
    var plaintext := Unpad(value).value;
    assert |plaintext| == |value| - padding;
    if padding == BLOCK {
      assert |plaintext| % BLOCK == 0;
    } else {
      assert |plaintext| % BLOCK == BLOCK - padding;
    }
    assert value == plaintext + value[|value| - padding..];
  }

  /** The padded buffer, filled from the end of the copied plaintext on. */
  method PadBuffer(plaintext: Octets) returns (padded: array<byte>)
    ensures fresh(padded) && padded[..] == Pad(plaintext)
  {
    var padding := BLOCK - |plaintext| % BLOCK;
    padded := new byte[|plaintext| + padding];
    forall i | 0 <= i < |plaintext| {
      padded[i] := plaintext[i];
    }
    for index := |plaintext| to padded.Length
      invariant forall i | 0 <= i < |plaintext| :: padded[i] == plaintext[i]
      invariant forall i | |plaintext| <= i < index :: padded[i] == padding
    {
      padded[index] := padding;
    }
  }

  method UnpadBuffer(value: Octets) returns (r: Option<Octets>)
    ensures r == Unpad(value)
  {
    if |value| == 0 {
      return None;
    }
    var padding := value[|value| - 1];
    if padding == 0 || padding > BLOCK || padding > |value| {
      return None;
    }
    var start := |value| - padding;
    for i := start to |value|
      invariant forall j | start <= j < i :: value[j] == padding
    {
      if value[i] != padding {
        assert value[start..][i - start] != Repeat(padding, padding)[i - start];
        return None;
      }
    }
    assert value[start..] == Repeat(padding, padding);
    return Some(value[..start]);
  }

  // ---- Chaining

  datatype BlockCipher = BlockCipher(encrypt: Octets -> Octets, decrypt: Octets -> Octets) {
    /** Decryption undoes encryption on every block. */
    ghost predicate Invertible() {
      forall b: Octets | |b| == BLOCK :: Permute(decrypt, Permute(encrypt, b)) == b
    }
  }

  /** One direction of the cipher on one block. */
  function Permute(f: Octets -> Octets, block: Octets): (r: Octets)
    requires |block| == BLOCK
    ensures |r| == BLOCK
  {
    var image := f(block);
    if |image| == BLOCK then image else block
  }

  function XorBlock(a: Octets, b: Octets): (r: Octets)
    requires |a| == |b| == BLOCK
    ensures |r| == BLOCK
  {
    seq(BLOCK, i requires 0 <= i < BLOCK => XorByte(a[i], b[i]))
  }

  lemma XorBlockCancels(a: Octets, b: Octets)
    requires |a| == |b| == BLOCK
    ensures XorBlock(XorBlock(a, b), b) == a
  {
    forall i | 0 <= i < BLOCK ensures XorBlock(XorBlock(a, b), b)[i] == a[i] {
      XorByteCancels(a[i], b[i]);
    }
  }

  function EncryptBlocks(cipher: BlockCipher, iv: Octets, plain: Octets): (r: Octets)
    requires |iv| == BLOCK && |plain| % BLOCK == 0
    ensures |r| == |plain|
    decreases |plain|
  {
    if plain == [] then []
    else
      var block := Permute(cipher.encrypt, XorBlock(plain[..BLOCK], iv));
      block + EncryptBlocks(cipher, block, plain[BLOCK..])
  }

  function DecryptBlocks(cipher: BlockCipher, iv: Octets, ciphertext: Octets): (r: Octets)
    requires |iv| == BLOCK && |ciphertext| % BLOCK == 0
    ensures |r| == |ciphertext|
    decreases |ciphertext|
  {
    if ciphertext == [] then []
    else
      var block := ciphertext[..BLOCK];
      XorBlock(Permute(cipher.decrypt, block), iv) + DecryptBlocks(cipher, block, ciphertext[BLOCK..])
  }

  lemma {:induction false} DecryptUndoesEncrypt(cipher: BlockCipher, iv: Octets, plain: Octets)
    requires cipher.Invertible() && |iv| == BLOCK && |plain| % BLOCK == 0
    ensures DecryptBlocks(cipher, iv, EncryptBlocks(cipher, iv, plain)) == plain
    decreases |plain|
  {
    hide XorBlock, Permute;
    if plain != [] {
      var mixed := XorBlock(plain[..BLOCK], iv);
      var block := Permute(cipher.encrypt, mixed);
      var rest := EncryptBlocks(cipher, block, plain[BLOCK..]);
      assert (block + rest)[..BLOCK] == block && (block + rest)[BLOCK..] == rest;
      XorBlockCancels(plain[..BLOCK], iv);
      DecryptUndoesEncrypt(cipher, block, plain[BLOCK..]);
      assert plain == plain[..BLOCK] + plain[BLOCK..];
    }
  }
}
