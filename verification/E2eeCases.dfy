/** When a wrapped key, a share or a message cannot be opened, and what comes out when it can. */
module E2eeCases {
  import opened Options
  import opened Bytes
  import opened Cbc
  import opened E2ee

  /** What a wrapped key opens to: its plaintext without well-formed padding, or failing that the plaintext
      itself if it is just 32 bytes long; and nothing from anything but whole blocks. */
  lemma UnwrapCases(c: Crypto, material: Octets, ciphertext: Octets)
    ensures var r := UnwrapKey(c, material, ciphertext);
      if ciphertext == [] || |ciphertext| % 16 != 0 then r.None?
      else
        var p := DecryptBlocks(c.aes(c.Digest(material + [0x4B, 0x65, 0x79])), c.Folded(material + [0x49, 0x56]),
                               ciphertext);
        var n := p[|p| - 1];
        if 1 <= n <= 16 && forall i | |p| - n <= i < |p| :: p[i] == n then r == Some(p[..|p| - n])
        else if |p| == 32 then r == Some(p) else r.None?
  {
    hide DecryptBlocks;
    if ciphertext != [] && |ciphertext| % 16 == 0 {
      var p := DecryptBlocks(c.aes(c.Digest(material + KEY_LABEL)), c.Folded(material + IV_LABEL), ciphertext);
      var n := p[|p| - 1];
      assert |p| >= 16;
      if 1 <= n <= 16 {
        TailRepeats(p, n);
      }
    }
  }

  lemma TailRepeats(p: Octets, n: byte)
    requires 1 <= n <= |p|
    ensures p[|p| - n..] == Repeat(n, n) <==> forall i | |p| - n <= i < |p| :: p[i] == n
  {
    var tail := p[|p| - n..];
    if tail == Repeat(n, n) {
      forall i | |p| - n <= i < |p|
        ensures p[i] == n
      {
        assert tail[i - (|p| - n)] == p[i];
      }
    }
  }

  /** A share opens exactly when the reader has the key it is for, the creator's key exists, what is wrapped
      under their secret is 32 bytes, and it names a group key; a missing version stands for 2. */
  lemma ShareOpensIff(c: Crypto, w: World, keys: seq<DeviceKey>, current: i32, share: GroupShare)
    requires c.Lawful()
    ensures var own, r := OwnKey(keys, current, share.receiverKeyID), UnwrapShare(c, w, keys, current, share);
      var opens := own.Some? && |own.value.private| == 32 && (share.creator, share.creatorKeyID) in w.devices
        && share.groupKeyID != 0;
      if !opens then r.None?
      else
        var secret := c.agree(own.value.private, c.publicOf(w.devices[(share.creator, share.creatorKeyID)]));
        var key := UnwrapKey(c, secret, share.encrypted);
        r == if key.Some? && |key.value| == 32
             then Some(GroupKey(share.groupKeyID, key.value, if share.version == 0 then 2 else share.version))
             else None
  {
    hide UnwrapKey, OwnKey;
  }

  /** The version of a message: 2 unless its metadata give another number of 32 bits. */
  lemma VersionCases(message: Incoming)
    ensures message.e2eeVersion == [] ==> VersionOf(message) == 2
    ensures message.e2eeVersion == [0x31] ==> VersionOf(message) == 1
    ensures message.e2eeVersion == [0x2D, 0x31] ==> VersionOf(message) == -1
    ensures message.e2eeVersion == [0x32, 0x78] ==> VersionOf(message) == 2
    ensures message.e2eeVersion == [0x31, 0x30] ==> VersionOf(message) == 10
  {
    var s := message.e2eeVersion;
    if s == [0x31] {
      assert s[1..] == [] && ParseDigits(s, 0) == ParseDigits([], 1);
    } else if s == [0x2D, 0x31] {
      assert s[1..] == [0x31] && s[1..][1..] == [] && ParseDigits(s[1..], 0) == ParseDigits([], 1);
    } else if s == [0x32, 0x78] {
      assert s[1..] == [0x78] && ParseDigits(s, 0) == ParseDigits(s[1..], 2);
    } else if s == [0x31, 0x30] {
      assert s[1..] == [0x30] && s[1..][1..] == [];
      assert ParseDigits(s, 0) == ParseDigits(s[1..], 1) && ParseDigits(s[1..], 1) == ParseDigits([], 10);
    }
  }

  /** Why a message cannot be read at all: a name or a chunk is missing, or a key ID is not four bytes. */
  lemma Unreadable(
      c: Crypto, w: World, me: Mid, keys: seq<DeviceKey>, current: i32, message: Incoming)
    requires message.to == [] || message.from == [] || |message.chunks| < 5
             || |ChunkBytes(message.chunks[3])| != 4 || |ChunkBytes(message.chunks[4])| != 4
    ensures DecryptText(c, w, me, keys, current, message).None?
  {
    hide SharedSecret, OpenPayload, ChunkBytes;
  }
}
