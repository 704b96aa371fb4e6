/** End-to-end encrypted text: which key seals it, what the chunks carry, and why the other side,
    or the sender itself, opens it again. X25519, AES, AES-GCM, SHA-256 and JSON are parameters
    constrained by the laws they are used for. */
module E2ee {
  import opened Options
  import opened Bytes
  import opened Thrift
  import opened Cbc

  type Mid = Octets

  const KEY_LABEL: Octets := [0x4B, 0x65, 0x79] // "Key"
  const IV_LABEL: Octets := [0x49, 0x56] // "IV"

  datatype Crypto = Crypto(
    publicOf: Octets -> Octets,
    agree: (Octets, Octets) -> Octets,
    sha256: Octets -> Octets,
    aes: Octets -> BlockCipher,
    seal: (Octets, Octets, Octets, Octets) -> Octets,
    open: (Octets, Octets, Octets, Octets) -> Option<Octets>,
    marshal: Octets -> Octets,
    textOf: Octets -> Option<Octets>)
  {
    /** X25519 commutes (section 6.1 of RFC 7748), AES decryption and GCM opening undo encryption
        and sealing, and JSON keeps valid text. */
    ghost predicate Lawful() {
      && (forall a: Octets, b: Octets :: agree(a, publicOf(b)) == agree(b, publicOf(a)))
      && (forall a: Octets :: |publicOf(a)| == 32)
      && (forall s: Octets :: |sha256(s)| == 32)
      && (forall key: Octets :: aes(key).Invertible())
      && (forall key, nonce, plaintext, aad ::
            open(key, nonce, seal(key, nonce, plaintext, aad), aad) == Some(plaintext))
      && (forall text: Octets | Utf8Valid(text) :: textOf(marshal(text)) == Some(text))
    }

    /** Key agreement refuses keys that are not 32 bytes. */
    function X25519(private: Octets, public: Octets): Option<Octets> {
      if |private| != 32 || |public| != 32 then None else Some(agree(private, public))
    }

    function Digest(s: Octets): (d: Octets)
      ensures |d| == 32
    {
      if |sha256(s)| == 32 then sha256(s) else Repeat(0, 32)
    }

    function Folded(s: Octets): (iv: Octets)
      ensures |iv| == 16
    {
      seq(16, i requires 0 <= i < 16 => XorByte(Digest(s)[i], Digest(s)[i + 16]))
    }
  }

  // ---- Wrapping group keys

  function Wrap(c: Crypto, material: Octets, plaintext: Octets): Octets {
    EncryptBlocks(c.aes(c.Digest(material + KEY_LABEL)), c.Folded(material + IV_LABEL), Pad(plaintext))
  }

  /** Valid padding is removed; failing that, exactly 32 raw bytes are taken as they are. */
  function UnwrapKey(c: Crypto, material: Octets, ciphertext: Octets): Option<Octets> {
    if ciphertext == [] || |ciphertext| % BLOCK != 0 then None
    else
      var plaintext := DecryptBlocks(c.aes(c.Digest(material + KEY_LABEL)), c.Folded(material + IV_LABEL), ciphertext);
      match Unpad(plaintext)
      case Some(unpadded) => Some(unpadded)
      case None => if |plaintext| == 32 then Some(plaintext) else None
  }

  /** Unwrapping returns every wrapped key; the raw fallback never gets in the way. */
  lemma UnwrapUndoesWrap(c: Crypto, material: Octets, plaintext: Octets)
    requires c.Lawful()
    ensures UnwrapKey(c, material, Wrap(c, material, plaintext)) == Some(plaintext)
  {
    hide Pad, Unpad, EncryptBlocks, DecryptBlocks;
    DecryptUndoesEncrypt(c.aes(c.Digest(material + KEY_LABEL)), c.Folded(material + IV_LABEL), Pad(plaintext));
    UnpadUndoesPad(plaintext);
    assert Pad(plaintext) != [];
  }

  // ---- Key selection

  datatype DeviceKey = DeviceKey(id: i32, public: Octets, private: Octets)

  /** The first key with a given ID. */
  function FindKey(keys: seq<DeviceKey>, id: i32): Option<DeviceKey> {
    if keys == [] then None else if keys[0].id == id then Some(keys[0]) else FindKey(keys[1..], id)
  }

  /** The first key among those with the highest ID, starting from `best`. */
  function Newest(keys: seq<DeviceKey>, best: Option<DeviceKey>): Option<DeviceKey> {
    if keys == [] then best
    else Newest(keys[1..], if best.None? || keys[0].id > best.value.id then Some(keys[0]) else best)
  }

  /** ID 0 asks for the account's current key: the one its metadata names, else the newest. */
  function OwnKey(keys: seq<DeviceKey>, current: i32, id: i32): Option<DeviceKey> {
    var wanted := if id == 0 then current else id;
    if wanted != 0 then FindKey(keys, wanted) else Newest(keys, None)
  }

  lemma {:induction false} FoundKeyHasItsId(keys: seq<DeviceKey>, id: i32)
    requires FindKey(keys, id).Some?
    ensures FindKey(keys, id).value.id == id && FindKey(keys, id).value in keys
  {
    if keys[0].id != id {
      FoundKeyHasItsId(keys[1..], id);
    }
  }

  lemma {:induction false} NewestIsFirstOfItsId(keys: seq<DeviceKey>, best: Option<DeviceKey>)
    ensures var r := Newest(keys, best);
            && (keys != [] || best.Some? ==> r.Some?)
            && (r.Some? && r != best ==> FindKey(keys, r.value.id) == r)
            && (best.Some? ==> r.value.id >= best.value.id)
            && (best.Some? && r.value.id == best.value.id ==> r == best)
  {
    if keys != [] {
      NewestIsFirstOfItsId(keys[1..], if best.None? || keys[0].id > best.value.id then Some(keys[0]) else best);
    }
  }

  /** Which key that is: the first with the ID asked for, or for ID 0 with the ID the metadata names; without
      either the first with the highest ID of all. */
  lemma OwnKeyIs(keys: seq<DeviceKey>, current: i32, id: i32)
    ensures var r, wanted := OwnKey(keys, current, id), if id != 0 then id else current;
      if wanted != 0 then
        if forall k | k in keys :: k.id != wanted then r.None?
        else exists i :: 0 <= i < |keys| && r == Some(keys[i]) && keys[i].id == wanted
               && forall j | 0 <= j < i :: keys[j].id != wanted
      else if keys == [] then r.None?
      else exists i :: 0 <= i < |keys| && r == Some(keys[i]) && (forall k | k in keys :: k.id <= keys[i].id)
             && forall j | 0 <= j < i :: keys[j].id != keys[i].id
  {
    var wanted := if id != 0 then id else current;
    if wanted != 0 {
      FirstFound(keys, wanted);
    } else if keys != [] {
      NewestIsFirstOfItsId(keys, None);
      NewestIsHighest(keys, None);
      FirstFound(keys, Newest(keys, None).value.id);
    }
  }

  lemma {:induction false} FirstFound(keys: seq<DeviceKey>, id: i32)
    ensures var r := FindKey(keys, id);
      if forall k | k in keys :: k.id != id then r.None?
      else exists i :: 0 <= i < |keys| && r == Some(keys[i]) && keys[i].id == id
             && forall j | 0 <= j < i :: keys[j].id != id
  {
    if keys != [] && keys[0].id != id {
      var rest := keys[1..];
      FirstFound(rest, id);
      assert forall j | 0 <= j < |rest| :: rest[j] == keys[j + 1];
      if exists k :: k in keys && k.id == id {
        var i :| 0 <= i < |rest| && FindKey(rest, id) == Some(rest[i]) && rest[i].id == id
                 && forall j | 0 <= j < i :: rest[j].id != id;
        assert keys[i + 1] == rest[i] && forall j | 0 < j < i + 1 :: keys[j] == rest[j - 1];
      }
    }
  }

  lemma {:induction false} NewestIsHighest(keys: seq<DeviceKey>, best: Option<DeviceKey>)
    ensures Newest(keys, best).Some? ==> forall k | k in keys :: k.id <= Newest(keys, best).value.id
    ensures best.Some? ==> Newest(keys, best).Some? && best.value.id <= Newest(keys, best).value.id
  {
    if keys != [] {
      NewestIsHighest(keys[1..], if best.None? || keys[0].id > best.value.id then Some(keys[0]) else best);
      assert keys == [keys[0]] + keys[1..];
    }
  }

  /** The key a sender picks is the key it finds again under the ID it wrote into the message. */
  lemma CurrentKeyFoundAgain(keys: seq<DeviceKey>, current: i32)
    requires OwnKey(keys, current, 0).Some?
    ensures OwnKey(keys, current, OwnKey(keys, current, 0).value.id) == OwnKey(keys, current, 0)
  {
    if current != 0 {
      FoundKeyHasItsId(keys, current);
    } else {
      NewestIsFirstOfItsId(keys, None);
    }
  }

  // ---- Group keys in transit

  /** A group key as one member receives it: wrapped under the secret its creator shares with the
      member. Zero versions stand for the defaults 1 (creator key) and 2 (message). */
  datatype GroupShare = GroupShare(
    creator: Mid, creatorKeyID: i32, creatorKeyVersion: i32, groupKeyID: i32, receiver: Mid, receiverKeyID: i32,
    encrypted: Octets, version: i32)

  function UnwrapShare(c: Crypto, w: World, keys: seq<DeviceKey>, current: i32, share: GroupShare): Option<GroupKey> {
    var own := OwnKey(keys, current, share.receiverKeyID);
    var creator := w.PublicKey(c, share.creator, share.creatorKeyID);
    if own.None? || creator.None? then None
    else
      match c.X25519(own.value.private, creator.value)
      case None => None
      case Some(shared) =>
        match UnwrapKey(c, shared, share.encrypted)
        case None => None
        case Some(key) =>
          if share.groupKeyID == 0 || |key| != 32 then None
          else Some(GroupKey(share.groupKeyID, key, if share.version == 0 then 2 else share.version))
  }

  /** What the creator uploads for a member: the group key under their shared secret. */
  function ShareFor(c: Crypto, own: DeviceKey, memberPublic: Octets, groupPrivate: Octets): Option<Octets> {
    match c.X25519(own.private, memberPublic)
    case None => None
    case Some(shared) => Some(Wrap(c, shared, groupPrivate))
  }

  /** Whatever the creator wrapped for a member, that member unwraps: the two sides of the key
      agreement meet. */
  lemma MemberUnwrapsShare(
      c: Crypto, w: World, creator: Mid, own: DeviceKey, member: Mid, keys: seq<DeviceKey>, current: i32,
      memberKey: DeviceKey, groupPrivate: Octets, share: GroupShare)
    requires c.Lawful() && w.Owns(c, creator, [own]) && w.Owns(c, member, keys)
    requires OwnKey(keys, current, share.receiverKeyID) == Some(memberKey) && |memberKey.private| == 32
    requires share.creator == creator && share.creatorKeyID == own.id && share.groupKeyID != 0
    requires |groupPrivate| == 32
    requires Some(share.encrypted) == ShareFor(c, own, c.publicOf(memberKey.private), groupPrivate)
    ensures UnwrapShare(c, w, keys, current, share)
         == Some(GroupKey(share.groupKeyID, groupPrivate, if share.version == 0 then 2 else share.version))
  {
    hide Wrap, UnwrapKey, OwnKey;
    assert own in [own];
    UnwrapUndoesWrap(c, c.agree(own.private, c.publicOf(memberKey.private)), groupPrivate);
  }

  // ---- Messages

  function Int32Of(s: Octets): i32 { Wrap32(FromBigEndian(s)) }

  lemma Int32RoundTrip(n: i32)
    ensures Int32Of(Put32(n)) == n
  {
    Pow256Values();
    BigEndianRoundTrip(n % 0x1_0000_0000, 4);
  }

  function MessageAAD(
      to: Mid, from: Mid, senderKeyID: i32, receiverKeyID: i32, version: i32, contentType: i32): Octets
  {
    to + from + Put32(senderKeyID) + Put32(receiverKeyID) + Put32(version) + Put32(contentType)
  }

  predicate IsUser(mid: Mid) { mid != [] && (mid[0] == 0x75 || mid[0] == 0x55) } // 'u' or 'U'

  /** The five chunks a sealed text consists of. */
  function Sealed(
      c: Crypto, secret: Octets, to: Mid, from: Mid, senderKeyID: i32, receiverKeyID: i32, salt: Octets, nonce: Octets,
      text: Octets)
    : seq<Octets>
  {
    var key := c.Digest(secret + salt + KEY_LABEL);
    var aad := MessageAAD(to, from, senderKeyID, receiverKeyID, 2, 0);
    [salt, c.seal(key, nonce, c.marshal(text), aad), nonce, Put32(senderKeyID), Put32(receiverKeyID)]
  }

  /** A message as it arrives: chunks are whatever the Thrift reader made of the bytes, and the
      version is the metadata string `e2eeVersion`, empty if absent. */
  datatype Incoming = Incoming(
    to: Mid, from: Mid, toType: i32, contentType: i32, e2eeVersion: Octets, chunks: seq<Decoded>)

  function ChunkBytes(chunk: Decoded): Octets {
    match chunk
    case DRaw(raw) => raw
    case DText(text) => text
    case _ => []
  }

  /** Decimal digits with an optional sign, within 32 bits (strconv.ParseInt with base 10). */
  function ParseInt32(s: Octets): Option<i32> {
    var negative := s != [] && s[0] == 0x2D;
    var digits := if s != [] && (s[0] == 0x2D || s[0] == 0x2B) then s[1..] else s;
    match ParseDigits(digits, 0)
    case None => None
    case Some(n) =>
      if digits == [] then None
      else if negative then if n <= 0x8000_0000 then Some(0 - n) else None
      else if n < 0x8000_0000 then Some(n) else None
  }

  function ParseDigits(s: Octets, acc: nat): Option<nat> {
    if s == [] then Some(acc)
    else if 0x30 <= s[0] <= 0x39 then ParseDigits(s[1..], 10 * acc + (s[0] - 0x30))
    else None
  }

  /** Each further digit is worth a tenth of the one before it. */
  lemma {:induction false} DecimalDigits(s: Octets, digit: byte, acc: nat)
    requires ParseDigits(s, acc).Some? && digit <= 9
    ensures ParseDigits(s + [0x30 + digit], acc) == Some(10 * ParseDigits(s, acc).value + digit)
    ensures acc <= ParseDigits(s, acc).value
  {
    if s == [] {
      assert s + [0x30 + digit] == [0x30 + digit] && [0x30 + digit][1..] == [];
    } else {
      assert (s + [0x30 + digit])[1..] == s[1..] + [0x30 + digit];
      DecimalDigits(s[1..], digit, 10 * acc + (s[0] - 0x30));
    }
  }

  function VersionOf(message: Incoming): i32 {
    if message.e2eeVersion == [] then 2
    else match ParseInt32(message.e2eeVersion) case Some(n) => n case None => 2
  }

  // ---- Who knows which key

  datatype GroupKey = GroupKey(id: i32, key: Octets, version: i32)

  /** The private keys that exist: one per account and key ID, one per group and group key ID. */
  datatype World = World(devices: map<(Mid, i32), Octets>, groups: map<(Mid, i32), GroupKey>) {
    /** The answer the key server gives, if it has one. */
    function PublicKey(c: Crypto, mid: Mid, id: i32): Option<Octets> {
      if (mid, id) in devices then Some(c.publicOf(devices[(mid, id)])) else None
    }

    /** An account's key chain lists its own keys. */
    ghost predicate Owns(c: Crypto, mid: Mid, keys: seq<DeviceKey>) {
      forall k | k in keys ::
        (mid, k.id) in devices && devices[(mid, k.id)] == k.private && c.publicOf(k.private) == k.public
          && |k.private| == 32
    }

    ghost predicate HasGroup(group: Mid, key: GroupKey) {
      (group, key.id) in groups && groups[(group, key.id)] == key && |key.key| == 32
    }
  }

  /** The shared secret a text from `from` to `to` is sealed under. */
  function Secret(c: Crypto, w: World, to: Mid, from: Mid, senderKeyID: i32, receiverKeyID: i32): Octets
    requires (from, senderKeyID) in w.devices
    requires IsUser(to) ==> (to, receiverKeyID) in w.devices
    requires !IsUser(to) ==> (to, receiverKeyID) in w.groups
  {
    if IsUser(to) then c.agree(w.devices[(from, senderKeyID)], c.publicOf(w.devices[(to, receiverKeyID)]))
    else c.agree(w.groups[(to, receiverKeyID)].key, c.publicOf(w.devices[(from, senderKeyID)]))
  }

  // ---- Opening

  function OpenPayload(
      c: Crypto, message: Incoming, chunks: seq<Octets>, shared: Octets, version: i32, senderKeyID: i32,
      receiverKeyID: i32)
    : Option<Octets>
    requires |chunks| >= 5
  {
    var key := c.Digest(shared + chunks[0] + KEY_LABEL);
    if version == 1 then
      if |chunks[1]| % BLOCK != 0 then None
      else Unpad(DecryptBlocks(c.aes(key), c.Folded(shared + chunks[0] + IV_LABEL), chunks[1]))
    else if version != 2 then None
    else
      c.open(key, chunks[2], chunks[1],
             MessageAAD(message.to, message.from, senderKeyID, receiverKeyID, version, message.contentType))
  }

  function AllBytes(chunks: seq<Decoded>): (r: seq<Octets>)
    ensures |r| == |chunks|
  {
    seq(|chunks|, i requires 0 <= i < |chunks| => ChunkBytes(chunks[i]))
  }

  /** The shared secret and version the reader of `message` uses, when the key servers answer
      truthfully; the group key asked for is the one the message names. */
  function SharedSecret(
      c: Crypto, w: World, me: Mid, keys: seq<DeviceKey>, current: i32, message: Incoming, senderKeyID: i32,
      receiverKeyID: i32)
    : Option<(Octets, i32)>
    requires message.to != []
  {
    if message.toType == 0 || IsUser(message.to) then
      var isSelf := message.from == me;
      var own := OwnKey(keys, current, if isSelf then senderKeyID else receiverKeyID);
      var peer :=
        if isSelf then w.PublicKey(c, message.to, receiverKeyID)
        else w.PublicKey(c, message.from, senderKeyID);
      if own.None? || peer.None? then None
      else
        match c.X25519(own.value.private, peer.value)
        case None => None
        case Some(shared) => Some((shared, VersionOf(message)))
    else if (message.to, receiverKeyID) !in w.groups then None
    else
      var own := OwnKey(keys, current, senderKeyID);
      var sender :=
        if message.from != me then w.PublicKey(c, message.from, senderKeyID)
        else if own.Some? then Some(own.value.public) else None;
      if sender.None? then None
      else
        match c.X25519(w.groups[(message.to, receiverKeyID)].key, sender.value)
        case None => None
        case Some(shared) => Some((shared, w.groups[(message.to, receiverKeyID)].version))
  }

  function DecryptText(
      c: Crypto, w: World, me: Mid, keys: seq<DeviceKey>, current: i32, message: Incoming): Option<Octets>
  {
    if message.to == [] || message.from == [] || |message.chunks| < 5 then None
    else
      var chunks := AllBytes(message.chunks);
      if |chunks[3]| != 4 || |chunks[4]| != 4 then None
      else
        var senderKeyID, receiverKeyID := Int32Of(chunks[3]), Int32Of(chunks[4]);
        match SharedSecret(c, w, me, keys, current, message, senderKeyID, receiverKeyID)
        case None => None
        case Some(found) =>
          match OpenPayload(c, message, chunks, found.0, found.1, senderKeyID, receiverKeyID)
          case None => None
          case Some(plaintext) => c.textOf(plaintext)
  }

  /** What the Thrift reader hands back for chunks sent as binary fields. */
  function Delivered(chunks: seq<Octets>): (r: seq<Decoded>)
    ensures |r| == |chunks|
  {
    seq(|chunks|, i requires 0 <= i < |chunks| => DecodedBytes(chunks[i]))
  }

  const VERSION_TWO: Octets := [0x32] // "2"

  /** On all four paths (direct or group, read by the peer or by the sender) the text comes back:
      whatever the reader, it derives the sender's secret and the same associated data. */
  lemma DecryptRecoversText(
      c: Crypto, w: World, me: Mid, keys: seq<DeviceKey>, current: i32,
      to: Mid, from: Mid, toType: i32, senderKeyID: i32, receiverKeyID: i32, salt: Octets, nonce: Octets, text: Octets)
    requires c.Lawful() && Utf8Valid(text)
    requires to != [] && from != [] && (toType == 0 ==> IsUser(to))
    requires (from, senderKeyID) in w.devices && |w.devices[(from, senderKeyID)]| == 32
    requires IsUser(to) ==> (to, receiverKeyID) in w.devices && |w.devices[(to, receiverKeyID)]| == 32
    requires !IsUser(to) ==> (to, receiverKeyID) in w.groups && |w.groups[(to, receiverKeyID)].key| == 32
    requires !IsUser(to) ==> w.groups[(to, receiverKeyID)].version == 2
    requires w.Owns(c, me, keys)
    requires if me == from
             then OwnKey(keys, current, senderKeyID).Some? && OwnKey(keys, current, senderKeyID).value.id == senderKeyID
             else IsUser(to) ==> me == to && OwnKey(keys, current, receiverKeyID).Some?
                                 && OwnKey(keys, current, receiverKeyID).value.id == receiverKeyID
    ensures var secret := Secret(c, w, to, from, senderKeyID, receiverKeyID);
            var chunks := Sealed(c, secret, to, from, senderKeyID, receiverKeyID, salt, nonce, text);
            DecryptText(c, w, me, keys, current, Incoming(to, from, toType, 0, VERSION_TWO, Delivered(chunks)))
              == Some(text)
  {
    hide Utf8Valid, Put32, Int32Of, MessageAAD, OwnKey, Crypto.Digest, Secret, SharedSecret;
    var secret := Secret(c, w, to, from, senderKeyID, receiverKeyID);
    var chunks := Sealed(c, secret, to, from, senderKeyID, receiverKeyID, salt, nonce, text);
    var message := Incoming(to, from, toType, 0, VERSION_TWO, Delivered(chunks));
    forall i | 0 <= i < 5 ensures AllBytes(message.chunks)[i] == chunks[i] {
      assert message.chunks[i] == DecodedBytes(chunks[i]);
    }
    Int32RoundTrip(senderKeyID);
    Int32RoundTrip(receiverKeyID);
    SameSecret(c, w, me, keys, current, message, senderKeyID, receiverKeyID);
  }

  lemma SameSecret(
      c: Crypto, w: World, me: Mid, keys: seq<DeviceKey>, current: i32, message: Incoming, senderKeyID: i32,
      receiverKeyID: i32)
    requires c.Lawful() && w.Owns(c, me, keys)
    requires message.to != [] && (message.toType == 0 ==> IsUser(message.to)) && message.e2eeVersion == VERSION_TWO
    requires (message.from, senderKeyID) in w.devices && |w.devices[(message.from, senderKeyID)]| == 32
    requires IsUser(message.to) ==>
               (message.to, receiverKeyID) in w.devices && |w.devices[(message.to, receiverKeyID)]| == 32
    requires !IsUser(message.to) ==>
               && (message.to, receiverKeyID) in w.groups
               && |w.groups[(message.to, receiverKeyID)].key| == 32
               && w.groups[(message.to, receiverKeyID)].version == 2
    requires if me == message.from
             then OwnKey(keys, current, senderKeyID).Some? && OwnKey(keys, current, senderKeyID).value.id == senderKeyID
             else IsUser(message.to) ==> me == message.to && OwnKey(keys, current, receiverKeyID).Some?
                                         && OwnKey(keys, current, receiverKeyID).value.id == receiverKeyID
    ensures SharedSecret(c, w, me, keys, current, message, senderKeyID, receiverKeyID)
         == Some((Secret(c, w, message.to, message.from, senderKeyID, receiverKeyID), 2))
  {
    VersionTwo(message);
    if me == message.from {
      OwnKeyListed(keys, current, senderKeyID);
    } else if IsUser(message.to) {
      OwnKeyListed(keys, current, receiverKeyID);
    }
  }

  lemma VersionTwo(message: Incoming)
    requires message.e2eeVersion == VERSION_TWO
    ensures VersionOf(message) == 2
  {
    assert VERSION_TWO[1..] == [];
    assert ParseDigits(VERSION_TWO, 0) == ParseDigits([], 2);
  }

  lemma OwnKeyListed(keys: seq<DeviceKey>, current: i32, id: i32)
    requires OwnKey(keys, current, id).Some?
    ensures OwnKey(keys, current, id).value in keys
  {
    var wanted := if id == 0 then current else id;
    if wanted != 0 {
      FoundKeyHasItsId(keys, wanted);
    } else {
      NewestIsFirstOfItsId(keys, None);
      FoundKeyHasItsId(keys, Newest(keys, None).value.id);
    }
  }
}
