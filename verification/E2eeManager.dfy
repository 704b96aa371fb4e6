/** The E2EE manager with its key caches. Replies of the key server are parameters; the ghost world
    says which keys exist, and an honest reply is one that agrees with it. */
module E2eeManager {
  import opened Options
  import opened Bytes
  import opened Thrift
  import opened E2ee

  const CACHE_TTL: int := 300_000
  const NEGOTIATION_TTL: int := 60_000

  datatype TimedKey = TimedKey(key: Octets, expires: int)
  datatype TimedGroup = TimedGroup(value: GroupKey, expires: int)
  datatype Envelope = Envelope(from: Mid, e2eeVersion: Octets, chunks: seq<Octets>, receiverKeyID: i32)
  datatype MemberKey = MemberKey(mid: Mid, id: i32, public: Octets)
  datatype WrappedKey = WrappedKey(mid: Mid, id: i32, encrypted: Octets)

  /** What registering a group key uploads: one wrapped key per named member, or an error. */
  function WrapForAll(
      c: Crypto, own: DeviceKey, members: seq<MemberKey>, groupPrivate: Octets): Option<seq<WrappedKey>>
  {
    if members == [] then Some([])
    else
      var rest := WrapForAll(c, own, members[1..], groupPrivate);
      var m := members[0];
      if m.mid == [] then rest
      else if m.id == 0 || |m.public| != 32 then None
      else
        match ShareFor(c, own, m.public, groupPrivate)
        case None => None
        case Some(encrypted) =>
          if rest.None? then None else Some([WrappedKey(m.mid, m.id, encrypted)] + rest.value)
  }

  function Named(members: seq<MemberKey>): seq<MemberKey> {
    if members == [] then []
    else if members[0].mid == [] then Named(members[1..])
    else [members[0]] + Named(members[1..])
  }

  predicate Usable(m: MemberKey) { m.mid == [] || (m.id != 0 && |m.public| == 32) }

  /** The upload exists iff every named member's key is usable. */
  lemma {:induction false} WrapsIffUsable(c: Crypto, own: DeviceKey, members: seq<MemberKey>, groupPrivate: Octets)
    requires |own.private| == 32
    ensures WrapForAll(c, own, members, groupPrivate).Some? <==> forall m | m in members :: Usable(m)
  {
    hide ShareFor;
    if members != [] {
      var first, rest := members[0], members[1..];
      ShareExists(c, own, first.public, groupPrivate);
      WrapsIffUsable(c, own, rest, groupPrivate);
      assert members == [first] + rest;
      assert (forall m | m in members :: Usable(m)) <==> Usable(first) && forall m | m in rest :: Usable(m);
    }
  }

  /** It lists exactly the named members, in order, each with its own share. */
  lemma {:induction false} WrapsTheNamed(c: Crypto, own: DeviceKey, members: seq<MemberKey>, groupPrivate: Octets)
    requires WrapForAll(c, own, members, groupPrivate).Some?
    ensures var uploaded, named := WrapForAll(c, own, members, groupPrivate).value, Named(members);
            |uploaded| == |named| && forall j | 0 <= j < |named| ::
              && uploaded[j].mid == named[j].mid && uploaded[j].id == named[j].id
              && Some(uploaded[j].encrypted) == ShareFor(c, own, named[j].public, groupPrivate)
  {
    hide ShareFor;
    if members != [] {
      WrapsTheNamed(c, own, members[1..], groupPrivate);
    }
  }

  lemma ShareExists(c: Crypto, own: DeviceKey, public: Octets, groupPrivate: Octets)
    requires |own.private| == 32
    ensures ShareFor(c, own, public, groupPrivate).Some? <==> |public| == 32
  {
  }

  /** The share the server hands a member for entry `e` of what `creator` uploaded. */
  function Handed(creator: Mid, own: DeviceKey, e: WrappedKey, groupKeyID: i32): GroupShare {
    GroupShare(creator, own.id, 1, groupKeyID, e.mid, e.id, e.encrypted, 2)
  }

  /** Every member the upload names gets the group key out of its own entry, with its own private
      key and nothing else. */
  lemma EveryNamedMemberUnwraps(
      c: Crypto, w: World, creator: Mid, own: DeviceKey, members: seq<MemberKey>, groupPrivate: Octets,
      groupKeyID: i32, j: nat, keys: seq<DeviceKey>, current: i32, memberKey: DeviceKey)
    requires c.Lawful() && w.Owns(c, creator, [own]) && |groupPrivate| == 32 && groupKeyID != 0
    requires WrapForAll(c, own, members, groupPrivate).Some? && j < |Named(members)|
    requires w.Owns(c, Named(members)[j].mid, keys) && OwnKey(keys, current, Named(members)[j].id) == Some(memberKey)
    requires |memberKey.private| == 32 && c.publicOf(memberKey.private) == Named(members)[j].public
    ensures var uploaded := WrapForAll(c, own, members, groupPrivate).value;
            && j < |uploaded| && uploaded[j].mid == Named(members)[j].mid
            && UnwrapShare(c, w, keys, current, Handed(creator, own, uploaded[j], groupKeyID))
               == Some(GroupKey(groupKeyID, groupPrivate, 2))
  {
    hide ShareFor, UnwrapShare, OwnKey, Crypto.Lawful, WrapForAll;
    assert own in [own];
    WrapsTheNamed(c, own, members, groupPrivate);
    var e := WrapForAll(c, own, members, groupPrivate).value[j];
    MemberUnwrapsShare(c, w, creator, own, e.mid, keys, current, memberKey, groupPrivate,
      Handed(creator, own, e, groupKeyID));
  }

  predicate IsDirect(message: Incoming) { message.toType == 0 || IsUser(message.to) }

  class Manager {
    const crypto: Crypto
    const me: Mid
    const keys: seq<DeviceKey>
    const current: i32
    var public: map<(Mid, i32, i32), TimedKey>
    var direct: map<Mid, TimedGroup>
    var group: map<Mid, TimedGroup>

    /** Every cached key is a key that exists, under the ID it is cached for. */
    ghost predicate Valid(w: World)
      reads this
    {
      && crypto.Lawful()
      && w.Owns(crypto, me, keys)
      && (forall k | k in public :: w.PublicKey(crypto, k.0, k.1) == Some(public[k].key))
      && (forall to | to in direct :: w.PublicKey(crypto, to, direct[to].value.id) == Some(direct[to].value.key))
      && (forall to | to in group :: w.HasGroup(to, group[to].value))
    }

    constructor (crypto: Crypto, me: Mid, keys: seq<DeviceKey>, current: i32, ghost w: World)
      requires crypto.Lawful() && w.Owns(crypto, me, keys)
      ensures Valid(w) && this.crypto == crypto && this.me == me && this.keys == keys && this.current == current
    {
      this.crypto, this.me, this.keys, this.current := crypto, me, keys, current;
      public, direct, group := map[], map[], map[];
    }

    method FindOwnKey(id: i32) returns (r: Option<DeviceKey>)
      ensures r == OwnKey(keys, current, id)
    {
      var keyID := if id == 0 then current else id;
      var selected: Option<DeviceKey> := None;
      for i := 0 to |keys|
        invariant keyID != 0 ==> FindKey(keys[i..], keyID) == FindKey(keys, keyID)
        invariant Newest(keys[i..], selected) == Newest(keys, None)
      {
        var key := keys[i];
        assert keys[i..][0] == key && keys[i..][1..] == keys[i + 1..];
        if key.id == keyID && keyID != 0 {
          return Some(key);
        }
        if selected.None? || key.id > selected.value.id {
          selected := Some(key);
        }
      }
      if keyID != 0 {
        return None;
      }
      return selected;
    }

    // ---- What the caches and the servers' replies determine

    ghost predicate PublicCached(mid: Mid, id: i32, version: i32, now: int)
      reads this
    {
      (mid, id, version) in public && now < public[(mid, id, version)].expires
    }

    ghost predicate GroupCached(to: Mid, now: int)
      reads this
    {
      to in group && now < group[to].expires
    }

    /** The peer key a sender uses: the cached agreement while it lasts, else the server's, where a
        missing version stands for 2. */
    ghost function AgreedKey(to: Mid, now: int, reply: Option<GroupKey>): Option<GroupKey>
      reads this
    {
      if to in direct && now < direct[to].expires then Some(direct[to].value)
      else if reply.None? || reply.value.id == 0 || |reply.value.key| != 32 then None
      else Some(reply.value.(version := if reply.value.version == 0 then 2 else reply.value.version))
    }

    /** What a share opens to, provided its creator's key can be had. */
    ghost function Opened(w: World, share: GroupShare, now: int, creatorReply: Option<Octets>): Option<GroupKey>
      reads this
    {
      var version := if share.creatorKeyVersion == 0 then 1 else share.creatorKeyVersion;
      if creatorReply.Some? || PublicCached(share.creator, share.creatorKeyID, version, now)
      then UnwrapShare(crypto, w, keys, current, share)
      else None
    }

    /** The key to send to a group with: the cached one while it lasts, else the latest share if it
        is ours and opens, else a newly registered key. */
    ghost function LatestKey(
        w: World, to: Mid, now: int, share: Option<GroupShare>, creatorReply: Option<Octets>,
        registered: Option<GroupKey>): Option<GroupKey>
      reads this
    {
      if GroupCached(to, now) then Some(group[to].value)
      else if share.None? then None
      else if share.value.receiver != [] && share.value.receiver != me then registered
      else if Opened(w, share.value, now, creatorReply).Some? then Opened(w, share.value, now, creatorReply)
      else registered
    }

    /** The key used for a message that names group key `id`. */
    ghost function NamedKey(
        w: World, to: Mid, id: i32, now: int, share: Option<GroupShare>, creatorReply: Option<Octets>,
        registered: Option<GroupKey>): Option<GroupKey>
      reads this
    {
      if GroupCached(to, now) && group[to].value.id == id then Some(group[to].value)
      else if share.None? then None
      else if Opened(w, share.value, now, creatorReply).Some? then Opened(w, share.value, now, creatorReply)
      else registered
    }

    /** A share that opens gives a key of this group. */
    ghost predicate Honest(w: World, to: Mid, share: GroupShare) {
      var key := UnwrapShare(crypto, w, keys, current, share);
      key.Some? ==> w.HasGroup(to, key.value)
    }

    /** What the servers said about group `to` is true. */
    ghost predicate Truthful(
        w: World, to: Mid, share: Option<GroupShare>, creatorReply: Option<Octets>, registered: Option<GroupKey>)
    {
      && (share.Some? ==> Honest(w, to, share.value))
      && (registered.Some? ==> w.HasGroup(to, registered.value))
      && (share.Some? && creatorReply.Some? ==>
            creatorReply == w.PublicKey(crypto, share.value.creator, share.value.creatorKeyID))
    }

    // ---- Operations

    method PublicKey(ghost w: World, mid: Mid, keyID: i32, version: i32, now: int, reply: Option<Octets>)
      returns (r: Option<Octets>)
      requires Valid(w) && (reply.Some? ==> reply == w.PublicKey(crypto, mid, keyID))
      modifies `public
      ensures Valid(w)
      ensures r == if reply.Some? || old(PublicCached(mid, keyID, version, now)) then w.PublicKey(crypto, mid, keyID)
                   else None
      ensures public == if r.None? || old(PublicCached(mid, keyID, version, now)) then old(public)
                        else old(public)[(mid, keyID, version) := TimedKey(r.value, now + 300_000)]
    {
      var cacheKey := (mid, keyID, version);
      if cacheKey in public && now < public[cacheKey].expires {
        return Some(public[cacheKey].key);
      }
      if reply.None? || |reply.value| != 32 {
        return None;
      }
      public := public[cacheKey := TimedKey(reply.value, now + CACHE_TTL)];
      return reply;
    }

    method Negotiate(ghost w: World, to: Mid, now: int, reply: Option<GroupKey>) returns (r: Option<GroupKey>)
      requires Valid(w) && (reply.Some? ==> w.PublicKey(crypto, to, reply.value.id) == Some(reply.value.key))
      modifies `direct
      ensures Valid(w)
      ensures r == old(AgreedKey(to, now, reply))
      ensures direct == if r.None? || (to in old(direct) && now < old(direct)[to].expires) then old(direct)
                        else old(direct)[to := TimedGroup(r.value, now + 60_000)]
      ensures r.Some? ==> w.PublicKey(crypto, to, r.value.id) == Some(r.value.key)
    {
      if to in direct && now < direct[to].expires {
        return Some(direct[to].value);
      }
      if reply.None? {
        return None;
      }
      var value := reply.value.(version := if reply.value.version == 0 then 2 else reply.value.version);
      if value.id == 0 || |value.key| != 32 {
        return None;
      }
      direct := direct[to := TimedGroup(value, now + NEGOTIATION_TTL)];
      return Some(value);
    }

    method UnwrapGroupKey(ghost w: World, share: GroupShare, now: int, creatorReply: Option<Octets>)
      returns (r: Option<GroupKey>)
      requires Valid(w)
      requires creatorReply.Some? ==> creatorReply == w.PublicKey(crypto, share.creator, share.creatorKeyID)
      modifies `public
      ensures Valid(w)
      ensures r == old(Opened(w, share, now, creatorReply))
      ensures r.Some? ==> r == UnwrapShare(crypto, w, keys, current, share)
    {
      hide UnwrapKey, OwnKey;
      var own := FindOwnKey(share.receiverKeyID);
      if own.None? {
        return None;
      }
      var version := if share.creatorKeyVersion == 0 then 1 else share.creatorKeyVersion;
      var creator := PublicKey(w, share.creator, share.creatorKeyID, version, now, creatorReply);
      if creator.None? {
        return None;
      }
      var shared := crypto.X25519(own.value.private, creator.value);
      if shared.None? {
        return None;
      }
      var key := UnwrapKey(crypto, shared.value, share.encrypted);
      if key.None? || share.groupKeyID == 0 || |key.value| != 32 {
        return None;
      }
      return Some(GroupKey(share.groupKeyID, key.value, if share.version == 0 then 2 else share.version));
    }

    /** The upload that registers a group key: every listed member gets its own wrapping. */
    method WrapMembers(own: DeviceKey, members: seq<MemberKey>, groupPrivate: Octets)
      returns (r: Option<seq<WrappedKey>>)
      ensures r == WrapForAll(crypto, own, members, groupPrivate)
    {
      hide ShareFor;
      var wrapped: seq<WrappedKey> := [];
      assert forall rest: seq<WrappedKey> :: [] + rest == rest;
      for i := 0 to |members|
        invariant var rest := WrapForAll(crypto, own, members[i..], groupPrivate);
          WrapForAll(crypto, own, members, groupPrivate) == if rest.None? then None else Some(wrapped + rest.value)
      {
        var m := members[i];
        assert members[i..][0] == m && members[i..][1..] == members[i + 1..];
        if m.mid != [] {
          if m.id == 0 || |m.public| != 32 {
            return None;
          }
          var encrypted := ShareFor(crypto, own, m.public, groupPrivate);
          if encrypted.None? {
            return None;
          }
          ghost var rest := WrapForAll(crypto, own, members[i + 1..], groupPrivate);
          assert rest.Some? ==> wrapped + ([WrappedKey(m.mid, m.id, encrypted.value)] + rest.value)
                                == wrapped + [WrappedKey(m.mid, m.id, encrypted.value)] + rest.value;
          wrapped := wrapped + [WrappedKey(m.mid, m.id, encrypted.value)];
        }
      }
      assert wrapped + [] == wrapped;
      return Some(wrapped);
    }

    /** The key to send to a group with; unless it was cached, it now is. */
    method LastGroupKey(
        ghost w: World, to: Mid, now: int, share: Option<GroupShare>, creatorReply: Option<Octets>,
        registered: Option<GroupKey>)
      returns (r: Option<GroupKey>)
      requires Valid(w) && Truthful(w, to, share, creatorReply, registered)
      modifies `public, `group
      ensures Valid(w)
      ensures r == old(LatestKey(w, to, now, share, creatorReply, registered))
      ensures r.Some? ==> w.HasGroup(to, r.value)
      ensures group == if r.None? || old(GroupCached(to, now)) then old(group)
                       else old(group)[to := TimedGroup(r.value, now + 300_000)]
    {
      hide UnwrapShare, Opened;
      if to in group && now < group[to].expires {
        return Some(group[to].value);
      }
      if share.None? {
        return None;
      }
      var value: Option<GroupKey> := None;
      if share.value.receiver == [] || share.value.receiver == me {
        value := UnwrapGroupKey(w, share.value, now, creatorReply);
      }
      if value.None? {
        value := registered;
      }
      if value.Some? {
        group := group[to := TimedGroup(value.value, now + CACHE_TTL)];
      }
      return value;
    }

    /** The key a message names; unless it was cached, it now is. */
    method GroupKeyByID(
        ghost w: World, to: Mid, id: i32, now: int, share: Option<GroupShare>, creatorReply: Option<Octets>,
        registered: Option<GroupKey>)
      returns (r: Option<GroupKey>)
      requires Valid(w) && Truthful(w, to, share, creatorReply, registered)
      modifies `public, `group
      ensures Valid(w)
      ensures r == old(NamedKey(w, to, id, now, share, creatorReply, registered))
      ensures r.Some? ==> w.HasGroup(to, r.value)
      ensures group == if r.None? || old(GroupCached(to, now) && group[to].value.id == id) then old(group)
                       else old(group)[to := TimedGroup(r.value, now + 300_000)]
    {
      hide UnwrapShare, Opened;
      if to in group && group[to].value.id == id && now < group[to].expires {
        return Some(group[to].value);
      }
      if share.None? {
        return None;
      }
      var value := UnwrapGroupKey(w, share.value, now, creatorReply);
      if value.None? {
        value := registered;
      }
      if value.Some? {
        group := group[to := TimedGroup(value.value, now + CACHE_TTL)];
      }
      return value;
    }

    /** The key a text to `to` is sealed for. */
    ghost function ReceiverKey(
        w: World, to: Mid, now: int, negotiated: Option<GroupKey>, share: Option<GroupShare>,
        creatorReply: Option<Octets>, registered: Option<GroupKey>): Option<GroupKey>
      reads this
    {
      if IsUser(to) then AgreedKey(to, now, negotiated)
      else LatestKey(w, to, now, share, creatorReply, registered)
    }

    /** Seals a text under the secret its readers will derive, and names in the chunks the keys they
        need to derive it. Nothing but a missing key or another message version prevents it. */
    method EncryptText(
        ghost w: World, to: Mid, text: Octets, salt: Octets, nonce: Octets, now: int,
        negotiated: Option<GroupKey>, share: Option<GroupShare>, creatorReply: Option<Octets>,
        registered: Option<GroupKey>)
      returns (r: Option<Envelope>)
      requires Valid(w)
      requires negotiated.Some? ==> w.PublicKey(crypto, to, negotiated.value.id) == Some(negotiated.value.key)
      requires Truthful(w, to, share, creatorReply, registered)
      modifies this
      ensures Valid(w)
      ensures var key := old(ReceiverKey(w, to, now, negotiated, share, creatorReply, registered));
        && (r.Some? <==> me != [] && OwnKey(keys, current, 0).Some? && key.Some? && key.value.version == 2)
        && (r.Some? ==> r.value.receiverKeyID == key.value.id)
      ensures r.Some? ==>
        var own := OwnKey(keys, current, 0);
        var e := r.value;
        && (me, own.value.id) in w.devices
        && (if IsUser(to) then (to, e.receiverKeyID) in w.devices
            else (to, e.receiverKeyID) in w.groups && w.HasGroup(to, w.groups[(to, e.receiverKeyID)])
                 && w.groups[(to, e.receiverKeyID)].id == e.receiverKeyID
                 && w.groups[(to, e.receiverKeyID)].version == 2)
        && e.from == me && e.e2eeVersion == VERSION_TWO
        && e.chunks == Sealed(crypto, Secret(crypto, w, to, me, own.value.id, e.receiverKeyID), to, me,
                              own.value.id, e.receiverKeyID, salt, nonce, text)
    {
      hide OwnKey, UnwrapShare, Sealed, Utf8Valid;
      if me == [] {
        return None;
      }
      var own := FindOwnKey(0);
      if own.None? {
        return None;
      }
      OwnKeyListed(keys, current, 0);
      var receiver: Option<GroupKey>;
      var secret: Option<Octets>;
      if IsUser(to) {
        receiver := Negotiate(w, to, now, negotiated);
        if receiver.None? {
          return None;
        }
        secret := crypto.X25519(own.value.private, receiver.value.key);
      } else {
        receiver := LastGroupKey(w, to, now, share, creatorReply, registered);
        if receiver.None? {
          return None;
        }
        secret := crypto.X25519(receiver.value.key, own.value.public);
      }
      if secret.None? || receiver.value.version != 2 {
        return None;
      }
      var id := receiver.value.id;
      var chunks := Sealed(crypto, secret.value, to, me, own.value.id, id, salt, nonce, text);
      return Some(Envelope(me, VERSION_TWO, chunks, id));
    }

    /** Opens a message exactly as the cache-free function of module E2ee does, whatever the caches
        hold; it can fail where that one succeeds only if a key cannot be had. */
    method ReadText(
        ghost w: World, message: Incoming, now: int, peerReply: Option<Octets>, share: Option<GroupShare>,
        creatorReply: Option<Octets>, registered: Option<GroupKey>)
      returns (r: Option<Octets>)
      requires Valid(w) && Truthful(w, message.to, share, creatorReply, registered)
      requires peerReply.Some? && |message.chunks| >= 5 ==>
        var chunks := AllBytes(message.chunks);
        peerReply == (if IsDirect(message) && message.from == me
                      then w.PublicKey(crypto, message.to, Int32Of(chunks[4]))
                      else w.PublicKey(crypto, message.from, Int32Of(chunks[3])))
      modifies this
      ensures Valid(w)
      ensures r.Some? ==> r == DecryptText(crypto, w, me, keys, current, message)
      ensures IsDirect(message) && peerReply.Some? ==> r == DecryptText(crypto, w, me, keys, current, message)
      ensures !IsDirect(message) && (peerReply.Some? || message.from == me) && |message.chunks| >= 5 ==>
        var id := Int32Of(AllBytes(message.chunks)[4]);
        var key := old(NamedKey(w, message.to, id, now, share, creatorReply, registered));
        key.Some? && key.value.id == id ==> r == DecryptText(crypto, w, me, keys, current, message)
    {
      hide OwnKey, UnwrapShare, Int32Of, OpenPayload, AllBytes, VersionOf, IsUser, NamedKey, Truthful;
      if message.to == [] || message.from == [] || |message.chunks| < 5 {
        return None;
      }
      var chunks := AllBytes(message.chunks);
      if |chunks[3]| != 4 || |chunks[4]| != 4 {
        return None;
      }
      var senderKeyID, receiverKeyID := Int32Of(chunks[3]), Int32Of(chunks[4]);
      var version := VersionOf(message);
      var shared: Option<Octets>;
      if IsDirect(message) {
        var isSelf := message.from == me;
        var own := FindOwnKey(if isSelf then senderKeyID else receiverKeyID);
        if own.None? {
          return None;
        }
        var peer: Option<Octets>;
        if isSelf {
          peer := PublicKey(w, message.to, receiverKeyID, 1, now, peerReply);
        } else {
          peer := PublicKey(w, message.from, senderKeyID, 1, now, peerReply);
        }
        if peer.None? {
          return None;
        }
        shared := crypto.X25519(own.value.private, peer.value);
      } else {
        var key := GroupKeyByID(w, message.to, receiverKeyID, now, share, creatorReply, registered);
        if key.None? || key.value.id != receiverKeyID {
          return None;
        }
        var sender: Option<Octets>;
        if message.from == me {
          var own := FindOwnKey(senderKeyID);
          sender := if own.Some? then Some(own.value.public) else None;
        } else {
          sender := PublicKey(w, message.from, senderKeyID, 1, now, peerReply);
        }
        if sender.None? {
          return None;
        }
        shared := crypto.X25519(key.value.key, sender.value);
        version := key.value.version;
      }
      if shared.None? {
        return None;
      }
      assert SharedSecret(crypto, w, me, keys, current, message, senderKeyID, receiverKeyID)
        == Some((shared.value, version));
      var plaintext := OpenPayload(crypto, message, chunks, shared.value, version, senderKeyID, receiverKeyID);
      if plaintext.None? {
        return None;
      }
      return crypto.textOf(plaintext.value);
    }
  }

  /** A device key under every ID the world has for the account. */
  ghost predicate Complete(w: World, m: Manager) {
    forall id: i32 | (m.me, id) in w.devices ::
      OwnKey(m.keys, m.current, id).Some? && OwnKey(m.keys, m.current, id).value.id == id
  }

  /** A direct message from one account to another, over the wire and back: the reader sees the
      text. The reader need only still hold its own keys. */
  method SendAndReadDirect(
      ghost w: World, sender: Manager, reader: Manager, text: Octets, salt: Octets, nonce: Octets, now: int,
      negotiated: Option<GroupKey>, senderPublic: Octets)
    returns (sent: Option<Envelope>, read: Option<Octets>)
    requires sender != reader && sender.crypto == reader.crypto && sender.me != reader.me
    requires sender.Valid(w) && reader.Valid(w) && Utf8Valid(text)
    requires IsUser(reader.me) && Complete(w, reader)
    requires negotiated.Some? ==>
      w.PublicKey(sender.crypto, reader.me, negotiated.value.id) == Some(negotiated.value.key)
    requires OwnKey(sender.keys, sender.current, 0).Some? ==>
      w.PublicKey(sender.crypto, sender.me, OwnKey(sender.keys, sender.current, 0).value.id) == Some(senderPublic)
    modifies sender, reader
    ensures sent.Some? ==> read == Some(text)
  {
    hide OwnKey, Utf8Valid, Sealed, Secret, DecryptText, Delivered, UnwrapShare;
    sent := sender.EncryptText(w, reader.me, text, salt, nonce, now, negotiated, None, None, None);
    read := None;
    if sent.Some? {
      var own := sender.FindOwnKey(0);
      assert reader.crypto.Lawful() && w.Owns(reader.crypto, reader.me, reader.keys);
      assert w.Owns(sender.crypto, sender.me, sender.keys);
      hide Manager.Valid;
      ghost var id, peerID := own.value.id, sent.value.receiverKeyID;
      var message := Incoming(reader.me, sender.me, 0, 0, VERSION_TWO, Delivered(sent.value.chunks));
      ghost var secret := Secret(reader.crypto, w, reader.me, sender.me, id, peerID);
      ChunkIDs(reader.crypto, secret, reader.me, sender.me, id, peerID, salt, nonce, text);
      OwnKeyListed(sender.keys, sender.current, 0);
      OwnKeyListed(reader.keys, reader.current, peerID);
      read := reader.ReadText(w, message, now, Some(senderPublic), None, None, None);
      DecryptRecoversText(reader.crypto, w, reader.me, reader.keys, reader.current, reader.me, sender.me, 0, id, peerID,
        salt, nonce, text);
    }
  }

  /** The sender reads its own direct message, on this or another of its devices: it sees the text
      whenever it still holds the key it sent with and the server gives the peer's key again. */
  method SendAndReadOwn(
      ghost w: World, sender: Manager, reader: Manager, to: Mid, text: Octets, salt: Octets, nonce: Octets, now: int,
      negotiated: Option<GroupKey>, peers: map<i32, Octets>)
    returns (sent: Option<Envelope>, read: Option<Octets>)
    requires sender.crypto == reader.crypto && sender.me == reader.me
    requires sender.Valid(w) && reader.Valid(w) && Utf8Valid(text)
    requires IsUser(to) && Complete(w, reader)
    requires negotiated.Some? ==> w.PublicKey(sender.crypto, to, negotiated.value.id) == Some(negotiated.value.key)
    requires forall id: i32 | (to, id) in w.devices ::
      id in peers && |w.devices[(to, id)]| == 32 && w.PublicKey(sender.crypto, to, id) == Some(peers[id])
    modifies sender, reader
    ensures sent.Some? ==> read == Some(text)
  {
    hide OwnKey, Utf8Valid, Sealed, Secret, DecryptText, Delivered, UnwrapShare;
    sent := sender.EncryptText(w, to, text, salt, nonce, now, negotiated, None, None, None);
    read := None;
    if sent.Some? {
      var own := sender.FindOwnKey(0);
      assert reader.crypto.Lawful() && w.Owns(reader.crypto, reader.me, reader.keys);
      assert w.Owns(sender.crypto, sender.me, sender.keys);
      hide Manager.Valid;
      var peerID := sent.value.receiverKeyID;
      ghost var id := own.value.id;
      var message := Incoming(to, sender.me, 0, 0, VERSION_TWO, Delivered(sent.value.chunks));
      ghost var secret := Secret(reader.crypto, w, to, sender.me, id, peerID);
      ChunkIDs(reader.crypto, secret, to, sender.me, id, peerID, salt, nonce, text);
      OwnKeyListed(sender.keys, sender.current, 0);
      read := reader.ReadText(w, message, now, Some(peers[peerID]), None, None, None);
      DecryptRecoversText(reader.crypto, w, reader.me, reader.keys, reader.current, to, sender.me, 0, id, peerID,
        salt, nonce, text);
    }
  }

  /** The group shares the server holds for one member, by group key ID, and the public keys of
      their creators. */
  datatype Shares = Shares(shares: map<i32, GroupShare>, creators: map<i32, Octets>) {
    /** There is a share of every key of the group, and the member opens each. */
    ghost predicate OpenTo(w: World, m: Manager, to: Mid) {
      forall id: i32 | (to, id) in w.groups ::
        && id in shares && id in creators
        && w.PublicKey(m.crypto, shares[id].creator, shares[id].creatorKeyID) == Some(creators[id])
        && UnwrapShare(m.crypto, w, m.keys, m.current, shares[id]) == Some(w.groups[(to, id)])
    }
  }

  /** Whoever holds the share of a group's key finds that key when a message names it. */
  lemma HeldKeyFound(w: World, m: Manager, to: Mid, id: i32, now: int, held: Shares)
    requires m.Valid(w) && held.OpenTo(w, m, to) && (to, id) in w.groups && w.groups[(to, id)].id == id
    requires w.HasGroup(to, w.groups[(to, id)])
    ensures id in held.shares && id in held.creators
    ensures m.Truthful(w, to, Some(held.shares[id]), Some(held.creators[id]), None)
    ensures var key := m.NamedKey(w, to, id, now, Some(held.shares[id]), Some(held.creators[id]), None);
            key.Some? && key.value.id == id
  {
    hide UnwrapShare, World.PublicKey;
  }

  /** A group message over the wire and back, read by another member or by its sender on this or
      another device: whoever opens the shares of the group's keys sees the text. What the sender's
      and the reader's caches hold, and which group key the sender settled on, does not matter. */
  method SendAndReadGroup(
      ghost w: World, sender: Manager, reader: Manager, to: Mid, toType: i32, text: Octets, salt: Octets,
      nonce: Octets, now: int, latest: Option<GroupShare>, creatorReply: Option<Octets>,
      registered: Option<GroupKey>, held: Shares, senderPublic: Octets)
    returns (sent: Option<Envelope>, read: Option<Octets>)
    requires sender.crypto == reader.crypto && sender.Valid(w) && reader.Valid(w) && Utf8Valid(text)
    requires to != [] && !IsUser(to) && toType != 0
    requires sender.Truthful(w, to, latest, creatorReply, registered) && held.OpenTo(w, reader, to)
    requires sender.me == reader.me ==> Complete(w, reader)
    requires OwnKey(sender.keys, sender.current, 0).Some? ==>
      w.PublicKey(sender.crypto, sender.me, OwnKey(sender.keys, sender.current, 0).value.id) == Some(senderPublic)
    modifies sender, reader
    ensures sent.Some? <==>
      var key := old(sender.LatestKey(w, to, now, latest, creatorReply, registered));
      sender.me != [] && OwnKey(sender.keys, sender.current, 0).Some? && key.Some? && key.value.version == 2
    ensures sent.Some? ==> read == Some(text)
  {
    hide OwnKey, Utf8Valid, Sealed, Secret, DecryptText, Delivered, UnwrapShare;
    sent := sender.EncryptText(w, to, text, salt, nonce, now, None, latest, creatorReply, registered);
    read := None;
    if sent.Some? {
      var own := sender.FindOwnKey(0);
      assert reader.crypto.Lawful() && w.Owns(reader.crypto, reader.me, reader.keys);
      assert w.Owns(sender.crypto, sender.me, sender.keys);
      var keyID := sent.value.receiverKeyID;
      ghost var id := own.value.id;
      var message := Incoming(to, sender.me, toType, 0, VERSION_TWO, Delivered(sent.value.chunks));
      ghost var secret := Secret(reader.crypto, w, to, sender.me, id, keyID);
      HeldKeyFound(w, reader, to, keyID, now, held);
      hide Manager.Valid, Manager.Truthful, Manager.NamedKey, Shares.OpenTo, Manager.ReceiverKey, Manager.LatestKey;
      ChunkIDs(reader.crypto, secret, to, sender.me, id, keyID, salt, nonce, text);
      OwnKeyListed(sender.keys, sender.current, 0);
      read := reader.ReadText(
        w, message, now, Some(senderPublic), Some(held.shares[keyID]), Some(held.creators[keyID]), None);
      DecryptRecoversText(reader.crypto, w, reader.me, reader.keys, reader.current, to, sender.me, toType, id, keyID,
        salt, nonce, text);
    }
  }

  /** The key IDs survive delivery. */
  lemma ChunkIDs(
      c: Crypto, secret: Octets, to: Mid, from: Mid, senderKeyID: i32, receiverKeyID: i32, salt: Octets, nonce: Octets,
      text: Octets)
    ensures var sealed := Sealed(c, secret, to, from, senderKeyID, receiverKeyID, salt, nonce, text);
            var chunks := AllBytes(Delivered(sealed));
            |chunks| == 5 && Int32Of(chunks[3]) == senderKeyID && Int32Of(chunks[4]) == receiverKeyID
  {
    hide Utf8Valid, Int32Of, Put32;
    Int32RoundTrip(senderKeyID);
    Int32RoundTrip(receiverKeyID);
  }
}
