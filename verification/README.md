# line-go, modelled and proved

This project models the parts of line-go that decide something, and proves what they promise.

* **The wire.** `Options`, `Bytes`, `Thrift`, `Compact`, `CompactRoundTrip`, `CompactCursor`, `BoolContainers`,
  `BoolStructs`, `BoolMaps`, `StructMaps`, `MapOrder`, `BinaryThrift`, `BinaryRoundTrip`, `BinaryCursor` and
  `CodecAgreement` hold the two Thrift codecs: the encoding and parsing functions, the writers and readers as mutable
  cursors proved equal to them, the round trips and the agreement of the codecs. `Utf8` and `MapKeys` say what arrives
  as text and which keys a reader does not survive, `Replies` how the messages of a server arrive and are classified,
  and `KnownBytes` and `KnownCalls` what the bytes are. The wire formats are those of the
  Apache Thrift compact protocol specification (sections "Integer encoding", "Struct", "List and Set" and "Map") and of
  the Apache Thrift binary protocol specification.
* **The envelope and the encryption.** `Cbc` (PKCS#7, section 6.3 of RFC 5652; CBC, section 6.2 of NIST SP 800-38A),
  `XxHash` (XXH32), `Legy` (headers, padding, chaining, MAC), `E2ee` (which key seals a text and why the reader finds
  it again), `E2eeCases` (what cannot be opened) and `E2eeManager` (the same with the caches).
  `XxHashVectors` anchors the hash at published values.
* **The guard.** `Lists`, `GuardState`, `GuardStore` and `GuardRoles` are the role store and its invariant;
  `GuardRules` and `Engine` the event handlers, with a ghost trace of every request sent. `GuardAuthority` and
  `GuardVerdicts` say what the commands and handlers do in terms of the lists and settings alone. `Filters`, `Health`,
  `HealthOrder` and `KickAll` (with `Quotients`) are the time filters, the bot ranking and the batch scheduler; `Fleet`,
  `FleetTargets` and `FleetPasses` the recovery of missing bots as a state machine over interleaved goroutines.
* **The session.** `Session` and `SessionOutcomes` are token refresh and the retried call, over every interleaving of
  their atomic steps; `Dispatch` is revision keeping, interleaved likewise, and the priority queues; `Mentions` the UTF-16 spans of
  mentions.

Objects whose methods update fields are classes (`Writer`, `Reader`, `Manager`, `Store`, `Guard`, `HealthPool`,
`DuplicateFilter`, `FloodFilter`, `Queues`, `Client`), each method proved against a function of the old state; the
laws are then proved of those functions. Protocols between goroutines are step functions over a state, and their
theorems quantify over all admissible step sequences. I/O, clocks, randomness and remote answers are parameters.

What the code does differently from what one might expect, each with its proof:

* The compact writer emits a byte for every Bool in a container, and the reader consumes none. A struct ending in a
  non-empty list or set of Bools therefore comes back only if the left-over bytes happen to change nothing
  (`BoolContainers.BoolListComesBackIff`); with lists of even length anywhere in it, it is read as
  `BoolStructs.StructReadAs` says. No non-empty map with Bool keys or values comes back as the only field of a struct
  (`BoolMaps.BoolMapNeverComesBack`), except for some single structs under the key true: none that is written without
  waste (`StructMaps.TidyStructNeverComesBack`), but some others (`BoolMaps.StructUnderTrue`,
  `StructMaps.StructEchoes`).
* The binary codec keeps 32 bits of the sequence (`BinaryRoundTrip.CallRoundTrip`), and byte strings and containers
  only within its limits (`BytesRoundTripIffWithinLimit`, `ListRoundTripIffWithinLimit`, `MapRoundTripIffWithinLimit`).
* A field of kind Bool is written as true unless its value is the boolean false, whatever else it holds
  (`Thrift.Normal`); strings and byte slices come back by UTF-8 validity rather than by declared kind.
* A revision stored by `BootstrapLatestRevision` can be overwritten by a request already in flight
  (`Dispatch.BootstrapCanBeLost`), even by a reply that delivers nothing (`Dispatch.BootstrapCanBeLostToNothing`).
  Runs without full syncs keep the revision from falling exactly when `Dispatch.MonotoneIffBootstrapsOutlive` says.
* A GAdmin that is also a bot would be ejected for inviting a bot; only the store invariant rules such an account out
  (`GuardRules.InviterNeedsInvariant`).
* A request for recovery that arrives after the last check of the one at work is forgotten
  (`FleetPasses.TooLateToBeHeard`).
* Naming a superior in a blacklist or GAdmin command may succeed and change nothing, because normalising takes the name
  off again (`GuardAuthority.AddBlacklistChanges`, `GuardAuthority.AddGAdminChanges`).
* A failed save leaves the change in memory (every method of `GuardStore.Store`), and a failed save after a sync loses
  the batch while keeping its revision (`Dispatch.Client.SyncOnce`).
* `SetProtection` with an unknown scope reports an error yet leaves a protection record behind.

## Model

| member | source | states |
|---|---|---|
| CompactRoundTrip.CallRoundTrip | protocol/compact.go:75-115 | for every name, 64-bit sequence and sendable field list, and whatever bytes follow, decoding the encoded call gives the name, type 1, the sequence and the last-wins normal form of the fields, and stops exactly at the end of the encoding; the entries of each map stand in any order |
| CompactRoundTrip.HeaderRoundTrip | protocol/compact.go:75-104 | protocol ID, version, message type, sequence and name survive |
| CompactRoundTrip.VarintRoundTrip | protocol/compact.go:124-136 | the ten-byte reader recovers every 64-bit number from its base-128 form, at any position of a longer input |
| CompactRoundTrip.VarintFrom | protocol/compact.go:346-359 | mid-number, the reader's accumulator plus what is left to read is the number written |
| CompactRoundTrip.SignedRoundTrip | protocol/compact.go:138-138 | zigzag is undone for every signed 64-bit integer, including the most negative |
| CompactRoundTrip.BytesRoundTrip | protocol/compact.go:140-143 | length-prefixed bytes come back, using exactly their encoding |
| CompactRoundTrip.FieldHeaderRoundTrip | protocol/compact.go:145-175 | short or long header, the reader recovers type and ID relative to the previous ID, also where the 16-bit difference wraps |
| CompactRoundTrip.FieldsRoundTrip | protocol/compact.go:380-407 | a struct decodes to the map its field list denotes, later duplicates winning, for IDs in any order and from any previous ID |
| CompactRoundTrip.FieldRoundTrip | protocol/compact.go:145-175 | one field, Bools in the header nibble included |
| CompactRoundTrip.ValueRoundTrip | protocol/compact.go:177-276 | every value of a kind other than Bool decodes to its normal form: integers widened, bytes classified by UTF-8 validity |
| CompactRoundTrip.ListHeaderRoundTrip | protocol/compact.go:232-241 | element type and size come back from the short (up to 14) and the long header |
| CompactRoundTrip.ListRoundTrip | protocol/compact.go:227-246 | lists and sets of non-Bool elements come back element by element |
| CompactRoundTrip.ItemsRoundTrip | protocol/compact.go:448-456 | the element loop recovers what the writer's loop wrote, after any elements already read |
| CompactRoundTrip.MapHeaderRoundTrip | protocol/compact.go:252-262 | size and the two type nibbles come back, and an empty map is the single byte 0 |
| CompactRoundTrip.MapRoundTrip | protocol/compact.go:457-481 | maps come back as the map their entries denote in the order they were visited |
| CompactRoundTrip.EntriesRoundTrip | protocol/compact.go:470-480 | the entry loop, from any entries already stored |
| CompactRoundTrip.DoubleRoundTrip | protocol/compact.go:201-208 | the 64 bits of a double survive in little-endian order |
| MapOrder.OrderIrrelevant | protocol/compact.go:263-270 | however the maps inside a value are reordered, at every depth (maps in structs in maps, in lists, in fields), its normal form is the same, provided entries whose keys fall together carry the same item |
| MapOrder.EntryFound | protocol/compact.go:263-270 | every entry's item is found under the entry's normalised key |
| MapOrder.OrderIrrelevantIffConsistent | protocol/compact.go:263-270 | of one map, all orders of the entries give the same normal form if and only if entries with the same normalised key have the same normalised item |
| MapOrder.CompactCallsIgnoreOrder | protocol/compact.go:247-271 | two encodings of one call that differ in the order its maps were visited, at any depth, decode to the same message |
| MapOrder.BinaryCallsIgnoreOrder | protocol/binary.go:178-202 | the same for the binary codec |
| BoolContainers.BoolListRoundTripsIffEmpty | protocol/compact.go:179-188 | as the only field of a struct a list or set of Bools comes back if and only if it is empty |
| BoolContainers.BoolListComesBackIff | protocol/compact.go:179-188 | after any sendable fields and among any surrounding bytes, a struct ending in a list or set of Bools is read back as sent, to its end, if and only if the list is empty, or even in length and all true, its own ID not -1, and the fields before it leave field -1 true: each pair of element bytes is read as one more true field -1 |
| BoolContainers.TwoTruesComeBack | protocol/compact.go:179-188 | a two-element list that does come back |
| BoolContainers.LeftoverRead | protocol/compact.go:380-407 | what the reader makes of the element bytes left behind: pairs set field -1 or 1, and an odd one out makes it fail or read past the end |
| BoolContainers.BoolsReadAsTrue | protocol/compact.go:409-414 | every Bool element is read as true, whatever was sent |
| BoolStructs.StructReadAs | protocol/compact.go:380-407 | any number of lists and sets of Bools of even length anywhere among sendable fields: the struct is read to its end, and as what is given exactly, the element bytes as boolean fields, and fields after short headers under IDs counted from those |
| BoolStructs.StructComesBackIff | protocol/compact.go:145-188 | so it comes back if and only if reading it that way changes nothing |
| BoolStructs.InStepKeepsIDs | protocol/compact.go:145-175 | where no short header follows a non-empty list, all other fields keep their IDs |
| BoolStructs.InStepComesBackIff | protocol/compact.go:145-188 | and the struct comes back if and only if neither the trues nor the fields made of element bytes change the map |
| BoolStructs.NextFieldMoves | protocol/compact.go:145-175 | a short header does: after two trues under 5, the field 6 is read as field 0 |
| BoolMaps.BoolMapNeverComesBack | protocol/compact.go:247-271 | no non-empty map with Bool keys or values comes back as the only field of a struct, for sendable keys and values and distinct keys, unless it is a single struct under a Bool key |
| BoolMaps.BoolValuesFail | protocol/compact.go:247-271 | the case of Bool values under any scalar keys: what is left to read cannot hold all those keys a second time |
| BoolMaps.TwoBoolKeysFail | protocol/compact.go:247-271 | the case of two Bool keys: a reader that takes every Bool key for true never has both |
| BoolMaps.BoolKeyScalarFails | protocol/compact.go:247-271 | the case of one Bool key over a scalar |
| BoolMaps.BoolKeySmallValueFails | protocol/compact.go:247-271 | the case of one Bool key over a Bool or an empty container |
| BoolMaps.StructUnderBool | protocol/compact.go:457-481 | a single struct under a Bool key comes back if the key is true and the struct, read from one byte early, is the same and ends where it ends; and otherwise only if the whole map is read again from a later place |
| BoolMaps.StructUnderTrue | protocol/compact.go:457-481 | that does happen: a struct under true that comes back |
| BoolMaps.EmptyStructUnderTrue | protocol/compact.go:457-481 | and that it need not: the empty struct under true does not |
| StructMaps.FrugalStructComesBackIff | protocol/compact.go:457-481 | a single struct under a Bool key that wastes fewer than three bytes comes back if and only if the key is true and the struct reads the same, to the same end, from the key's byte on |
| StructMaps.TidyStructNeverComesBack | protocol/compact.go:145-175 | and one that wastes nothing never does: IDs rising by at most 15, values of any depth without Bools in containers |
| StructMaps.TidyWastesNothing | protocol/compact.go:145-276 | such structs are written in the fewest bytes they can be read from |
| StructMaps.ValueTakes | protocol/compact.go:409-487 | however a value was written, reading it takes at least the bytes it needs, at every depth |
| StructMaps.GoingBackTakes | protocol/compact.go:380-407 | and one more if a field has a lower ID than the one read last, for short headers only lead upwards |
| StructMaps.StructEchoes | protocol/compact.go:457-481 | a wasteful struct that comes back although it does not read the same: an overwritten field holds the map once more |
| BoolMaps.KeysCost | protocol/compact.go:457-481 | whatever bytes a set of distinct scalar keys is read from, at least so many of them are last bytes of varints or fixed-width bytes as the keys cost |
| BoolContainers.BoolsReadNothing | protocol/compact.go:409-414 | reading any number of Bool elements succeeds without moving the cursor |
| Utf8.ValidIffText | protocol/compact.go:428-434 | bytes pass for text if and only if they are the UTF-8 encoding (section 3 of RFC 3629) of some sequence of Unicode scalar values |
| Utf8.FirstScalarEncoded | protocol/compact.go:428-434 | what stands at the front of such bytes is the encoding of one scalar value, and of no surrogate |
| Utf8.CompactBytesArrive | protocol/compact.go:428-434 | over the compact protocol a byte string arrives as text if it is such an encoding, and as raw bytes otherwise |
| Utf8.BinaryBytesArrive | protocol/binary.go:340-347 | and so over the binary protocol |
| MapKeys.CompactEntryReads | protocol/compact.go:457-481 | a map of one entry arrives with that entry, or makes the reader panic if and only if the key is a list, a map, a struct, or bytes that are no UTF-8 text |
| MapKeys.BinaryEntryReads | protocol/binary.go:362-386 | the same over the binary protocol |
| KnownCalls.CompactCall | protocol/compact.go:75-84 | the bytes of the call `sync` with number 7 and the fields `chat`, 42 and true, as the protocol fixes them |
| KnownCalls.CompactBool | protocol/compact.go:145-176 | a Bool right after its predecessor is the byte 11 or 12 |
| KnownCalls.CompactByte | protocol/compact.go:188-192 | the byte -1 |
| KnownCalls.CompactIntegers | protocol/compact.go:193-200 | -2, 300 and -300 in three widths |
| KnownCalls.CompactDouble | protocol/compact.go:201-208 | 1.5, its lowest byte first |
| KnownCalls.CompactTexts | protocol/compact.go:209-220 | a text and a byte string |
| KnownCalls.CompactList | protocol/compact.go:227-246 | a list of two numbers |
| KnownCalls.CompactSet | protocol/compact.go:227-246 | a set of one byte |
| KnownCalls.CompactMap | protocol/compact.go:247-271 | a map from a number to a text |
| KnownCalls.CompactStruct | protocol/compact.go:221-226 | a struct with one field |
| KnownCalls.CompactFarFields | protocol/compact.go:145-175 | fields far above or below their predecessor name their ID |
| KnownCalls.BinaryCallHeader | protocol/binary.go:18-34 | the header of a binary call |
| KnownCalls.BinaryNumbers | protocol/binary.go:62-78 | a flag, the byte -1, -2 and 300 over the binary protocol |
| KnownCalls.BinaryLongNumbers | protocol/binary.go:74-78 | -300 in eight bytes and 1.5 |
| KnownCalls.BinaryTexts | protocol/binary.go:80-84 | a text and a byte string behind their lengths |
| KnownCalls.BinaryContainers | protocol/binary.go:160-202 | a list, a set, a map and a struct |
| KnownBytes.VarintGroups | protocol/compact.go:124-136 | every number in groups of seven bits, lowest first, a high bit on all but the last, and none too many |
| KnownBytes.Put16Bytes | protocol/binary.go:62-66 | two bytes of two's complement, the higher first |
| KnownBytes.Put32Bytes | protocol/binary.go:68-72 | four bytes likewise |
| KnownBytes.Put64Bytes | protocol/binary.go:74-78 | eight bytes likewise |
| KnownBytes.LittleIsBigReversed | protocol/compact.go:201-208 | little-endian is the same bytes from the other end |
| Replies.CompactReplyArrives | protocol/compact.go:86-115 | a compact message of any type arrives with its type, name, number and fields |
| Replies.CompactRefuses | protocol/compact.go:92-101 | anything that does not begin with the protocol's number and version 1 is refused |
| Replies.BinaryReplyArrives | protocol/binary.go:36-58 | a binary message of any type likewise, its number kept to 32 bits; one byte of its header is not looked at |
| Replies.BinaryRefuses | protocol/binary.go:36-44 | anything that does not begin with 80 01 is refused |
| Replies.LastFieldStands | protocol/compact.go:380-407 | of several fields with one ID the last one stands |
| Replies.ResultsAndNothing | service/service.go:113-131 | a reply is a result if and only if a field has ID 0, an error if and only if none has and one has ID 1, and empty if and only if it has no fields |
| Replies.ExpiryRecognised | service/service.go:117-141 | an error asks for a refresh if and only if its code is 119, in whatever width the server declares it |
| CompactCursor.EncodeCallBytes | protocol/compact.go:75-84 | the appending writer produces exactly the specified encoding, or fails exactly when there is none |
| CompactCursor.Writer.Varint | protocol/compact.go:124-136 | the loop appends the base-128 form |
| CompactCursor.Writer.StructValue | protocol/compact.go:145-175 | appends the encoding of the field list, tracking the previous ID, or reports an unsupported value |
| CompactCursor.Writer.FieldValue | protocol/compact.go:145-175 | header, then the value unless the kind is Bool |
| CompactCursor.Writer.Value | protocol/compact.go:177-276 | the branch for each kind, and failure for a value of another Go type |
| CompactCursor.Writer.ListValue | protocol/compact.go:227-246 | header and elements, each written without a spec of its own |
| CompactCursor.Writer.MapValue | protocol/compact.go:247-271 | the entries in the order the range loop visits them |
| CompactCursor.DecodeMessage | protocol/compact.go:86-115 | on every byte string the reader ends in success, an error or a panic exactly where the parsing function does, never reading outside the input |
| CompactCursor.DecodeStruct | protocol/compact.go:117-122 | the same for a bare struct |
| CompactCursor.Reader.Take | protocol/compact.go:329-336 | returns the next bytes or fails without moving |
| CompactCursor.Reader.Varint | protocol/compact.go:346-359 | at most ten bytes, bits above the 64th dropped |
| CompactCursor.Reader.StructValue | protocol/compact.go:380-407 | the field loop computes the specified map and cursor, and the cursor never moves back or past the end |
| CompactCursor.Reader.Value | protocol/compact.go:409-487 | the branch for each wire type; terminates on remaining bytes, then remaining elements |
| CompactCursor.Reader.ListValue | protocol/compact.go:435-456 | the element loop, including zero-width Bool elements and the panic on a negative capacity |
| CompactCursor.Reader.MapValue | protocol/compact.go:457-481 | the entry loop, and the panic on a key that Go cannot hash |
| BinaryRoundTrip.CallRoundTrip | protocol/binary.go:25-58 | every sendable call decodes to its name, type 1, the low 32 bits of its sequence and the normal form of its fields, consuming exactly its encoding whatever follows |
| BinaryRoundTrip.HeaderRoundTrip | protocol/binary.go:25-58 | version word, name and truncated sequence |
| BinaryRoundTrip.BytesRoundTripIffWithinLimit | protocol/binary.go:282-291 | a byte string comes back if and only if it has at most 64 MiB, however long it is |
| BinaryRoundTrip.ListRoundTripIffWithinLimit | protocol/binary.go:374-397 | a list of sendable elements comes back if and only if it has at most 1,000,000 of them |
| BinaryRoundTrip.MapRoundTripIffWithinLimit | protocol/binary.go:349-373 | a map of sendable entries comes back if and only if it has at most 1,000,000 of them; a size wrapped to 32 bits stops the reader short |
| BinaryRoundTrip.Int16RoundTrip | protocol/binary.go:62-66 | any integer written as 16 bits comes back as its 16-bit truncation |
| BinaryRoundTrip.Int32RoundTrip | protocol/binary.go:68-72 | the same for 32 bits |
| BinaryRoundTrip.Int64RoundTrip | protocol/binary.go:74-78 | the same for 64 bits |
| BinaryRoundTrip.ValueRoundTrip | protocol/binary.go:101-205 | every value decodes to its normal form, Bool elements included |
| BinaryRoundTrip.FieldsRoundTrip | protocol/binary.go:85-99 | a struct decodes to the last-wins map of its fields |
| BinaryRoundTrip.FieldRoundTrip | protocol/binary.go:85-99 | type byte, 16-bit ID and value of one field |
| BinaryRoundTrip.ListRoundTrip | protocol/binary.go:162-177 | lists and sets within the limit come back |
| BinaryRoundTrip.MapRoundTrip | protocol/binary.go:178-202 | maps within the limit come back in any visiting order |
| BinaryRoundTrip.EntriesRoundTrip | protocol/binary.go:349-373 | the entry loop, from any entries already stored |
| BinaryCursor.EncodeCallBytes | protocol/binary.go:25-34 | the appending writer produces exactly the specified encoding or fails exactly when there is none |
| BinaryCursor.Writer.StructValue | protocol/binary.go:85-99 | appends the encoding of the field list |
| BinaryCursor.Writer.Value | protocol/binary.go:101-205 | the branch for each kind |
| BinaryCursor.Writer.ListValue | protocol/binary.go:162-177 | header and elements |
| BinaryCursor.Writer.MapValue | protocol/binary.go:178-202 | header and entries in visiting order |
| BinaryCursor.DecodeBinaryMessage | protocol/binary.go:36-58 | total on every byte string, and equal to the parsing function |
| BinaryCursor.Reader.Take | protocol/binary.go:241-248 | returns the next bytes or fails without moving |
| BinaryCursor.Reader.StructValue | protocol/binary.go:293-313 | the field loop, the cursor never moving back or out of range |
| BinaryCursor.Reader.Value | protocol/binary.go:315-352 | the branch for each type byte |
| BinaryCursor.Reader.MapValue | protocol/binary.go:349-373 | size limits, entry loop and unhashable keys |
| BinaryCursor.Reader.ListValue | protocol/binary.go:374-397 | size limits and element loop |
| CodecAgreement.CallsAgree | protocol/compact.go:75-115 | for a field list both codecs can send, with integers in range, the two decoded messages agree: same name and type, the sequence up to 32 bits, and the binary fields widened are the compact fields, at every depth |
| CodecAgreement.NormalsAgree | protocol/compact.go:409-434 | the compact normal form of a value is the widened binary one |
| CodecAgreement.IntegersAgreeIffInRange | protocol/compact.go:418-419 | on one integer the codecs agree if and only if it fits its declared width |
| CodecAgreement.EntriesAgree | protocol/binary.go:349-373 | the two normal forms of a map agree after widening, key by key |
| Cbc.UnpadUndoesPad | e2ee/manager.go:646-660 | unpadding returns what was padded, for every length |
| Cbc.PadUndoesUnpad | e2ee/manager.go:646-660 | on whole blocks nothing else unpads to a given text: the two are mutual inverses |
| Cbc.PadBuffer | registration/legy.go:309-323 | the buffer, filled in place, is the text and its padding |
| Cbc.UnpadBuffer | e2ee/manager.go:646-660 | the check loop accepts exactly well-formed padding of 1 to 16 bytes |
| Cbc.DecryptUndoesEncrypt | e2ee/manager.go:595-624 | CBC decryption undoes encryption over any number of blocks, for any invertible block cipher and IV |
| KnownBytes.PaddingBytes | registration/legy.go:309-323 | the padding fills the last block and each of its bytes is their number |
| KnownBytes.ChainedBlocks | registration/legy.go:309-323 | each ciphertext block is the cipher's image of its plaintext block combined with the ciphertext block before it, the first with the initial vector |
| KnownBytes.XorBit | registration/legy.go:348-364 | exclusive or, bit by bit |
| XxHash.Hash | registration/legy.go:366-419 | the loops over stripes, words and bytes compute XXH32 as the specification's steps define it, for every input and seed |
| XxHashVectors.EmptyHash | registration/legy.go:366-409 | the published hash of the empty input |
| XxHashVectors.AbcHash | registration/legy.go:366-409 | the published hash of the letters abc |
| XxHashVectors.SentenceHash | registration/legy.go:366-415 | the published hash of a 39-byte sentence, which goes through two stripes, a word and three bytes |
| XxHash.ConsumeStripes | registration/legy.go:376-391 | the 16-byte loop consumes every whole stripe once and leaves the position after them |
| XxHash.ConsumeRemainder | registration/legy.go:393-402 | the 4-byte and 1-byte loops consume each remaining byte once |
| Legy.RequestRoundTrip | registration/legy.go:162-230 | a built request, decrypted, stripped of its marker and headers and parsed, gives back the path header, the method, the sequence and the fields' normal form |
| Legy.BuildRequest | registration/legy.go:162-182 | the framing half of a call builds exactly the specified request |
| Legy.InnerHeadersRoundTrip | registration/legy.go:252-307 | headers that could be encoded decode to their map, and the bytes after them are handed on untouched |
| Legy.CountNeverTruncated | registration/legy.go:252-273 | a successful encoding holds at most 16383 headers, so its 16-bit count is exact |
| Legy.EncodeInnerHeadersBytes | registration/legy.go:252-273 | the encoding loop, and its two length errors |
| Legy.DecodeInnerHeadersBytes | registration/legy.go:275-307 | the decoding loop and every truncation error |
| Legy.DecryptCBCUndoesEncryptCBC | registration/legy.go:309-346 | decryption undoes encryption, and any tail shorter than a block, such as the MAC, is ignored |
| Legy.EncryptCBCBuffer | registration/legy.go:309-323 | pads and chains under the fixed IV |
| Legy.DecryptCBCBuffer | registration/legy.go:325-346 | drops the partial block, unchains and unpads |
| Legy.LegyMac | registration/legy.go:348-364 | the nested keyed hash over XXH32, computed with in-place pads, is its definition |
| KnownBytes.HeaderBytes | registration/legy.go:252-273 | the bytes of one inner header: lengths, count, key and value |
| KnownBytes.RequestBytes | registration/legy.go:162-200 | what is encrypted and hashed: the marker 7, the path under `x-lpqs` and the call, under the fixed vector, and the two masked keys of the hash |
| E2ee.DecryptRecoversText | e2ee/manager.go:110-246 | on all four paths, direct or group, read by the peer or by the sender, the reader gets the text that was sealed |
| E2ee.SameSecret | e2ee/manager.go:171-246 | whoever reads derives the secret the sender sealed under |
| E2ee.UnwrapUndoesWrap | e2ee/manager.go:595-644 | a wrapped group key unwraps to itself; the raw 32-byte fallback never gets in the way |
| E2ee.MemberUnwrapsShare | e2ee/manager.go:504-594 | what the creator wraps for a member, that member unwraps |
| E2ee.CurrentKeyFoundAgain | e2ee/manager.go:386-416 | the key a sender selects as current is the key found again under the ID it wrote into the message |
| E2ee.OwnKeyIs | e2ee/manager.go:386-416 | which key an ID names: the first with it, for ID 0 the one the metadata names, and without either the first with the highest ID |
| E2ee.DecimalDigits | e2ee/manager.go:184-190 | a version given in digits is read in base ten |
| E2eeCases.UnwrapCases | e2ee/manager.go:626-660 | what any ciphertext of a group key opens to: its unpadded plaintext, failing that the plaintext if it is 32 bytes, and otherwise nothing |
| E2eeCases.ShareOpensIff | e2ee/manager.go:504-529 | when a share opens and to which key |
| E2eeCases.VersionCases | e2ee/manager.go:184-190 | the version a message names, 2 where it names none |
| E2eeCases.Unreadable | e2ee/manager.go:171-181 | messages that are never read |
| KnownBytes.AuthenticatedBytes | e2ee/manager.go:695-707 | the authenticated data by position: receiver, sender, and four numbers of four bytes each, the highest first |
| KnownBytes.SealedBytes | e2ee/manager.go:110-169 | the five chunks of a sealed text, its key and its authenticated data |
| KnownBytes.WrappedBytes | e2ee/manager.go:595-610 | the key and the vector a group key is wrapped under |
| E2ee.NewestIsFirstOfItsId | e2ee/manager.go:386-416 | without metadata the selected key is the first of those with the highest ID |
| E2ee.Int32RoundTrip | e2ee/manager.go:703-707 | a key ID survives its four-byte chunk |
| E2eeManager.Manager.FindOwnKey | e2ee/manager.go:386-416 | the selection loop finds that key |
| E2eeManager.Manager.PublicKey | e2ee/manager.go:418-442 | an answer is the key server's answer, there is one exactly when the server replied or the cache still holds it, and what was fetched is kept for five minutes |
| E2eeManager.Manager.Negotiate | e2ee/manager.go:444-474 | the peer key sent to is the cached agreement while it lasts, else the server's, kept for a minute; it exists under the ID returned |
| E2eeManager.Manager.UnwrapGroupKey | e2ee/manager.go:504-529 | a share unwraps through the caches exactly as without them, provided its creator's key can be had |
| E2eeManager.Manager.LastGroupKey | e2ee/manager.go:476-502 | the key sent with is the cached one while it lasts, else the latest share if it is this account's and opens, else a newly registered one; it is then cached |
| E2eeManager.Manager.GroupKeyByID | e2ee/manager.go:248-275 | the key read with is the cached one if it has the ID asked for, else what the named share opens to, else a newly registered one; it is then cached |
| E2eeManager.Manager.WrapMembers | e2ee/manager.go:531-594 | registration computes one wrapping per named member, or fails |
| E2eeManager.WrapsIffUsable | e2ee/manager.go:554-566 | it fails if and only if some named member's key has no ID or not 32 bytes |
| E2eeManager.WrapsTheNamed | e2ee/manager.go:554-576 | it lists exactly the named members, in order, each with its own share |
| E2eeManager.EveryNamedMemberUnwraps | e2ee/manager.go:504-594 | each of them unwraps its own entry to the group key, with its own private key |
| E2eeManager.Manager.EncryptText | e2ee/manager.go:110-169 | a text is sealed exactly when the account has an ID and a key and the receiver's key is known and of version 2; it is sealed under the secret of the keys it names |
| E2eeManager.Manager.ReadText | e2ee/manager.go:171-246 | what is read is the cache-free result; for a direct message whenever the server answers, for a group message whenever the key it names is found |
| E2eeManager.SendAndReadDirect | e2ee/manager.go:110-246 | one account sends, another reads: if anything was sent, the text arrives |
| E2eeManager.SendAndReadOwn | e2ee/manager.go:110-246 | the sender reads its own direct text through the caches, on this or another device |
| E2eeManager.SendAndReadGroup | e2ee/manager.go:110-275 | a group text sent by one account and read by any member or by the sender itself arrives, whatever the caches hold and whichever group key was used, provided the reader opens the shares of the group's keys; and it is sent exactly when a key is at hand |
| Lists.UniqueContents | guard/store.go:632-638 | deduplication keeps every member but the empty one, once, and leaves a clean list alone |
| Lists.WithoutAllContents | guard/store.go:650-655 | removal takes out exactly the named members |
| Lists.UniqueOf | guard/store.go:632-638 | the loop computes it |
| Lists.RemoveInPlace | guard/store.go:640-648 | the compaction over the same backing array leaves the other members in order at its front |
| GuardState.EveryReachableState | guard/store.go:228-251 | whatever file was opened and whatever commands followed: no list repeats or holds the empty ID, Creators, Owners and Admins are disjoint, blacklist and GAdmin lists name no bot and none of them |
| GuardState.InvariantOverRuns | guard/store.go:297-531 | the same from any state that satisfies it, and once there is a Creator there always is one |
| GuardState.StepKeepsInv | guard/store.go:393-531 | each of the 22 commands keeps the invariant and the last Creator |
| GuardState.NormalizedInv | guard/store.go:552-571 | normalising any state at all establishes the invariant |
| GuardState.NormalizedFixedPoint | guard/store.go:552-571 | a state that satisfies it is left unchanged, so normalising is idempotent |
| GuardState.NormalizedRole | guard/store.go:533-571 | roles after normalisation, read off the lists before it: the highest list wins, and a bot loses its GAdmin role |
| GuardState.CreatorRemoved | guard/store.go:413-424 | the one removal that does not normalise still keeps the invariant and leaves a Creator |
| GuardState.BlacklistChanged | guard/store.go:480-512 | unbanning, clearing and automatic blacklisting, which do not normalise either, keep it |
| GuardState.SettingsStep | guard/store.go:63-140 | settings, reserve plans, readers and war commands keep it and move no role |
| GuardStore.Store.constructor | guard/store.go:228-251 | opening normalises whatever the file held |
| GuardStore.Store.Normalize | guard/store.go:552-571 | the imperative normaliser computes the normal state |
| GuardStore.Store.BootstrapCreator | guard/store.go:297-309 | only the first inviter becomes Creator |
| GuardStore.Store.RegisterBot | guard/store.go:311-323 | a new bot leaves every protected list consistent; an empty or known ID changes nothing and is no error |
| GuardStore.Store.AddCreator | guard/store.go:399-411 | new state and result for every caller, target and save outcome |
| GuardStore.Store.DelCreator | guard/store.go:413-424 | never the last Creator, never oneself |
| GuardStore.Store.MutateRole | guard/store.go:514-531 | the shared guard of the other role commands: refused calls change nothing, a failed save does not undo the change |
| GuardStore.Store.AddOwner | guard/store.go:393-397 | new state and result |
| GuardStore.Store.DelOwner | guard/store.go:426-430 | new state and result |
| GuardStore.Store.AddAdmin | guard/store.go:432-436 | new state and result |
| GuardStore.Store.DelAdmin | guard/store.go:438-442 | new state and result |
| GuardStore.Store.AddGAdmin | guard/store.go:444-452 | new state and result, per group |
| GuardStore.Store.DelGAdmin | guard/store.go:454-462 | new state and result, per group |
| GuardStore.Store.AddBlacklist | guard/store.go:464-478 | only a target below the actor and no bot |
| GuardStore.Store.Unban | guard/store.go:480-488 | removes one entry |
| GuardStore.Store.ClearBlacklist | guard/store.go:490-502 | empties the list, counts what it removed, and reports an error only for a caller below Admin or a failed save of a change |
| GuardStore.Store.AutoBlacklist | guard/store.go:504-512 | records plain users only |
| GuardStore.Store.Restore | guard/store.go:159-184 | only from a backup that still names the actor as Creator, and normalised |
| GuardStore.Store.SetLurk | guard/store.go:63-73 | switches tracking and clears the readers |
| GuardStore.Store.RecordReader | guard/store.go:75-84 | records each reader once while tracking is on |
| GuardStore.Store.SetProtection | guard/store.go:107-140 | sets exactly the named protection; an unknown scope is an error that still leaves a record |
| GuardStore.Store.SetReservePlan | guard/store.go:186-199 | stores the first `count` reserves |
| GuardStore.Store.UpdateWar | guard/war.go:40-56 | applies an Owner's change and deduplicates the whitelist |
| GuardStore.Store.ExpireWar | guard/war.go:58-65 | switches war and lock off |
| GuardStore.Store.ActivateWarAuto | guard/war.go:67-80 | starts an automatic war only when it is armed and off, and fails only if that could not be saved |
| GuardAuthority.OnlySuperiorsChangeRoles | guard/store.go:393-531 | whatever the command, a name enters or leaves the Creators or Owners only by a Creator's doing, the Admins only by a Creator's or Owner's, a GAdmin list only by an Admin's or above, the first Creator and new bots set aside |
| GuardAuthority.AddCreatorChanges | guard/store.go:399-411 | who may make whom a Creator, and every list afterwards, in terms of the lists |
| GuardAuthority.DelCreatorChanges | guard/store.go:413-424 | who may remove which Creator |
| GuardAuthority.AddOwnerChanges | guard/store.go:393-397 | a Creator and nobody else makes an Owner, of anyone but a bot or Creator |
| GuardAuthority.DelOwnerChanges | guard/store.go:426-430 | a Creator and nobody else removes an Owner that is no bot |
| GuardAuthority.AddAdminChanges | guard/store.go:432-436 | a Creator or Owner and nobody else makes an Admin, of whoever is neither, nor a bot |
| GuardAuthority.DelAdminChanges | guard/store.go:438-442 | a Creator or Owner and nobody else removes an Admin that is no bot |
| GuardAuthority.AddGAdminChanges | guard/store.go:444-452 | an Admin or above and nobody else makes a GAdmin, of one group and of whoever is none of them, nor a bot |
| GuardAuthority.DelGAdminChanges | guard/store.go:454-462 | an Admin or above and nobody else removes a GAdmin |
| GuardAuthority.RegisterBotChanges | guard/store.go:311-323 | a new bot leaves the GAdmin lists and the blacklist |
| GuardAuthority.BootstrapChanges | guard/store.go:297-309 | without a Creator the inviter becomes one and leaves the other lists |
| GuardAuthority.RestoreChanges | guard/store.go:159-184 | a Creator loads a backup that names it as one |
| GuardAuthority.AddBlacklistChanges | guard/store.go:464-478 | an Admin or above puts on the blacklist whoever is none of them, nor a bot; naming somebody else changes nothing |
| GuardAuthority.UnbanChanges | guard/store.go:480-488 | they and the group's GAdmins take off it whom they name |
| GuardAuthority.ClearBlacklistChanges | guard/store.go:490-502 | an Admin or above empties it |
| GuardAuthority.AutoBlacklistChanges | guard/store.go:504-512 | the guard puts on it whoever is no bot and has no role there |
| GuardAuthority.SetLurkChanges | guard/store.go:63-73 | who turns tracking on and off, which forgets the readers |
| GuardAuthority.RecordReaderChanges | guard/store.go:75-84 | a reader is noted once, while tracking is on |
| GuardAuthority.SetProtectionChanges | guard/store.go:107-140 | which switches each scope moves, and for whom |
| GuardAuthority.SetReservePlanChanges | guard/store.go:186-199 | an Admin or above keeps up to two reserves |
| GuardAuthority.UpdateWarChanges | guard/war.go:40-56 | a Creator or Owner changes the war, whose whitelist then names everybody once |
| GuardAuthority.WarByItselfChanges | guard/war.go:67-80 | war comes on by itself where it is set to and off |
| GuardAuthority.WarExpiryChanges | guard/war.go:58-65 | a war that ends goes off with its lock |
| GuardRoles.RoleAfterAdd | guard/store.go:393-462 | everybody's role in every group after a successful Add, from the roles before |
| GuardRoles.RoleAfterDel | guard/store.go:413-462 | and after a successful Del |
| GuardRoles.AddNeverLowersNorOverreaches | guard/store.go:393-462 | an Add lowers nobody in any group and lifts its target no higher than its actor |
| GuardRoles.OthersKeepTheirRoles | guard/store.go:393-531 | no role command changes the role of anyone but its target |
| GuardRoles.RemovedBecomesUser | guard/store.go:413-442 | a removed Creator, Owner or Admin is a plain user in every group |
| GuardRoles.OtherCommandsKeepRoles | guard/store.go:464-512 | other commands move no role, except that becoming a bot ends one's GAdmin roles |
| GuardRoles.CanKickIsStrict | guard/store.go:379-391 | permission to kick goes strictly down, and is never mutual between users |
| Engine.Guard.Serve | guard/engine.go:186-214 | over any run of events, each received by any of the bots, with bots coming online, store commands, war and its quarantines, recoveries and startups in any order: no kick sent names a registered bot, and outside bot defence and the blacklist command none names an Admin, Owner or Creator |
| Engine.Guard.Handle | guard/engine.go:186-214 | each event keeps that record, and reaches the handler for it |
| Engine.Guard.Connect | guard/engine.go:62-78 | a bot coming online is registered and becomes one to act with, a primary or a reserve by its latest kind; a failed save changes neither set |
| Engine.Guard.StartWar | guard/war.go:98-120 | `war on`: the new state for every caller and duration, and the group's quarantines forgotten exactly when it was saved |
| Engine.Guard.AutoWar | guard/war.go:257-283 | the same for a war that starts by itself |
| Engine.Guard.PutInQuarantine | guard/war.go:197-205 | an Owner quarantines one account of one group for ten minutes |
| Engine.Guard.Pardon | guard/war.go:186-196 | an Owner lifts it |
| Engine.Guard.ClearWar | guard/war.go:206-208 | an Owner forgets the quarantines of this group and no other |
| Engine.Guard.Act | guard/engine.go:1605-1645 | membership is confirmed first; the request is sent exactly when the bot is inside, and the local record follows what was learnt |
| Engine.Guard.ProtectorFor | guard/engine.go:537-558 | the best-ranked connected member other than the excluded bot, else the receiver of the event; none exactly when neither exists |
| Engine.Guard.EjectAndBlacklist | guard/engine.go:621-653 | the actor is blacklisted and only he is kicked, the given bot trying first and then the others inside, best first, until one is granted; success if and only if the entry was allowed and saved and a kick was granted |
| Engine.Guard.TryEach | guard/engine.go:636-643 | succeeds if and only if one of the bots is granted the kick |
| Engine.Guard.Alternatives | guard/engine.go:628-636 | the fallbacks are exactly the other bots that are connected and inside, best first, those in cooldown only if all are |
| Engine.Guard.HandleJoin | guard/engine.go:763-780 | new state, and exactly when a join is answered with a kick: the blacklisted, and in war the unprotected by level or quarantine |
| Engine.Guard.HandleKick | guard/engine.go:401-475 | the whole effect: state, who is ejected and by which rule, which bots try in which order, every kick sent, and the invitation of a privileged target, whatever the ejection came to |
| Engine.Guard.HandleUserKick | guard/engine.go:440-475 | that part of it for a target who is no bot |
| Engine.Guard.FastBotDefenseKick | guard/engine.go:477-491 | one kick of the attacker by a bot that believes it is inside |
| Engine.Guard.HandleCancellation | guard/engine.go:560-592 | the whole effect: when the canceller is ejected, the kicks sent, cancelled bots no longer counting as protectors |
| Engine.Guard.HandleChatUpdate | guard/engine.go:594-619 | the whole effect: the ticket is closed again first, and only then its opener ejected, with the kicks sent |
| Engine.Guard.HandleInvitation | guard/engine.go:258-338 | the whole effect: the first Creator, the cancellation sent and exactly whom it names, and when and by which kicks the inviter is ejected, whatever the cancellation came to |
| Engine.Guard.JudgeInvitation | guard/engine.go:296-336 | the judging half of it, once protection or war calls for it: what is cancelled and by whom, and when and by which kicks the inviter is ejected |
| Engine.Guard.WarnOrRemove | guard/engine.go:1713-1728 | kicks exactly on a repetition within 60 seconds |
| Engine.Guard.HandleAbuse | guard/engine.go:1660-1693 | exactly when a message gets its author kicked: a plain user's second offence under one of the two protections |
| Engine.Guard.HandleMessage | guard/engine.go:1660-1709 | the same with the flood filter of the group and author: it counts the message exactly where the source gets that far, and its eighth within the window is the offence |
| Engine.Guard.CommandBlacklist | guard/engine.go:1223-1239 | new state, and exactly when the kick follows |
| Engine.Guard.CommandKick | guard/engine.go:1251-1261 | refused for bots, privileged targets, oneself and plain users; otherwise exactly one kick |
| Engine.Guard.CommandKickAll | guard/engine.go:1525-1597 | deals the plain users in batches to the connected workers inside, no worker twice in a round, best first; sends exactly the kicks of that schedule, and removed plus failed is their number |
| Engine.Guard.Sweep | guard/engine.go:160-166 | one kick for each blacklisted member |
| Engine.Guard.LaunchRecovery | guard/engine.go:852-890 | the first reserve of the plan that can join, and nobody else, sweeps the members; there is one exactly when some connected reserve joins |
| Engine.Guard.ReconcileGroup | guard/engine.go:130-166 | the best-ranked of the bots inside, or if there is none of the reserves that got in, sweeps the members; nobody does exactly when there is neither |
| Engine.Guard.AdmitReserves | guard/engine.go:143-156 | admitted are exactly the viewing reserves outside that joined |
| Engine.Guard.Observe | guard/engine.go:935-954 | the bot that received an operation is registered, and joins and kicks of bots are noted |
| Engine.Guard.Operate | guard/engine.go:186-214 | which kind of operation reaches which handler |
| GuardVerdicts.UserKicked | guard/engine.go:401-475 | in terms of the lists, the switches and the recorded war alone: whoever kicks an account that is no bot is blacklisted and tried by kicks, by which bots, exactly when it has no role and kick protection is on or, for a target below Owner, a war of level two or more; a Creator or Owner is invited back unless a Creator or bot did it; otherwise lists and requests stay |
| GuardVerdicts.BotKicked | guard/engine.go:415-439 | whoever kicks a bot is kicked back at once by the selected bot, and blacklisted if it has no role |
| GuardVerdicts.Cancelled | guard/engine.go:560-592 | the same for cancelled invitations: no role, and cancel protection or any war |
| GuardVerdicts.Opened | guard/engine.go:594-619 | for an opened link: no role, and link protection, any war or its lock |
| GuardVerdicts.Joined | guard/engine.go:763-780 | for a join: blacklisted, or in a war that is no drill without role or whitelisting, at level three or in quarantine |
| GuardVerdicts.InvitedOthers | guard/engine.go:258-338 | for an invitation: what a permitted inviter may not bring in is cancelled, of another everything, who is removed too |
| GuardVerdicts.KickerRule | guard/engine.go:440-475 | the rule on kickers as an if-and-only-if |
| GuardVerdicts.CancellerRule | guard/engine.go:570-582 | the rule on cancellers |
| GuardVerdicts.OpenerRule | guard/engine.go:596-606 | the rule on openers |
| GuardVerdicts.JoinerRule | guard/war.go:327-345 | the rule on joiners |
| GuardVerdicts.InvitationRule | guard/engine.go:296-305 | who may invite whom |
| GuardVerdicts.InviterRule | guard/engine.go:296-336 | the rule on inviters |
| GuardVerdicts.KickingRule | guard/store.go:379-391 | who may kick whom, by the lists |
| GuardVerdicts.BlacklistKickRule | guard/engine.go:1223-1239 | when the blacklist command goes on to kick |
| GuardVerdicts.DeclaredWar | guard/war.go:98-120 | a declared war is on until its end but for the last millisecond at most, and not after |
| GuardVerdicts.WarEndRule | guard/war.go:82-89 | a war found to be over is put out with its lock and nothing else changes |
| GuardVerdicts.EjectionRead | guard/engine.go:621-653 | which bots an ejection tries: another bot inside first, or failing any the receiver, then others inside until one is granted it |
| GuardVerdicts.TriesMean | guard/engine.go:636-643 | the requests it sends: one for each bot that gets through to the server, as long as none before was granted |
| GuardRules.InviterIsSafe | guard/engine.go:296-336 | an inviter the guard does not let through is neither a bot nor an Admin or above, given the store invariant |
| GuardRules.InviterNeedsInvariant | guard/engine.go:296-336 | without it a bot on a GAdmin list would be ejected |
| GuardRules.BlacklistedIsSafe | guard/engine.go:160-166 | every blacklisted account may be kicked automatically, given the invariant |
| GuardRules.BlacklistingByCommand | guard/engine.go:1231-1238 | after the blacklist command the kick names no bot and nobody at or above the actor |
| GuardRules.WarExpiryChangesNoRole | guard/war.go:82-89 | noticing the end of a war changes no role, no list and no protection |
| GuardRules.SweepReaches | guard/engine.go:884-890 | a sweep sends a kick for a member if and only if he is listed, blacklisted and reachable |
| GuardRules.PlainUsersArePlain | guard/engine.go:1549-1554 | the targets of kickall are exactly the members who are neither bots nor privileged |
| GuardRules.FirstTry | guard/engine.go:621-643 | the first kick of an ejection is the protector's own |
| GuardRules.TriesAppend | guard/engine.go:636-643 | bots that are refused pass the attempt on to the next |
| GuardRules.KickAllIsFair | guard/engine.go:1559-1573 | with the workers the command ranks, no bot has two batches of one round, and none opens a second before all have opened one |
| GuardRules.BlockedAreBlacklisted | guard/engine.go:306-312 | what a permitted inviter's invitation has cancelled are exactly the blacklisted among the invited |
| GuardRules.Blocked | guard/engine.go:306-312 | the loop collects them in order |
| GuardRules.SomebodyJoins | guard/engine.go:852-876 | some reserve is the first to join exactly when one joins |
| Filters.AcceptedApart | guard/engine.go:2032-2049 | two accepted hits on one key are at least ten seconds apart |
| Filters.RejectedIffRecent | guard/engine.go:2032-2049 | a hit is rejected if and only if it has a key and an accepted hit on that key came less than ten seconds before |
| Filters.EvictionIsInvisible | guard/engine.go:2039-2044 | evicting expired keys changes no decision, whatever the key |
| Filters.DuplicateFilter.Evict | guard/engine.go:2039-2043 | the sweep removes exactly the expired entries in any iteration order |
| Filters.DuplicateFilter.Duplicate | guard/engine.go:2032-2049 | with eviction, the answer is that of the filter that never forgets, over every run with a non-decreasing clock |
| Filters.RecentOfRecent | guard/engine.go:1676-1683 | pruning early loses nothing a later pruning would keep |
| Filters.RecentMeans | guard/engine.go:1672-1685 | what the flood filter counts are the messages of the last five seconds |
| Filters.PruneInPlace | guard/engine.go:1676-1682 | the compaction over the same backing array keeps exactly the messages in the window, in order |
| Filters.FloodFilter.Message | guard/engine.go:1668-1692 | the list pruned in place is always what the full history since the last trigger gives, and it fires exactly at the eighth |
| Health.LessIsStrictWeakOrder | guard/health.go:83-97 | the comparator is irreflexive, asymmetric and transitive, and so is its incomparability |
| Health.LessIsByStanding | guard/health.go:83-97 | it compares ready before cooling before unknown, cooling bots by end, ties by load |
| Health.StableSortIsUnique | guard/health.go:83-97 | only one sequence is sorted by it and keeps ties in order, whatever the library's algorithm |
| Health.StableSortedStablySorts | guard/health.go:83-97 | and the model's sort is that one |
| Health.RankedIsReady | guard/health.go:78-109 | ranking a non-empty fleet is non-empty; it is the ready bots, as often as they came, if there are any, else all of them; and it is sorted |
| Health.RankedStably | guard/health.go:78-109 | and stable: among those kept, bots that compare equal stay in the order they came |
| Health.RecordLeavesOthers | guard/health.go:39-67 | a report on one bot changes no other |
| Health.HealthPool.Rank | guard/health.go:78-109 | the sorted buffer, filtered at its front unless no bot is ready, is the ranking |
| Health.HealthPool.KeepReady | guard/health.go:98-108 | the filter over the front of the array it reads keeps the ready bots in order, loses no element it still has to read, and writes nothing when none is ready |
| Health.HealthPool.Record | guard/health.go:39-67 | counters, streak and cooldown after one report |
| Health.RecordsOverRuns | guard/health.go:39-67 | after any history the streak is the trailing run of failures modulo 2^32, and the load charges one for a success and five for a failure modulo 2^64 |
| Health.FailedBotIsPassedOver | guard/health.go:39-109 | for two seconds after a failure, thirty after a limit error, a bot is not ranked while another is ready |
| HealthOrder.RankedMembers | guard/health.go:98-108 | the ranking names those whose cooldown is over, or everybody if nobody's is |
| HealthOrder.RankedOrder | guard/health.go:83-97 | of two it names the earlier has less to carry, or in cooldown is out of it first, counters and ends written out |
| HealthOrder.CooldownAfterFailures | guard/health.go:39-67 | after so many failures in a row a bot rests two, four and so on up to 64 seconds from the last, and half a minute at least after a limit |
| KickAll.KickAllTargets | guard/engine.go:1560-1597 | the nested loops deal exactly the schedule and terminate, and removed plus failed is the number of targets for every pattern of failures |
| KickAll.DealRound | guard/engine.go:1567-1573 | one round deals at most one batch to each bot, starting one further along each time |
| KickAll.BatchesCover | guard/engine.go:1568-1573 | the batches laid end to end are the target list |
| KickAll.BatchSize | guard/engine.go:1560-1573 | every batch holds 1 to 14 targets, and all but the last exactly 14 |
| KickAll.DealtTo | guard/engine.go:1560-1573 | batch by batch: how many there are, the targets of each, its round and its bot |
| KickAll.OneJobPerRound | guard/engine.go:1568-1573 | no bot has two batches in one round |
| KickAll.OpenersRotate | guard/engine.go:1568-1573 | the bot that opens a round opens no other until every other bot has opened one |
| KickAll.TallyIsComplete | guard/engine.go:1575-1594 | removed and failed account for every target dealt so far |
| Fleet.FleetSafety | guard/engine.go:682-761 | in every interleaving one goroutine at a time is in its passes, none starts more than four, in a pass nobody is asked twice for one target, and two successful invites of one bot are three seconds apart unless its mark was deleted in between |
| Fleet.InvOverRuns | guard/engine.go:682-761 | the invariant behind it |
| Fleet.StepKeepsExclusive | guard/engine.go:682-696 | mutual exclusion is kept by every step |
| Fleet.StepKeepsTries | guard/engine.go:724-730 | the rotation through the ranked protectors repeats nobody |
| Fleet.StepKeepsSpacing | guard/engine.go:956-999 | every step keeps every recent invite guarded by a pending mark, or about to be |
| Fleet.ScannedIsFree | guard/engine.go:714-721 | whoever is free of marks at a scan has no invite younger than the window (the list itself is `FleetTargets.ListedAreWantedAndFree`) |
| FleetTargets.WhoIsAskedFor | guard/engine.go:714-743 | in every run, whoever is asked for was at that pass's scan a primary bot outside without an unexpired mark; whoever is asked is another of those ranked; whoever was invited was asked for |
| FleetTargets.PassLeavesNobodyOut | guard/engine.go:722-752 | when a pass reaches its end, every such bot was invited since the scan, or every ranked protector but itself was asked for it |
| FleetTargets.OneScanPerPass | guard/engine.go:714-721 | there is one scan to a pass |
| FleetTargets.ListedAreWantedAndFree | guard/engine.go:714-721 | a scan lists exactly those bots, and none of them has an uncleared invite younger than three seconds |
| FleetTargets.TracedOverRuns | guard/engine.go:682-761 | the invariant behind these |
| FleetPasses.AskedAreInside | guard/engine.go:699-712 | whoever is asked was a primary bot inside the group when the pass began |
| FleetPasses.NobodyToAskIff | guard/engine.go:699-710 | a pass ends before it starts exactly when no primary bot is inside |
| FleetPasses.DirtyOverRuns | guard/engine.go:682-697 | the dirty mark stands exactly while some goroutine was turned away after the last pass began |
| FleetPasses.AnotherPassIff | guard/engine.go:753-760 | another pass follows if and only if somebody was turned away during this one and it was not the fourth |
| FleetPasses.TooLateToBeHeard | guard/engine.go:690-697 | whoever is turned away after the last check is not heard: the section is left before any pass begins |
| FleetPasses.MarksOverRuns | guard/engine.go:984-991 | every mark ends three seconds after it was placed, and was placed for a bot that had been invited |
| Session.ExchangesFormAChain | client/client.go:112-159 | in every interleaving each exchange presents exactly the tokens left by the previous ones, and only a caller that forced it, named no token or failed with the still-current token makes one |
| Session.OneExchangePerToken | client/client.go:112-159 | a token many callers failed with is exchanged successfully at most once, unless the server issues it again |
| Session.RetiredUnlessReissued | client/client.go:112-159 | a retired token is current again only if some later exchange returned it |
| Session.StepKeepsChain | client/client.go:112-159 | every step keeps the chain |
| Session.CallsOverRuns | service/service.go:79-132 | in every interleaving attempts are numbered as taken, retries follow first attempts, and success comes only from a matching reply |
| Session.AtMostTwoAttempts | service/service.go:79-97 | no call takes more than two sequence numbers |
| Session.StepKeepsAccept | service/service.go:103-119 | a reply is accepted only with message type 2, the call's own name and its own latest number |
| Session.NoReplyAcceptedTwice | service/service.go:83-112 | no reply is accepted by two calls |
| SessionOutcomes.PostOutcome | service/service.go:83-132 | in every run, a reply is accepted if and only if it has type 2, the call's name and its latest number and holds a result or nothing; a first attempt is refreshed exactly after a 401 or an expired-token error in such a reply; every other reply fails the call |
| SessionOutcomes.TokenOverRuns | service/service.go:79-82 | a request carries the service's own token as of the caller's last look, or without one what the call was given or its refresh returned |
| SessionOutcomes.ReadOutcome | client/client.go:112-127 | the holder of the refresh lock finds the tokens all exchanges so far have left, and returns the new one, fails without a refresh token, or exchanges |
| SessionOutcomes.TradeOutcome | client/client.go:127-132 | a failed exchange changes no token and frees the lock |
| SessionOutcomes.WriteOutcome | client/client.go:138-158 | a response is recorded for all and its token returned unless saving fails |
| SessionOutcomes.ResumeOutcome | service/service.go:88-97 | a refreshed call goes out once more as a retry |
| SessionOutcomes.AccessLeft | client/client.go:138-142 | the access token left is the last one handed out |
| SessionOutcomes.RefreshLeft | client/client.go:138-142 | the refresh token left is the last one handed out, for not every response carries one |
| Dispatch.EachQueueInOrder | client/client.go:396-421 | each queue receives exactly the operations that belong in it, in batch order |
| Dispatch.UrgentFirst | client/client.go:396-416 | nothing is sent after something less urgent: 133 before 124 before 60, 122 and 126 before the rest |
| Dispatch.KindsInOrder | client/client.go:396-443 | which kind goes to which queue and before which others, kind by kind |
| Dispatch.EachOperationOnce | client/client.go:396-421 | every operation is in exactly one queue, as often as it was in the batch |
| Dispatch.QueuesOverRuns | client/client.go:396-421 | over a run of batches each queue keeps the server's order |
| Dispatch.SelectedByQueueFor | client/client.go:432-443 | the tests of the four passes are exclusive and leave nothing out |
| Dispatch.Queues.Dispatch | client/client.go:396-421 | the passes send in the order kick, invitation, critical, ordinary; cancellation leaves a prefix of that |
| Dispatch.Client.SyncOnce | client/client.go:228-281 | new state and result for every reply, count and save outcome; a failed save keeps the state and drops the batch |
| Dispatch.SyncedFields | client/client.go:228-281 | what is written back, field by field |
| Dispatch.ReadOperations | client/client.go:245-257 | the reply of a poll read into the revisions it delivers and the batch it hands on |
| Dispatch.Client.BootstrapLatestRevision | client/client.go:193-208 | raises the revision to the looked-up one if that is higher, never lowers it, and gives the previous and latest revisions and the result for every lookup and save outcome |
| Dispatch.RunningMaximum | client/client.go:228-281 | over any run without full syncs the stored revision is the running maximum of everything delivered |
| Dispatch.NeverDecreases | client/client.go:193-281 | interleaved with bootstraps, it never decreases if none raises it while a request is in flight |
| Dispatch.DecreasesIffOverwritten | client/client.go:193-281 | across one request, for every reply that is neither a failure nor a full sync, it falls if and only if a bootstrap in between stored more than the start revision and what the reply delivers |
| Dispatch.MonotoneIffBootstrapsOutlive | client/client.go:193-281 | over any admissible run without full syncs the revision never falls if and only if every bootstrap made while a request was in flight is at most what that request ends up storing |
| Dispatch.BootstrapCanBeLost | client/client.go:193-281 | a concrete run in which a bootstrapped revision is overwritten by an older one |
| Dispatch.BootstrapCanBeLostToNothing | client/client.go:193-281 | it happens even when the reply delivers nothing at all |
| Mentions.SendMentions | client/chats.go:183-209 | the text is the heading and a line for each mention, and every announced span is exactly the UTF-16 form of its `@name` in it, names its member, and the spans are in order and apart |
| Mentions.UnitsDecode | client/chats.go:195-198 | a character is one unit, or a surrogate pair holding its upper and lower ten bits (section 2.1 of RFC 2781) |
| Mentions.Utf16Append | client/chats.go:198-201 | counting the text so far and the label separately is counting the whole |
| Mentions.LineAnnounced | client/chats.go:190-207 | one more line keeps every span announced before it and adds its own |

## Left out

- CompactRoundTrip.CallRoundTrip: excludes non-empty compact containers with Bool elements, keys or values, which in general do not come back (`BoolContainers.BoolListComesBackIff` is exact for a list or set that ends its struct, `BoolStructs.StructComesBackIff` for any number of even length anywhere, and `BoolMaps.BoolMapNeverComesBack` covers a map that is a struct's only field; for lists of odd length before other fields, whose header is then read as an ID, and for maps beside other fields no condition is stated), lengths of 2^63 and more, and map keys that decode to unhashable values, on which the reader panics.
- BinaryRoundTrip.CallRoundTrip: byte strings above 64 MiB and containers above 1,000,000 entries are excluded because the reader refuses them; the three if-and-only-if lemmas state the limits exactly.
- BoolMaps.StructUnderBool: names the second way back, the whole map read again from a later place, without a condition for it; `StructMaps.FrugalStructComesBackIff` excludes it for structs that waste fewer than three bytes, and for the others `StructMaps.StructEchoes` shows it happens.
- Containers nested directly in containers lose their element kinds in the source; the model writes them with the kinds of a zero `Field`, as the source does, so only empty ones or structs in between can be encoded.
- Map keys of type float64 are compared by their bits, so NaN keys and the two zeros are not told apart as Go does.
- Legy.LegyMac: the key is 16 bytes, the only length the client generates; the MAC is computed when sending and not verified when receiving, as in the source.
- Cryptographic primitives: AES is any invertible permutation of blocks, X25519 any commuting agreement (section 6.1 of RFC 7748), AES-GCM any inverse pair (sections 7.1 and 7.2 of NIST SP 800-38D), SHA-256 and JSON functions; nothing is claimed about secrecy or forgery.
- E2ee.DecryptRecoversText: assumes key servers that answer with existing keys, a group key of version 2 and text that is valid UTF-8, which JSON would otherwise change; version-1 messages are modelled on the reading side only, where the source has them.
- Shifts and masks are written as multiplication, division and remainder; hash lanes and counters wrap explicitly.
- Memory: declared sizes too large to allocate are not a failure of their own, and writers keep no buffer capacity.
- Saving the store or session is one boolean outcome after the change in memory; files, permissions, migration of old formats and backups on disk are not part of the model, and the `version` and command-alias fields are left out of the store's state.
- Lists.RemoveInPlace: the aliasing of the compacted slice with the caller's is modelled there on an array; inside `GuardStore` lists are values.
- Each method of the store is one atomic step, as its mutex makes it.
- War: sensitivity, cooldown, audit counts, suspects' scores and action counters only feed displays and the automatic start, and are left out; `ActivateWarAuto` stands for the decision once made.
- Engine.Guard.Handle: one handler is one step over the store, although the source blacklists in a goroutine beside the kick; the war expiry noticed while recording an action, friend requests, replies, ticket rollouts, reserve parking and command parsing are left out.
- Engine.Guard.HandleAbuse: in whole runs whether a message floods is any boolean, so that the record of kicks holds whatever the filters answer; `HandleMessage` composes the handler with one `FloodFilter`, whose list is a field of that object and not of an entry in the guard's table.
- Engine.Guard.Connect: the friend requests between bots are left out, and the reconciliation once all are connected is an event of its own.
- Engine.Guard.HandleKick: whether this bot's turn at the defence came, and whether another bot finished it first, are two inputs; so is every duplicate check, which `Filters` models on its own.
- Engine.Guard.LaunchRecovery: the primary bots invited after the sweep are left out, since no kick depends on them.
- KickAll.KickAllTargets: the goroutines of one round are tallied in the order they were dealt; the sums do not depend on it.
- Health.HealthPool.Rank: the library's stable sort is represented by its contract, which `StableSortIsUnique` shows to have one solution.
- Fleet.FleetSafety: one group at a time, since every table is keyed by group; the ranking may be any selection without repetition, and goroutines that time out are left out. When a goroutine that was turned away gets its pass, and when not, is `FleetPasses.AnotherPassIff` and `FleetPasses.TooLateToBeHeard`.
- Session.ExchangesFormAChain: the service's cached token may differ from the session's, because the source also stores it outside the refresh lock; only the session's tokens are chained. Expiry prediction is left out: a predicted refresh is a caller like any other.
- Session.CallsOverRuns: one service stands for the three the client holds, each with a sequence and cached token of its own; the token exchange itself goes through a fourth that never refreshes.
- Session.NoReplyAcceptedTwice: holds while fewer than 2^64 - 1 sequence numbers have been taken.
- Dispatch.NeverDecreases: full-sync replies are excluded, since they may carry a smaller revision; backoff delays, worker goroutines and reconnects of `Listen` are left out.
- Mentions.SendMentions: text is a sequence of Unicode scalar values; bytes that are not valid UTF-8, which Go replaces one by one, are left out, as is the JSON around the spans.
- HTTP, TLS, QR login, registration steps, browser control, the CLI and the thin service wrappers decide nothing the model would state.
