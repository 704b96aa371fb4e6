/** Go visits a map's entries in an unspecified order. What a peer decodes does not depend on it, at
    any depth, exactly when entries whose keys fall together in normal form carry the same item. */
module MapOrder {
  import opened Bytes
  import opened Thrift
  import Compact
  import CompactRoundTrip
  import BinaryThrift
  import BinaryRoundTrip

  ghost predicate DistinctKeys(codec: Codec, keyKind: Kind, entries: seq<Entry>) {
    forall i, j | 0 <= i < j < |entries| ::
      NormalKey(codec, keyKind, entries[i]) != NormalKey(codec, keyKind, entries[j])
  }

  /** Entries whose keys fall together carry the same item. */
  ghost predicate Consistent(codec: Codec, keyKind: Kind, valueKind: Kind, entries: seq<Entry>) {
    forall i, j | 0 <= i < j < |entries| ::
      NormalKey(codec, keyKind, entries[i]) == NormalKey(codec, keyKind, entries[j])
      ==> NormalItem(codec, valueKind, entries[i]) == NormalItem(codec, valueKind, entries[j])
  }

  ghost predicate HasKey(codec: Codec, keyKind: Kind, entries: seq<Entry>, k: Decoded) {
    exists i | 0 <= i < |entries| :: NormalKey(codec, keyKind, entries[i]) == k
  }

  // ---- One map

  /** Keys no entry has are as they were. */
  lemma {:induction false} OtherKeysKept(
      codec: Codec, keyKind: Kind, valueKind: Kind, entries: seq<Entry>, acc: map<Decoded, Decoded>, k: Decoded)
    requires !HasKey(codec, keyKind, entries, k)
    ensures var m := NormalEntries(codec, keyKind, valueKind, entries, acc);
            (k in m <==> k in acc) && (k in acc ==> m[k] == acc[k])
  {
    hide NormalKey, NormalItem;
    if entries != [] {
      var key := NormalKey(codec, keyKind, entries[0]);
      assert key != k;
      forall i | 0 <= i < |entries[1..]| ensures NormalKey(codec, keyKind, entries[1..][i]) != k {
        assert entries[1..][i] == entries[i + 1];
      }
      OtherKeysKept(codec, keyKind, valueKind, entries[1..], acc[key := NormalItem(codec, valueKind, entries[0])], k);
    }
  }

  lemma FirstVisited(
      codec: Codec, keyKind: Kind, valueKind: Kind, entries: seq<Entry>, acc: map<Decoded, Decoded>)
    requires entries != []
    ensures NormalEntries(codec, keyKind, valueKind, entries, acc)
         == NormalEntries(codec, keyKind, valueKind, entries[1..],
              acc[NormalKey(codec, keyKind, entries[0]) := NormalItem(codec, valueKind, entries[0])])
  {
    hide NormalKey, NormalItem;
  }

  lemma SameKeySameItem(codec: Codec, keyKind: Kind, valueKind: Kind, entries: seq<Entry>, i: nat, j: nat)
    requires Consistent(codec, keyKind, valueKind, entries) && i < j < |entries|
    ensures NormalKey(codec, keyKind, entries[i]) == NormalKey(codec, keyKind, entries[j])
            ==> NormalItem(codec, valueKind, entries[i]) == NormalItem(codec, valueKind, entries[j])
  {
    hide NormalKey, NormalItem;
  }

  lemma ConsistentTail(codec: Codec, keyKind: Kind, valueKind: Kind, entries: seq<Entry>)
    requires Consistent(codec, keyKind, valueKind, entries) && entries != []
    ensures Consistent(codec, keyKind, valueKind, entries[1..])
  {
    hide NormalKey, NormalItem;
    var rest := entries[1..];
    forall i, j | 0 <= i < j < |rest| && NormalKey(codec, keyKind, rest[i]) == NormalKey(codec, keyKind, rest[j])
      ensures NormalItem(codec, valueKind, rest[i]) == NormalItem(codec, valueKind, rest[j])
    {
      assert rest[i] == entries[i + 1] && rest[j] == entries[j + 1];
    }
  }

  /** Every entry's item is found under the entry's key. */
  lemma {:induction false} EntryFound(
      codec: Codec, keyKind: Kind, valueKind: Kind, entries: seq<Entry>, acc: map<Decoded, Decoded>, i: nat)
    requires Consistent(codec, keyKind, valueKind, entries) && i < |entries|
    ensures var m := NormalEntries(codec, keyKind, valueKind, entries, acc);
            var k := NormalKey(codec, keyKind, entries[i]);
            k in m && m[k] == NormalItem(codec, valueKind, entries[i])
  {
    hide NormalKey, NormalItem, NormalEntries, Consistent;
    var k, rest := NormalKey(codec, keyKind, entries[i]), entries[1..];
    var next := acc[NormalKey(codec, keyKind, entries[0]) := NormalItem(codec, valueKind, entries[0])];
    FirstVisited(codec, keyKind, valueKind, entries, acc);
    ConsistentTail(codec, keyKind, valueKind, entries);
    if i > 0 {
      assert rest[i - 1] == entries[i];
      EntryFound(codec, keyKind, valueKind, rest, next, i - 1);
    } else if HasKey(codec, keyKind, rest, k) {
      var j: nat :| j < |rest| && NormalKey(codec, keyKind, rest[j]) == k;
      SameKeySameItem(codec, keyKind, valueKind, entries, 0, j + 1);
      assert rest[j] == entries[j + 1];
      EntryFound(codec, keyKind, valueKind, rest, next, j);
    } else {
      OtherKeysKept(codec, keyKind, valueKind, rest, next, k);
    }
  }

  /** Every entry of one list has a counterpart in the other with the same key and item. */
  ghost predicate Covered(codec: Codec, keyKind: Kind, valueKind: Kind, one: seq<Entry>, other: seq<Entry>) {
    forall i | 0 <= i < |one| :: Counterpart(codec, keyKind, valueKind, one[i], other)
  }

  ghost predicate Counterpart(codec: Codec, keyKind: Kind, valueKind: Kind, e: Entry, other: seq<Entry>) {
    exists j | 0 <= j < |other| ::
      && NormalKey(codec, keyKind, other[j]) == NormalKey(codec, keyKind, e)
      && NormalItem(codec, valueKind, other[j]) == NormalItem(codec, valueKind, e)
  }

  lemma {:induction false} CoveredIsContained(
      codec: Codec, keyKind: Kind, valueKind: Kind, one: seq<Entry>, other: seq<Entry>)
    requires Covered(codec, keyKind, valueKind, one, other)
    requires Consistent(codec, keyKind, valueKind, one) && Consistent(codec, keyKind, valueKind, other)
    ensures var m := NormalEntries(codec, keyKind, valueKind, one, map[]);
            var n := NormalEntries(codec, keyKind, valueKind, other, map[]);
            forall k | k in m :: k in n && m[k] == n[k]
  {
    hide NormalKey, NormalItem, NormalEntries, Consistent;
    var m := NormalEntries(codec, keyKind, valueKind, one, map[]);
    var n := NormalEntries(codec, keyKind, valueKind, other, map[]);
    forall k | k in m ensures k in n && m[k] == n[k] {
      if !HasKey(codec, keyKind, one, k) {
        OtherKeysKept(codec, keyKind, valueKind, one, map[], k);
      }
      var i :| 0 <= i < |one| && NormalKey(codec, keyKind, one[i]) == k;
      EntryFound(codec, keyKind, valueKind, one, map[], i);
      assert Counterpart(codec, keyKind, valueKind, one[i], other);
      var j :| && 0 <= j < |other| && NormalKey(codec, keyKind, other[j]) == k
               && NormalItem(codec, valueKind, other[j]) == NormalItem(codec, valueKind, one[i]);
      EntryFound(codec, keyKind, valueKind, other, map[], j);
    }
  }

  /** A list whose entries all have counterparts in a consistent one is consistent itself. */
  lemma CoveredIsConsistent(codec: Codec, keyKind: Kind, valueKind: Kind, one: seq<Entry>, other: seq<Entry>)
    requires Covered(codec, keyKind, valueKind, other, one) && Consistent(codec, keyKind, valueKind, one)
    ensures Consistent(codec, keyKind, valueKind, other)
  {
    hide NormalKey, NormalItem;
    forall i, j | 0 <= i < j < |other| && NormalKey(codec, keyKind, other[i]) == NormalKey(codec, keyKind, other[j])
      ensures NormalItem(codec, valueKind, other[i]) == NormalItem(codec, valueKind, other[j])
    {
      assert Counterpart(codec, keyKind, valueKind, other[i], one)
        && Counterpart(codec, keyKind, valueKind, other[j], one);
    }
  }

  lemma SameMap(codec: Codec, keyKind: Kind, valueKind: Kind, one: seq<Entry>, other: seq<Entry>)
    requires Covered(codec, keyKind, valueKind, one, other) && Covered(codec, keyKind, valueKind, other, one)
    requires Consistent(codec, keyKind, valueKind, one)
    ensures NormalEntries(codec, keyKind, valueKind, one, map[])
         == NormalEntries(codec, keyKind, valueKind, other, map[])
  {
    hide Covered, Consistent, NormalEntries;
    CoveredIsConsistent(codec, keyKind, valueKind, one, other);
    CoveredIsContained(codec, keyKind, valueKind, one, other);
    CoveredIsContained(codec, keyKind, valueKind, other, one);
  }

  /** The entry visited last is the one that stays. */
  lemma {:induction false} LastWins(
      codec: Codec, keyKind: Kind, valueKind: Kind, entries: seq<Entry>, last: Entry, acc: map<Decoded, Decoded>)
    ensures var m := NormalEntries(codec, keyKind, valueKind, entries + [last], acc);
            var k := NormalKey(codec, keyKind, last);
            k in m && m[k] == NormalItem(codec, valueKind, last)
  {
    hide NormalKey, NormalItem;
    if entries != [] {
      assert (entries + [last])[1..] == entries[1..] + [last];
      LastWins(codec, keyKind, valueKind, entries[1..], last,
        acc[NormalKey(codec, keyKind, entries[0]) := NormalItem(codec, valueKind, entries[0])]);
    } else {
      assert entries + [last] == [last];
      assert NormalEntries(codec, keyKind, valueKind, [last][1..],
        acc[NormalKey(codec, keyKind, last) := NormalItem(codec, valueKind, last)])[NormalKey(codec, keyKind, last)]
        == NormalItem(codec, valueKind, last);
    }
  }

  /** The same entries in another order. */
  ghost predicate Permuted(one: seq<Entry>, other: seq<Entry>) { multiset(one) == multiset(other) }

  lemma PermutedIsCovered(codec: Codec, keyKind: Kind, valueKind: Kind, one: seq<Entry>, other: seq<Entry>)
    requires Permuted(one, other)
    ensures Covered(codec, keyKind, valueKind, one, other)
  {
    hide NormalKey, NormalItem;
    forall i | 0 <= i < |one| ensures Counterpart(codec, keyKind, valueKind, one[i], other) {
      assert one[i] in multiset(one) && one[i] in multiset(other);
      var j :| 0 <= j < |other| && other[j] == one[i];
    }
  }

  lemma MovedLast(entries: seq<Entry>, i: nat)
    requires i < |entries|
    ensures Permuted(entries, entries[..i] + entries[i + 1..] + [entries[i]])
  {
    assert entries == entries[..i] + [entries[i]] + entries[i + 1..];
  }

  lemma InconsistentOrdersDiffer(codec: Codec, keyKind: Kind, valueKind: Kind, entries: seq<Entry>)
    returns (other: seq<Entry>)
    requires !Consistent(codec, keyKind, valueKind, entries)
    ensures Permuted(entries, other)
    ensures NormalEntries(codec, keyKind, valueKind, other, map[])
         != NormalEntries(codec, keyKind, valueKind, entries, map[])
  {
    hide NormalKey, NormalItem, NormalEntries, Permuted;
    var i, j :| 0 <= i < j < |entries| && NormalKey(codec, keyKind, entries[i]) == NormalKey(codec, keyKind, entries[j])
                && NormalItem(codec, valueKind, entries[i]) != NormalItem(codec, valueKind, entries[j]);
    MovedLast(entries, i);
    MovedLast(entries, j);
    LastWins(codec, keyKind, valueKind, entries[..i] + entries[i + 1..], entries[i], map[]);
    LastWins(codec, keyKind, valueKind, entries[..j] + entries[j + 1..], entries[j], map[]);
    other := entries[..i] + entries[i + 1..] + [entries[i]];
    if NormalEntries(codec, keyKind, valueKind, other, map[])
       == NormalEntries(codec, keyKind, valueKind, entries, map[])
    {
      other := entries[..j] + entries[j + 1..] + [entries[j]];
    }
  }

  /** Every order of one map's entries gives the same decoded map iff the entries are consistent. */
  lemma OrderIrrelevantIffConsistent(codec: Codec, keyKind: Kind, valueKind: Kind, entries: seq<Entry>)
    ensures Consistent(codec, keyKind, valueKind, entries)
            <==> forall other | Permuted(entries, other) ::
                   NormalEntries(codec, keyKind, valueKind, other, map[])
                   == NormalEntries(codec, keyKind, valueKind, entries, map[])
  {
    hide NormalEntries, Permuted, Covered, Consistent;
    if Consistent(codec, keyKind, valueKind, entries) {
      forall other | Permuted(entries, other)
        ensures NormalEntries(codec, keyKind, valueKind, other, map[])
             == NormalEntries(codec, keyKind, valueKind, entries, map[])
      {
        PermutedBack(entries, other);
        PermutedIsCovered(codec, keyKind, valueKind, entries, other);
        PermutedIsCovered(codec, keyKind, valueKind, other, entries);
        SameMap(codec, keyKind, valueKind, entries, other);
      }
    } else {
      var other := InconsistentOrdersDiffer(codec, keyKind, valueKind, entries);
    }
  }

  lemma PermutedBack(one: seq<Entry>, other: seq<Entry>)
    requires Permuted(one, other)
    ensures Permuted(other, one)
  {
  }

  // ---- Maps at any depth

  /** The same value, except that each map inside it, however deep, may be visited in another order. */
  ghost predicate Reordered(one: Value, other: Value)
    decreases one, 1
  {
    match one
    case Fields(fields) =>
      other.Fields? && |fields| == |other.fields| && forall i | 0 <= i < |fields| ::
        other.fields[i] == fields[i].(value := other.fields[i].value)
          && Reordered(fields[i].value, other.fields[i].value)
    case Items(items) =>
      other.Items? && |items| == |other.items| && forall i | 0 <= i < |items| :: Reordered(items[i], other.items[i])
    case Entries(entries) =>
      && other.Entries?
      && (forall i | 0 <= i < |entries| :: KeptIn(entries[i], other.entries))
      && (forall j | 0 <= j < |other.entries| :: KeptFrom(entries, other.entries[j]))
    case _ => one == other
  }

  ghost predicate ReorderedEntry(one: Entry, other: Entry)
    decreases one, 1
  {
    other.key == one.key && Reordered(one.item, other.item)
  }

  ghost predicate KeptIn(e: Entry, other: seq<Entry>)
    decreases e, 2
  {
    exists j | 0 <= j < |other| :: ReorderedEntry(e, other[j])
  }

  ghost predicate KeptFrom(entries: seq<Entry>, e: Entry)
    decreases entries, 0
  {
    exists i | 0 <= i < |entries| :: ReorderedEntry(entries[i], e)
  }

  ghost predicate ReorderedFields(one: seq<Field>, other: seq<Field>) {
    Reordered(Fields(one), Fields(other))
  }

  /** Every map inside the value is consistent. */
  ghost predicate Steady(codec: Codec, value: Value, spec: Field)
    decreases value
  {
    match value
    case Fields(fields) => forall i | 0 <= i < |fields| :: Steady(codec, fields[i].value, fields[i])
    case Items(items) => forall i | 0 <= i < |items| :: Steady(codec, items[i], NO_SPEC)
    case Entries(entries) =>
      && Consistent(codec, spec.keyKind, spec.valueKind, entries)
      && forall i | 0 <= i < |entries| :: Steady(codec, entries[i].item, NO_SPEC)
    case _ => true
  }

  ghost predicate SteadyFields(codec: Codec, fields: seq<Field>) {
    Steady(codec, Fields(fields), NO_SPEC)
  }

  /** No order in which the maps inside a value are visited shows in what the peer sees. */
  lemma {:induction false} OrderIrrelevant(codec: Codec, kind: Kind, one: Value, other: Value, spec: Field)
    requires Reordered(one, other) && Steady(codec, one, spec)
    ensures Normal(codec, kind, one, spec) == Normal(codec, kind, other, spec)
    decreases one, 1
  {
    hide Utf8Valid, NormalFields, NormalItems, NormalEntries;
    if !kind.Bool? {
      match one {
        case Fields(fields) =>
          FieldOrdersIrrelevant(codec, fields, other.fields, map[]);
        case Items(items) =>
          ItemOrdersIrrelevant(codec, spec.elementKind, items, other.items);
        case Entries(entries) =>
          EntryOrdersIrrelevant(codec, spec, entries, other.entries);
        case _ =>
      }
    }
  }

  lemma {:induction false} FieldOrdersIrrelevant(
      codec: Codec, one: seq<Field>, other: seq<Field>, acc: map<i16, Decoded>)
    requires ReorderedFields(one, other) && SteadyFields(codec, one)
    ensures NormalFields(codec, one, acc) == NormalFields(codec, other, acc)
    decreases one, 0
  {
    hide Normal;
    if one != [] {
      var f, g := one[0], other[0];
      OrderIrrelevant(codec, f.kind, f.value, g.value, f);
      SpecOnly(codec, f, g);
      TailReordered(codec, one, other);
      FieldOrdersIrrelevant(codec, one[1..], other[1..], acc[f.id := NormalField(codec, f)]);
    }
  }

  lemma TailReordered(codec: Codec, one: seq<Field>, other: seq<Field>)
    requires ReorderedFields(one, other) && SteadyFields(codec, one) && one != []
    ensures ReorderedFields(one[1..], other[1..]) && SteadyFields(codec, one[1..])
  {
    assert forall i | 0 <= i < |one[1..]| :: one[1..][i] == one[i + 1] && other[1..][i] == other[i + 1];
  }

  /** Of the enclosing field only the kinds are looked at. */
  lemma SpecOnly(codec: Codec, f: Field, g: Field)
    requires g == f.(value := g.value)
    ensures Normal(codec, f.kind, g.value, f) == NormalField(codec, g)
  {
    hide NormalFields, NormalItems, NormalEntries, Utf8Valid;
  }

  lemma {:induction false} ItemOrdersIrrelevant(codec: Codec, kind: Kind, one: seq<Value>, other: seq<Value>)
    requires |one| == |other|
    requires forall i | 0 <= i < |one| :: Reordered(one[i], other[i]) && Steady(codec, one[i], NO_SPEC)
    ensures NormalItems(codec, kind, one) == NormalItems(codec, kind, other)
    decreases one, 0
  {
    hide Normal, Reordered, Steady;
    if one != [] {
      OrderIrrelevant(codec, kind, one[0], other[0], NO_SPEC);
      ItemOrdersIrrelevant(codec, kind, one[1..], other[1..]);
    }
  }

  lemma {:induction false} EntryOrdersIrrelevant(codec: Codec, spec: Field, one: seq<Entry>, other: seq<Entry>)
    requires Reordered(Entries(one), Entries(other)) && Steady(codec, Entries(one), spec)
    ensures NormalEntries(codec, spec.keyKind, spec.valueKind, one, map[])
         == NormalEntries(codec, spec.keyKind, spec.valueKind, other, map[])
    decreases one, 1
  {
    hide NormalEntries, NormalKey, NormalItem, Consistent, KeptIn, KeptFrom;
    forall i | 0 <= i < |one| ensures Counterpart(codec, spec.keyKind, spec.valueKind, one[i], other) {
      KeptIsCounterpart(codec, spec.keyKind, spec.valueKind, one[i], other);
    }
    forall j | 0 <= j < |other| ensures Counterpart(codec, spec.keyKind, spec.valueKind, other[j], one) {
      KeptHasCounterpart(codec, spec.keyKind, spec.valueKind, one, other[j]);
    }
    SameMap(codec, spec.keyKind, spec.valueKind, one, other);
  }

  lemma {:induction false} EntryOrderIrrelevant(codec: Codec, keyKind: Kind, valueKind: Kind, one: Entry, other: Entry)
    requires ReorderedEntry(one, other) && Steady(codec, one.item, NO_SPEC)
    ensures NormalKey(codec, keyKind, one) == NormalKey(codec, keyKind, other)
    ensures NormalItem(codec, valueKind, one) == NormalItem(codec, valueKind, other)
    decreases one, 2
  {
    hide Normal, Reordered, Steady;
    OrderIrrelevant(codec, valueKind, one.item, other.item, NO_SPEC);
  }

  lemma {:induction false} KeptIsCounterpart(
      codec: Codec, keyKind: Kind, valueKind: Kind, e: Entry, other: seq<Entry>)
    requires KeptIn(e, other) && Steady(codec, e.item, NO_SPEC)
    ensures Counterpart(codec, keyKind, valueKind, e, other)
    decreases e, 3
  {
    hide NormalKey, NormalItem, ReorderedEntry, Steady;
    var j :| 0 <= j < |other| && ReorderedEntry(e, other[j]);
    EntryOrderIrrelevant(codec, keyKind, valueKind, e, other[j]);
  }

  lemma {:induction false} KeptHasCounterpart(
      codec: Codec, keyKind: Kind, valueKind: Kind, one: seq<Entry>, e: Entry)
    requires KeptFrom(one, e) && forall i | 0 <= i < |one| :: Steady(codec, one[i].item, NO_SPEC)
    ensures Counterpart(codec, keyKind, valueKind, e, one)
    decreases one, 0
  {
    hide NormalKey, NormalItem, ReorderedEntry, Steady;
    var i :| 0 <= i < |one| && ReorderedEntry(one[i], e);
    EntryOrderIrrelevant(codec, keyKind, valueKind, one[i], e);
  }

  /** A call sent through the compact codec decodes to one and the same message, in whatever order
      each of its maps, nested ones included, happened to be visited. */
  lemma CompactCallsIgnoreOrder(name: Octets, one: seq<Field>, other: seq<Field>, sequence: u64)
    requires ReorderedFields(one, other) && SteadyFields(CompactCodec, one) && |name| < CompactRoundTrip.MAX_LENGTH
    requires CompactRoundTrip.SendableFields(one) && CompactRoundTrip.SendableFields(other)
    requires Compact.EncodeCall(name, one, sequence).Some? && Compact.EncodeCall(name, other, sequence).Some?
    ensures var first := Compact.ParseMessage(Compact.EncodeCall(name, one, sequence).value);
            var second := Compact.ParseMessage(Compact.EncodeCall(name, other, sequence).value);
            first.Ok? && second.Ok? && first.value == second.value
  {
    hide *;
    FieldOrdersIrrelevant(CompactCodec, one, other, map[]);
    CompactRoundTrip.CallRoundTrip(name, one, sequence, []);
    CompactRoundTrip.CallRoundTrip(name, other, sequence, []);
    NothingAfter(Compact.EncodeCall(name, one, sequence).value);
    NothingAfter(Compact.EncodeCall(name, other, sequence).value);
  }

  /** The same for the binary codec. */
  lemma BinaryCallsIgnoreOrder(name: Octets, one: seq<Field>, other: seq<Field>, sequence: u64)
    requires ReorderedFields(one, other) && SteadyFields(BinaryCodec, one) && |name| <= BinaryThrift.MAX_BYTES
    requires BinaryRoundTrip.SendableFields(one) && BinaryRoundTrip.SendableFields(other)
    requires BinaryThrift.EncodeCall(name, one, sequence).Some? && BinaryThrift.EncodeCall(name, other, sequence).Some?
    ensures var first := BinaryThrift.ParseMessage(BinaryThrift.EncodeCall(name, one, sequence).value);
            var second := BinaryThrift.ParseMessage(BinaryThrift.EncodeCall(name, other, sequence).value);
            first.Ok? && second.Ok? && first.value == second.value
  {
    hide *;
    FieldOrdersIrrelevant(BinaryCodec, one, other, map[]);
    BinaryRoundTrip.CallRoundTrip(name, one, sequence, []);
    BinaryRoundTrip.CallRoundTrip(name, other, sequence, []);
    NothingAfter(BinaryThrift.EncodeCall(name, one, sequence).value);
    NothingAfter(BinaryThrift.EncodeCall(name, other, sequence).value);
  }

  lemma NothingAfter(s: Octets)
    ensures s + [] == s
  {
  }
}
