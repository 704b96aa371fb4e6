/** The list operations the guard store is built from: lists of member IDs without repetitions. */
module Lists {
  type Mid = string

  predicate NoDuplicates(values: seq<Mid>) {
    forall i, j | 0 <= i < j < |values| :: values[i] != values[j]
  }

  /** A list as every store list should be: no member twice, and not the empty ID. */
  predicate Clean(values: seq<Mid>) {
    NoDuplicates(values) && "" !in values
  }

  predicate Disjoint(a: seq<Mid>, b: seq<Mid>) {
    forall x | x in a :: x !in b
  }

  function AppendUnique(values: seq<Mid>, target: Mid): (r: seq<Mid>)
    ensures forall x :: x in r <==> x in values || (x == target && target != "")
    ensures Clean(values) ==> Clean(r)
  {
    if target != "" && target !in values then values + [target] else values
  }

  function UniqueFrom(values: seq<Mid>, acc: seq<Mid>): seq<Mid> {
    if values == [] then acc else UniqueFrom(values[1..], AppendUnique(acc, values[0]))
  }

  function Unique(values: seq<Mid>): seq<Mid> { UniqueFrom(values, []) }

  function Without(values: seq<Mid>, target: Mid): seq<Mid> {
    if values == [] then []
    else if values[0] != target then [values[0]] + Without(values[1..], target)
    else Without(values[1..], target)
  }

  function WithoutAll(values: seq<Mid>, targets: seq<Mid>): seq<Mid>
    decreases targets
  {
    if targets == [] then values else WithoutAll(Without(values, targets[0]), targets[1..])
  }

  // ---- What they keep

  lemma {:induction false} UniqueFromContents(values: seq<Mid>, acc: seq<Mid>)
    requires Clean(acc)
    ensures Clean(UniqueFrom(values, acc))
    ensures forall x :: x in UniqueFrom(values, acc) <==> x in acc || (x in values && x != "")
  {
    if values != [] {
      UniqueFromContents(values[1..], AppendUnique(acc, values[0]));
    }
  }

  /** A clean list is left alone, order and all. */
  lemma {:induction false} UniqueFromClean(values: seq<Mid>, acc: seq<Mid>)
    requires Clean(acc + values)
    ensures UniqueFrom(values, acc) == acc + values
  {
    if values == [] {
      assert acc + [] == acc;
    } else {
      assert (acc + values)[|acc|] == values[0];
      assert forall i | 0 <= i < |acc| :: (acc + values)[i] == acc[i];
      assert acc + values == acc + [values[0]] + values[1..];
      assert AppendUnique(acc, values[0]) == acc + [values[0]];
      UniqueFromClean(values[1..], acc + [values[0]]);
    }
  }

  lemma UniqueContents(values: seq<Mid>)
    ensures Clean(Unique(values))
    ensures forall x :: x in Unique(values) <==> x in values && x != ""
    ensures Clean(values) ==> Unique(values) == values
  {
    UniqueFromContents(values, []);
    if Clean(values) {
      assert [] + values == values;
      UniqueFromClean(values, []);
    }
  }

  lemma {:induction false} WithoutContents(values: seq<Mid>, target: Mid)
    ensures forall x :: x in Without(values, target) <==> x in values && x != target
    ensures NoDuplicates(values) ==> NoDuplicates(Without(values, target))
    ensures target !in values ==> Without(values, target) == values
  {
    if values != [] {
      var rest := Without(values[1..], target);
      WithoutContents(values[1..], target);
      if NoDuplicates(values) {
        assert forall i | 0 <= i < |values[1..]| :: values[1..][i] == values[i + 1];
        assert NoDuplicates(values[1..]) && values[0] !in values[1..];
        FrontedStaysDistinct(values[0], rest);
      }
    }
  }

  lemma FrontedStaysDistinct(front: Mid, rest: seq<Mid>)
    requires NoDuplicates(rest) && front !in rest
    ensures NoDuplicates([front] + rest)
  {
  }

  lemma {:induction false} WithoutAllContents(values: seq<Mid>, targets: seq<Mid>)
    ensures forall x :: x in WithoutAll(values, targets) <==> x in values && x !in targets
    ensures NoDuplicates(values) ==> NoDuplicates(WithoutAll(values, targets))
    ensures Disjoint(values, targets) ==> WithoutAll(values, targets) == values
    decreases targets
  {
    if targets != [] {
      WithoutContents(values, targets[0]);
      WithoutAllContents(Without(values, targets[0]), targets[1..]);
    }
  }

  // ---- The loops

  method UniqueOf(values: seq<Mid>) returns (result: seq<Mid>)
    ensures result == Unique(values)
  {
    result := [];
    for i := 0 to |values|
      invariant UniqueFrom(values[i..], result) == Unique(values)
    {
      assert values[i..][1..] == values[i + 1..];
      result := AppendUnique(result, values[i]);
    }
  }

  lemma {:induction false} WithoutSnoc(values: seq<Mid>, last: Mid, target: Mid)
    ensures Without(values + [last], target) == Without(values, target) + (if last != target then [last] else [])
  {
    if values == [] {
      assert [] + [last] == [last];
    } else {
      assert (values + [last])[1..] == values[1..] + [last];
      WithoutSnoc(values[1..], last, target);
    }
  }

  lemma {:induction false} WithoutShorter(values: seq<Mid>, target: Mid)
    ensures |Without(values, target)| <= |values|
  {
    if values != [] {
      WithoutShorter(values[1..], target);
    }
  }

  /** Compaction in place, over the array the slice shares with its caller: survivors move to the
      front in order, and no element is overwritten before it has been looked at. */
  method RemoveInPlace(values: array<Mid>, length: nat, target: Mid) returns (kept: nat)
    requires length <= values.Length
    modifies values
    ensures kept <= length && values[..kept] == Without(old(values[..length]), target)
    ensures values[length..] == old(values[length..])
  {
    kept := 0;
    for i := 0 to length
      invariant kept <= i
      invariant values[..kept] == Without(old(values[..i]), target)
      invariant values[i..] == old(values[i..])
    {
      assert values[i] == values[i..][0] == old(values[i]);
      assert old(values[..i + 1]) == old(values[..i]) + [old(values[i])];
      WithoutSnoc(old(values[..i]), old(values[i]), target);
      if values[i] != target {
        values[kept] := values[i];
        kept := kept + 1;
      }
      assert values[i + 1..] == old(values[i..])[1..];
    }
  }
}
