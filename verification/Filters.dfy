/** The two time filters of the guard engine: duplicate suppression with eviction, and flood
    detection over a pruned window. Time is a non-decreasing clock in nanoseconds. */
module Filters {
  const SECOND: int := 1_000_000_000
  const DUPLICATE_WINDOW: int := 10 * SECOND
  const FLOOD_WINDOW: int := 5 * SECOND
  const FLOOD_LIMIT: nat := 8

  datatype Hit = Hit(key: string, at: int)

  // ---- Duplicate suppression, without eviction

  /** When each key was last accepted; nothing is ever forgotten. */
  function LastAccepted(hits: seq<Hit>): map<string, int> {
    if hits == [] then map[]
    else
      var n := |hits| - 1;
      var last := LastAccepted(hits[..n]);
      if Accepts(last, hits[n]) && hits[n].key != "" then last[hits[n].key := hits[n].at] else last
  }

  /** An empty key is never a duplicate and is not remembered. */
  predicate Accepts(last: map<string, int>, hit: Hit) {
    hit.key != "" && hit.key in last ==> hit.at >= last[hit.key] + DUPLICATE_WINDOW
  }

  predicate Accepted(hits: seq<Hit>, i: nat)
    requires i < |hits|
  {
    Accepts(LastAccepted(hits[..i]), hits[i])
  }

  ghost predicate Ordered(hits: seq<Hit>) {
    forall i, j | 0 <= i <= j < |hits| :: hits[i].at <= hits[j].at
  }

  /** What is remembered for a key is the time of some accepted hit on it. */
  lemma {:induction false} LastIsAccepted(hits: seq<Hit>, key: string) returns (i: nat)
    requires key in LastAccepted(hits)
    ensures i < |hits| && hits[i] == Hit(key, LastAccepted(hits)[key]) && key != "" && Accepted(hits, i)
  {
    var n := |hits| - 1;
    var before := hits[..n];
    if Accepts(LastAccepted(before), hits[n]) && hits[n].key == key != "" {
      i := n;
    } else {
      i := LastIsAccepted(before, key);
      assert before[..i] == hits[..i];
    }
  }

  /** And no accepted hit on the key is later than that. */
  lemma {:induction false} AcceptedIsRemembered(hits: seq<Hit>, i: nat)
    requires Ordered(hits) && i < |hits| && hits[i].key != "" && Accepted(hits, i)
    ensures hits[i].key in LastAccepted(hits) && LastAccepted(hits)[hits[i].key] >= hits[i].at
  {
    var n := |hits| - 1;
    if i < n {
      var before := hits[..n];
      assert before[..i] == hits[..i];
      AcceptedIsRemembered(before, i);
    }
  }

  /** Two accepted hits on one key are at least ten seconds apart. */
  lemma AcceptedApart(hits: seq<Hit>, i: nat, j: nat)
    requires Ordered(hits) && i < j < |hits|
    requires Accepted(hits, i) && Accepted(hits, j) && hits[i].key == hits[j].key != ""
    ensures hits[j].at - hits[i].at >= 10_000_000_000
  {
    hide LastAccepted;
    var before := hits[..j];
    assert before[..i] == hits[..i];
    AcceptedIsRemembered(before, i);
  }

  /** And a hit is rejected exactly when an accepted one on its key came less than that before; without
      a key it never is. */
  lemma RejectedIffRecent(hits: seq<Hit>, j: nat)
    requires Ordered(hits) && j < |hits|
    ensures !Accepted(hits, j) <==>
      hits[j].key != "" && exists i: nat | i < j ::
        Accepted(hits, i) && hits[i].key == hits[j].key && hits[j].at - hits[i].at < 10_000_000_000
  {
    hide LastAccepted;
    var before := hits[..j];
    if hits[j].key == "" {
      return;
    }
    if !Accepted(hits, j) {
      var i := LastIsAccepted(before, hits[j].key);
      assert before[..i] == hits[..i];
      assert Accepted(hits, i);
    } else {
      forall i: nat | i < j && Accepted(hits, i) && hits[i].key == hits[j].key
        ensures hits[j].at - hits[i].at >= 10_000_000_000
      {
        AcceptedApart(hits, i, j);
      }
    }
  }

  /** The eviction sweep: what is left of a table of expiry times. */
  function Unexpired(seen: map<string, int>, now: int): map<string, int> {
    map k | k in seen && now <= seen[k] :: seen[k]
  }

  /** The table says what the full history says, except that long-expired keys may be missing. */
  ghost predicate Mirrors(seen: map<string, int>, hits: seq<Hit>, clock: int) {
    MirrorsMap(seen, LastAccepted(hits), clock)
  }

  ghost predicate MirrorsMap(seen: map<string, int>, last: map<string, int>, clock: int) {
    && (forall k | k in seen :: k in last && seen[k] == last[k] + DUPLICATE_WINDOW)
    && (forall k | k in last && k !in seen :: last[k] + DUPLICATE_WINDOW < clock)
  }

  /** Eviction never changes a decision, whatever the key. */
  lemma EvictionIsInvisible(seen: map<string, int>, hits: seq<Hit>, clock: int, hit: Hit)
    requires Mirrors(seen, hits, clock) && clock <= hit.at
    ensures Mirrors(Unexpired(seen, hit.at), hits, hit.at)
    ensures hit.key != "" ==>
      Accepts(LastAccepted(hits), hit) ==
      !(hit.key in Unexpired(seen, hit.at) && hit.at < Unexpired(seen, hit.at)[hit.key])
  {
    hide LastAccepted;
  }

  lemma LastAcceptedNext(hits: seq<Hit>, hit: Hit)
    ensures (hits + [hit])[..|hits|] == hits
    ensures LastAccepted(hits + [hit]) ==
      if Accepts(LastAccepted(hits), hit) && hit.key != ""
      then LastAccepted(hits)[hit.key := hit.at] else LastAccepted(hits)
  {
    assert (hits + [hit])[..|hits|] == hits;
  }

  lemma EmptyKeyIsForgotten(seen: map<string, int>, hits: seq<Hit>, clock: int, hit: Hit)
    requires Mirrors(seen, hits, clock) && clock <= hit.at && hit.key == ""
    ensures Accepts(LastAccepted(hits), hit) && Mirrors(seen, hits + [hit], hit.at)
  {
    assert (hits + [hit])[..|hits|] == hits;
  }

  lemma MirrorsNext(seen: map<string, int>, hits: seq<Hit>, hit: Hit)
    requires Mirrors(seen, hits, hit.at) && hit.key != ""
    ensures (hits + [hit])[..|hits|] == hits
    ensures Accepts(LastAccepted(hits), hit) ==>
              Mirrors(seen[hit.key := hit.at + DUPLICATE_WINDOW], hits + [hit], hit.at)
    ensures !Accepts(LastAccepted(hits), hit) ==> Mirrors(seen, hits + [hit], hit.at)
  {
    hide LastAccepted, Accepts, MirrorsMap;
    LastAcceptedNext(hits, hit);
    MirrorsStored(seen, LastAccepted(hits), hit);
  }

  lemma MirrorsStored(seen: map<string, int>, last: map<string, int>, hit: Hit)
    requires MirrorsMap(seen, last, hit.at)
    ensures MirrorsMap(seen[hit.key := hit.at + DUPLICATE_WINDOW], last[hit.key := hit.at], hit.at)
  {
  }

  class DuplicateFilter {
    var seen: map<string, int>
    ghost var hits: seq<Hit>
    ghost var clock: int

    /** `seen` holds expiry times; a key missing from it expired before the clock. */
    ghost predicate Valid()
      reads this
    {
      Ordered(hits) && (forall h | h in hits :: h.at <= clock) && Mirrors(seen, hits, clock)
    }

    constructor ()
      ensures Valid() && hits == []
    {
      seen, hits, clock := map[], [], 0;
    }

    /** One sweep over the table in whatever order the runtime iterates it. */
    method Evict(now: int)
      modifies `seen
      ensures seen == Unexpired(old(seen), now)
    {
      ghost var start := seen;
      var todo := seen.Keys;
      while todo != {}
        invariant todo <= seen.Keys <= start.Keys
        invariant forall k | k in seen :: seen[k] == start[k]
        invariant forall k | k in start :: k in todo || (k in seen <==> now <= start[k])
        decreases todo
      {
        var current :| current in todo;
        if now > seen[current] {
          seen := seen - {current};
        }
        todo := todo - {current};
      }
    }

    /** Evicts what has expired, then decides; the answer is that of the filter that never forgets. */
    method Duplicate(key: string, now: int) returns (duplicate: bool)
      requires Valid() && clock <= now
      modifies this
      ensures Valid() && clock == now && hits == old(hits) + [Hit(key, now)]
      ensures duplicate == !Accepted(hits, |hits| - 1)
    {
      hide LastAccepted, Unexpired, Mirrors, Accepts;
      ghost var hit, before := Hit(key, now), hits;
      EvictionIsInvisible(seen, before, clock, hit);
      assert (before + [hit])[..|before|] == before;
      if key == "" {
        EmptyKeyIsForgotten(seen, before, clock, hit);
        hits, clock := before + [hit], now;
        return false;
      }
      Evict(now);
      MirrorsNext(seen, before, hit);
      hits, clock := before + [hit], now;
      if key in seen && now < seen[key] {
        return true;
      }
      seen := seen[key := now + DUPLICATE_WINDOW];
      return false;
    }
  }

  // ---- Flood detection

  /** The messages strictly within the window before `now`. */
  function Recent(events: seq<int>, now: int): seq<int> {
    if events == [] then []
    else (if events[0] > now - FLOOD_WINDOW then [events[0]] else []) + Recent(events[1..], now)
  }

  lemma {:induction false} RecentSnoc(events: seq<int>, last: int, now: int)
    ensures Recent(events + [last], now) == Recent(events, now) + (if last > now - FLOOD_WINDOW then [last] else [])
  {
    if events == [] {
      assert [] + [last] == [last];
    } else {
      assert (events + [last])[1..] == events[1..] + [last];
      RecentSnoc(events[1..], last, now);
    }
  }

  /** Pruning early loses nothing that a later pruning would have kept. */
  lemma {:induction false} RecentOfRecent(events: seq<int>, earlier: int, now: int)
    requires earlier <= now
    ensures Recent(Recent(events, earlier), now) == Recent(events, now)
  {
    if events != [] {
      RecentOfRecent(events[1..], earlier, now);
      var rest := Recent(events[1..], earlier);
      if events[0] > earlier - FLOOD_WINDOW {
        assert ([events[0]] + rest)[1..] == rest;
      } else {
        assert [] + rest == rest;
      }
    }
  }

  /** The pruning loop works on the array it reads: entries still in the window move to the front in
      order, and none is overwritten before it has been looked at. */
  method PruneInPlace(events: array<int>, length: nat, now: int) returns (kept: nat)
    requires length <= events.Length
    modifies events
    ensures kept <= length && events[..kept] == Recent(old(events[..length]), now)
  {
    hide Recent;
    var cutoff := now - FLOOD_WINDOW;
    kept := 0;
    RecentEmpty(now);
    for i := 0 to length
      invariant kept <= i
      invariant events[..kept] == Recent(old(events[..i]), now)
      invariant events[i..] == old(events[i..])
    {
      assert events[i] == events[i..][0] == old(events[i]);
      assert old(events[..i + 1]) == old(events[..i]) + [old(events[i])];
      RecentSnoc(old(events[..i]), old(events[i]), now);
      if events[i] > cutoff {
        events[kept] := events[i];
        kept := kept + 1;
      }
      assert events[i + 1..] == old(events[i..])[1..];
    }
  }

  /** Those counted are the messages of the last five seconds. */
  lemma {:induction false} RecentMeans(events: seq<int>, now: int, k: nat)
    requires k <= |events| && forall i | 0 <= i < |events| :: i >= k <==> events[i] > now - 5_000_000_000
    ensures Recent(events, now) == events[k..]
  {
    if events != [] {
      var rest := events[1..];
      RecentMeans(rest, now, if k == 0 then 0 else k - 1);
      if k == 0 {
        assert events == [events[0]] + rest && rest[0..] == rest;
      } else {
        assert rest[k - 1..] == events[k..];
        assert [] + rest[k - 1..] == events[k..];
      }
    }
  }

  lemma RecentEmpty(now: int)
    ensures Recent([], now) == []
  {}

  class FloodFilter {
    /** The messages still counted are the first `count` entries. */
    const events: array<int>
    var count: nat
    /** Every message since the last trigger. */
    ghost var history: seq<int>
    ghost var clock: int

    ghost predicate Valid()
      reads this, events
    {
      events.Length == FLOOD_LIMIT && count < FLOOD_LIMIT && events[..count] == Recent(history, clock)
    }

    constructor ()
      ensures Valid() && history == [] && fresh(events)
    {
      events := new int[FLOOD_LIMIT];
      count, history, clock := 0, [], 0;
    }

    /** Fires exactly when this message is the eighth since the last trigger within the window; the
        pruned list is always what the full history would give. */
    method Message(now: int) returns (flooded: bool)
      requires Valid() && clock <= now
      modifies this, events
      ensures Valid() && clock == now
      ensures flooded == (|Recent(old(history) + [now], now)| >= 8)
      ensures flooded ==> |Recent(old(history) + [now], now)| == 8 && history == []
      ensures !flooded ==> history == old(history) + [now]
    {
      hide Recent;
      RecentSnoc(history, now, now);
      RecentOfRecent(history, clock, now);
      var kept := PruneInPlace(events, count, now);
      events[kept] := now;
      assert events[..kept + 1] == Recent(history, now) + [now];
      count, clock := kept + 1, now;
      flooded := count >= FLOOD_LIMIT;
      if flooded {
        RecentEmpty(now);
        count, history := 0, [];
      } else {
        history := history + [now];
      }
    }
  }
}
