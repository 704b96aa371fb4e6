/** Whom the ranking of module Health puts first, in terms of the counters, the ends of the cooldowns and
    the reports behind them. */
module HealthOrder {
  import opened Lists
  import opened Health

  /** A bot that nothing is held against: never recorded, or its cooldown is over. */
  predicate Rested(pool: Pool, now: int, mid: Mid) {
    mid in pool ==> now >= pool[mid].cooldownEnd
  }

  /** What was asked of it and four times what failed, as an unsigned word. */
  function Burden(value: BotHealth): int {
    (value.kick as int + value.invite as int + value.cancel as int + 4 * value.failures as int)
    % 0x1_0000_0000_0000_0000
  }

  /** The ranking names those of the bots given that are rested, or everybody if none is. */
  lemma RankedMembers(pool: Pool, now: int, clients: seq<Mid>, mid: Mid)
    ensures mid in Ranked(pool, now, clients) <==>
      mid in clients && (Rested(pool, now, mid) || forall m | m in clients :: !Rested(pool, now, m))
  {
    RankedIsReady(pool, now, clients);
    assert mid in Ranked(pool, now, clients) <==> mid in multiset(Ranked(pool, now, clients));
    assert mid in clients <==> mid in multiset(clients);
    assert forall m :: Ready(pool, now, m) == Rested(pool, now, m);
    hide Ranked, Sorted, Ready, Rested;
    if mid in clients && !Rested(pool, now, mid) {
      if exists m :: m in clients && Rested(pool, now, m) {
        assert multiset(Ranked(pool, now, clients))[mid] == 0;
      }
    }
  }

  /** Of two that are named, the earlier one is preferred or as good: recorded before never recorded; of two
      rested ones the one with less to carry; of two in cooldown the one that is out of it first, and with
      one end the one with less to carry. */
  lemma RankedOrder(pool: Pool, now: int, clients: seq<Mid>, i: nat, j: nat)
    requires i < j < |Ranked(pool, now, clients)|
    ensures var a, b := Ranked(pool, now, clients)[i], Ranked(pool, now, clients)[j];
      && (b in pool ==> a in pool)
      && (a in pool && b in pool ==>
            && (Rested(pool, now, b) ==> Rested(pool, now, a))
            && (Rested(pool, now, a) && Rested(pool, now, b) ==> Burden(pool[a]) <= Burden(pool[b]))
            && (!Rested(pool, now, a) && !Rested(pool, now, b) ==>
                  || pool[a].cooldownEnd < pool[b].cooldownEnd
                  || (pool[a].cooldownEnd == pool[b].cooldownEnd && Burden(pool[a]) <= Burden(pool[b]))))
  {
    RankedIsReady(pool, now, clients);
    var a, b := Ranked(pool, now, clients)[i], Ranked(pool, now, clients)[j];
    assert !Less(pool, now, b, a);
    hide Ranked, Sorted;
    if a in pool {
      BurdenIsLoad(pool[a]);
    }
    if b in pool {
      BurdenIsLoad(pool[b]);
    }
    hide Load, Burden;
  }

  lemma BurdenIsLoad(value: BotHealth)
    ensures Load(value) == Burden(value)
  {}

  // ---- Where a cooldown comes from

  /** The last thing known of this bot, if anything, is a success. */
  ghost predicate LastSucceeded(reports: seq<Report>, mid: Mid) {
    forall k | 0 <= k < |reports| && reports[k].mid == mid && (forall j | k < j < |reports| :: reports[j].mid != mid) ::
      reports[k].outcome == Done
  }

  lemma {:induction false} NoStreak(reports: seq<Report>, mid: Mid)
    requires LastSucceeded(reports, mid)
    ensures Known(RecordAll(map[], reports), mid).streak == 0
    decreases |reports|
  {
    if reports != [] {
      var n := |reports| - 1;
      KnownAfter(reports, mid);
      if reports[n].mid == mid {
        assert reports[n].outcome == Done;
      } else {
        var before := reports[..n];
        forall k | 0 <= k < n && before[k].mid == mid && (forall j | k < j < n :: before[j].mid != mid)
          ensures before[k].outcome == Done
        {
          assert forall j | k < j < |reports| :: j == n || reports[j] == before[j];
          assert reports[k].mid == mid;
        }
        NoStreak(before, mid);
      }
    }
    hide Recorded;
  }

  /** The seconds a bot has to wait after so many failures in a row: two, doubled with each further one up to
      64; a limit of the server's makes it half a minute at least. */
  function Seconds(failures: nat, limited: bool): int {
    var s := if failures == 1 then 2 else if failures == 2 then 4 else if failures == 3 then 8
             else if failures == 4 then 16 else if failures == 5 then 32 else 64;
    if limited && s < 30 then 30 else s
  }

  /** After any history that leaves a bot in good standing and then some failures in a row, its cooldown
      ends so long after the last of them. */
  lemma {:induction false} CooldownAfterFailures(before: seq<Report>, failures: seq<Report>, mid: Mid)
    requires LastSucceeded(before, mid) && 1 <= |failures| < 0x1_0000_0000
    requires forall k | 0 <= k < |failures| :: failures[k].mid == mid && failures[k].outcome != Done
    ensures var value, last := Known(RecordAll(map[], before + failures), mid), failures[|failures| - 1];
      && value.streak as int == |failures|
      && value.cooldownEnd == last.at + Seconds(|failures|, last.outcome == Limited) * 1_000_000_000
    decreases |failures|
  {
    hide RecordAll, Known, LastSucceeded, Recorded, Seconds;
    var n, all := |failures| - 1, before + failures;
    assert all[..|all| - 1] == before + failures[..n] && all[|all| - 1] == failures[n];
    KnownAfter(all, mid);
    if n == 0 {
      assert before + failures[..n] == before;
      NoStreak(before, mid);
    } else {
      CooldownAfterFailures(before, failures[..n], mid);
    }
    OneMoreFailure(Known(RecordAll(map[], before + failures[..n]), mid), failures[n]);
  }

  lemma OneMoreFailure(value: BotHealth, report: Report)
    requires report.outcome != Done && value.streak as int + 1 < 0x1_0000_0000
    ensures var next := Recorded(value, report);
      && next.streak as int == value.streak as int + 1
      && next.cooldownEnd
         == report.at + Seconds(value.streak as int + 1, report.outcome == Limited) * 1_000_000_000
  {}
}
