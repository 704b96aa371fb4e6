/** Health records of the bots and the order in which the guard prefers them. Times are nanoseconds;
    the counters wrap as unsigned machine words. */
module Health {
  import opened Lists

  const SECOND: int := 1_000_000_000
  const WORD: int := 0x1_0000_0000_0000_0000
  const HALF_WORD: int := 0x1_0000_0000

  type U64 = n: nat | n < WORD
  type U32 = n: nat | n < HALF_WORD

  datatype BotHealth = BotHealth(kick: U64, invite: U64, cancel: U64, success: U64, failures: U64,
                                 streak: U32, cooldownEnd: int)

  type Pool = map<Mid, BotHealth>

  // ---- Recording outcomes

  datatype Action = Kick | Invite | Cancel
  datatype Outcome = Done | Failed | Limited
  datatype Report = Report(mid: Mid, action: Action, outcome: Outcome, at: int)

  /** The zero time lies before every clock reading the pool sees. */
  const NEVER: int := -62_135_596_800 * SECOND

  function Fresh(): BotHealth {
    BotHealth(0, 0, 0, 0, 0, 0, NEVER)
  }

  function Known(pool: Pool, mid: Mid): BotHealth {
    if mid in pool then pool[mid] else Fresh()
  }

  function Bumped(n: U64): U64 {
    (n + 1) % WORD
  }

  /** Two to the power of the streak, capped at 64 seconds. */
  function Backoff(streak: U32): int {
    if streak == 0 then 1 else if streak == 1 then 2 else if streak == 2 then 4 else if streak == 3 then 8
    else if streak == 4 then 16 else if streak == 5 then 32 else 64
  }

  function Delay(streak: U32, outcome: Outcome): int {
    SECOND * (if outcome == Limited && Backoff(streak) < 30 then 30 else Backoff(streak))
  }

  function Recorded(value: BotHealth, report: Report): BotHealth {
    var counted := match report.action
      case Kick => value.(kick := Bumped(value.kick))
      case Invite => value.(invite := Bumped(value.invite))
      case Cancel => value.(cancel := Bumped(value.cancel));
    if report.outcome == Done then counted.(success := Bumped(value.success), streak := 0)
    else
      var streak: U32 := (value.streak as int + 1) % HALF_WORD;
      counted.(failures := Bumped(value.failures), streak := streak,
        cooldownEnd := report.at + Delay(streak, report.outcome))
  }

  function RecordAll(pool: Pool, reports: seq<Report>): Pool {
    if reports == [] then pool
    else
      var before := RecordAll(pool, reports[..|reports| - 1]);
      var last := reports[|reports| - 1];
      before[last.mid := Recorded(Known(before, last.mid), last)]
  }

  /** How many of the last reports on this bot failed in a row. */
  function TrailingFailures(reports: seq<Report>, mid: Mid): nat {
    if reports == [] then 0
    else
      var last := reports[|reports| - 1];
      var before := TrailingFailures(reports[..|reports| - 1], mid);
      if last.mid != mid then before else if last.outcome == Done then 0 else before + 1
  }

  function CountReports(reports: seq<Report>, mid: Mid): nat {
    if reports == [] then 0
    else CountReports(reports[..|reports| - 1], mid) + (if reports[|reports| - 1].mid == mid then 1 else 0)
  }

  function CountFailures(reports: seq<Report>, mid: Mid): nat {
    if reports == [] then 0
    else
      var last := reports[|reports| - 1];
      CountFailures(reports[..|reports| - 1], mid) + (if last.mid == mid && last.outcome != Done then 1 else 0)
  }

  function Total(value: BotHealth): int {
    value.kick as int + value.invite as int + value.cancel as int + value.failures as int * 4
  }

  /** What orders two ready bots. */
  function Load(value: BotHealth): U64 {
    Total(value) % WORD
  }

  /** After any history, the streak is the trailing run of failures, and the load charges one for
      every report and four more for every failed one. */
  lemma {:induction false} RecordsOverRuns(reports: seq<Report>, mid: Mid)
    ensures Known(RecordAll(map[], reports), mid).streak == TrailingFailures(reports, mid) % HALF_WORD
    ensures Load(Known(RecordAll(map[], reports), mid)) ==
            (CountReports(reports, mid) + 4 * CountFailures(reports, mid)) % WORD
  {
    if reports != [] {
      var n := |reports| - 1;
      var before := reports[..n];
      RecordsOverRuns(before, mid);
      var value := Known(RecordAll(map[], before), mid);
      KnownAfter(reports, mid);
      if reports[n].mid == mid {
        hide RecordAll, Known, Load;
        LoadStep(value, reports[n]);
        StreakStep(TrailingFailures(before, mid));
        StreakRecorded(value, reports[n]);
        hide Recorded;
        AddMod(Load(value), CountReports(before, mid) + 4 * CountFailures(before, mid),
               if reports[n].outcome == Done then 1 else 5);
      }
    }
  }

  lemma KnownAfter(reports: seq<Report>, mid: Mid)
    requires reports != []
    ensures var n := |reports| - 1;
            var value := Known(RecordAll(map[], reports[..n]), mid);
            Known(RecordAll(map[], reports), mid)
            == if reports[n].mid == mid then Recorded(value, reports[n]) else value
  {
    hide Recorded;
  }

  lemma StreakRecorded(value: BotHealth, report: Report)
    ensures Recorded(value, report).streak as int
         == if report.outcome == Done then 0 else (value.streak + 1) % HALF_WORD
  {
  }

  lemma StreakStep(n: nat)
    ensures (n % HALF_WORD + 1) % HALF_WORD == (n + 1) % HALF_WORD
  {}

  lemma AddMod(a: int, b: int, d: int)
    requires a == b % WORD
    ensures (a + d) % WORD == (b + d) % WORD
  {}

  lemma LoadStep(value: BotHealth, report: Report)
    ensures Load(Recorded(value, report)) == (Load(value) as int + (if report.outcome == Done then 1 else 5)) % WORD
  {
    hide Recorded, Wraps, Total;
    var d := if report.outcome == Done then 1 else 5;
    TotalStep(value, report);
    ModShift(Total(value) + d, Wraps(value, report));
    AddMod(Load(value), Total(value), d);
  }

  lemma TotalStep(value: BotHealth, report: Report)
    ensures Total(Recorded(value, report)) ==
            Total(value) + (if report.outcome == Done then 1 else 5) - Wraps(value, report) * WORD
  {
    hide Delay;
    assert forall n: U64 :: Bumped(n) == if n as int == WORD - 1 then 0 else n as int + 1;
    hide Bumped;
  }

  /** How many words' worth the counters lose by wrapping in this step. */
  function Wraps(value: BotHealth, report: Report): int {
    var counter := match report.action
      case Kick => value.kick
      case Invite => value.invite
      case Cancel => value.cancel;
    (if counter as int == WORD - 1 then 1 else 0)
      + (if report.outcome != Done && value.failures as int == WORD - 1 then 4 else 0)
  }

  lemma ModShift(a: int, k: int)
    ensures (a - k * WORD) % WORD == a % WORD
  {
    var q, r := a / WORD, a % WORD;
    assert a - k * WORD == (q - k) * WORD + r;
  }

  // ---- The order

  predicate Cooling(value: BotHealth, now: int) {
    now < value.cooldownEnd
  }

  /** The comparator handed to the stable sort. */
  predicate Less(pool: Pool, now: int, a: Mid, b: Mid) {
    if a !in pool || b !in pool then a in pool
    else if Cooling(pool[a], now) != Cooling(pool[b], now) then !Cooling(pool[a], now)
    else if pool[a].cooldownEnd != pool[b].cooldownEnd && Cooling(pool[a], now) then
      pool[a].cooldownEnd < pool[b].cooldownEnd
    else Load(pool[a]) < Load(pool[b])
  }

  /** What the comparator really compares: ready bots first, then cooling ones, then unknown ones;
      cooling ones by when they end; ties by load. */
  datatype Standing = Standing(tier: nat, until: int, load: nat)

  function StandingOf(pool: Pool, now: int, mid: Mid): Standing {
    if mid !in pool then Standing(2, 0, 0)
    else if Cooling(pool[mid], now) then Standing(1, pool[mid].cooldownEnd, Load(pool[mid]))
    else Standing(0, 0, Load(pool[mid]))
  }

  predicate Before(a: Standing, b: Standing) {
    a.tier < b.tier || (a.tier == b.tier && (a.until < b.until || (a.until == b.until && a.load < b.load)))
  }

  lemma LessIsByStanding(pool: Pool, now: int, a: Mid, b: Mid)
    ensures Less(pool, now, a, b) == Before(StandingOf(pool, now, a), StandingOf(pool, now, b))
  {
    hide Load;
  }

  /** What a sort may ask of a comparator: a strict weak order. */
  lemma LessIsStrictWeakOrder(pool: Pool, now: int, a: Mid, b: Mid, c: Mid)
    ensures !Less(pool, now, a, a)
    ensures Less(pool, now, a, b) ==> !Less(pool, now, b, a)
    ensures Less(pool, now, a, b) && Less(pool, now, b, c) ==> Less(pool, now, a, c)
    ensures !Less(pool, now, a, b) && !Less(pool, now, b, a) && !Less(pool, now, b, c) && !Less(pool, now, c, b) ==>
      !Less(pool, now, a, c) && !Less(pool, now, c, a)
  {
    hide Less, StandingOf;
    forall x, y | x in {a, b, c} && y in {a, b, c}
      ensures Less(pool, now, x, y) == Before(StandingOf(pool, now, x), StandingOf(pool, now, y))
    {
      LessIsByStanding(pool, now, x, y);
    }
  }

  // ---- Stable sorting

  predicate Sorted(pool: Pool, now: int, s: seq<Mid>) {
    forall i, j | 0 <= i < j < |s| :: !Less(pool, now, s[j], s[i])
  }

  /** The members of `s` with one standing, in the order of `s`. */
  function Tied(pool: Pool, now: int, s: seq<Mid>, standing: Standing): seq<Mid> {
    if s == [] then []
    else (if StandingOf(pool, now, s[0]) == standing then [s[0]] else []) + Tied(pool, now, s[1..], standing)
  }

  /** What a stable sort promises: sorted, and ties left in the order they came in. */
  ghost predicate StablySorts(pool: Pool, now: int, s: seq<Mid>, t: seq<Mid>) {
    Sorted(pool, now, t) && forall standing :: Tied(pool, now, t, standing) == Tied(pool, now, s, standing)
  }

  function Insert(pool: Pool, now: int, x: Mid, s: seq<Mid>): seq<Mid> {
    if s == [] || !Less(pool, now, s[0], x) then [x] + s else [s[0]] + Insert(pool, now, x, s[1..])
  }

  function StableSorted(pool: Pool, now: int, s: seq<Mid>): seq<Mid> {
    if s == [] then [] else Insert(pool, now, s[0], StableSorted(pool, now, s[1..]))
  }

  lemma {:induction false} InsertKeeps(pool: Pool, now: int, x: Mid, s: seq<Mid>)
    ensures multiset(Insert(pool, now, x, s)) == multiset(s) + multiset{x}
  {
    hide Less;
    if s != [] && Less(pool, now, s[0], x) {
      InsertKeeps(pool, now, x, s[1..]);
      assert s == [s[0]] + s[1..];
    }
  }

  lemma SortedCons(pool: Pool, now: int, first: Mid, s: seq<Mid>)
    requires Sorted(pool, now, s) && forall m | m in s :: !Less(pool, now, m, first)
    ensures Sorted(pool, now, [first] + s)
  {
    hide Less;
  }

  lemma {:induction false} InsertSorted(pool: Pool, now: int, x: Mid, s: seq<Mid>)
    requires Sorted(pool, now, s)
    ensures Sorted(pool, now, Insert(pool, now, x, s))
  {
    hide Less, StandingOf;
    if s != [] {
      if Less(pool, now, s[0], x) {
        var rest := Insert(pool, now, x, s[1..]);
        InsertSorted(pool, now, x, s[1..]);
        InsertKeeps(pool, now, x, s[1..]);
        LessIsStrictWeakOrder(pool, now, s[0], x, x);
        forall m | m in rest
          ensures !Less(pool, now, m, s[0])
        {
          assert m in multiset(rest);
          assert m == x || m in s[1..];
        }
        SortedCons(pool, now, s[0], rest);
      } else {
        LessIsStrictWeakOrder(pool, now, s[0], x, x);
        forall m | m in s
          ensures !Less(pool, now, m, x)
        {
          NotLessIsTransitive(pool, now, m, s[0], x);
        }
        SortedCons(pool, now, x, s);
      }
    }
  }

  lemma NotLessIsTransitive(pool: Pool, now: int, a: Mid, b: Mid, c: Mid)
    requires !Less(pool, now, b, c) && (a == b || !Less(pool, now, a, b))
    ensures !Less(pool, now, a, c)
  {
    hide StandingOf, Less;
    LessIsByStanding(pool, now, b, c);
    LessIsByStanding(pool, now, a, b);
    LessIsByStanding(pool, now, a, c);
  }

  lemma TiedStep(pool: Pool, now: int, t: seq<Mid>, standing: Standing)
    requires t != []
    ensures var rest := Tied(pool, now, t[1..], standing);
            Tied(pool, now, t, standing) == if StandingOf(pool, now, t[0]) == standing then [t[0]] + rest else rest
    ensures StandingOf(pool, now, t[0]) == standing ==>
      Tied(pool, now, t, standing)[1..] == Tied(pool, now, t[1..], standing)
  {
    hide StandingOf;
  }

  lemma TiedCons(pool: Pool, now: int, x: Mid, s: seq<Mid>, standing: Standing)
    ensures var rest := Tied(pool, now, s, standing);
            Tied(pool, now, [x] + s, standing) == if StandingOf(pool, now, x) == standing then [x] + rest else rest
  {
    hide StandingOf;
    assert ([x] + s)[1..] == s;
  }

  lemma {:induction false} InsertTied(pool: Pool, now: int, x: Mid, s: seq<Mid>, standing: Standing)
    ensures Tied(pool, now, Insert(pool, now, x, s), standing) == Tied(pool, now, [x] + s, standing)
  {
    hide Less, StandingOf;
    if s != [] && Less(pool, now, s[0], x) {
      InsertTied(pool, now, x, s[1..], standing);
      LessIsByStanding(pool, now, s[0], x);
      TiedCons(pool, now, s[0], Insert(pool, now, x, s[1..]), standing);
      TiedCons(pool, now, s[0], s[1..], standing);
      TiedCons(pool, now, x, s[1..], standing);
      TiedCons(pool, now, x, s, standing);
      assert [s[0]] + s[1..] == s;
      hide Tied;
    }
  }

  lemma {:induction false} StableSortedStablySorts(pool: Pool, now: int, s: seq<Mid>)
    ensures StablySorts(pool, now, s, StableSorted(pool, now, s))
    ensures multiset(StableSorted(pool, now, s)) == multiset(s)
  {
    hide Less, StandingOf, Insert;
    if s != [] {
      var t := StableSorted(pool, now, s[1..]);
      StableSortedStablySorts(pool, now, s[1..]);
      InsertSorted(pool, now, s[0], t);
      InsertKeeps(pool, now, s[0], t);
      assert s == [s[0]] + s[1..] && ([s[0]] + t)[1..] == t;
      forall standing
        ensures Tied(pool, now, Insert(pool, now, s[0], t), standing) == Tied(pool, now, s, standing)
      {
        InsertTied(pool, now, s[0], t, standing);
      }
    }
  }

  lemma {:induction false} TiedHas(pool: Pool, now: int, s: seq<Mid>, k: nat)
    requires k < |s|
    ensures s[k] in Tied(pool, now, s, StandingOf(pool, now, s[k]))
  {
    hide StandingOf;
    if k > 0 {
      TiedHas(pool, now, s[1..], k - 1);
    }
  }

  lemma {:induction false} TiedFrom(pool: Pool, now: int, s: seq<Mid>, standing: Standing, x: Mid) returns (k: nat)
    requires x in Tied(pool, now, s, standing)
    ensures k < |s| && s[k] == x && StandingOf(pool, now, x) == standing
  {
    hide StandingOf;
    if StandingOf(pool, now, s[0]) == standing && s[0] == x {
      k := 0;
    } else {
      var rest := TiedFrom(pool, now, s[1..], standing, x);
      k := rest + 1;
    }
  }

  /** In a sorted sequence the first element stands no later than any element of a rearrangement. */
  lemma FirstIsLeast(pool: Pool, now: int, t: seq<Mid>, u: seq<Mid>)
    requires t != [] && u != [] && Sorted(pool, now, u)
    requires Tied(pool, now, t, StandingOf(pool, now, t[0])) == Tied(pool, now, u, StandingOf(pool, now, t[0]))
    ensures !Before(StandingOf(pool, now, t[0]), StandingOf(pool, now, u[0]))
  {
    hide StandingOf, Less, Tied;
    TiedHas(pool, now, t, 0);
    var k := TiedFrom(pool, now, u, StandingOf(pool, now, t[0]), t[0]);
    LessIsByStanding(pool, now, u[k], u[0]);
    LessIsStrictWeakOrder(pool, now, u[0], u[0], u[0]);
  }

  /** There is only one stable sort, whatever algorithm the library uses. */
  /** A list with nobody tied is empty. */
  lemma NobodyTied(pool: Pool, now: int, t: seq<Mid>, u: seq<Mid>)
    requires t == [] || u == []
    requires forall standing :: Tied(pool, now, t, standing) == Tied(pool, now, u, standing)
    ensures t == u
  {
    hide StandingOf;
    if t != [] {
      TiedHead(pool, now, t);
    } else if u != [] {
      TiedHead(pool, now, u);
    }
  }

  lemma TiedHead(pool: Pool, now: int, s: seq<Mid>)
    requires s != []
    ensures Tied(pool, now, s, StandingOf(pool, now, s[0])) != []
    ensures Tied(pool, now, s, StandingOf(pool, now, s[0]))[0] == s[0]
  {
    hide StandingOf;
  }

  lemma {:induction false} StableSortIsUnique(pool: Pool, now: int, s: seq<Mid>, t: seq<Mid>, u: seq<Mid>)
    requires StablySorts(pool, now, s, t) && StablySorts(pool, now, s, u)
    ensures t == u
    decreases |t|
  {
    hide StandingOf, Less, Tied;
    assert forall standing :: Tied(pool, now, t, standing) == Tied(pool, now, u, standing);
    if t == [] || u == [] {
      NobodyTied(pool, now, t, u);
    } else {
      FirstIsLeast(pool, now, t, u);
      FirstIsLeast(pool, now, u, t);
      var least := StandingOf(pool, now, t[0]);
      assert least == StandingOf(pool, now, u[0]);
      TiedHead(pool, now, t);
      TiedHead(pool, now, u);
      forall standing
        ensures Tied(pool, now, u[1..], standing) == Tied(pool, now, t[1..], standing)
      {
        TiedTail(pool, now, t, u, standing);
      }
      StableSortIsUnique(pool, now, t[1..], t[1..], u[1..]);
    }
  }

  lemma TiedTail(pool: Pool, now: int, t: seq<Mid>, u: seq<Mid>, standing: Standing)
    requires t != [] && u != [] && t[0] == u[0]
    requires Tied(pool, now, t, standing) == Tied(pool, now, u, standing)
    ensures Tied(pool, now, u[1..], standing) == Tied(pool, now, t[1..], standing)
  {
    TiedStep(pool, now, t, standing);
    TiedStep(pool, now, u, standing);
    hide StandingOf, Tied;
  }

  // ---- Ranking

  predicate Ready(pool: Pool, now: int, mid: Mid) {
    mid !in pool || !Cooling(pool[mid], now)
  }

  function OnlyReady(pool: Pool, now: int, s: seq<Mid>): seq<Mid> {
    if s == [] then []
    else OnlyReady(pool, now, s[..|s| - 1]) + (if Ready(pool, now, s[|s| - 1]) then [s[|s| - 1]] else [])
  }

  lemma NoneReady(pool: Pool, now: int)
    ensures OnlyReady(pool, now, []) == []
  {}

  lemma OnlyReadySnoc(pool: Pool, now: int, s: seq<Mid>, i: nat)
    requires i < |s|
    ensures OnlyReady(pool, now, s[..i + 1])
         == OnlyReady(pool, now, s[..i]) + (if Ready(pool, now, s[i]) then [s[i]] else [])
  {
    hide Ready;
    assert s[..i + 1][..i] == s[..i];
  }

  function Ranked(pool: Pool, now: int, clients: seq<Mid>): seq<Mid> {
    var result := StableSorted(pool, now, clients);
    if OnlyReady(pool, now, result) != [] then OnlyReady(pool, now, result) else result
  }

  lemma {:induction false} OnlyReadyOf(pool: Pool, now: int, s: seq<Mid>)
    ensures forall m :: m in OnlyReady(pool, now, s) <==> m in s && Ready(pool, now, m)
    ensures forall m :: multiset(OnlyReady(pool, now, s))[m] == if Ready(pool, now, m) then multiset(s)[m] else 0
  {
    hide Ready;
    if s != [] {
      OnlyReadyOf(pool, now, s[..|s| - 1]);
      assert s == s[..|s| - 1] + [s[|s| - 1]];
    }
  }

  lemma SortedSnoc(pool: Pool, now: int, s: seq<Mid>, last: Mid)
    requires Sorted(pool, now, s) && forall m | m in s :: !Less(pool, now, last, m)
    ensures Sorted(pool, now, s + [last])
  {
    hide Less;
  }

  lemma {:induction false} OnlyReadySorted(pool: Pool, now: int, s: seq<Mid>)
    requires Sorted(pool, now, s)
    ensures Sorted(pool, now, OnlyReady(pool, now, s))
  {
    hide Ready, Less;
    if s != [] {
      var n := |s| - 1;
      var kept := OnlyReady(pool, now, s[..n]);
      OnlyReadySorted(pool, now, s[..n]);
      OnlyReadyOf(pool, now, s[..n]);
      assert forall m | m in kept :: m in s[..n];
      forall m | m in kept
        ensures !Less(pool, now, s[n], m)
      {
        var k :| 0 <= k < n && s[k] == m;
      }
      SortedSnoc(pool, now, kept, s[n]);
    }
  }

  /** The ranking of a non-empty fleet is non-empty, keeps every ready bot as often as it came and no
      cooling one, unless all are cooling; and it is sorted by the comparator. */
  lemma RankedIsReady(pool: Pool, now: int, clients: seq<Mid>)
    ensures Ranked(pool, now, clients) == [] <==> clients == []
    ensures (exists m :: m in clients && Ready(pool, now, m)) ==>
      forall m :: multiset(Ranked(pool, now, clients))[m] == if Ready(pool, now, m) then multiset(clients)[m] else 0
    ensures !(exists m :: m in clients && Ready(pool, now, m)) ==>
      multiset(Ranked(pool, now, clients)) == multiset(clients)
    ensures Sorted(pool, now, Ranked(pool, now, clients))
    ensures forall m :: m in Ranked(pool, now, clients) ==> m in clients
  {
    hide Ready, Less, StableSorted, OnlyReady;
    var result := StableSorted(pool, now, clients);
    StableSortedStablySorts(pool, now, clients);
    OnlyReadyOf(pool, now, result);
    OnlyReadySorted(pool, now, result);
    SameMembers(result, clients);
    if OnlyReady(pool, now, result) != [] {
      assert OnlyReady(pool, now, result)[0] in OnlyReady(pool, now, result);
    }
  }

  /** Filtering leaves ties in order, too: every standing that is kept at all is kept as it came. */
  lemma RankedStably(pool: Pool, now: int, clients: seq<Mid>, standing: Standing)
    ensures (standing.tier != 1 || forall m | m in clients :: !Ready(pool, now, m)) ==>
      Tied(pool, now, Ranked(pool, now, clients), standing) == Tied(pool, now, clients, standing)
    ensures standing.tier == 1 && (exists m :: m in clients && Ready(pool, now, m)) ==>
      Tied(pool, now, Ranked(pool, now, clients), standing) == []
  {
    hide Ready, Less, StableSorted, OnlyReady, Tied, StandingOf;
    var result := StableSorted(pool, now, clients);
    StableSortedStablySorts(pool, now, clients);
    OnlyReadyOf(pool, now, result);
    OnlyReadyTied(pool, now, result, standing);
    SameMembers(result, clients);
    assert OnlyReady(pool, now, result) != [] ==> OnlyReady(pool, now, result)[0] in OnlyReady(pool, now, result);
    assert forall m | m in clients && Ready(pool, now, m) :: m in OnlyReady(pool, now, result);
  }

  lemma ReadyByTier(pool: Pool, now: int, mid: Mid)
    ensures Ready(pool, now, mid) <==> StandingOf(pool, now, mid).tier != 1
  {}

  lemma {:induction false} TiedSnoc(pool: Pool, now: int, s: seq<Mid>, last: Mid, standing: Standing)
    ensures Tied(pool, now, s + [last], standing) ==
            Tied(pool, now, s, standing) + (if StandingOf(pool, now, last) == standing then [last] else [])
  {
    hide StandingOf;
    if s == [] {
      assert [] + [last] == [last];
    } else {
      assert (s + [last])[1..] == s[1..] + [last];
      TiedSnoc(pool, now, s[1..], last, standing);
    }
  }

  lemma {:induction false} OnlyReadyTied(pool: Pool, now: int, s: seq<Mid>, standing: Standing)
    ensures Tied(pool, now, OnlyReady(pool, now, s), standing)
         == if standing.tier != 1 then Tied(pool, now, s, standing) else []
  {
    hide StandingOf, Ready;
    if s != [] {
      var n := |s| - 1;
      OnlyReadyTied(pool, now, s[..n], standing);
      assert s == s[..n] + [s[n]];
      TiedSnoc(pool, now, s[..n], s[n], standing);
      TiedSnoc(pool, now, OnlyReady(pool, now, s[..n]), s[n], standing);
      ReadyByTier(pool, now, s[n]);
      assert OnlyReady(pool, now, s[..n]) + [] == OnlyReady(pool, now, s[..n]);
      hide Tied;
    }
  }

  lemma Twice(s: seq<Mid>, i: nat, j: nat)
    requires i < j < |s| && s[i] == s[j]
    ensures multiset(s)[s[i]] >= 2
  {
    assert s == s[..i] + [s[i]] + s[i + 1..j] + [s[j]] + s[j + 1..];
  }

  lemma {:induction false} AtMostOnce(s: seq<Mid>, m: Mid)
    requires NoDuplicates(s)
    ensures multiset(s)[m] <= 1
  {
    if s != [] {
      var n := |s| - 1;
      assert s == s[..n] + [s[n]];
      AtMostOnce(s[..n], m);
      assert m in multiset(s[..n]) <==> m in s[..n];
    }
  }

  lemma RankedDistinct(pool: Pool, now: int, clients: seq<Mid>)
    requires NoDuplicates(clients)
    ensures NoDuplicates(Ranked(pool, now, clients))
  {
    hide Ranked, Ready;
    var ranked := Ranked(pool, now, clients);
    RankedIsReady(pool, now, clients);
    forall i, j | 0 <= i < j < |ranked|
      ensures ranked[i] != ranked[j]
    {
      if ranked[i] == ranked[j] {
        Twice(ranked, i, j);
        AtMostOnce(clients, ranked[i]);
      }
    }
  }

  // ---- Ranking a set of bots

  predicate Usable(pool: Pool, now: int, candidates: set<Mid>, mid: Mid) {
    mid in candidates && (Ready(pool, now, mid) || forall m | m in candidates :: !Ready(pool, now, m))
  }

  /** `ranked` lists the ready candidates, or all if none is ready, each once and best first. */
  ghost predicate Ranks(pool: Pool, now: int, candidates: set<Mid>, ranked: seq<Mid>) {
    && NoDuplicates(ranked) && Sorted(pool, now, ranked)
    && forall m :: m in ranked <==> Usable(pool, now, candidates, m)
  }

  /** `mid` is usable and no usable candidate is preferred to it. */
  ghost predicate Best(pool: Pool, now: int, candidates: set<Mid>, mid: Mid) {
    Usable(pool, now, candidates, mid) && forall m | Usable(pool, now, candidates, m) :: !Less(pool, now, m, mid)
  }

  lemma RankedRanks(pool: Pool, now: int, candidates: set<Mid>, listed: seq<Mid>)
    requires NoDuplicates(listed) && forall m :: m in listed <==> m in candidates
    ensures Ranks(pool, now, candidates, Ranked(pool, now, listed))
    ensures candidates != {} ==>
              Ranked(pool, now, listed) != [] && Best(pool, now, candidates, Ranked(pool, now, listed)[0])
  {
    hide Ready, Less, Ranked;
    var ranked := Ranked(pool, now, listed);
    RankedIsReady(pool, now, listed);
    RankedDistinct(pool, now, listed);
    forall m
      ensures m in ranked <==> Usable(pool, now, candidates, m)
    {
      assert m in ranked <==> m in multiset(ranked);
      assert m in listed <==> m in multiset(listed);
    }
    if candidates != {} {
      var m :| m in candidates;
      assert m in listed;
      HeadIsBest(pool, now, candidates, ranked);
    }
  }

  lemma HeadIsBest(pool: Pool, now: int, candidates: set<Mid>, ranked: seq<Mid>)
    requires Ranks(pool, now, candidates, ranked) && ranked != []
    ensures Best(pool, now, candidates, ranked[0])
  {
    hide Ready, Less, Usable;
    assert ranked[0] in ranked;
    forall m | Usable(pool, now, candidates, m)
      ensures !Less(pool, now, m, ranked[0])
    {
      var k :| 0 <= k < |ranked| && ranked[k] == m;
      LessIsStrictWeakOrder(pool, now, m, m, m);
    }
  }

  /** What is recorded of one bot does not move the others. */
  lemma RecordLeavesOthers(pool: Pool, report: Report, now: int, candidates: set<Mid>, ranked: seq<Mid>)
    requires report.mid !in candidates && Ranks(RecordAll(pool, [report]), now, candidates, ranked)
    ensures Ranks(pool, now, candidates, ranked)
  {
    assert [report][..0] == [];
    var after := RecordAll(pool, [report]);
    hide RecordAll, Recorded;
    assert forall m | m in candidates :: (m in pool <==> m in after) && (m in pool ==> pool[m] == after[m]);
    assert forall m | m in candidates :: Ready(pool, now, m) == Ready(after, now, m);
    assert forall a, b | a in candidates && b in candidates :: Less(pool, now, a, b) == Less(after, now, a, b);
    hide Less, Ready;
    assert forall m :: Usable(pool, now, candidates, m) == Usable(after, now, candidates, m);
    forall i | 0 <= i < |ranked|
      ensures ranked[i] in candidates
    {
      assert ranked[i] in ranked;
    }
  }

  lemma SameMembers(s: seq<Mid>, t: seq<Mid>)
    requires multiset(s) == multiset(t)
    ensures forall m :: m in s <==> m in t
    ensures s == [] <==> t == []
  {
    assert |s| == |multiset(s)| == |multiset(t)| == |t|;
    forall m
      ensures m in s <==> m in t
    {
      assert m in s <==> m in multiset(s);
      assert m in t <==> m in multiset(t);
    }
  }

  /** A bot whose latest report failed is passed over for the next two seconds while any other is
      ready; after hitting a limit, for thirty. */
  lemma FailedBotIsPassedOver(pool: Pool, report: Report, now: int, clients: seq<Mid>)
    requires report.outcome != Done && Known(pool, report.mid).streak as int + 1 < HALF_WORD
    requires report.at <= now < report.at + (if report.outcome == Limited then 30 else 2) * SECOND
    requires exists m :: m in clients && m != report.mid && Ready(pool, now, m)
    ensures report.mid !in Ranked(pool[report.mid := Recorded(Known(pool, report.mid), report)], now, clients)
  {
    hide Ranked, Load;
    var after := pool[report.mid := Recorded(Known(pool, report.mid), report)];
    RankedIsReady(after, now, clients);
    var m :| m in clients && m != report.mid && Ready(pool, now, m);
    assert Ready(after, now, m) && !Ready(after, now, report.mid);
    assert multiset(Ranked(after, now, clients))[report.mid] == 0;
    assert report.mid !in multiset(Ranked(after, now, clients));
  }

  class HealthPool {
    var bots: Pool

    constructor ()
      ensures bots == map[]
    {
      bots := map[];
    }

    method Register(mid: Mid)
      modifies this
      ensures bots == if mid in old(bots) then old(bots) else old(bots)[mid := Fresh()]
    {
      if mid !in bots {
        bots := bots[mid := Fresh()];
      }
    }

    method Record(report: Report)
      modifies this
      ensures bots == RecordAll(old(bots), [report])
    {
      assert [report][..0] == [];
      var value := Known(bots, report.mid);
      match report.action {
        case Kick => value := value.(kick := (value.kick as int + 1) % WORD);
        case Invite => value := value.(invite := (value.invite as int + 1) % WORD);
        case Cancel => value := value.(cancel := (value.cancel as int + 1) % WORD);
      }
      if report.outcome == Done {
        value := value.(success := (value.success as int + 1) % WORD, streak := 0);
      } else {
        value := value.(failures := (value.failures as int + 1) % WORD);
        value := value.(streak := (value.streak as int + 1) % HALF_WORD);
        var delay := Backoff(value.streak) * SECOND;
        if report.outcome == Limited && delay < 30 * SECOND {
          delay := 30 * SECOND;
        }
        value := value.(cooldownEnd := report.at + delay);
      }
      bots := bots[report.mid := value];
    }

    /** The filter writes over the front of the array it reads: ready bots move up in order, and none is
        overwritten before it has been looked at. Without a ready bot nothing is written. */
    method KeepReady(ranked: array<Mid>, now: int) returns (ready: nat)
      modifies ranked
      ensures ready <= ranked.Length && ranked[..ready] == OnlyReady(bots, now, old(ranked[..]))
      ensures ready == 0 ==> ranked[..] == old(ranked[..])
    {
      hide Ready, OnlyReady;
      ghost var all := ranked[..];
      NoneReady(bots, now);
      ready := 0;
      for i := 0 to ranked.Length
        invariant ready <= i
        invariant ranked[..ready] == OnlyReady(bots, now, all[..i])
        invariant ranked[i..] == all[i..]
        invariant ready == 0 ==> ranked[..] == all
      {
        assert ranked[i] == ranked[i..][0] == all[i];
        OnlyReadySnoc(bots, now, all, i);
        var current := ranked[i];
        if Ready(bots, now, current) {
          ranked[ready] := current;
          ready := ready + 1;
        }
        assert ranked[i + 1..] == all[i..][1..];
      }
      assert all[..ranked.Length] == all;
    }

    /** Copies, sorts, then filters in place over the front of the same buffer. */
    method Rank(clients: seq<Mid>, now: int) returns (ranked: seq<Mid>)
      ensures ranked == Ranked(bots, now, clients)
    {
      hide StableSorted, OnlyReady;
      var sorted := StableSorted(bots, now, clients);
      var result := new Mid[|sorted|](i requires 0 <= i < |sorted| => sorted[i]);
      assert result[..] == sorted;
      var ready := KeepReady(result, now);
      if ready > 0 {
        return result[..ready];
      }
      return result[..];
    }
  }
}
