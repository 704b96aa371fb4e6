/** Whom the guard may remove and when: the decisions of its event handlers as predicates on the store,
    and why each is safe. In a `World`, what kicks, cancellations and invitations come to is by bot
    (`answers`, `cancels`, `invites`), `replies` are by target and `batches` by batch number. */
module GuardRules {
  import opened Options
  import opened Lists
  import opened GuardState
  import Health
  import KickAll

  /** What a bot's attempt at an action comes to; only the last two reach the server's action. */
  datatype Answer = LookupFailed | NotInside | Refused | Granted

  datatype Cause = Automatic | BotDefence | BlacklistCommand | KickCommand
  datatype Deed = Kick | Cancel | Invite

  /** One request actually sent, with the store as it stood. */
  datatype Emission = Emission(deed: Deed, bot: Mid, group: Gid, targets: seq<Mid>, cause: Cause, state: State)

  /** What one event meets outside the store: the clock, remote answers, whether the event is a
      duplicate, whether saving, accepting and closing succeed, and for bot defence whether this bot is
      selected and the defence already completed. */
  datatype World = World(
    now: int, answers: Mid -> Answer, cancels: Mid -> Answer, invites: Mid -> Answer, duplicate: bool, saved: bool,
    accepted: bool, selected: bool, completed: bool, closes: bool, roster: Option<seq<Mid>>, joins: Mid -> bool,
    replies: Mid -> Answer, batches: nat -> Answer, shuffle: seq<Mid> -> seq<Mid>)

  /** A shuffle rearranges. */
  ghost predicate Fair(w: World) {
    forall s :: multiset(w.shuffle(s)) == multiset(s)
  }

  /** What the guard reacts to: a bot coming online, operations from the server, messages, the commands
      that remove people, recovery and startup, war coming on, the commands on its temporary records,
      and any other command to the store. */
  datatype Event =
    | Connect(client: Mid, reserve: bool)
    | Operation(kind: int, param1: string, param2: string, param3: string, mids: seq<Mid>)
    | Message(group: Gid, from: Mid, allMention: bool, flooded: bool)
    | Blacklist(group: Gid, actor: Mid, target: Mid)
    | KickOne(group: Gid, actor: Mid, target: Mid)
    | KickEveryone(group: Gid, actor: Mid)
    | Recovery(group: Gid)
    | Startup(group: Gid, memberList: seq<Mid>, viewers: seq<Mid>)
    | StartWar(group: Gid, actor: Mid, duration: int)
    | AutoWar(group: Gid, until: int, reason: string)
    | Quarantine(group: Gid, actor: Mid, target: Mid)
    | Pardon(group: Gid, actor: Mid, target: Mid)
    | ClearWar(group: Gid, actor: Mid)
    | Change(command: Command)

  predicate Sent(answer: Answer) {
    answer.Refused? || answer.Granted?
  }

  // ---- Who may be removed

  /** A kick never names a bot; only bot defence and the blacklist command may name an Admin or above;
      a kick command names plain users only. */
  predicate SafeTarget(s: State, group: Gid, cause: Cause, target: Mid) {
    && target !in s.bots
    && match cause
       case Automatic => RoleOf(s, group, target).Rank() <= GAdmin.Rank()
       case KickCommand => RoleOf(s, group, target) == User
       case BotDefence => true
       case BlacklistCommand => true
  }

  predicate Safe(e: Emission) {
    e.deed.Kick? ==> forall m | m in e.targets :: SafeTarget(e.state, e.group, e.cause, m)
  }

  ghost predicate AllSafe(trace: seq<Emission>) {
    forall e | e in trace :: Safe(e)
  }

  lemma SafeSnoc(trace: seq<Emission>, e: Emission)
    requires AllSafe(trace) && Safe(e)
    ensures AllSafe(trace + [e])
  {}

  // ---- The decisions

  predicate IsUser(s: State, group: Gid, mid: Mid) {
    mid !in s.bots && RoleOf(s, group, mid) == User
  }

  /** An inviter the guard lets through; a GAdmin may not bring in a bot. */
  predicate MayInvite(s: State, group: Gid, inviter: Mid, invited: seq<Mid>) {
    && (inviter in s.bots || RoleOf(s, group, inviter).Rank() >= GAdmin.Rank())
    && (RoleOf(s, group, inviter) == GAdmin ==> forall m | m in invited :: m !in s.bots)
  }

  function FirstCreator(s: State): Mid {
    if s.creators == [] then "" else s.creators[0]
  }

  /** War mode as a handler sees it; a war past its end reads as off although its lock still shows. */
  function WarSeen(s: State, group: Gid, now: int): War {
    var war := WarOf(s, group);
    var shown := if war.level == 0 then war.(level := 2) else war;
    if war.enabled && war.until > 0 && now >= war.until then shown.(enabled := false) else shown
  }

  function AfterWar(s: State, group: Gid, now: int): State {
    var war := WarOf(s, group);
    if war.enabled && war.until > 0 && now >= war.until then Apply(s, ExpireWar(group)) else s
  }

  /** What declaring war sets; the end is kept in whole milliseconds. */
  function Declared(actor: Mid, duration: int, now: int): War -> War {
    (war: War) =>
      war.(enabled := true, until := (now + duration) / 1_000_000 * 1_000_000, startedBy := actor, reason := "manual")
  }

  predicate WarProtected(s: State, group: Gid, mid: Mid) {
    mid in s.bots || RoleOf(s, group, mid) != User || mid in WarOf(s, group).whitelist
  }

  /** Whether the actor of a kick of `target`, not a bot, is to be removed for it. */
  predicate RemovesKicker(s: State, group: Gid, actor: Mid, target: Mid, war: War) {
    IsUser(s, group, actor) &&
    if RoleOf(s, group, target).Rank() >= Owner.Rank() then ProtectionOf(s, group).kick
    else ProtectionOf(s, group).kick || (war.enabled && war.level >= 2)
  }

  /** Whether a removed account is invited back. */
  predicate RestoresTarget(s: State, group: Gid, actor: Mid, target: Mid) {
    RoleOf(s, group, target).Rank() >= Owner.Rank() && RoleOf(s, group, actor) != Creator && actor !in s.bots
  }

  /** Whether a cancellation gets its actor removed. */
  predicate RemovesCanceller(s: State, group: Gid, actor: Mid, war: War) {
    IsUser(s, group, actor) && (ProtectionOf(s, group).cancel || war.enabled)
  }

  predicate RemovesOpener(s: State, group: Gid, actor: Mid, war: War) {
    IsUser(s, group, actor) && (ProtectionOf(s, group).qr || war.enabled || war.locked)
  }

  predicate RemovesInviter(s: State, group: Gid, inviter: Mid, invited: seq<Mid>, war: War) {
    && (ProtectionOf(s, group).invite || war.enabled || war.locked)
    && !MayInvite(s, group, inviter, invited) && CanKick(s, group, FirstCreator(s), inviter)
  }

  /** What the choice of a bot looks at: health, clock, connected bots and known memberships. */
  datatype Scene = Scene(pool: Health.Pool, now: int, clients: set<Mid>, members: set<(Gid, Mid)>)

  /** The connected bots, but the excluded one, known to be in the group. */
  function Inside(scene: Scene, group: Gid, excluded: Mid): set<Mid> {
    set m | m in scene.clients && m != excluded && (group, m) in scene.members
  }

  /** Whether the guard has a bot to act with. */
  predicate HasProtector(scene: Scene, group: Gid, excluded: Mid, fallback: Mid) {
    fallback != excluded || Inside(scene, group, excluded) != {}
  }

  /** The best bot inside; failing any, the one that received the event. */
  ghost predicate Protects(scene: Scene, group: Gid, excluded: Mid, fallback: Mid, bot: Mid) {
    if Inside(scene, group, excluded) == {} then bot == fallback != excluded
    else Health.Best(scene.pool, scene.now, Inside(scene, group, excluded), bot)
  }

  /** Nothing, or one report on this bot, was recorded. */
  ghost predicate OneReport(before: Health.Pool, after: Health.Pool, bot: Mid) {
    after == before || exists report: Health.Report :: report.mid == bot && after == Health.RecordAll(before, [report])
  }

  /** The bots that try to eject somebody: the first, and unless it is granted the kick all usable
      others inside, best first. */
  ghost predicate TriedInOrder(scene: Scene, group: Gid, answers: Mid -> Answer, tried: seq<Mid>) {
    tried != [] &&
    if answers(tried[0]).Granted? then |tried| == 1
    else Health.Ranks(scene.pool, scene.now, Inside(scene, group, tried[0]), tried[1..])
  }

  /** An ejection by a protector and those after it. */
  ghost predicate Ejection(
      scene: Scene, group: Gid, excluded: Mid, fallback: Mid, answers: Mid -> Answer, tried: seq<Mid>)
  {
    TriedInOrder(scene, group, answers, tried) && Protects(scene, group, excluded, fallback, tried[0])
  }

  /** What they send: one kick each, until one is granted. */
  function Tries(bots: seq<Mid>, group: Gid, actor: Mid, s: State, answers: Mid -> Answer): seq<Emission> {
    if bots == [] then []
    else
      (if Sent(answers(bots[0])) then [Emission(Kick, bots[0], group, [actor], Automatic, s)] else [])
      + (if answers(bots[0]).Granted? then [] else Tries(bots[1..], group, actor, s, answers))
  }

  lemma {:induction false} TriesAppend(
      a: seq<Mid>, b: seq<Mid>, group: Gid, actor: Mid, s: State, answers: Mid -> Answer)
    requires forall i | 0 <= i < |a| :: !answers(a[i]).Granted?
    ensures Tries(a + b, group, actor, s, answers)
         == Tries(a, group, actor, s, answers) + Tries(b, group, actor, s, answers)
  {
    if a == [] {
      assert a + b == b;
    } else {
      var rest, first := a[1..], FirstKick(a[0], group, actor, s, answers);
      TriesCons(a, group, actor, s, answers);
      TriesCons(a + b, group, actor, s, answers);
      hide Tries, FirstKick;
      assert (a + b)[1..] == rest + b && (a + b)[0] == a[0];
      TriesAppend(rest, b, group, actor, s, answers);
      Associative(first, Tries(rest, group, actor, s, answers), Tries(b, group, actor, s, answers));
    }
  }

  lemma Associative(a: seq<Emission>, b: seq<Emission>, c: seq<Emission>)
    ensures a + (b + c) == (a + b) + c
  {
  }

  function FirstKick(bot: Mid, group: Gid, actor: Mid, s: State, answers: Mid -> Answer): seq<Emission> {
    if Sent(answers(bot)) then [Emission(Kick, bot, group, [actor], Automatic, s)] else []
  }

  lemma TriesCons(bots: seq<Mid>, group: Gid, actor: Mid, s: State, answers: Mid -> Answer)
    requires bots != [] && !answers(bots[0]).Granted?
    ensures Tries(bots, group, actor, s, answers)
         == FirstKick(bots[0], group, actor, s, answers) + Tries(bots[1..], group, actor, s, answers)
  {
  }

  lemma TriesStart(bots: seq<Mid>, group: Gid, actor: Mid, s: State, answers: Mid -> Answer)
    ensures bots[0..] == bots && Tries([], group, actor, s, answers) == [] && bots[|bots|..] == []
  {}

  lemma TriesStep(bots: seq<Mid>, i: nat, group: Gid, actor: Mid, s: State, answers: Mid -> Answer)
    requires i < |bots|
    ensures Tries(bots[i..], group, actor, s, answers) ==
            (if Sent(answers(bots[i])) then [Emission(Kick, bots[i], group, [actor], Automatic, s)] else [])
            + (if answers(bots[i]).Granted? then [] else Tries(bots[i + 1..], group, actor, s, answers))
  {
    assert bots[i..][1..] == bots[i + 1..];
  }

  /** The kicks of an ejection are sent: the protector's own first, if it gets through to the server. */
  lemma FirstTry(tried: seq<Mid>, group: Gid, actor: Mid, s: State, answers: Mid -> Answer)
    requires tried != [] && Sent(answers(tried[0]))
    ensures Tries(tried, group, actor, s, answers) != []
    ensures Tries(tried, group, actor, s, answers)[0] == Emission(Kick, tried[0], group, [actor], Automatic, s)
  {
    hide Sent;
  }

  predicate RemovesJoiner(s: State, group: Gid, joined: Mid, w: World, quarantine: map<(Gid, Mid), int>) {
    var war := WarSeen(s, group, w.now);
    && group != "" && joined != ""
    && ((joined in s.blacklist && !w.duplicate)
        || (war.enabled && !war.dryRun && IsUser(s, group, joined) && joined !in war.whitelist
            && (war.level >= 3 || ((group, joined) in quarantine && w.now < quarantine[(group, joined)]))))
  }

  // ---- Why they are safe

  lemma UserIsSafe(s: State, group: Gid, mid: Mid)
    requires IsUser(s, group, mid)
    ensures SafeTarget(s, group, Automatic, mid) && SafeTarget(s, group, KickCommand, mid)
  {}

  /** An automatic ejection of an inviter spares bots and Admins; this needs the store invariant, for a
      GAdmin that is also a bot would be let through to the ejection. */
  lemma InviterIsSafe(s: State, group: Gid, inviter: Mid, invited: seq<Mid>)
    requires Inv(s) && !MayInvite(s, group, inviter, invited)
    ensures SafeTarget(s, group, Automatic, inviter)
  {
    if RoleOf(s, group, inviter) == GAdmin {
      assert group in s.groups;
      assert Disjoint(GAdmins(s, group), Protected(s));
    }
  }

  /** Without the invariant it fails: a bot on the GAdmin list inviting a bot. */
  lemma InviterNeedsInvariant()
    ensures exists s: State, group: Gid, inviter: Mid, invited: seq<Mid> ::
      !MayInvite(s, group, inviter, invited) && CanKick(s, group, FirstCreator(s), inviter)
      && !SafeTarget(s, group, Automatic, inviter)
  {
    var s := State(["c"], [], [], [], ["b"], map["g" := Some(EMPTY_ROOM.(gadmins := ["b"]))]);
    assert GAdmins(s, "g") == ["b"];
    assert RoleOf(s, "g", "b") == GAdmin && RoleOf(s, "g", "c") == Creator;
    assert "b" in ["b"];
    assert !MayInvite(s, "g", "b", ["b"]) && CanKick(s, "g", FirstCreator(s), "b")
      && !SafeTarget(s, "g", Automatic, "b");
  }

  /** Every kick driven by the blacklist is safe because the invariant keeps the blacklist apart. */
  lemma BlacklistedIsSafe(s: State, group: Gid, mid: Mid)
    requires Inv(s) && mid in s.blacklist
    ensures SafeTarget(s, group, Automatic, mid)
  {
    assert mid !in Protected(s);
  }

  lemma ActiveWar(s: State, group: Gid, now: int)
    requires WarSeen(s, group, now).enabled
    ensures AfterWar(s, group, now) == s && WarSeen(s, group, now).whitelist == WarOf(s, group).whitelist
  {}

  lemma WarExpiryChangesNoRole(s: State, group: Gid, now: int)
    requires Inv(s)
    ensures var t := AfterWar(s, group, now);
      && Inv(t) && t.bots == s.bots && t.blacklist == s.blacklist && t.creators == s.creators
      && (forall g, mid :: RoleOf(t, g, mid) == RoleOf(s, g, mid))
      && (forall g :: ProtectionOf(t, g) == ProtectionOf(s, g))
  {
    var war := WarOf(s, group);
    if war.enabled && war.until > 0 && now >= war.until {
      if Allowed(s, ExpireWar(group)) {
        SettingsStep(s, ExpireWar(group));
      }
    }
    hide Inv;
  }

  lemma BlacklistingIsSafe(s: State, group: Gid, mid: Mid)
    requires SafeTarget(s, group, Automatic, mid)
    ensures SafeTarget(Apply(s, AutoBlacklist(group, mid)), group, Automatic, mid)
  {
    BlacklistingChangesNoRole(s, group, mid);
  }

  lemma BlacklistingChangesNoRole(s: State, group: Gid, mid: Mid)
    ensures var t := Apply(s, AutoBlacklist(group, mid));
      && t.bots == s.bots && t.creators == s.creators && forall g, m :: RoleOf(t, g, m) == RoleOf(s, g, m)
  {}

  /** Which of the invited are blacklisted. */
  function BlockedOf(blacklist: seq<Mid>, invited: seq<Mid>): seq<Mid> {
    if invited == [] then []
    else
      BlockedOf(blacklist, invited[..|invited| - 1])
      + (if invited[|invited| - 1] in blacklist then [invited[|invited| - 1]] else [])
  }

  lemma {:induction false} BlockedAreBlacklisted(blacklist: seq<Mid>, invited: seq<Mid>)
    ensures forall m :: m in BlockedOf(blacklist, invited) <==> m in invited && m in blacklist
  {
    if invited != [] {
      BlockedAreBlacklisted(blacklist, invited[..|invited| - 1]);
      assert invited == invited[..|invited| - 1] + [invited[|invited| - 1]];
    }
  }

  method Blocked(blacklist: seq<Mid>, invited: seq<Mid>) returns (blocked: seq<Mid>)
    ensures blocked == BlockedOf(blacklist, invited)
  {
    blocked := [];
    for i := 0 to |invited|
      invariant blocked == BlockedOf(blacklist, invited[..i])
    {
      assert invited[..i + 1][..i] == invited[..i];
      if invited[i] in blacklist {
        blocked := blocked + [invited[i]];
      }
    }
    assert invited[..|invited|] == invited;
  }

  /** The invitation a privileged account gets back. */
  function Reinvites(restores: bool, bot: Mid, group: Gid, target: Mid, s: State, answer: Answer): seq<Emission> {
    if restores && Sent(answer) then [Emission(Invite, bot, group, [target], Automatic, s)] else []
  }

  /** What judging an invitation sends before any ejection: the blacklisted invitations of a permitted
      inviter, or all invitations of another, are cancelled. */
  function Cancels(s: State, bot: Mid, group: Gid, inviter: Mid, invited: seq<Mid>, answer: Answer): seq<Emission> {
    var targets := if MayInvite(s, group, inviter, invited) then BlockedOf(s.blacklist, invited) else invited;
    if Sent(answer) && (MayInvite(s, group, inviter, invited) ==> targets != [])
    then [Emission(Cancel, bot, group, targets, Automatic, s)] else []
  }

  lemma SameRolesRemoveAlike(s: State, t: State, group: Gid, actor: Mid, target: Mid, war: War)
    requires t.bots == s.bots && RoleOf(t, group, actor) == RoleOf(s, group, actor)
    requires RoleOf(t, group, target) == RoleOf(s, group, target)
    requires ProtectionOf(t, group) == ProtectionOf(s, group)
    ensures RemovesKicker(t, group, actor, target, war) == RemovesKicker(s, group, actor, target, war)
    ensures RestoresTarget(t, group, actor, target) == RestoresTarget(s, group, actor, target)
  {
    hide RoleOf;
  }

  /** The judgement depends on roles and bots alone. */
  lemma SameRolesJudgeAlike(s: State, t: State, group: Gid, inviter: Mid, invited: seq<Mid>)
    requires t.bots == s.bots && t.creators == s.creators && forall g, mid :: RoleOf(t, g, mid) == RoleOf(s, g, mid)
    ensures MayInvite(t, group, inviter, invited) == MayInvite(s, group, inviter, invited)
    ensures forall a, m :: CanKick(t, group, a, m) == CanKick(s, group, a, m)
  {
    hide RoleOf;
  }

  function AllKey(group: Gid, from: Mid): string {
    "all:" + group + ":" + from
  }

  function FloodKey(group: Gid, from: Mid): string {
    "flood:" + group + ":" + from + ":penalty"
  }

  /** When the blacklist command goes on to kick. */
  predicate BlacklistKicks(s: State, group: Gid, actor: Mid, target: Mid) {
    Allowed(s, AddBlacklist(group, actor, target)) && CanKick(s, group, actor, target)
  }

  /** Blacklisting by command moves no bot and no role, so the kick that follows still names no bot and
      nobody at or above the actor. */
  lemma BlacklistingByCommand(s: State, group: Gid, actor: Mid, target: Mid)
    requires Inv(s)
    ensures var t := Apply(s, AddBlacklist(group, actor, target));
      && t.bots == s.bots && CanKick(t, group, actor, target) == CanKick(s, group, actor, target)
      && (Allowed(s, AddBlacklist(group, actor, target)) ==>
            target !in t.bots && RoleOf(t, group, target).Rank() < RoleOf(t, group, actor).Rank())
  {
    hide Normalized, Inv;
    if Allowed(s, AddBlacklist(group, actor, target)) {
      var changed := s.(blacklist := AppendUnique(s.blacklist, target));
      KeepsBots(s, changed);
      RoleUnderBlacklist(s, changed, group, actor);
      RoleUnderBlacklist(s, changed, group, target);
      hide RoleOf;
    }
  }

  lemma KeepsBots(s: State, changed: State)
    requires Inv(s) && changed == s.(blacklist := changed.blacklist)
    ensures Normalized(changed).bots == s.bots
  {
    UniqueContents(s.bots);
  }

  lemma RoleUnderBlacklist(s: State, changed: State, group: Gid, mid: Mid)
    requires Inv(s) && changed == s.(blacklist := changed.blacklist)
    ensures RoleOf(Normalized(changed), group, mid) == RoleOf(s, group, mid)
  {
    hide Normalized;
    if mid != "" {
      NormalizedRole(changed, group, mid);
      assert GAdmins(changed, group) == GAdmins(s, group);
      if mid in GAdmins(s, group) {
        assert group in s.groups && Disjoint(GAdmins(s, group), Protected(s));
      }
    }
  }

  /** The members `kickall` may touch. */
  function PlainUsers(s: State, group: Gid, mids: seq<Mid>): seq<Mid> {
    if mids == [] then []
    else PlainUsers(s, group, mids[..|mids| - 1])
         + (if mids[|mids| - 1] != "" && IsUser(s, group, mids[|mids| - 1]) then [mids[|mids| - 1]] else [])
  }

  lemma {:induction false} PlainUsersArePlain(s: State, group: Gid, mids: seq<Mid>)
    ensures forall m :: m in PlainUsers(s, group, mids) <==> m in mids && m != "" && IsUser(s, group, m)
  {
    hide IsUser;
    if mids != [] {
      PlainUsersArePlain(s, group, mids[..|mids| - 1]);
      assert mids == mids[..|mids| - 1] + [mids[|mids| - 1]];
    }
  }

  predicate SafeJob(s: State, group: Gid, job: KickAll.Job) {
    forall m | m in job.targets :: SafeTarget(s, group, KickCommand, m)
  }

  /** What sending a schedule sends. */
  function JobEmissions(s: State, group: Gid, jobs: seq<KickAll.Job>, answers: nat -> Answer): seq<Emission> {
    if jobs == [] then []
    else
      var n := |jobs| - 1;
      JobEmissions(s, group, jobs[..n], answers)
      + (if Sent(answers(n)) then [Emission(Kick, jobs[n].worker, group, jobs[n].targets, KickCommand, s)] else [])
  }

  /** The bots `kickall` may use: those connected and listed, else the one that was asked. */
  function Workers(clients: set<Mid>, roster: seq<Mid>, self: Mid): set<Mid> {
    var inside := set m | m in clients && m in roster;
    if inside == {} then {self} else inside
  }

  lemma PlainJob(s: State, group: Gid, roster: seq<Mid>, workers: seq<Mid>, targets: seq<Mid>, k: nat)
    requires workers != [] && k < |KickAll.Schedule(workers, targets)|
    requires forall m | m in targets :: m in PlainUsers(s, group, roster)
    ensures SafeJob(s, group, KickAll.Schedule(workers, targets)[k])
  {
    hide SafeTarget, IsUser, KickAll.Schedule;
    ScheduledJob(workers, targets, k);
    PlainUsersArePlain(s, group, roster);
    forall m | m in KickAll.Schedule(workers, targets)[k].targets
      ensures SafeTarget(s, group, KickCommand, m)
    {
      UserIsSafe(s, group, m);
    }
  }

  /** No bot has two batches of one round, and no opener opens again too soon: the ranked workers of
      `kickall` are distinct. */
  lemma KickAllIsFair(
      pool: Health.Pool, now: int, candidates: set<Mid>, workers: seq<Mid>, targets: seq<Mid>, i: nat, j: nat)
    requires workers != [] && Health.Ranks(pool, now, candidates, workers)
    requires i < j < |KickAll.Schedule(workers, targets)|
    requires KickAll.Schedule(workers, targets)[i].round == KickAll.Schedule(workers, targets)[j].round
    ensures KickAll.Schedule(workers, targets)[i].worker != KickAll.Schedule(workers, targets)[j].worker
  {
    KickAll.OneJobPerRound(workers, targets, i, j);
  }

  /** The first reserve in the plan that is connected and joins. */
  function FirstToJoin(reserves: seq<Mid>, clients: set<Mid>, joins: Mid -> bool): Option<Mid> {
    if reserves == [] then None
    else if reserves[0] in clients && joins(reserves[0]) then Some(reserves[0])
    else FirstToJoin(reserves[1..], clients, joins)
  }

  lemma {:induction false} SomebodyJoins(reserves: seq<Mid>, clients: set<Mid>, joins: Mid -> bool)
    ensures FirstToJoin(reserves, clients, joins).Some? <==> exists m :: m in reserves && m in clients && joins(m)
    ensures FirstToJoin(reserves, clients, joins).Some? ==>
      var m := FirstToJoin(reserves, clients, joins).value; m in reserves && m in clients && joins(m)
  {
    if reserves != [] {
      SomebodyJoins(reserves[1..], clients, joins);
      assert reserves == [reserves[0]] + reserves[1..];
    }
  }

  lemma SameMultiset(a: seq<Mid>, b: seq<Mid>)
    requires multiset(a) == multiset(b)
    ensures |a| == |b| && forall m :: m in a <==> m in b
  {
    Health.SameMembers(a, b);
    assert |a| == |multiset(a)| && |b| == |multiset(b)|;
  }

  lemma ScheduledJob(workers: seq<Mid>, targets: seq<Mid>, k: nat)
    requires workers != [] && k < |KickAll.Schedule(workers, targets)|
    ensures var job := KickAll.Schedule(workers, targets)[k];
      1 <= |job.targets| <= KickAll.BATCH && forall m | m in job.targets :: m in targets
  {
    KickAll.BatchSize(workers, targets, k);
  }

  /** What a sweep sends. */
  function SweepEmissions(s: State, bot: Mid, group: Gid, mids: seq<Mid>, answers: Mid -> Answer): seq<Emission> {
    if mids == [] then []
    else
      var last := mids[|mids| - 1];
      SweepEmissions(s, bot, group, mids[..|mids| - 1], answers)
      + (if last in s.blacklist && Sent(answers(last)) then [Emission(Kick, bot, group, [last], Automatic, s)] else [])
  }

  /** A sweep reaches every blacklisted member it can, and nobody else. */
  lemma {:induction false} SweepReaches(
      s: State, bot: Mid, group: Gid, mids: seq<Mid>, answers: Mid -> Answer, mid: Mid)
    ensures Emission(Kick, bot, group, [mid], Automatic, s) in SweepEmissions(s, bot, group, mids, answers)
      <==> mid in mids && mid in s.blacklist && Sent(answers(mid))
  {
    if mids != [] {
      var n := |mids| - 1;
      SweepReaches(s, bot, group, mids[..n], answers, mid);
      assert mids == mids[..n] + [mids[n]];
      var e := Emission(Kick, bot, group, [mids[n]], Automatic, s);
      assert mid != mids[n] ==> [mid][0] != [mids[n]][0];
    }
  }

  lemma SafeSpelledOut(trace: seq<Emission>)
    requires AllSafe(trace)
    ensures forall e, m | e in trace && e.deed.Kick? && m in e.targets ::
      && m !in e.state.bots
      && (!e.cause.BotDefence? && !e.cause.BlacklistCommand? ==> RoleOf(e.state, e.group, m).Rank() <= GAdmin.Rank())
  {
    forall e, m | e in trace && e.deed.Kick? && m in e.targets
      ensures SafeTarget(e.state, e.group, e.cause, m)
    {
      assert Safe(e);
    }
  }
}
